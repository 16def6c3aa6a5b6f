/**
 * The outgoing queues `messageQueue`: one relay-bound queue under the key `_global` and
 * one queue per peer, each holding what will later be handed to `send`.
 */
module Queues {
  import opened Optional
  import opened OrderedMap
  import opened Protocol

  /** `_global` or a peer id. */
  datatype QueueKey = Global | ForPeer(id: PeerId)

  type Queues = Assoc<QueueKey, seq<Frame>>

  /** The items waiting under `key` (`messageQueue.current[key] || []`). */
  function Waiting(q: Queues, key: QueueKey): seq<Frame> {
    Get(q, key).GetOr([])
  }

  /** `q[key] = q[key] || []; q[key].push(item)`. */
  function Enqueue(q: Queues, key: QueueKey, item: Frame): (r: Queues)
    ensures Waiting(r, key) == Waiting(q, key) + [item]
    ensures forall k :: k != key ==> Get(r, k) == Get(q, k)
    ensures Keys(r) == if key in Keys(q) then Keys(q) else Keys(q) + [key]
    ensures Unique(q) ==> Unique(r)
  {
    Put(q, key, Waiting(q, key) + [item])
  }

  /** Every queued item, queue by queue in key order (`Object.values(q).forEach(queue => queue.forEach(...))`). */
  function Flatten(q: Queues): seq<Frame> {
    if q == [] then [] else q[0].1 + Flatten(q[1..])
  }

  /** Flattening a longer prefix adds the next queue at the end. */
  lemma {:induction false} FlattenSnoc(q: Queues, i: nat)
    requires i < |q|
    ensures Flatten(q[..i + 1]) == Flatten(q[..i]) + q[i].1
  {
    if i == 0 {
      assert q[..1] == [q[0]];
      assert q[..1][1..] == [];
    } else {
      FlattenSnoc(q[1..], i - 1);
      assert q[..i + 1][1..] == q[1..][..i];
      assert q[..i][1..] == q[1..][..i - 1];
    }
  }

  /** Enqueueing loses nothing and adds exactly the one new item. */
  lemma {:induction false} EnqueueAddsOne(q: Queues, key: QueueKey, item: Frame)
    ensures multiset(Flatten(Enqueue(q, key, item))) == multiset(Flatten(q)) + multiset{item}
  {
    if q != [] && q[0].0 != key {
      EnqueueBehindHead(q, key, item);
      EnqueueAddsOne(q[1..], key, item);
      FlattenCons(q[0], Enqueue(q[1..], key, item));
    } else if q != [] {
      var r := Enqueue(q, key, item);
      assert r == [(key, q[0].1 + [item])] + q[1..];
      FlattenCons((key, q[0].1 + [item]), q[1..]);
    }
  }

  /** A key behind the first entry is enqueued into the rest of the table. */
  lemma EnqueueBehindHead(q: Queues, key: QueueKey, item: Frame)
    requires q != [] && q[0].0 != key
    ensures Enqueue(q, key, item) == [q[0]] + Enqueue(q[1..], key, item)
  {
    assert Waiting(q, key) == Waiting(q[1..], key);
    assert Put(q, key, Waiting(q, key) + [item]) == [q[0]] + Put(q[1..], key, Waiting(q, key) + [item]);
  }

  lemma FlattenCons(entry: (QueueKey, seq<Frame>), rest: Queues)
    ensures Flatten([entry] + rest) == entry.1 + Flatten(rest)
  {
    assert ([entry] + rest)[1..] == rest;
  }

  /** The flattening of all queues is the queues before `i`, then queue `i`, then the ones after. */
  lemma {:induction false} FlattenSplit(q: Queues, i: nat)
    requires i < |q|
    ensures Flatten(q) == Flatten(q[..i]) + q[i].1 + Flatten(q[i + 1..])
  {
    if i == 0 {
      assert q[..0] == [];
    } else {
      FlattenSplit(q[1..], i - 1);
      assert q[..i][1..] == q[1..][..i - 1];
      assert q[1..][i..] == q[i + 1..];
    }
  }

  /** The items waiting for one target occur in the flattening together and in their queue order. */
  lemma WaitingInFlatten(q: Queues, key: QueueKey)
    requires Unique(q) && key in Keys(q)
    ensures exists i ::
      && 0 <= i < |q| && q[i].0 == key
      && Flatten(q) == Flatten(q[..i]) + Waiting(q, key) + Flatten(q[i + 1..])
  {
    var i :| 0 <= i < |q| && Keys(q)[i] == key;
    GetAt(q, i);
    FlattenSplit(q, i);
  }

  /** Emptying one queue (`messageQueue.current[key] = []`) drops exactly the items it held. */
  lemma {:induction false} ClearQueue(q: Queues, key: QueueKey)
    ensures multiset(Flatten(Put(q, key, []))) + multiset(Waiting(q, key)) == multiset(Flatten(q))
  {
    var r := Put(q, key, []);
    if q == [] {
      assert r == [(key, [])];
      assert Flatten(r) == [] + Flatten(r[1..]);
    } else if q[0].0 == key {
      assert r == [(key, [])] + q[1..];
      assert r[1..] == q[1..];
      assert Flatten(r) == Flatten(q[1..]);
      assert Waiting(q, key) == q[0].1;
    } else {
      ClearQueue(q[1..], key);
      assert Waiting(q, key) == Waiting(q[1..], key);
      assert r == [q[0]] + Put(q[1..], key, []);
      assert r[1..] == Put(q[1..], key, []);
      assert Flatten(r) == q[0].1 + Flatten(Put(q[1..], key, []));
    }
  }
}

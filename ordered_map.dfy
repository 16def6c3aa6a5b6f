/**
 * Insertion-ordered dictionaries, the way a JavaScript object with string keys behaves:
 * assigning to an existing key keeps its position, assigning to a new key appends it,
 * `delete` removes it, and `Object.keys`/`Object.values` enumerate in insertion order.
 */
module OrderedMap {
  import opened Optional

  type Assoc<K, V> = seq<(K, V)>

  /** The keys in enumeration order. */
  function Keys<K, V>(m: Assoc<K, V>): seq<K> {
    seq(|m|, i requires 0 <= i < |m| => m[i].0)
  }

  lemma KeysTail<K, V>(m: Assoc<K, V>)
    requires m != []
    ensures Keys(m) == [m[0].0] + Keys(m[1..])
  {
    var t := [m[0].0] + Keys(m[1..]);
    assert |t| == |Keys(m)|;
    forall i | 0 <= i < |m| ensures Keys(m)[i] == t[i] {
      if i > 0 {
        assert t[i] == Keys(m[1..])[i - 1];
      }
    }
  }

  /** No key occurs twice (always true of a JavaScript object). */
  predicate Unique<K(==), V>(m: Assoc<K, V>) {
    Distinct(Keys(m))
  }

  predicate Distinct<K(==)>(s: seq<K>) {
    forall i, j :: 0 <= i < j < |s| ==> s[i] != s[j]
  }

  /** `obj[k]`: the value stored under `k`, if any. */
  function Get<K(==, !new), V>(m: Assoc<K, V>, k: K): (r: Option<V>)
    ensures r.Some? <==> k in Keys(m)
    ensures r.Some? ==> (k, r.value) in m
  {
    if m == [] then None
    else if m[0].0 == k then
      assert Keys(m)[0] == k;
      Some(m[0].1)
    else
      var r := Get(m[1..], k);
      KeysTail(m);
      r
  }

  /** `obj[k] = v`: replaces the value in place when `k` is present, appends otherwise. */
  function Put<K(==, !new), V>(m: Assoc<K, V>, k: K, v: V): (r: Assoc<K, V>)
    ensures Get(r, k) == Some(v)
    ensures forall k' :: k' != k ==> Get(r, k') == Get(m, k')
    ensures Keys(r) == if k in Keys(m) then Keys(m) else Keys(m) + [k]
    ensures Unique(m) ==> Unique(r)
  {
    AddKeyDistinct(Keys(m), k);
    Assign(m, k, v)
  }

  /** The recursion behind `Put`. */
  function Assign<K(==, !new), V>(m: Assoc<K, V>, k: K, v: V): (r: Assoc<K, V>)
    ensures Get(r, k) == Some(v)
    ensures forall k' :: k' != k ==> Get(r, k') == Get(m, k')
    ensures Keys(r) == if k in Keys(m) then Keys(m) else Keys(m) + [k]
  {
    if m == [] then [(k, v)]
    else if m[0].0 == k then
      var r := [(k, v)] + m[1..];
      assert r[1..] == m[1..];
      assert Keys(r) == Keys(m);
      r
    else
      var rest := Assign(m[1..], k, v);
      var r := [m[0]] + rest;
      assert r[1..] == rest;
      KeysTail(m);
      KeysTail(r);
      r
  }

  /** Adding a key that is not yet present keeps the keys distinct. */
  lemma AddKeyDistinct<K>(s: seq<K>, k: K)
    ensures Distinct(s) ==> Distinct(if k in s then s else s + [k])
  {
  }

  /** `delete obj[k]`: removes the key, keeping the order of the others. */
  function Remove<K(==, !new), V>(m: Assoc<K, V>, k: K): (r: Assoc<K, V>)
    ensures Get(r, k) == None
    ensures forall k' :: k' != k ==> Get(r, k') == Get(m, k')
    ensures k !in Keys(m) ==> r == m
    ensures forall e :: e in r ==> e in m
  {
    if m == [] then []
    else
      var rest := Remove(m[1..], k);
      KeysTail(m);
      if m[0].0 == k then rest
      else
        var r := [m[0]] + rest;
        assert r[1..] == rest;
        assert m == [m[0]] + m[1..];
        r
  }

  /** The rest of a dictionary without repeated keys has none either, and lacks the first key. */
  lemma UniqueTail<K, V>(m: Assoc<K, V>)
    requires Unique(m) && m != []
    ensures Unique(m[1..]) && m[0].0 !in Keys(m[1..])
  {
    assert Keys(m[1..]) == Keys(m)[1..];
    forall j | 0 <= j < |m| - 1 ensures Keys(m[1..])[j] != m[0].0 {
      assert Keys(m)[0] == m[0].0;
    }
  }

  lemma {:induction false} RemoveUnique<K(!new), V>(m: Assoc<K, V>, k: K)
    requires Unique(m)
    ensures Unique(Remove(m, k))
  {
    if m != [] {
      UniqueTail(m);
      RemoveUnique(m[1..], k);
      var rest := Remove(m[1..], k);
      KeysTail(m);
      forall i | 0 <= i < |rest| ensures rest[i].0 != m[0].0 {
        assert rest[i] in m[1..];
        var j :| 0 <= j < |m[1..]| && m[1..][j] == rest[i];
        assert Keys(m[1..])[j] == rest[i].0;
      }
      if m[0].0 != k {
        var r := Remove(m, k);
        assert r == [m[0]] + rest && r[1..] == rest;
        KeysTail(r);
      }
    }
  }

  /** `delete` of a present key takes out its entry and keeps the others in their order. */
  lemma {:induction false} RemoveAt<K(!new), V>(m: Assoc<K, V>, i: nat)
    requires Unique(m) && i < |m|
    ensures Remove(m, m[i].0) == m[..i] + m[i + 1..]
  {
    var k := m[i].0;
    UniqueTail(m);
    if i == 0 {
      assert Remove(m, k) == Remove(m[1..], k);
    } else {
      HeadKeyOnce(m, i);
      RemoveAt(m[1..], i - 1);
      assert m[1..][i - 1].0 == k;
      assert Remove(m, k) == [m[0]] + Remove(m[1..], k);
      CutBehindHead(m, i);
    }
  }

  /** Cutting position `i > 0` out of a sequence is cutting `i - 1` out of its tail, behind the head. */
  lemma CutBehindHead<T>(s: seq<T>, i: nat)
    requires 0 < i < |s|
    ensures [s[0]] + (s[1..][..i - 1] + s[1..][i..]) == s[..i] + s[i + 1..]
  {
    assert s[1..][..i - 1] == s[1..i] && s[1..][i..] == s[i + 1..];
    assert s[..i] == [s[0]] + s[1..i];
  }

  /** In a dictionary without repeated keys, the entry at position `i` is what `Get` finds. */
  lemma {:induction false} GetAt<K(!new), V>(m: Assoc<K, V>, i: nat)
    requires Unique(m) && i < |m|
    ensures Get(m, m[i].0) == Some(m[i].1)
  {
    if i > 0 {
      UniqueTail(m);
      assert m[i].0 == Keys(m)[i] != Keys(m)[0] == m[0].0;
      GetAt(m[1..], i - 1);
    }
  }

  /** Updating the entry at position `i` in place is `Put` on its key. */
  lemma {:induction false} UpdateAtIsPut<K(!new), V>(m: Assoc<K, V>, i: nat, v: V)
    requires Unique(m) && i < |m|
    ensures m[i := (m[i].0, v)] == Put(m, m[i].0, v)
  {
    var key := m[i].0;
    if i == 0 {
      assert m[i := (key, v)] == [(key, v)] + m[1..];
    } else {
      UniqueTail(m);
      HeadKeyOnce(m, i);
      UpdateAtIsPut(m[1..], i - 1, v);
      assert m[1..][i - 1].0 == key;
      calc {
        Put(m, key, v);
        Assign(m, key, v);
        [m[0]] + Assign(m[1..], key, v);
        [m[0]] + m[1..][i - 1 := (key, v)];
        { UpdateBehindHead(m, i, (key, v)); }
        m[i := (key, v)];
      }
    }
  }

  /** In a map with distinct keys, no later entry has the first entry's key. */
  lemma HeadKeyOnce<K, V>(m: Assoc<K, V>, i: nat)
    requires Unique(m) && 0 < i < |m|
    ensures m[i].0 != m[0].0
  {
    assert Keys(m)[i] != Keys(m)[0];
  }

  lemma UpdateBehindHead<T>(s: seq<T>, i: nat, x: T)
    requires 0 < i < |s|
    ensures s[i := x] == [s[0]] + s[1..][i - 1 := x]
  {
    var r := [s[0]] + s[1..][i - 1 := x];
    assert |r| == |s|;
    forall j | 0 <= j < |s| ensures r[j] == s[i := x][j] {
      if j > 0 {
        assert r[j] == s[1..][i - 1 := x][j - 1];
      }
    }
  }

  /** Assigning to a new key appends it. */
  lemma {:induction false} PutAbsent<K(!new), V>(m: Assoc<K, V>, k: K, v: V)
    requires k !in Keys(m)
    ensures Put(m, k, v) == m + [(k, v)]
  {
    if m != [] {
      KeysTail(m);
      assert m[0].0 != k;
      PutAbsent(m[1..], k, v);
      calc {
        Put(m, k, v);
        [m[0]] + Put(m[1..], k, v);
        [m[0]] + (m[1..] + [(k, v)]);
        { assert m == [m[0]] + m[1..]; }
        m + [(k, v)];
      }
    }
  }

  /** Deleting the key that was appended last restores the dictionary. */
  lemma {:induction false} RemoveAppended<K(!new), V>(m: Assoc<K, V>, k: K, v: V)
    requires k !in Keys(m)
    ensures Remove(m + [(k, v)], k) == m
  {
    if m == [] {
      assert [(k, v)][1..] == [];
    } else {
      KeysTail(m);
      assert (m + [(k, v)])[1..] == m[1..] + [(k, v)];
      RemoveAppended(m[1..], k, v);
    }
  }

  /** Every entry of `Put(m, k, v)` is `(k, v)` or an entry of `m`. */
  lemma {:induction false} PutElements<K(!new), V>(m: Assoc<K, V>, k: K, v: V)
    ensures forall e :: e in Put(m, k, v) ==> e == (k, v) || e in m
  {
    if m != [] && m[0].0 != k {
      assert Put(m, k, v) == [m[0]] + Put(m[1..], k, v);
      PutElements(m[1..], k, v);
    }
  }
}

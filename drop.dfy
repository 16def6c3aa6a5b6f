/**
 * What `handleDrop` puts on the wire: for each dropped file, the same frames on the channel of
 * every peer whose `dc` exists and is open, visited in the peer table's order.
 */
module Drop {
  import opened Optional
  import opened OrderedMap
  import opened Protocol
  import opened Chunking
  import opened PeerTable
  import opened Session

  /** Everything one transfer of `file` sends on a channel, in order. */
  function Outgoing(sender: string, file: FileInfo, fileId: FileId): (r: seq<Frame>)
    ensures |r| == 1 + TotalChunks(|file.bytes|)
    ensures r[0] == PayloadText(MetaFor(sender, file, fileId))
    ensures forall k :: 1 <= k < |r| ==> r[k] == Chunk(Slices(file.bytes)[k - 1])
  {
    [PayloadText(MetaFor(sender, file, fileId))] + ChunkFrames(file.bytes)
  }

  /** The channels served, one per peer whose `dc` exists and is open (`if (!dc || dc.readyState !== "open") continue`). */
  function Served(peers: Peers, channels: seq<Channel>): (r: seq<ChannelId>)
    ensures |r| <= |peers|
    ensures forall i :: 0 <= i < |r| ==> r[i] < |channels| && channels[r[i]].open
    decreases |peers|
  {
    if peers == [] then []
    else
      var dc := peers[|peers| - 1].1.dc;
      var rest := Served(peers[..|peers| - 1], channels);
      if dc.Some? && dc.value < |channels| && channels[dc.value].open then rest + [dc.value] else rest
  }

  /** Channel `c` after `frames` were sent on it. */
  function SendAll(channels: seq<Channel>, c: ChannelId, frames: seq<Frame>): seq<Channel>
    requires c < |channels|
  {
    channels[c := channels[c].(sent := channels[c].sent + frames)]
  }

  /** Opening a channel and then sending on it is one update of that channel. */
  lemma OpenThenSend(channels: seq<Channel>, c: ChannelId, frames: seq<Frame>)
    requires c < |channels|
    ensures SendAll(channels[c := channels[c].(open := true)], c, frames) ==
      channels[c := channels[c].(open := true, sent := channels[c].sent + frames)]
  {
  }

  /** Sending `a` and then `b` on one channel is sending `a + b`. */
  lemma SendAllTwice(channels: seq<Channel>, c: ChannelId, a: seq<Frame>, b: seq<Frame>)
    requires c < |channels|
    ensures SendAll(SendAll(channels, c, a), c, b) == SendAll(channels, c, a + b)
  {
    assert channels[c].sent + a + b == channels[c].sent + (a + b);
  }

  /** The same frames sent on each target channel in turn. */
  function Deliver(channels: seq<Channel>, targets: seq<ChannelId>, frames: seq<Frame>): (r: seq<Channel>)
    requires forall i :: 0 <= i < |targets| ==> targets[i] < |channels|
    ensures |r| == |channels|
    ensures forall c :: 0 <= c < |r| ==> r[c].peer == channels[c].peer && r[c].open == channels[c].open
    decreases |targets|
  {
    if targets == [] then channels
    else SendAll(Deliver(channels, targets[..|targets| - 1], frames), targets[|targets| - 1], frames)
  }

  /** Every peer whose channel exists and is open is served. */
  lemma {:induction false} ServedComplete(peers: Peers, channels: seq<Channel>, e: (PeerId, Peer))
    requires e in peers && e.1.dc.Some? && e.1.dc.value < |channels| && channels[e.1.dc.value].open
    ensures e.1.dc.value in Served(peers, channels)
    decreases |peers|
  {
    var init := peers[..|peers| - 1];
    if e != peers[|peers| - 1] {
      assert e in init by {
        var i :| 0 <= i < |peers| && peers[i] == e;
        assert init[i] == e;
      }
      ServedComplete(init, channels, e);
    }
  }

  /** Serving the peers one more peer: its channel is added exactly when it exists and is open. */
  lemma ServedStep(peers: Peers, i: nat, channels: seq<Channel>)
    requires i < |peers|
    ensures var dc := peers[i].1.dc;
      Served(peers[..i + 1], channels) ==
        if dc.Some? && dc.value < |channels| && channels[dc.value].open then Served(peers[..i], channels) + [dc.value]
        else Served(peers[..i], channels)
  {
    assert peers[..i + 1][..i] == peers[..i];
  }

  /** Delivering to one more target is one more `SendAll`. */
  lemma DeliverStep(channels: seq<Channel>, targets: seq<ChannelId>, c: ChannelId, frames: seq<Frame>)
    requires forall i :: 0 <= i < |targets| ==> targets[i] < |channels|
    requires c < |channels|
    ensures Deliver(channels, targets + [c], frames) == SendAll(Deliver(channels, targets, frames), c, frames)
  {
    assert (targets + [c])[..|targets|] == targets;
  }

  /** `handleDrop`'s peer loop, one peer further: that peer's channel gets the frames when it exists and is open. */
  lemma DeliverNext(peers: Peers, i: nat, channels: seq<Channel>, frames: seq<Frame>)
    requires i < |peers|
    requires OwnedBy(peers[i].1.dc, peers[i].0, channels)
    ensures var dc := peers[i].1.dc;
      var before := Deliver(channels, Served(peers[..i], channels), frames);
      Deliver(channels, Served(peers[..i + 1], channels), frames) ==
        if dc.Some? && channels[dc.value].open then SendAll(before, dc.value, frames) else before
  {
    ServedStep(peers, i, channels);
    var dc := peers[i].1.dc;
    if dc.Some? && channels[dc.value].open {
      DeliverStep(channels, Served(peers[..i], channels), dc.value, frames);
    }
  }

  /** A channel that is not a target is left as it was. */
  lemma {:induction false} DeliverElsewhere(channels: seq<Channel>, targets: seq<ChannelId>, frames: seq<Frame>, c: ChannelId)
    requires forall i :: 0 <= i < |targets| ==> targets[i] < |channels|
    requires c < |channels| && c !in targets
    ensures Deliver(channels, targets, frames)[c] == channels[c]
    decreases |targets|
  {
    if targets != [] {
      DeliverElsewhere(channels, targets[..|targets| - 1], frames, c);
    }
  }

  /** A target that occurs once gets the frames appended exactly once, after what it already had. */
  lemma {:induction false} DeliverOnce(channels: seq<Channel>, targets: seq<ChannelId>, frames: seq<Frame>, c: ChannelId)
    requires forall i :: 0 <= i < |targets| ==> targets[i] < |channels|
    requires Distinct(targets) && c in targets
    ensures Deliver(channels, targets, frames)[c] == channels[c].(sent := channels[c].sent + frames)
    decreases |targets|
  {
    var init := targets[..|targets| - 1];
    var last := targets[|targets| - 1];
    if c == last {
      assert c !in init by {
        forall i | 0 <= i < |init| ensures init[i] != c {
          assert targets[i] != targets[|targets| - 1];
        }
      }
      DeliverElsewhere(channels, init, frames, c);
    } else {
      assert c in init by {
        var i :| 0 <= i < |targets| && targets[i] == c;
        assert init[i] == c;
      }
      DeliverOnce(channels, init, frames, c);
    }
  }

  /** Under `Wf`, the served channels are distinct: each belongs to the one peer that holds it. */
  lemma ServedDistinct(s: Signaling)
    requires Wf(s)
    ensures Distinct(Served(s.peers, s.channels))
  {
    ServedOwners(s.peers, s.channels);
  }

  lemma {:induction false} ServedOwners(peers: Peers, channels: seq<Channel>)
    requires Unique(peers)
    requires forall e :: e in peers ==> OwnedBy(e.1.dc, e.0, channels)
    ensures Distinct(Served(peers, channels))
    ensures forall c :: c in Served(peers, channels) ==> channels[c].peer in Keys(peers)
    decreases |peers|
  {
    if peers != [] {
      var init := peers[..|peers| - 1];
      var last := peers[|peers| - 1];
      assert Keys(peers) == Keys(init) + [last.0];
      assert Unique(init) by {
        forall i, j | 0 <= i < j < |Keys(init)| ensures Keys(init)[i] != Keys(init)[j] {
          assert Keys(peers)[i] != Keys(peers)[j];
        }
      }
      assert last.0 !in Keys(init) by {
        forall i | 0 <= i < |Keys(init)| ensures Keys(init)[i] != last.0 {
          assert Keys(peers)[i] != Keys(peers)[|peers| - 1];
        }
      }
      ServedOwners(init, channels);
      var rest := Served(init, channels);
      assert last in peers;
      if last.1.dc.Some? && last.1.dc.value < |channels| && channels[last.1.dc.value].open {
        var c := last.1.dc.value;
        assert channels[c].peer == last.0;
        assert c !in rest;
        assert Served(peers, channels) == rest + [c];
      }
    }
  }

  /** Which channels are served depends only on which channels are open. */
  lemma {:induction false} ServedByOpen(peers: Peers, a: seq<Channel>, b: seq<Channel>)
    requires |a| == |b| && forall c :: 0 <= c < |a| ==> a[c].open == b[c].open
    ensures Served(peers, a) == Served(peers, b)
    decreases |peers|
  {
    if peers != [] {
      ServedByOpen(peers[..|peers| - 1], a, b);
    }
  }

  /** The entry `handleDrop` adds to the sender's own message list once a file has gone out. */
  function LocalCopy(sender: string, file: FileInfo, fileId: FileId): Message {
    FileMsg(sender, file.name, None, Some(file.bytes), 100, fileId)
  }

  /** The local entries for the dropped files, in drop order. */
  function LocalCopies(sender: string, files: seq<FileInfo>, ids: seq<FileId>): seq<Message>
    requires |files| == |ids|
  {
    seq(|files|, i requires 0 <= i < |files| => LocalCopy(sender, files[i], ids[i]))
  }

  /** Everything a served channel is sent for the dropped files: each file's transfer, in drop order. */
  function Stream(sender: string, files: seq<FileInfo>, ids: seq<FileId>): seq<Frame>
    requires |files| == |ids|
    decreases |files|
  {
    if files == [] then []
    else Stream(sender, files[..|files| - 1], ids[..|ids| - 1]) + Outgoing(sender, files[|files| - 1], ids[|ids| - 1])
  }

  /**
   * The channels after `handleDrop` for several files: one file after the other, each sent to
   * the channels open at that moment.
   */
  function DropAll(channels: seq<Channel>, peers: Peers, sender: string, files: seq<FileInfo>, ids: seq<FileId>): (r: seq<Channel>)
    requires |files| == |ids|
    ensures |r| == |channels|
    ensures forall c :: 0 <= c < |r| ==> r[c].peer == channels[c].peer && r[c].open == channels[c].open
    decreases |files|
  {
    if files == [] then channels
    else
      var n := |files| - 1;
      var before := DropAll(channels, peers, sender, files[..n], ids[..n]);
      Deliver(before, Served(peers, before), Outgoing(sender, files[n], ids[n]))
  }

  /** One more file dropped: one more delivery, and one more local entry. */
  lemma DropAllNext(channels: seq<Channel>, peers: Peers, sender: string, files: seq<FileInfo>, ids: seq<FileId>, i: nat)
    requires i < |files| == |ids|
    ensures var before := DropAll(channels, peers, sender, files[..i], ids[..i]);
      DropAll(channels, peers, sender, files[..i + 1], ids[..i + 1]) ==
        Deliver(before, Served(peers, before), Outgoing(sender, files[i], ids[i]))
    ensures LocalCopies(sender, files[..i + 1], ids[..i + 1]) ==
      LocalCopies(sender, files[..i], ids[..i]) + [LocalCopy(sender, files[i], ids[i])]
  {
    assert files[..i + 1][..i] == files[..i];
    assert ids[..i + 1][..i] == ids[..i];
  }

  /**
   * After dropping several files, a channel served by the peer table (its owner's `dc`, open)
   * has received every file's metadata and chunks, file after file, after what it had already
   * sent; every other channel is unchanged.
   */
  lemma {:induction false} DropAllEffect(peers: Peers, channels: seq<Channel>, sender: string,
                                         files: seq<FileInfo>, ids: seq<FileId>, c: ChannelId)
    requires |files| == |ids| && c < |channels|
    requires Unique(peers) && forall e :: e in peers ==> OwnedBy(e.1.dc, e.0, channels)
    ensures DropAll(channels, peers, sender, files, ids)[c] ==
      channels[c].(sent := channels[c].sent + (if c in Served(peers, channels) then Stream(sender, files, ids) else []))
    decreases |files|
  {
    if files == [] {
      assert channels[c].sent + [] == channels[c].sent;
    } else {
      var n := |files| - 1;
      var before := DropAll(channels, peers, sender, files[..n], ids[..n]);
      var frames := Outgoing(sender, files[n], ids[n]);
      var targets := Served(peers, channels);
      assert DropAll(channels, peers, sender, files, ids) == Deliver(before, Served(peers, before), frames);
      assert Stream(sender, files, ids) == Stream(sender, files[..n], ids[..n]) + frames;
      DropAllEffect(peers, channels, sender, files[..n], ids[..n], c);
      ServedByOpen(peers, before, channels);
      ServedOwners(peers, channels);
      var prior := if c in targets then Stream(sender, files[..n], ids[..n]) else [];
      DeliverAfter(before, targets, frames, c, channels[c], prior);
    }
  }

  /** A channel that already holds `prior` after what it had gets `frames` after that exactly when it is a target. */
  lemma DeliverAfter(before: seq<Channel>, targets: seq<ChannelId>, frames: seq<Frame>, c: ChannelId, ch: Channel, prior: seq<Frame>)
    requires forall i :: 0 <= i < |targets| ==> targets[i] < |before|
    requires Distinct(targets) && c < |before|
    requires before[c] == ch.(sent := ch.sent + prior)
    ensures Deliver(before, targets, frames)[c] == ch.(sent := ch.sent + (if c in targets then prior + frames else prior))
  {
    if c in targets {
      DeliverOnce(before, targets, frames, c);
      assert ch.sent + prior + frames == ch.sent + (prior + frames);
    } else {
      DeliverElsewhere(before, targets, frames, c);
    }
  }
}

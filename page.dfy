/**
 * The page component `Home`: its refs and state are the fields of one object and its event
 * handlers are methods. Each handler is proved against the pure transition it performs on the
 * relay snapshot (`Session`), the receiver (`Reassembly`) or the sender plan (`Chunking`, `Drop`).
 */
module Page {
  import opened Optional
  import opened OrderedMap
  import opened Protocol
  import opened PeerTable
  import opened Queues
  import opened Reassembly
  import opened Chunking
  import opened Drop
  import Session

  class Home {
    var connectedRoom: string
    var myName: string
    /** `peersRef.current`, which every `setPeers` updater also stores. */
    var peers: Peers
    /** `peerConnections.current` */
    var peerConnections: map<PeerId, LinkId>
    /** `messageQueue.current` */
    var queues: Queues
    var messages: seq<Message>
    /** `incomingFilesRef.current` */
    var incoming: Files
    /** `wsRef.current.readyState === WebSocket.OPEN` */
    var wsOpen: bool
    /** Everything passed to `wsRef.current.send`. */
    var wsSent: seq<Frame>
    /** The data channels and connections created so far, indexed by their handles. */
    var channels: seq<Session.Channel>
    var links: seq<Session.Link>

    /** The state the relay handlers work on. */
    function Relay(): Session.Signaling
      reads this
    {
      Session.Signaling(connectedRoom, myName, peers, peerConnections, queues, wsOpen, wsSent, channels, links)
    }

    /** The state the channel message handler works on. */
    function Rx(): RxState
      reads this
    {
      RxState(incoming, messages)
    }

    ghost predicate Valid()
      reads this
    {
      Session.Wf(Relay()) && Unique(incoming) && Consistent(incoming)
    }

    /** A freshly mounted page: nothing joined, nothing queued, the relay socket not yet open. */
    constructor ()
      ensures Valid()
      ensures connectedRoom == "" && myName == "" && peers == [] && peerConnections == map[]
      ensures queues == [] && messages == [] && incoming == []
      ensures !wsOpen && wsSent == [] && channels == [] && links == []
    {
      connectedRoom, myName := "", "";
      peers, peerConnections, queues := [], map[], [];
      messages, incoming := [], [];
      wsOpen, wsSent := false, [];
      channels, links := [], [];
    }

    /** `safeSend(data)` */
    method SafeSend(e: Envelope)
      requires Valid()
      modifies this`wsSent, this`queues
      ensures Relay() == Session.Relayed(old(Relay()), e)
      ensures Valid()
    {
      Session.RelayedKeepsWf(Relay(), e);
      if wsOpen {
        wsSent := wsSent + [EnvelopeText(e)];
      } else {
        queues := Enqueue(queues, Global, EnvelopeText(e));
      }
    }

    /** `ws.onopen`: every queue, in key order, each in FIFO order, goes to the relay; then no queue is left. */
    method OnRelayOpen()
      requires Valid()
      modifies this`wsOpen, this`wsSent, this`queues
      ensures wsOpen
      ensures wsSent == old(wsSent) + Flatten(old(queues))
      ensures queues == []
      ensures Valid()
    {
      wsOpen := true;
      FlushQueues();
      queues := [];
    }

    /**
     * The relay socket closing (`ws.onclose`, or `ws.close()` when the page unmounts): from then
     * on every `safeSend` queues under `_global`.
     */
    method OnRelayClose()
      requires Valid()
      modifies this`wsOpen
      ensures Relay() == old(Relay()).(wsOpen := false)
      ensures Valid()
    {
      wsOpen := false;
    }

    /** The flush loops of `ws.onopen`: every queued item goes to the relay, queue by queue in key order. */
    method FlushQueues()
      modifies this`wsSent
      ensures wsSent == old(wsSent) + Flatten(queues)
    {
      var i := 0;
      while i < |queues|
        invariant 0 <= i <= |queues|
        invariant wsSent == old(wsSent) + Flatten(queues[..i])
      {
        var queue := queues[i].1;
        var j := 0;
        while j < |queue|
          invariant 0 <= j <= |queue|
          invariant wsSent == old(wsSent) + Flatten(queues[..i]) + queue[..j]
        {
          wsSent := wsSent + [queue[j]];
          assert queue[..j + 1] == queue[..j] + [queue[j]];
          j := j + 1;
        }
        assert queue[..j] == queue;
        FlattenSnoc(queues, i);
        i := i + 1;
      }
      assert queues[..i] == queues;
    }

    /** `connectRoom()`: an empty room code is ignored, otherwise a join envelope is sent. */
    method ConnectRoom(roomCode: string)
      requires Valid()
      modifies this`wsSent, this`queues
      ensures roomCode == "" ==> Relay() == old(Relay())
      ensures roomCode != "" ==> Relay() == Session.Relayed(old(Relay()), Join(roomCode))
      ensures Valid()
    {
      if roomCode == "" {
        return;
      }
      SafeSend(Join(roomCode));
    }

    /**
     * `createPeerConnection(peerId)`, with the browser's answer to `createDataChannel`. Callers
     * keep `Valid()` through `Session.CreateKeepsWf`.
     */
    method CreatePeerConnection(peerId: PeerId, channelCreated: bool) returns (pc: LinkId)
      modifies this`channels, this`links, this`peers
      ensures pc == old(|links|) && pc < |links|
      ensures Relay() == Session.CreatePeerConnection(old(Relay()), peerId, channelCreated)
    {
      var dc: Option<ChannelId> := None;
      if channelCreated {
        dc := Some(|channels|);
        channels := channels + [Session.Channel(peerId, false, [])];
      }
      pc := |links|;
      links := links + [Session.Link(peerId, dc, [])];
      peers := ConnectingUpdate(peers, peerId, dc, pc);
      assert Relay() == old(Relay()).(channels := channels, links := links, peers := peers);
    }

    /** A description or candidate applied to connection `pc`. */
    method Signal(pc: LinkId, sig: Session.Signal)
      requires Valid() && pc < |links|
      modifies this`links
      ensures Relay() == Session.Apply(old(Relay()), pc, sig)
      ensures Valid()
    {
      ghost var s := Relay();
      Session.ApplyKeepsWf(s, pc, sig);
      links := links[pc := links[pc].(signals := links[pc].signals + [sig])];
      assert Relay() == s.(links := links) == Session.Apply(s, pc, sig);
    }

    /** `callPeer(peerId)` */
    method CallPeer(peerId: PeerId, reply: Session.BrowserReply)
      requires Valid()
      modifies this`channels, this`links, this`peers, this`peerConnections, this`wsSent, this`queues
      ensures Relay() == Session.CallPeer(old(Relay()), peerId, reply)
      ensures Valid()
    {
      Session.CreateKeepsWf(Relay(), peerId, reply.channelCreated);
      var pc := CreatePeerConnection(peerId, reply.channelCreated);
      peerConnections := peerConnections[peerId := pc];
      Signal(pc, Session.LocalDescription(reply.sdp));
      SafeSend(Offer(peerId, reply.sdp));
    }

    /** `handleOffer(data)` */
    method HandleOffer(from: PeerId, sdp: string, reply: Session.BrowserReply)
      requires Valid()
      modifies this`channels, this`links, this`peers, this`peerConnections, this`wsSent, this`queues
      ensures Relay() == Session.HandleOffer(old(Relay()), from, sdp, reply)
      ensures Valid()
    {
      Session.CreateKeepsWf(Relay(), from, reply.channelCreated);
      var pc := CreatePeerConnection(from, reply.channelCreated);
      peerConnections := peerConnections[from := pc];
      Signal(pc, Session.RemoteDescription(sdp));
      Signal(pc, Session.LocalDescription(reply.sdp));
      SafeSend(Answer(from, reply.sdp));
    }

    /** `handleAnswer(data)` and `handleCandidate(data)`: `peerConnections.current[data.from]?.…` */
    method HandleSignal(from: PeerId, sig: Session.Signal)
      requires Valid()
      modifies this`links
      ensures Relay() == Session.HandleSignal(old(Relay()), from, sig)
      ensures Valid()
    {
      if from in peerConnections {
        Signal(peerConnections[from], sig);
      }
    }

    /** `ws.onmessage` for one parsed envelope. */
    method OnRelayMessage(ev: RelayEvent, reply: Session.BrowserReply)
      requires Valid()
      modifies this`connectedRoom, this`myName, this`peers, this`peerConnections, this`queues
      modifies this`wsSent, this`channels, this`links
      ensures Relay() == Session.Dispatch(old(Relay()), ev, reply)
      ensures Valid()
    {
      ghost var s := Relay();
      match ev
      case RoomAssigned(room, name) =>
        assert Session.Dispatch(s, ev, reply) == s.(room := room, name := name);
        EnterRoom(room, name);
      case RoomJoined(room, name) =>
        assert Session.Dispatch(s, ev, reply) == s.(room := room, name := name);
        EnterRoom(room, name);
      case NewPeer(id) =>
        assert Session.Dispatch(s, ev, reply) == Session.CallPeer(s.(peers := NewPeerUpdate(s.peers, id)), id, reply);
        OnNewPeer(id, reply);
      case OfferFrom(from, sdp) =>
        assert Session.Dispatch(s, ev, reply) == Session.HandleOffer(s, from, sdp, reply);
        HandleOffer(from, sdp, reply);
      case AnswerFrom(from, sdp) =>
        assert Session.Dispatch(s, ev, reply) == Session.HandleSignal(s, from, Session.RemoteDescription(sdp));
        HandleSignal(from, Session.RemoteDescription(sdp));
      case CandidateFrom(from, candidate) =>
        assert Session.Dispatch(s, ev, reply) == Session.HandleSignal(s, from, Session.IceCandidate(candidate));
        HandleSignal(from, Session.IceCandidate(candidate));
      case PeerLeft(id) =>
        assert Session.Dispatch(s, ev, reply) == s.(peers := PeerLeftUpdate(s.peers, id));
        OnPeerLeft(id);
      case Unknown(_) =>
    }

    /** `room-assigned` and `room-joined`: the room code and the name given by the relay are kept. */
    method EnterRoom(room: string, name: string)
      requires Valid()
      modifies this`connectedRoom, this`myName
      ensures Relay() == old(Relay()).(room := room, name := name)
      ensures Valid()
    {
      connectedRoom := room;
      myName := name;
    }

    /** `peer-left`: the peer's entry is deleted from the table. */
    method OnPeerLeft(id: PeerId)
      requires Valid()
      modifies this`peers
      ensures Relay() == old(Relay()).(peers := PeerLeftUpdate(old(peers), id))
      ensures Valid()
    {
      ghost var s := Relay();
      Session.PeerLeftKeepsWf(s, id);
      peers := PeerLeftUpdate(peers, id);
      assert Relay() == s.(peers := peers);
    }

    /** The `new-peer` case: a fresh "pending" entry, then `callPeer`. */
    method OnNewPeer(id: PeerId, reply: Session.BrowserReply)
      requires Valid()
      modifies this`peers, this`channels, this`links, this`peerConnections, this`wsSent, this`queues
      ensures Relay() == Session.CallPeer(old(Relay()).(peers := NewPeerUpdate(old(peers), id)), id, reply)
      ensures Valid()
    {
      MarkPending(id);
      CallPeer(id, reply);
    }

    /** `setPeers(prev => ({ ...prev, [id]: { status: "pending" } }))` */
    method MarkPending(id: PeerId)
      requires Valid()
      modifies this`peers
      ensures Relay() == old(Relay()).(peers := NewPeerUpdate(old(peers), id))
      ensures Valid()
    {
      ghost var s := Relay();
      Session.PendingKeepsWf(s, id);
      peers := NewPeerUpdate(peers, id);
      assert Relay() == s.(peers := peers);
    }

    /** `pc.onicecandidate` on connection `pc`. */
    method OnLocalCandidate(pc: LinkId, candidate: string)
      requires Valid() && pc < |links|
      modifies this`wsSent, this`queues
      ensures Relay() == Session.LocalCandidate(old(Relay()), pc, candidate)
      ensures Valid()
    {
      if candidate != "" {
        SafeSend(Candidate(links[pc].peer, candidate));
      }
    }

    /** `pc.onconnectionstatechange` on connection `pc`. */
    method OnLinkStateChange(pc: LinkId, state: ConnectionState)
      requires Valid() && pc < |links|
      modifies this`peers
      ensures Relay() == Session.LinkStateChange(old(Relay()), pc, state)
      ensures Valid()
    {
      ghost var s := Relay();
      Session.LinkStateKeepsWf(s, pc, state);
      peers := LinkStateUpdate(peers, links[pc].peer, state, links[pc].dc, pc);
      assert Relay() == s.(peers := peers) == Session.LinkStateChange(s, pc, state);
    }

    /** `pc.ondatachannel` on connection `pc`: the new channel's handle. */
    method OnIncomingChannel(pc: LinkId) returns (ch: ChannelId)
      requires Valid() && pc < |links|
      modifies this`channels
      ensures ch == old(|channels|) && ch < |channels|
      ensures Relay() == Session.IncomingChannel(old(Relay()), pc)
      ensures Valid()
    {
      ghost var s := Relay();
      Session.IncomingChannelKeepsWf(s, pc);
      ch := |channels|;
      channels := channels + [Session.Channel(links[pc].peer, false, [])];
      assert Relay() == s.(channels := channels) == Session.IncomingChannel(s, pc);
    }

    /** `dc.send(f)` on channel `ch`. */
    method Send(ch: ChannelId, f: Frame)
      requires ch < |channels|
      modifies this`channels
      ensures channels == SendAll(old(channels), ch, [f])
    {
      channels := channels[ch := channels[ch].(sent := channels[ch].sent + [f])];
    }

    /** `items.forEach(msg => dc.send(msg))` on channel `ch`. */
    method SendEach(ch: ChannelId, items: seq<Frame>)
      requires ch < |channels|
      modifies this`channels
      ensures channels == SendAll(old(channels), ch, items)
    {
      var i := 0;
      assert items[..0] == [];
      assert old(channels)[ch].sent + [] == old(channels)[ch].sent;
      while i < |items|
        invariant 0 <= i <= |items|
        invariant channels == SendAll(old(channels), ch, items[..i])
      {
        SendAllTwice(old(channels), ch, items[..i], [items[i]]);
        assert items[..i] + [items[i]] == items[..i + 1];
        Send(ch, items[i]);
        i := i + 1;
      }
      assert items[..i] == items;
    }

    /** `dc.onopen` on channel `ch`: the peer's queue is sent item by item, then emptied. */
    method OnChannelOpen(ch: ChannelId)
      requires Valid() && ch < |channels|
      modifies this`peers, this`channels, this`queues
      ensures Relay() == Session.ChannelOpen(old(Relay()), ch)
      ensures Valid()
    {
      Session.ChannelOpenKeepsWf(Relay(), ch);
      OpenAndFlush(ch, channels[ch].peer);
    }

    /** The steps of `dc.onopen` for the channel's peer `peerId`. */
    method OpenAndFlush(ch: ChannelId, peerId: PeerId)
      requires ch < |channels| && peerId == channels[ch].peer
      modifies this`peers, this`channels, this`queues
      ensures peers == ChannelOpenUpdate(old(peers), peerId, ch)
      ensures queues == Put(old(queues), ForPeer(peerId), [])
      ensures channels == old(channels)[ch := old(channels)[ch].(open := true, sent := old(channels)[ch].sent + Waiting(old(queues), ForPeer(peerId)))]
    {
      var pending := Waiting(queues, ForPeer(peerId));
      peers := ChannelOpenUpdate(peers, peerId, ch);
      queues := Put(queues, ForPeer(peerId), []);
      OpenThenSend(channels, ch, pending);
      var nowOpen := channels[ch].(open := true);
      channels := channels[ch := nowOpen];
      SendEach(ch, pending);
    }

    /**
     * Channel `ch` leaving the "open" ready state (the browser closes it; the page sets no
     * handler for that): later sends to its peer are queued and `handleDrop` skips it.
     */
    method OnChannelClose(ch: ChannelId)
      requires Valid() && ch < |channels|
      modifies this`channels
      ensures channels == old(channels)[ch := old(channels)[ch].(open := false)]
      ensures Valid()
    {
      ghost var s := Relay();
      var closed := channels[ch].(open := false);
      Session.SendingKeepsWf(s, channels[ch := closed]);
      channels := channels[ch := closed];
      assert Relay() == s.(channels := channels);
    }

    /** `sendMessage(peerId, message)` */
    method SendMessage(peerId: PeerId, message: string)
      requires Valid()
      modifies this`queues, this`channels, this`messages
      ensures (Relay(), messages) == Session.SendMessage(old(Relay()), old(messages), peerId, message)
      ensures Valid()
    {
      Session.SendMessageKeepsWf(Relay(), messages, peerId, message);
      Session.SendMessageCases(Relay(), messages, peerId, message);
      var dc := ChannelOf(peers, peerId);
      if dc.None? {
        return;
      }
      var msgObj := ChatPayload(myName, message);
      if !channels[dc.value].open {
        queues := Enqueue(queues, ForPeer(peerId), PlainObject(msgObj));
        return;
      }
      channels := channels[dc.value := channels[dc.value].(sent := channels[dc.value].sent + [PayloadText(msgObj)])];
      messages := messages + [Chat(myName, message)];
    }

    /** `dc.onmessage` on channel `ch`, with what the remote side handed to `send`. */
    method OnChannelMessage(ch: ChannelId, f: Frame)
      requires Valid() && ch < |channels|
      modifies this`incoming, this`messages
      ensures Rx() == Receive(old(Rx()), channels[ch].peer, f)
      ensures Valid()
    {
      var peerId := channels[ch].peer;
      ReceiveKeepsInvariant(Rx(), peerId, f);
      match f
      case PayloadText(p) =>
        if IsChat(p) {
          messages := messages + [Chat(SenderOr(p.sender, peerId), p.message)];
        } else if IsMetadata(p) {
          incoming := Put(incoming, p.fileId, Incoming([], p.size, 0, p));
          messages := messages + [FileMsg(SenderOr(p.sender, peerId), p.filename, Some(p.size), None, 0, p.fileId)];
        }
      case Chunk(b) =>
        AcceptChunk(b);
      case EnvelopeText(_) =>
      case PlainObject(_) =>
    }

    /** A binary payload: appended to the first registered file still missing bytes. */
    method AcceptChunk(b: seq<Byte>)
      modifies this`incoming, this`messages
      ensures Rx() == ReceiveChunk(old(Rx()), b)
    {
      var i := 0;
      while i < |incoming| && incoming[i].1.size <= incoming[i].1.received
        invariant 0 <= i <= |incoming|
        invariant forall j :: 0 <= j < i ==> incoming[j].1.size <= incoming[j].1.received
      {
        i := i + 1;
      }
      assert i == FirstUnfilled(incoming);
      if i < |incoming| {
        var fileId := incoming[i].0;
        var fileData := incoming[i].1;
        fileData := fileData.(chunks := fileData.chunks + [b], received := fileData.received + |b|);
        var progress := Progress(fileData.received, fileData.size);
        messages := SetProgress(messages, fileId, progress);
        if fileData.received >= fileData.size {
          messages := Complete(messages, fileId, Concat(fileData.chunks));
          incoming := Remove(incoming, fileId);
        } else {
          incoming := incoming[i := (fileId, fileData)];
        }
      }
    }

    /**
     * One file to one channel (the body of `handleDrop`'s peer loop): the metadata, then the
     * chunks in slice order. Returns the chains started, the most reads ever in flight, and the
     * final window, offset and in-flight count.
     */
    method SendFile(ch: ChannelId, file: FileInfo, fileId: FileId, bufferedAfter: nat -> int)
        returns (starters: nat, peak: nat, window: int, offset: nat, inFlight: nat)
      requires ch < |channels|
      modifies this`channels
      ensures channels == SendAll(old(channels), ch, Outgoing(myName, file, fileId))
      ensures starters == Starters(|file.bytes|) && peak == starters
      ensures window == WindowAfter(INITIAL_WINDOW, Readings(bufferedAfter, TotalChunks(|file.bytes|)))
      ensures 1 <= window <= MAX_WINDOW
      ensures inFlight == 0 && offset == TotalChunks(|file.bytes|) * CHUNK_SIZE && offset >= |file.bytes|
    {
      var meta := PayloadText(MetaFor(myName, file, fileId));
      Send(ch, meta);
      starters, offset, inFlight := StartChains(|file.bytes|);
      label sending:
      peak, window, offset, inFlight := Pump(ch, file.bytes, starters, offset, bufferedAfter);
      SendAllTwice(old(channels), ch, [meta], ChunkFrames(file.bytes));
    }

    /**
     * The starting loop of the pipeline: while the window has room and `offset < size`, a chain
     * claims the next slice. Returns how many chains started, the offset after their slices and
     * the reads in flight.
     */
    method StartChains(size: nat) returns (starters: nat, offset: nat, inFlight: nat)
      ensures starters == Starters(size)
      ensures offset == starters * CHUNK_SIZE && inFlight == starters
      ensures offset < size <==> starters < TotalChunks(size)
    {
      var window := INITIAL_WINDOW;
      offset, inFlight, starters := 0, 0, 0;
      StartInside(size, 0);
      while starters < window && offset < size
        invariant starters <= INITIAL_WINDOW && starters <= TotalChunks(size)
        invariant offset == starters * CHUNK_SIZE && inFlight == starters
        invariant offset < size <==> starters < TotalChunks(size)
      {
        offset := offset + CHUNK_SIZE;
        inFlight := inFlight + 1;
        starters := starters + 1;
        StartInside(size, starters);
      }
    }

    /**
     * The chains at work, scheduled one completion at a time: the oldest claimed read completes,
     * its chunk is sent, the window is adjusted with the `bufferedAmount` read after that send,
     * and the chain claims the next slice while `offset < size`. Every chunk is sent once, in
     * slice order, and the chains in flight never outnumber the starters.
     */
    method Pump(ch: ChannelId, bytes: seq<Byte>, starters: nat, offset0: nat, bufferedAfter: nat -> int)
        returns (peak: nat, window: int, offset: nat, inFlight: nat)
      requires ch < |channels|
      requires starters == Starters(|bytes|) && offset0 == starters * CHUNK_SIZE
      requires offset0 < |bytes| <==> starters < TotalChunks(|bytes|)
      modifies this`channels
      ensures channels == SendAll(old(channels), ch, ChunkFrames(bytes))
      ensures peak == starters
      ensures window == WindowAfter(INITIAL_WINDOW, Readings(bufferedAfter, TotalChunks(|bytes|)))
      ensures 1 <= window <= MAX_WINDOW
      ensures inFlight == 0 && offset == TotalChunks(|bytes|) * CHUNK_SIZE && offset >= |bytes|
    {
      var size := |bytes|;
      ghost var n := TotalChunks(size);
      ghost var frames := ChunkFrames(bytes);
      offset, inFlight, window, peak := offset0, starters, INITIAL_WINDOW, starters;
      var done: nat := 0;
      assert old(channels)[ch].sent + [] == old(channels)[ch].sent;
      assert frames[..0] == [];
      while inFlight > 0 || offset < size
        invariant done + inFlight <= n
        invariant offset == (done + inFlight) * CHUNK_SIZE
        invariant offset < size <==> done + inFlight < n
        invariant inFlight <= starters && peak == starters
        invariant offset < size ==> inFlight == starters
        invariant channels == SendAll(old(channels), ch, frames[..done])
        invariant window == WindowAfter(INITIAL_WINDOW, Readings(bufferedAfter, done))
        invariant 1 <= window <= MAX_WINDOW
        decreases n - done
      {
        var chunk := Slice(bytes, done);
        FramesNext(bytes, done);
        SendAllTwice(old(channels), ch, frames[..done], [Chunk(chunk)]);
        Send(ch, Chunk(chunk));
        inFlight := inFlight - 1;
        WindowNext(INITIAL_WINDOW, bufferedAfter, done);
        window := AdjustWindow(window, bufferedAfter(done));
        done := done + 1;
        if offset < size {
          NextOffset(done + inFlight);
          offset := offset + CHUNK_SIZE;
          inFlight := inFlight + 1;
          if inFlight > peak {
            peak := inFlight;
          }
        }
        StartInside(size, done + inFlight);
      }
      assert frames[..done] == frames;
    }

    /** One dropped file: sent to every peer whose channel is open, in peer order, then shown locally. */
    method DropFile(file: FileInfo, fileId: FileId, bufferedAfter: (ChannelId, nat) -> int)
      requires Valid()
      modifies this`channels, this`messages
      ensures channels == Deliver(old(channels), Served(peers, old(channels)), Outgoing(myName, file, fileId))
      ensures messages == old(messages) + [LocalCopy(myName, file, fileId)]
      ensures Valid()
    {
      Broadcast(file, fileId, bufferedAfter);
      Session.SendingKeepsWf(old(Relay()), channels);
      assert Relay() == old(Relay()).(channels := channels);
      messages := messages + [LocalCopy(myName, file, fileId)];
    }

    /**
     * `handleDrop` for the dropped files, one after the other, each with its generated id and
     * the `bufferedAmount` readings of its transfers (by file position, channel and chunk).
     */
    method HandleDrop(files: seq<FileInfo>, fileIds: seq<FileId>, bufferedAfter: (nat, ChannelId, nat) -> int)
      requires Valid() && |fileIds| == |files|
      modifies this`channels, this`messages
      ensures channels == DropAll(old(channels), peers, myName, files, fileIds)
      ensures messages == old(messages) + LocalCopies(myName, files, fileIds)
      ensures Valid()
    {
      var i := 0;
      while i < |files|
        invariant 0 <= i <= |files|
        invariant channels == DropAll(old(channels), peers, myName, files[..i], fileIds[..i])
        invariant messages == old(messages) + LocalCopies(myName, files[..i], fileIds[..i])
        invariant Valid()
      {
        DropNext(files, fileIds, i, bufferedAfter, old(channels), old(messages));
        i := i + 1;
      }
      assert files[..i] == files && fileIds[..i] == fileIds;
    }

    /** One pass of `handleDrop`'s file loop: file `i` is sent and shown. */
    method DropNext(files: seq<FileInfo>, fileIds: seq<FileId>, i: nat, bufferedAfter: (nat, ChannelId, nat) -> int,
                    ghost base: seq<Session.Channel>, ghost shownBefore: seq<Message>)
      requires Valid() && i < |files| == |fileIds|
      requires channels == DropAll(base, peers, myName, files[..i], fileIds[..i])
      requires messages == shownBefore + LocalCopies(myName, files[..i], fileIds[..i])
      modifies this`channels, this`messages
      ensures channels == DropAll(base, peers, myName, files[..i + 1], fileIds[..i + 1])
      ensures messages == shownBefore + LocalCopies(myName, files[..i + 1], fileIds[..i + 1])
      ensures Valid()
    {
      DropAllNext(base, peers, myName, files, fileIds, i);
      ghost var shown := LocalCopies(myName, files[..i], fileIds[..i]);
      var n := i;
      DropFile(files[i], fileIds[i], (c: ChannelId, k: nat) => bufferedAfter(n, c, k));
      assert shownBefore + shown + [LocalCopy(myName, files[i], fileIds[i])] ==
             shownBefore + (shown + [LocalCopy(myName, files[i], fileIds[i])]);
    }

    /** `handleDrop`'s peer loop for one file. */
    method Broadcast(file: FileInfo, fileId: FileId, bufferedAfter: (ChannelId, nat) -> int)
      requires forall e :: e in peers ==> Session.OwnedBy(e.1.dc, e.0, channels)
      modifies this`channels
      ensures channels == Deliver(old(channels), Served(peers, old(channels)), Outgoing(myName, file, fileId))
    {
      var i := 0;
      while i < |peers|
        invariant 0 <= i <= |peers|
        invariant channels == Deliver(old(channels), Served(peers[..i], old(channels)), Outgoing(myName, file, fileId))
      {
        SendToPeer(i, file, fileId, bufferedAfter, old(channels));
        i := i + 1;
      }
      assert peers[..i] == peers;
    }

    /** One pass of `handleDrop`'s peer loop: the `i`-th peer gets the file when its channel is open. */
    method SendToPeer(i: nat, file: FileInfo, fileId: FileId, bufferedAfter: (ChannelId, nat) -> int, ghost base: seq<Session.Channel>)
      requires i < |peers|
      requires forall e :: e in peers ==> Session.OwnedBy(e.1.dc, e.0, base)
      requires channels == Deliver(base, Served(peers[..i], base), Outgoing(myName, file, fileId))
      modifies this`channels
      ensures channels == Deliver(base, Served(peers[..i + 1], base), Outgoing(myName, file, fileId))
    {
      var dc := peers[i].1.dc;
      assert peers[i] in peers;
      DeliverNext(peers, i, base, Outgoing(myName, file, fileId));
      if dc.Some? && channels[dc.value].open {
        var c := dc.value;
        var starters, peak, window, offset, inFlight := SendFile(c, file, fileId, (k: nat) => bufferedAfter(c, k));
      }
    }
  }
}

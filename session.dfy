/**
 * The relay side of the page: `safeSend`, the relay envelope dispatch of `ws.onmessage`,
 * `createPeerConnection`/`callPeer`/`handleOffer`/`handleAnswer`/`handleCandidate`, stated
 * as pure transitions over a snapshot of the state they touch. Browser objects are values:
 * a data channel is its captured peer, its open flag and the log of what was sent on it.
 */
module Session {
  import opened Optional
  import opened OrderedMap
  import opened Protocol
  import opened PeerTable
  import opened Queues
  import opened Reassembly

  /** What a peer connection was given: descriptions and remote candidates, in order. */
  datatype Signal = LocalDescription(sdp: string) | RemoteDescription(sdp: string) | IceCandidate(candidate: string)

  /** An RTCDataChannel: the peer its handlers were set up for, `readyState === "open"`, and everything sent on it. */
  datatype Channel = Channel(peer: PeerId, open: bool, sent: seq<Frame>)

  /** An RTCPeerConnection: the peer it was created for, the channel its handlers captured, and the signals applied to it. */
  datatype Link = Link(peer: PeerId, dc: Option<ChannelId>, signals: seq<Signal>)

  /** The browser's side of setting up a connection: whether `createDataChannel` succeeded and the description it generated. */
  datatype BrowserReply = BrowserReply(channelCreated: bool, sdp: string)

  /** The state the relay handlers read and write. */
  datatype Signaling = Signaling(
    room: string, name: string,
    peers: Peers, connections: map<PeerId, LinkId>, queues: Queues,
    wsOpen: bool, wsSent: seq<Frame>,
    channels: seq<Channel>, links: seq<Link>)

  /** `dc`, if any, is an existing channel that was set up for peer `p`. */
  predicate OwnedBy(dc: Option<ChannelId>, p: PeerId, channels: seq<Channel>) {
    dc.Some? ==> dc.value < |channels| && channels[dc.value].peer == p
  }

  /**
   * Keys are distinct, every handle names an existing channel or connection, and the channel
   * a peer or connection holds is one that was set up for that peer.
   */
  predicate Wf(s: Signaling) {
    && Unique(s.peers) && Unique(s.queues)
    && (forall e :: e in s.peers ==> OwnedBy(e.1.dc, e.0, s.channels) && (e.1.pc.Some? ==> e.1.pc.value < |s.links|))
    && (forall p :: p in s.connections ==> s.connections[p] < |s.links|)
    && (forall l :: l in s.links ==> OwnedBy(l.dc, l.peer, s.channels))
  }

  /** `safeSend`: straight to the relay when it is open, otherwise to the end of `_global`. */
  function Relayed(s: Signaling, e: Envelope): (r: Signaling)
    ensures s.wsOpen ==> r == s.(wsSent := s.wsSent + [EnvelopeText(e)])
    ensures !s.wsOpen ==> (
      && r.wsSent == s.wsSent
      && Waiting(r.queues, Global) == Waiting(s.queues, Global) + [EnvelopeText(e)]
      && (forall k :: k != Global ==> Get(r.queues, k) == Get(s.queues, k))
      && multiset(Flatten(r.queues)) == multiset(Flatten(s.queues)) + multiset{EnvelopeText(e)})
    ensures r.(wsSent := s.wsSent, queues := s.queues) == s
  {
    if s.wsOpen then s.(wsSent := s.wsSent + [EnvelopeText(e)])
    else
      EnqueueAddsOne(s.queues, Global, EnvelopeText(e));
      s.(queues := Enqueue(s.queues, Global, EnvelopeText(e)))
  }

  /**
   * `createPeerConnection(id)`: a new connection, a new closed channel when `createDataChannel`
   * succeeds, and the peer marked "connecting" with both.
   */
  function CreatePeerConnection(s: Signaling, id: PeerId, channelCreated: bool): Signaling {
    var dc := if channelCreated then Some(|s.channels|) else None;
    s.(channels := if channelCreated then s.channels + [Channel(id, false, [])] else s.channels,
       links := s.links + [Link(id, dc, [])],
       peers := ConnectingUpdate(s.peers, id, dc, |s.links|))
  }

  /** `createPeerConnection(id)` followed by `peerConnections.current[id] = pc`. */
  function Connect(s: Signaling, id: PeerId, channelCreated: bool): Signaling {
    var created := CreatePeerConnection(s, id, channelCreated);
    created.(connections := created.connections[id := |s.links|])
  }

  /** Applies a description or candidate to connection `l`. */
  function Apply(s: Signaling, l: LinkId, sig: Signal): Signaling
    requires l < |s.links|
  {
    s.(links := s.links[l := s.links[l].(signals := s.links[l].signals + [sig])])
  }

  /** `callPeer(id)`: connect, make and apply the local offer, and send it to `id` through the relay. */
  function CallPeer(s: Signaling, id: PeerId, reply: BrowserReply): Signaling {
    var connected := Connect(s, id, reply.channelCreated);
    Relayed(Apply(connected, |s.links|, LocalDescription(reply.sdp)), Offer(id, reply.sdp))
  }

  /** `handleOffer`: connect, apply the remote offer, make and apply the local answer, and send it back. */
  function HandleOffer(s: Signaling, from: PeerId, sdp: string, reply: BrowserReply): Signaling {
    var connected := Connect(s, from, reply.channelCreated);
    var described := Apply(Apply(connected, |s.links|, RemoteDescription(sdp)), |s.links|, LocalDescription(reply.sdp));
    Relayed(described, Answer(from, reply.sdp))
  }

  /** `handleAnswer`/`handleCandidate`: applied to the stored connection of `from`, if there is one. */
  function HandleSignal(s: Signaling, from: PeerId, sig: Signal): Signaling
    requires Wf(s)
  {
    if from in s.connections then Apply(s, s.connections[from], sig) else s
  }

  /** One relay envelope (`ws.onmessage`), with the browser's replies for the connection it may set up. */
  function Dispatch(s: Signaling, ev: RelayEvent, reply: BrowserReply): Signaling
    requires Wf(s)
  {
    match ev
    case RoomAssigned(room, name) => s.(room := room, name := name)
    case RoomJoined(room, name) => s.(room := room, name := name)
    case NewPeer(id) => CallPeer(s.(peers := NewPeerUpdate(s.peers, id)), id, reply)
    case OfferFrom(from, sdp) => HandleOffer(s, from, sdp, reply)
    case AnswerFrom(from, sdp) => HandleSignal(s, from, RemoteDescription(sdp))
    case CandidateFrom(from, candidate) => HandleSignal(s, from, IceCandidate(candidate))
    case PeerLeft(id) => s.(peers := PeerLeftUpdate(s.peers, id))
    case Unknown(_) => s
  }

  lemma AppendThenUpdate(links: seq<Link>, link: Link, sig: Signal)
    ensures (links + [link])[|links| := link.(signals := link.signals + [sig])]
         == links + [link.(signals := link.signals + [sig])]
  {
  }

  lemma CreateKeepsWf(s: Signaling, id: PeerId, channelCreated: bool)
    requires Wf(s)
    ensures Wf(CreatePeerConnection(s, id, channelCreated))
    ensures Wf(Connect(s, id, channelCreated))
  {
    var r := CreatePeerConnection(s, id, channelCreated);
    CreatedWf(s, id, channelCreated);
    RecordLinkKeepsWf(r, id, |s.links|);
    assert Connect(s, id, channelCreated) == r.(connections := r.connections[id := |s.links|]);
  }

  lemma CreatedWf(s: Signaling, id: PeerId, channelCreated: bool)
    requires Wf(s)
    ensures Wf(CreatePeerConnection(s, id, channelCreated))
  {
    var r := CreatePeerConnection(s, id, channelCreated);
    CreateKeepsPeers(s, id, channelCreated);
    CreateKeepsLinks(s, id, channelCreated);
    assert r.connections == s.connections && r.queues == s.queues && |r.links| > |s.links|;
  }

  /** `peerConnections.current[id] = pc` for an existing connection keeps the snapshot well formed. */
  lemma RecordLinkKeepsWf(s: Signaling, id: PeerId, pc: LinkId)
    requires Wf(s) && pc < |s.links|
    ensures Wf(s.(connections := s.connections[id := pc]))
  {
  }

  lemma CreateKeepsPeers(s: Signaling, id: PeerId, channelCreated: bool)
    requires Wf(s)
    ensures var r := CreatePeerConnection(s, id, channelCreated);
      forall e :: e in r.peers ==> OwnedBy(e.1.dc, e.0, r.channels) && (e.1.pc.Some? ==> e.1.pc.value < |r.links|)
  {
    var dc := if channelCreated then Some(|s.channels|) else None;
    var r := CreatePeerConnection(s, id, channelCreated);
    ChannelsExtended(s.channels, r.channels);
    PeersKeepOwners(s.peers, s.channels, r.channels);
    assert forall e :: e in s.peers ==> e.1.pc.Some? ==> e.1.pc.value < |r.links|;
    assert r.peers == Put(s.peers, id, Peer(Connecting, dc, Some(|s.links|)));
    PutKeepsOwners(s.peers, id, Peer(Connecting, dc, Some(|s.links|)), r.channels, |r.links|);
  }

  lemma CreateKeepsLinks(s: Signaling, id: PeerId, channelCreated: bool)
    requires Wf(s)
    ensures var r := CreatePeerConnection(s, id, channelCreated);
      forall l :: l in r.links ==> OwnedBy(l.dc, l.peer, r.channels)
  {
    var dc := if channelCreated then Some(|s.channels|) else None;
    var r := CreatePeerConnection(s, id, channelCreated);
    ChannelsExtended(s.channels, r.channels);
    LinksKeepOwners(s.links, s.channels, r.channels);
    assert r.links == s.links + [Link(id, dc, [])];
    AppendKeepsOwners(s.links, Link(id, dc, []), r.channels);
  }

  /** A channel list that only grew keeps every existing channel's peer. */
  lemma ChannelsExtended(a: seq<Channel>, b: seq<Channel>)
    requires b == a || (exists x :: b == a + [x])
    ensures |a| <= |b| && forall c :: 0 <= c < |a| ==> a[c].peer == b[c].peer
  {
  }

  /** Appending a connection that owns its channel keeps every connection owning its channel. */
  lemma AppendKeepsOwners(links: seq<Link>, link: Link, channels: seq<Channel>)
    requires forall l :: l in links ==> OwnedBy(l.dc, l.peer, channels)
    requires OwnedBy(link.dc, link.peer, channels)
    ensures forall l :: l in links + [link] ==> OwnedBy(l.dc, l.peer, channels)
  {
  }

  lemma ApplyKeepsWf(s: Signaling, l: LinkId, sig: Signal)
    requires Wf(s) && l < |s.links|
    ensures Wf(Apply(s, l, sig))
  {
    var r := Apply(s, l, sig);
    assert s.links[l] in s.links;
    forall x | x in r.links ensures OwnedBy(x.dc, x.peer, r.channels) {
      var i :| 0 <= i < |r.links| && r.links[i] == x;
      if i != l {
        assert s.links[i] in s.links;
      }
    }
  }

  lemma PendingKeepsWf(s: Signaling, id: PeerId)
    requires Wf(s)
    ensures Wf(s.(peers := NewPeerUpdate(s.peers, id)))
  {
    PutElements(s.peers, id, Peer(Pending, None, None));
  }

  lemma PeerLeftKeepsWf(s: Signaling, id: PeerId)
    requires Wf(s)
    ensures Wf(s.(peers := PeerLeftUpdate(s.peers, id)))
  {
    RemoveUnique(s.peers, id);
  }

  /** Sending on channels changes no channel's peer, so it keeps the snapshot well formed. */
  lemma SendingKeepsWf(s: Signaling, channels: seq<Channel>)
    requires Wf(s) && |channels| == |s.channels|
    requires forall c :: 0 <= c < |channels| ==> channels[c].peer == s.channels[c].peer
    ensures Wf(s.(channels := channels))
  {
    PeersKeepOwners(s.peers, s.channels, channels);
    LinksKeepOwners(s.links, s.channels, channels);
  }

  lemma RelayedKeepsWf(s: Signaling, e: Envelope)
    requires Wf(s)
    ensures Wf(Relayed(s, e))
  {
  }

  lemma CallPeerKeepsWf(s: Signaling, id: PeerId, reply: BrowserReply)
    requires Wf(s)
    ensures Wf(CallPeer(s, id, reply))
  {
    CreateKeepsWf(s, id, reply.channelCreated);
    var connected := Connect(s, id, reply.channelCreated);
    ApplyKeepsWf(connected, |s.links|, LocalDescription(reply.sdp));
    RelayedKeepsWf(Apply(connected, |s.links|, LocalDescription(reply.sdp)), Offer(id, reply.sdp));
  }

  lemma HandleOfferKeepsWf(s: Signaling, from: PeerId, sdp: string, reply: BrowserReply)
    requires Wf(s)
    ensures Wf(HandleOffer(s, from, sdp, reply))
  {
    CreateKeepsWf(s, from, reply.channelCreated);
    var connected := Connect(s, from, reply.channelCreated);
    ApplyKeepsWf(connected, |s.links|, RemoteDescription(sdp));
    var remote := Apply(connected, |s.links|, RemoteDescription(sdp));
    ApplyKeepsWf(remote, |s.links|, LocalDescription(reply.sdp));
    RelayedKeepsWf(Apply(remote, |s.links|, LocalDescription(reply.sdp)), Answer(from, reply.sdp));
  }

  /** Every envelope keeps the snapshot well formed. */
  lemma DispatchKeepsWf(s: Signaling, ev: RelayEvent, reply: BrowserReply)
    requires Wf(s)
    ensures Wf(Dispatch(s, ev, reply))
  {
    match ev
    case NewPeer(id) =>
      PendingKeepsWf(s, id);
      CallPeerKeepsWf(s.(peers := NewPeerUpdate(s.peers, id)), id, reply);
    case OfferFrom(from, sdp) =>
      HandleOfferKeepsWf(s, from, sdp, reply);
    case AnswerFrom(from, sdp) =>
      if from in s.connections {
        ApplyKeepsWf(s, s.connections[from], RemoteDescription(sdp));
      }
    case CandidateFrom(from, candidate) =>
      if from in s.connections {
        ApplyKeepsWf(s, s.connections[from], IceCandidate(candidate));
      }
    case PeerLeft(id) =>
      PeerLeftKeepsWf(s, id);
    case _ =>
  }

  /** `room-assigned`/`room-joined` set the room and the local name and change nothing else. */
  lemma RoomEnvelope(s: Signaling, room: string, name: string, reply: BrowserReply)
    requires Wf(s)
    ensures Dispatch(s, RoomAssigned(room, name), reply) == s.(room := room, name := name)
    ensures Dispatch(s, RoomJoined(room, name), reply) == s.(room := room, name := name)
  {
  }

  /**
   * `callPeer(id)`: the peer ends "connecting" on a new connection that holds the generated
   * offer as its local description, the offer addressed to `id` goes to the relay (or to the
   * end of `_global` while the relay is not open), and every other peer is unchanged.
   */
  lemma CallPeerEffect(s: Signaling, id: PeerId, reply: BrowserReply)
    ensures var r := CallPeer(s, id, reply);
      var l := |s.links|;
      var dc := if reply.channelCreated then Some(|s.channels|) else None;
      && Get(r.peers, id) == Some(Peer(Connecting, dc, Some(l)))
      && (forall q :: q != id ==> Get(r.peers, q) == Get(s.peers, q))
      && r.connections == s.connections[id := l]
      && r.links == s.links + [Link(id, dc, [LocalDescription(reply.sdp)])]
      && r.channels == s.channels + (if reply.channelCreated then [Channel(id, false, [])] else [])
      && (s.wsOpen ==> r.wsSent == s.wsSent + [EnvelopeText(Offer(id, reply.sdp))] && r.queues == s.queues)
      && (!s.wsOpen ==> (r.wsSent == s.wsSent &&
            Waiting(r.queues, Global) == Waiting(s.queues, Global) + [EnvelopeText(Offer(id, reply.sdp))] &&
            (forall k :: k != Global ==> Get(r.queues, k) == Get(s.queues, k))))
      && r.(peers := s.peers, connections := s.connections, links := s.links, channels := s.channels,
            wsSent := s.wsSent, queues := s.queues) == s
  {
    var dc := if reply.channelCreated then Some(|s.channels|) else None;
    var connected := Connect(s, id, reply.channelCreated);
    assert connected.links[|s.links|] == Link(id, dc, []);
    AppendThenUpdate(s.links, Link(id, dc, []), LocalDescription(reply.sdp));
    var applied := Apply(connected, |s.links|, LocalDescription(reply.sdp));
    assert [] + [LocalDescription(reply.sdp)] == [LocalDescription(reply.sdp)];
    assert applied.links == s.links + [Link(id, dc, [LocalDescription(reply.sdp)])];
    assert applied.(links := connected.links) == connected;
  }

  /**
   * `handleOffer`: a new connection for `from` holds the remote offer and then the generated
   * answer, and the answer addressed to `from` goes to the relay (or to the end of `_global`).
   */
  lemma HandleOfferEffect(s: Signaling, from: PeerId, sdp: string, reply: BrowserReply)
    ensures var r := HandleOffer(s, from, sdp, reply);
      var l := |s.links|;
      var dc := if reply.channelCreated then Some(|s.channels|) else None;
      && Get(r.peers, from) == Some(Peer(Connecting, dc, Some(l)))
      && (forall q :: q != from ==> Get(r.peers, q) == Get(s.peers, q))
      && r.connections == s.connections[from := l]
      && r.links == s.links + [Link(from, dc, [RemoteDescription(sdp), LocalDescription(reply.sdp)])]
      && r.channels == s.channels + (if reply.channelCreated then [Channel(from, false, [])] else [])
      && (s.wsOpen ==> r.wsSent == s.wsSent + [EnvelopeText(Answer(from, reply.sdp))] && r.queues == s.queues)
      && (!s.wsOpen ==> (r.wsSent == s.wsSent &&
            Waiting(r.queues, Global) == Waiting(s.queues, Global) + [EnvelopeText(Answer(from, reply.sdp))] &&
            (forall k :: k != Global ==> Get(r.queues, k) == Get(s.queues, k))))
      && r.(peers := s.peers, connections := s.connections, links := s.links, channels := s.channels,
            wsSent := s.wsSent, queues := s.queues) == s
  {
    var dc := if reply.channelCreated then Some(|s.channels|) else None;
    var connected := Connect(s, from, reply.channelCreated);
    assert connected.links[|s.links|] == Link(from, dc, []);
    AppendThenUpdate(s.links, Link(from, dc, []), RemoteDescription(sdp));
    var remote := Apply(connected, |s.links|, RemoteDescription(sdp));
    assert [] + [RemoteDescription(sdp)] == [RemoteDescription(sdp)];
    assert remote.links == s.links + [Link(from, dc, [RemoteDescription(sdp)])];
    assert remote.links[|s.links|] == Link(from, dc, [RemoteDescription(sdp)]);
    AppendThenUpdate(s.links, Link(from, dc, [RemoteDescription(sdp)]), LocalDescription(reply.sdp));
    var described := Apply(remote, |s.links|, LocalDescription(reply.sdp));
    assert [RemoteDescription(sdp)] + [LocalDescription(reply.sdp)] == [RemoteDescription(sdp), LocalDescription(reply.sdp)];
    assert described.links == s.links + [Link(from, dc, [RemoteDescription(sdp), LocalDescription(reply.sdp)])];
    assert described.(links := connected.links) == connected;
  }

  /** `new-peer(id)` first records `id` as pending, then calls it; the pending entry is overwritten. */
  lemma NewPeerEnvelope(s: Signaling, id: PeerId, reply: BrowserReply)
    requires Wf(s)
    ensures var r := Dispatch(s, NewPeer(id), reply);
      && Get(r.peers, id) == Some(Peer(Connecting, if reply.channelCreated then Some(|s.channels|) else None, Some(|s.links|)))
      && (forall q :: q != id ==> Get(r.peers, q) == Get(s.peers, q))
      && Keys(r.peers) == if id in Keys(s.peers) then Keys(s.peers) else Keys(s.peers) + [id]
  {
    CallPeerEffect(s.(peers := NewPeerUpdate(s.peers, id)), id, reply);
  }

  /**
   * `peer-left(id)` removes only `id` from the table, touches no queue, channel or connection,
   * is a no-op when `id` is absent, and a second one changes nothing.
   */
  lemma PeerLeftEnvelope(s: Signaling, id: PeerId, reply: BrowserReply)
    requires Wf(s)
    ensures var r := Dispatch(s, PeerLeft(id), reply);
      && Get(r.peers, id) == None
      && (forall q :: q != id ==> Get(r.peers, q) == Get(s.peers, q))
      && r.(peers := s.peers) == s
      && (id !in Keys(s.peers) ==> r == s)
      && Wf(r) && Dispatch(r, PeerLeft(id), reply) == r
  {
    var r := Dispatch(s, PeerLeft(id), reply);
    DispatchKeepsWf(s, PeerLeft(id), reply);
    assert r.peers == Remove(s.peers, id);
  }

  /** An answer or candidate from a peer without a stored connection changes nothing. */
  lemma LateSignalIgnored(s: Signaling, from: PeerId, text: string, reply: BrowserReply)
    requires Wf(s) && from !in s.connections
    ensures Dispatch(s, AnswerFrom(from, text), reply) == s
    ensures Dispatch(s, CandidateFrom(from, text), reply) == s
  {
  }

  /** An answer or candidate for a stored connection is applied to it, after what it already holds. */
  lemma SignalApplied(s: Signaling, from: PeerId, text: string, reply: BrowserReply)
    requires Wf(s) && from in s.connections
    ensures var l := s.connections[from];
      && Dispatch(s, AnswerFrom(from, text), reply).links ==
           s.links[l := s.links[l].(signals := s.links[l].signals + [RemoteDescription(text)])]
      && Dispatch(s, CandidateFrom(from, text), reply).links ==
           s.links[l := s.links[l].(signals := s.links[l].signals + [IceCandidate(text)])]
      && Dispatch(s, AnswerFrom(from, text), reply).(links := s.links) == s
      && Dispatch(s, CandidateFrom(from, text), reply).(links := s.links) == s
  {
  }

  /** An envelope of an unknown type is ignored. */
  lemma UnknownIgnored(s: Signaling, kind: string, reply: BrowserReply)
    requires Wf(s)
    ensures Dispatch(s, Unknown(kind), reply) == s
  {
  }

  /** `pc.onconnectionstatechange` on connection `l`: its peer takes the new state, the captured `dc` and `pc`. */
  function LinkStateChange(s: Signaling, l: LinkId, state: ConnectionState): Signaling
    requires l < |s.links|
  {
    s.(peers := LinkStateUpdate(s.peers, s.links[l].peer, state, s.links[l].dc, l))
  }

  /** `pc.ondatachannel` on connection `l`: the remote side's channel, set up for the same peer. */
  function IncomingChannel(s: Signaling, l: LinkId): Signaling
    requires l < |s.links|
  {
    s.(channels := s.channels + [Channel(s.links[l].peer, false, [])])
  }

  /** `pc.onicecandidate` on connection `l`: a non-empty candidate is relayed to its peer. */
  function LocalCandidate(s: Signaling, l: LinkId, candidate: string): Signaling
    requires l < |s.links|
  {
    if candidate == "" then s else Relayed(s, Candidate(s.links[l].peer, candidate))
  }

  /** `dc.onopen` on channel `ch`: its peer becomes connected on it and its queue is flushed to it. */
  function ChannelOpen(s: Signaling, ch: ChannelId): Signaling
    requires ch < |s.channels|
  {
    var p := s.channels[ch].peer;
    s.(peers := ChannelOpenUpdate(s.peers, p, ch),
       channels := s.channels[ch := s.channels[ch].(open := true, sent := s.channels[ch].sent + Waiting(s.queues, ForPeer(p)))],
       queues := Put(s.queues, ForPeer(p), []))
  }

  lemma LinkStateKeepsWf(s: Signaling, l: LinkId, state: ConnectionState)
    requires Wf(s) && l < |s.links|
    ensures Wf(LinkStateChange(s, l, state))
  {
    var link := s.links[l];
    assert link in s.links;
    PutElements(s.peers, link.peer, Peer(state, link.dc, Some(l)));
  }

  lemma IncomingChannelKeepsWf(s: Signaling, l: LinkId)
    requires Wf(s) && l < |s.links|
    ensures Wf(IncomingChannel(s, l))
  {
    var r := IncomingChannel(s, l);
    forall e | e in r.peers ensures OwnedBy(e.1.dc, e.0, r.channels) {
      assert OwnedBy(e.1.dc, e.0, s.channels);
    }
    forall x | x in r.links ensures OwnedBy(x.dc, x.peer, r.channels) {
      assert OwnedBy(x.dc, x.peer, s.channels);
    }
  }

  lemma LocalCandidateKeepsWf(s: Signaling, l: LinkId, candidate: string)
    requires Wf(s) && l < |s.links|
    ensures Wf(LocalCandidate(s, l, candidate))
  {
  }

  lemma ChannelOpenKeepsWf(s: Signaling, ch: ChannelId)
    requires Wf(s) && ch < |s.channels|
    ensures Wf(ChannelOpen(s, ch))
  {
    var r := ChannelOpen(s, ch);
    SendingKeepsWf(s, r.channels);
    assert r.links == s.(channels := r.channels).links;
    ChannelOpenKeepsPeers(s, ch);
  }

  lemma ChannelOpenKeepsPeers(s: Signaling, ch: ChannelId)
    requires Wf(s) && ch < |s.channels|
    ensures var r := ChannelOpen(s, ch);
      forall e :: e in r.peers ==> OwnedBy(e.1.dc, e.0, r.channels) && (e.1.pc.Some? ==> e.1.pc.value < |r.links|)
  {
    var r := ChannelOpen(s, ch);
    assert forall c :: 0 <= c < |s.channels| ==> r.channels[c].peer == s.channels[c].peer;
    OpenedKeepsOwners(s.peers, s.channels, r.channels, ch, |s.links|);
  }

  /**
   * Marking channel `ch` "connected" for its owner keeps every entry owning its channel and
   * naming an existing connection, whatever else changed about the channels.
   */
  lemma OpenedKeepsOwners(peers: Peers, a: seq<Channel>, b: seq<Channel>, ch: ChannelId, nLinks: nat)
    requires forall e :: e in peers ==> OwnedBy(e.1.dc, e.0, a) && (e.1.pc.Some? ==> e.1.pc.value < nLinks)
    requires ch < |a| == |b| && forall c :: 0 <= c < |a| ==> a[c].peer == b[c].peer
    ensures var p := a[ch].peer;
      forall e :: e in ChannelOpenUpdate(peers, p, ch) ==> OwnedBy(e.1.dc, e.0, b) && (e.1.pc.Some? ==> e.1.pc.value < nLinks)
  {
    var p := a[ch].peer;
    var prev := Get(peers, p);
    if prev.Some? {
      assert (p, prev.value) in peers;
    }
    PeersKeepOwners(peers, a, b);
    PutKeepsOwners(peers, p, Peer(Connected, Some(ch), PreviousLink(peers, p)), b, nLinks);
  }

  /** Storing an entry that owns its channel and names an existing connection keeps that true of every entry. */
  lemma PutKeepsOwners(peers: Peers, id: PeerId, v: Peer, channels: seq<Channel>, nLinks: nat)
    requires forall e :: e in peers ==> OwnedBy(e.1.dc, e.0, channels)
    requires forall e :: e in peers ==> e.1.pc.Some? ==> e.1.pc.value < nLinks
    requires OwnedBy(v.dc, id, channels) && (v.pc.Some? ==> v.pc.value < nLinks)
    ensures forall e :: e in Put(peers, id, v) ==> OwnedBy(e.1.dc, e.0, channels) && (e.1.pc.Some? ==> e.1.pc.value < nLinks)
  {
    PutElements(peers, id, v);
  }

  /** A change of channels that keeps every existing channel's peer keeps every entry's ownership. */
  lemma PeersKeepOwners(peers: Peers, a: seq<Channel>, b: seq<Channel>)
    requires |a| <= |b| && forall c :: 0 <= c < |a| ==> a[c].peer == b[c].peer
    requires forall e :: e in peers ==> OwnedBy(e.1.dc, e.0, a)
    ensures forall e :: e in peers ==> OwnedBy(e.1.dc, e.0, b)
  {
    forall e | e in peers ensures OwnedBy(e.1.dc, e.0, b) {
      assert OwnedBy(e.1.dc, e.0, a);
    }
  }

  /** The same for the connections' channels. */
  lemma LinksKeepOwners(links: seq<Link>, a: seq<Channel>, b: seq<Channel>)
    requires |a| <= |b| && forall c :: 0 <= c < |a| ==> a[c].peer == b[c].peer
    requires forall l :: l in links ==> OwnedBy(l.dc, l.peer, a)
    ensures forall l :: l in links ==> OwnedBy(l.dc, l.peer, b)
  {
    forall l | l in links ensures OwnedBy(l.dc, l.peer, b) {
      assert OwnedBy(l.dc, l.peer, a);
    }
  }

  /**
   * On channel open, the peer is "connected" on that channel and keeps its connection, the
   * channel is open and has received the peer's whole queue in FIFO order after what it had
   * already sent, the peer's queue is left empty, and every other queue and peer is unchanged.
   * Room, name, the relay socket and the connections are untouched, and no channel is added.
   */
  lemma ChannelOpenEffect(s: Signaling, ch: ChannelId)
    requires ch < |s.channels|
    ensures var r := ChannelOpen(s, ch);
      var p := s.channels[ch].peer;
      && Get(r.peers, p) == Some(Peer(Connected, Some(ch), PreviousLink(s.peers, p)))
      && (forall q :: q != p ==> Get(r.peers, q) == Get(s.peers, q))
      && r.channels[ch].open
      && r.channels[ch].sent == s.channels[ch].sent + Waiting(s.queues, ForPeer(p))
      && (forall c :: 0 <= c < |s.channels| && c != ch ==> r.channels[c] == s.channels[c])
      && Waiting(r.queues, ForPeer(p)) == []
      && (forall k :: k != ForPeer(p) ==> Get(r.queues, k) == Get(s.queues, k))
      && multiset(Flatten(r.queues)) + multiset(Waiting(s.queues, ForPeer(p))) == multiset(Flatten(s.queues))
      && |r.channels| == |s.channels|
      && r.(peers := s.peers, channels := s.channels, queues := s.queues) == s
  {
    var p := s.channels[ch].peer;
    var r := ChannelOpen(s, ch);
    assert r.peers == ChannelOpenUpdate(s.peers, p, ch);
    assert r.queues == Put(s.queues, ForPeer(p), []);
    assert r.channels == s.channels[ch := s.channels[ch].(open := true, sent := s.channels[ch].sent + Waiting(s.queues, ForPeer(p)))];
    ClearQueue(s.queues, ForPeer(p));
  }

  /**
   * `sendMessage(peerId, message)` over the snapshot and the message list: nothing without a
   * channel, the unserialised object queued for the peer while the channel is not open, and
   * otherwise its JSON sent once and the message shown locally.
   */
  function SendMessage(s: Signaling, messages: seq<Message>, peerId: PeerId, message: string): (Signaling, seq<Message>)
    requires Wf(s)
  {
    var dc := ChannelOf(s.peers, peerId);
    var obj := ChatPayload(s.name, message);
    if dc.None? then (s, messages)
    else if !s.channels[dc.value].open then
      (s.(queues := Enqueue(s.queues, ForPeer(peerId), PlainObject(obj))), messages)
    else
      var c := dc.value;
      (s.(channels := s.channels[c := s.channels[c].(sent := s.channels[c].sent + [PayloadText(obj)])]),
       messages + [Chat(s.name, message)])
  }

  lemma SendMessageKeepsWf(s: Signaling, messages: seq<Message>, peerId: PeerId, message: string)
    requires Wf(s)
    ensures Wf(SendMessage(s, messages, peerId, message).0)
  {
    var dc := ChannelOf(s.peers, peerId);
    if dc.Some? && s.channels[dc.value].open {
      var c := dc.value;
      SendingKeepsWf(s, s.channels[c := s.channels[c].(sent := s.channels[c].sent + [PayloadText(ChatPayload(s.name, message))])]);
    }
  }

  /**
   * The three outcomes of `sendMessage`: without a channel for the peer nothing is queued,
   * sent or shown; with a channel that is not open the object is appended to that peer's queue
   * and nothing is sent or shown; with an open channel it is sent once on that channel and
   * appended to the message list, and no queue changes.
   */
  lemma SendMessageCases(s: Signaling, messages: seq<Message>, peerId: PeerId, message: string)
    requires Wf(s)
    ensures var (r, ms) := SendMessage(s, messages, peerId, message);
      var dc := ChannelOf(s.peers, peerId);
      var obj := ChatPayload(s.name, message);
      && r.wsSent == s.wsSent && r.peers == s.peers
      && (dc.None? ==> r == s && ms == messages)
      && (dc.Some? ==> dc.value < |s.channels| && s.channels[dc.value].peer == peerId)
      && (dc.Some? && !s.channels[dc.value].open ==>
            && r.channels == s.channels && ms == messages
            && Waiting(r.queues, ForPeer(peerId)) == Waiting(s.queues, ForPeer(peerId)) + [PlainObject(obj)]
            && (forall k :: k != ForPeer(peerId) ==> Get(r.queues, k) == Get(s.queues, k)))
      && (dc.Some? && s.channels[dc.value].open ==>
            && r.queues == s.queues && ms == messages + [Chat(s.name, message)]
            && r.channels[dc.value].sent == s.channels[dc.value].sent + [PayloadText(obj)]
            && |r.channels| == |s.channels|
            && (forall c :: 0 <= c < |s.channels| && c != dc.value ==> r.channels[c] == s.channels[c]))
  {
    var dc := ChannelOf(s.peers, peerId);
    if dc.Some? {
      assert (peerId, Get(s.peers, peerId).value) in s.peers;
    }
  }

  /**
   * A chat message queued while the channel was not open reaches the channel on open as the
   * unserialised object, after what was queued before it (which the receiver ignores, see
   * `Reassembly.PlainObjectIgnored`).
   */
  lemma QueuedChatUnreadable(s: Signaling, messages: seq<Message>, peerId: PeerId, message: string, c: ChannelId)
    requires Wf(s) && ChannelOf(s.peers, peerId) == Some(c) && c < |s.channels| && !s.channels[c].open
    ensures var obj := ChatPayload(s.name, message);
      var queued := SendMessage(s, messages, peerId, message).0;
      && c < |queued.channels|
      && ChannelOpen(queued, c).channels[c].sent ==
           s.channels[c].sent + (Waiting(s.queues, ForPeer(peerId)) + [PlainObject(obj)])
  {
    var obj := ChatPayload(s.name, message);
    var queued := s.(queues := Enqueue(s.queues, ForPeer(peerId), PlainObject(obj)));
    assert SendMessage(s, messages, peerId, message).0 == queued;
    ChannelOwner(s, peerId);
    ChannelOpenSent(queued, c);
  }

  /** Under `Wf`, the channel stored for a peer exists and belongs to that peer. */
  lemma ChannelOwner(s: Signaling, peerId: PeerId)
    requires Wf(s) && ChannelOf(s.peers, peerId).Some?
    ensures var c := ChannelOf(s.peers, peerId).value; c < |s.channels| && s.channels[c].peer == peerId
  {
    assert (peerId, Get(s.peers, peerId).value) in s.peers;
  }

  /** On open, a channel receives its owner's whole queue after what it had sent. */
  lemma ChannelOpenSent(s: Signaling, ch: ChannelId)
    requires ch < |s.channels|
    ensures ch < |ChannelOpen(s, ch).channels|
    ensures ChannelOpen(s, ch).channels[ch].sent == s.channels[ch].sent + Waiting(s.queues, ForPeer(s.channels[ch].peer))
  {
  }

}

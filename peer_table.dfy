/**
 * The peer table `peers` and the updater functions the page hands to `setPeers`: each maps
 * the previous table to the next one with object spread or delete-on-copy.
 */
module PeerTable {
  import opened Optional
  import opened OrderedMap
  import opened Protocol

  type Peers = Assoc<PeerId, Peer>

  /** `new-peer`: `{ ...prev, [id]: { status: "pending" } }`, dropping any `dc`/`pc` of an old entry. */
  function NewPeerUpdate(peers: Peers, id: PeerId): (r: Peers)
    ensures Get(r, id) == Some(Peer(Pending, None, None))
    ensures forall q :: q != id ==> Get(r, q) == Get(peers, q)
    ensures Keys(r) == if id in Keys(peers) then Keys(peers) else Keys(peers) + [id]
    ensures Unique(peers) ==> Unique(r)
  {
    Put(peers, id, Peer(Pending, None, None))
  }

  /** `peer-left`: a copy of the table without `id`. */
  function PeerLeftUpdate(peers: Peers, id: PeerId): (r: Peers)
    ensures Get(r, id) == None
    ensures forall q :: q != id ==> Get(r, q) == Get(peers, q)
    ensures id !in Keys(peers) ==> r == peers
    ensures Remove(r, id) == r
    ensures forall i :: 0 <= i < |peers| && peers[i].0 == id && Unique(peers) ==> r == peers[..i] + peers[i + 1..]
  {
    assert forall i :: 0 <= i < |peers| && peers[i].0 == id && Unique(peers) ==> Remove(peers, id) == peers[..i] + peers[i + 1..] by {
      forall i | 0 <= i < |peers| && peers[i].0 == id && Unique(peers) {
        RemoveAt(peers, i);
      }
    }
    Remove(peers, id)
  }

  /** Previous `pc` of a peer, as `{ ...prev[id] }` carries it over. */
  function PreviousLink(peers: Peers, id: PeerId): Option<LinkId> {
    match Get(peers, id)
    case Some(p) => p.pc
    case None => None
  }

  /** `createPeerConnection`: `{ ...prev, [id]: { ...prev[id], status: "connecting", dc, pc } }`. */
  function ConnectingUpdate(peers: Peers, id: PeerId, dc: Option<ChannelId>, pc: LinkId): (r: Peers)
    ensures Get(r, id) == Some(Peer(Connecting, dc, Some(pc)))
    ensures forall q :: q != id ==> Get(r, q) == Get(peers, q)
    ensures Keys(r) == if id in Keys(peers) then Keys(peers) else Keys(peers) + [id]
    ensures Unique(peers) ==> Unique(r)
  {
    Put(peers, id, Peer(Connecting, dc, Some(pc)))
  }

  /**
   * `onconnectionstatechange`: the status becomes the link's state and `dc`/`pc` become the
   * ones the handler captured, even when the entry had been removed in the meantime.
   */
  function LinkStateUpdate(peers: Peers, id: PeerId, state: ConnectionState,
                           dc: Option<ChannelId>, pc: LinkId): (r: Peers)
    ensures Get(r, id) == Some(Peer(state, dc, Some(pc)))
    ensures forall q :: q != id ==> Get(r, q) == Get(peers, q)
    ensures Keys(r) == if id in Keys(peers) then Keys(peers) else Keys(peers) + [id]
    ensures Unique(peers) ==> Unique(r)
  {
    Put(peers, id, Peer(state, dc, Some(pc)))
  }

  /** Channel `onopen`: `{ ...prev[id], status: "connected", dc }`, keeping the previous `pc`. */
  function ChannelOpenUpdate(peers: Peers, id: PeerId, dc: ChannelId): (r: Peers)
    ensures Get(r, id) == Some(Peer(Connected, Some(dc), PreviousLink(peers, id)))
    ensures forall q :: q != id ==> Get(r, q) == Get(peers, q)
    ensures Keys(r) == if id in Keys(peers) then Keys(peers) else Keys(peers) + [id]
    ensures Unique(peers) ==> Unique(r)
  {
    Put(peers, id, Peer(Connected, Some(dc), PreviousLink(peers, id)))
  }

  /** The channel stored for a peer (`peersRef.current[id]?.dc`). */
  function ChannelOf(peers: Peers, id: PeerId): (r: Option<ChannelId>)
    ensures Get(peers, id).Some? ==> r == Get(peers, id).value.dc
    ensures id !in Keys(peers) ==> r.None?
  {
    match Get(peers, id)
    case Some(p) => p.dc
    case None => None
  }

  /**
   * `peer-left` followed by `new-peer` for the same id yields a fresh pending entry that
   * holds no channel and no connection of the old one.
   */
  lemma RejoinIsFresh(peers: Peers, id: PeerId)
    ensures Get(NewPeerUpdate(PeerLeftUpdate(peers, id), id), id) == Some(Peer(Pending, None, None))
    ensures ChannelOf(NewPeerUpdate(PeerLeftUpdate(peers, id), id), id) == None
    ensures Keys(NewPeerUpdate(PeerLeftUpdate(peers, id), id)) == Keys(PeerLeftUpdate(peers, id)) + [id]
  {
    var left := PeerLeftUpdate(peers, id);
    assert Get(left, id) == None;
  }
}

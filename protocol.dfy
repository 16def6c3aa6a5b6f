/**
 * The values exchanged by the page: relay envelopes, data-channel frames, the peer table's
 * entries, the conversation's messages and the receiver's per-file bookkeeping.
 */
module Protocol {
  import opened Optional

  type PeerId = string
  type FileId = string
  /** Handle of a browser data channel (an index into the page's channel table). */
  type ChannelId = nat
  /** Handle of a browser peer connection (an index into the page's link table). */
  type LinkId = nat
  type Byte = b: int | 0 <= b < 256

  /** 256 KiB: the fixed size of every file chunk but the last. */
  const CHUNK_SIZE: nat := 256 * 1024
  /** 8 MiB: the data channel's buffered-amount high-water mark. */
  const MAX_BUFFER: nat := 8 * 1024 * 1024
  /** Concurrent chunk sends a transfer starts with. */
  const INITIAL_WINDOW: nat := 5
  /** Upper bound of the adaptive window. */
  const MAX_WINDOW: nat := 20

  /**
   * A peer's `status` string: "pending" (announced, no connection yet) or one of the
   * peer-connection states; "connecting" and "connected" are also written by the page itself.
   */
  datatype Status = Pending | New | Connecting | Connected | Disconnected | Failed | Closed

  /** The states an RTCPeerConnection reports through `connectionState`. */
  type ConnectionState = s: Status | !s.Pending? witness New

  /** A peer table entry `{ status, dc, pc }`; an absent property is `None`. */
  datatype Peer = Peer(status: Status, dc: Option<ChannelId>, pc: Option<LinkId>)

  /** Envelopes the page sends to the relay. */
  datatype Envelope =
    | Join(room: string)
    | Offer(to: PeerId, sdp: string)
    | Answer(to: PeerId, sdp: string)
    | Candidate(to: PeerId, candidate: string)

  /** Envelopes the relay delivers, by their `type` field; any other type is `Unknown`. */
  datatype RelayEvent =
    | RoomAssigned(room: string, name: string)
    | RoomJoined(room: string, name: string)
    | NewPeer(id: PeerId)
    | OfferFrom(from: PeerId, sdp: string)
    | AnswerFrom(from: PeerId, sdp: string)
    | CandidateFrom(from: PeerId, candidate: string)
    | PeerLeft(id: PeerId)
    | Unknown(kind: string)

  /**
   * An object sent over a data channel as JSON. A property the object does not have is
   * the empty string or 0, which is exactly when JavaScript finds it falsy.
   */
  datatype Payload = Payload(
    sender: string, message: string,
    filename: string, size: int, totalChunks: int, fileId: FileId, mime: string)

  /** The chat object `{ sender, message }`. */
  function ChatPayload(sender: string, message: string): Payload {
    Payload(sender, message, "", 0, 0, "", "")
  }

  /** What is handed to a socket's or channel's `send`. */
  datatype Frame =
    | EnvelopeText(e: Envelope)   // JSON.stringify of a relay envelope
    | PayloadText(p: Payload)     // JSON.stringify of a channel payload
    | PlainObject(p: Payload)     // an object passed to send without JSON.stringify
    | Chunk(bytes: seq<Byte>)     // an ArrayBuffer

  /** An entry of the conversation shown to the user. */
  datatype Message =
    | Chat(sender: string, message: string)
    | FileMsg(sender: string, filename: string, fileSize: Option<int>,
              blob: Option<seq<Byte>>, progress: int, fileId: FileId)

  /** A file being received: `{ chunks, size, received, metadata }`. */
  datatype Incoming = Incoming(chunks: seq<seq<Byte>>, size: int, received: nat, metadata: Payload)

  /** A dropped file: its name, its MIME type ("" when the browser gives none) and its bytes. */
  datatype FileInfo = FileInfo(name: string, mime: string, bytes: seq<Byte>)
}

/**
 * The receiving side of a data channel (`dc.onmessage`): text payloads are chat messages or
 * file metadata, binary payloads are chunks of the first registered file still missing bytes.
 * The state is the page's `incomingFilesRef` (in registration order) and its message list.
 */
module Reassembly {
  import opened Optional
  import opened OrderedMap
  import opened Protocol

  type Files = Assoc<FileId, Incoming>

  datatype RxState = RxState(incoming: Files, messages: seq<Message>)

  /** `received.message && received.sender` */
  predicate IsChat(p: Payload) {
    p.message != "" && p.sender != ""
  }

  /** `received.filename && received.size && received.totalChunks && received.fileId` */
  predicate IsMetadata(p: Payload) {
    p.filename != "" && p.size != 0 && p.totalChunks != 0 && p.fileId != ""
  }

  /** `sender || peerId` */
  function SenderOr(sender: string, peer: PeerId): string {
    if sender != "" then sender else peer
  }

  /** The bytes of a file's chunks, in arrival order (`new Blob(chunks)`). */
  function Concat(chunks: seq<seq<Byte>>): seq<Byte> {
    if chunks == [] then [] else Concat(chunks[..|chunks| - 1]) + chunks[|chunks| - 1]
  }

  lemma ConcatSnoc(chunks: seq<seq<Byte>>, b: seq<Byte>)
    ensures Concat(chunks + [b]) == Concat(chunks) + b
  {
    assert (chunks + [b])[..|chunks|] == chunks;
  }

  /** Every entry's byte count is the length of the chunks it holds. */
  predicate Consistent(m: Files) {
    forall e :: e in m ==> e.1.received == |Concat(e.1.chunks)|
  }

  /** Handling of a parsed text payload. */
  function ReceiveText(st: RxState, peer: PeerId, p: Payload): (r: RxState)
    ensures IsChat(p) ==>
      r.incoming == st.incoming && r.messages == st.messages + [Chat(p.sender, p.message)]
    ensures !IsChat(p) && IsMetadata(p) ==>
      && Get(r.incoming, p.fileId) == Some(Incoming([], p.size, 0, p))
      && (forall id :: id != p.fileId ==> Get(r.incoming, id) == Get(st.incoming, id))
      && r.messages == st.messages +
           [FileMsg(SenderOr(p.sender, peer), p.filename, Some(p.size), None, 0, p.fileId)]
    ensures !IsChat(p) && !IsMetadata(p) ==> r == st
    ensures Unique(st.incoming) && Consistent(st.incoming) ==>
      Unique(r.incoming) && Consistent(r.incoming)
  {
    if IsChat(p) then
      st.(messages := st.messages + [Chat(SenderOr(p.sender, peer), p.message)])
    else if IsMetadata(p) then
      var entry := Incoming([], p.size, 0, p);
      var placeholder := FileMsg(SenderOr(p.sender, peer), p.filename, Some(p.size), None, 0, p.fileId);
      var incoming := Put(st.incoming, p.fileId, entry);
      assert forall e :: e in incoming ==> e == (p.fileId, entry) || e in st.incoming by {
        PutElements(st.incoming, p.fileId, entry);
      }
      RxState(incoming, st.messages + [placeholder])
    else
      st
  }

  /**
   * Position of the first registered file whose `received < size`
   * (`Object.keys(...).find(...)`), or `|m|` when there is none.
   */
  function FirstUnfilled(m: Files): (r: nat)
    ensures r <= |m|
    ensures r < |m| ==> m[r].1.received < m[r].1.size
    ensures forall j :: 0 <= j < r ==> m[j].1.size <= m[j].1.received
  {
    if m == [] then 0
    else if m[0].1.received < m[0].1.size then 0
    else 1 + FirstUnfilled(m[1..])
  }

  /** `Math.min(100, floor(received / size * 100))`, computed on integers. */
  function Progress(received: nat, size: int): (r: int)
    requires size > 0
    ensures 0 <= r <= 100
    ensures received >= size ==> r == 100
    ensures received < size ==> r < 100
  {
    var pct := 100 * received / size;
    PercentBounds(received, size);
    if pct < 100 then pct else 100
  }

  /** The integer percentage reaches 100 exactly when the count reaches the size. */
  lemma PercentBounds(received: nat, size: int)
    requires size > 0
    ensures 0 <= 100 * received / size
    ensures received >= size <==> 100 * received / size >= 100
  {
    var n := 100 * received;
    var pct := n / size;
    assert n == pct * size + n % size && 0 <= n % size < size;
    if received >= size {
      MulLeft(100, size, received);
      if pct < 100 {
        MulLeft(size, pct, 99);
        assert false;
      }
    } else {
      MulLeft(100, received + 1, size);
      if pct >= 100 {
        MulLeft(size, 100, pct);
        assert false;
      }
    }
  }

  /** Multiplying by a positive factor keeps `<=`. */
  lemma MulLeft(c: int, x: int, y: int)
    requires c > 0 && x <= y
    ensures c * x <= c * y
  {
    assert c * y - c * x == c * (y - x);
  }

  /** `prev.map(msg => msg.fileId === id && !msg.fileBlob ? { ...msg, progress } : msg)` */
  function SetProgress(ms: seq<Message>, id: FileId, progress: int): seq<Message> {
    seq(|ms|, i requires 0 <= i < |ms| =>
      if ms[i].FileMsg? && ms[i].fileId == id && ms[i].blob.None? then ms[i].(progress := progress)
      else ms[i])
  }

  /** `prev.map(msg => msg.fileId === id ? { ...msg, fileBlob: combined, progress: 100 } : msg)` */
  function Complete(ms: seq<Message>, id: FileId, blob: seq<Byte>): seq<Message> {
    seq(|ms|, i requires 0 <= i < |ms| =>
      if ms[i].FileMsg? && ms[i].fileId == id then ms[i].(blob := Some(blob), progress := 100)
      else ms[i])
  }

  /** A file entry after a chunk: `chunks.push(b); received += b.byteLength`. */
  function Grow(e: Incoming, b: seq<Byte>): Incoming {
    e.(chunks := e.chunks + [b], received := e.received + |b|)
  }

  /** `incomingFilesRef` after a chunk for the file at position `i`. */
  function FilesAfterChunk(m: Files, i: nat, b: seq<Byte>): Files
    requires i < |m|
  {
    var e' := Grow(m[i].1, b);
    if e'.received >= e'.size then Remove(m, m[i].0) else m[i := (m[i].0, e')]
  }

  /** The message list after a chunk for file `id` whose entry was `e`. */
  function MessagesAfterChunk(ms: seq<Message>, id: FileId, e: Incoming, b: seq<Byte>): seq<Message>
    requires e.received < e.size
  {
    var e' := Grow(e, b);
    var withProgress := SetProgress(ms, id, Progress(e'.received, e'.size));
    if e'.received >= e'.size then Complete(withProgress, id, Concat(e'.chunks)) else withProgress
  }

  /** Handling of a binary payload. */
  function ReceiveChunk(st: RxState, b: seq<Byte>): RxState {
    var i := FirstUnfilled(st.incoming);
    if i == |st.incoming| then st
    else
      RxState(FilesAfterChunk(st.incoming, i, b),
              MessagesAfterChunk(st.messages, st.incoming[i].0, st.incoming[i].1, b))
  }

  /** One `onmessage` event carrying what the remote side handed to `send`. */
  function Receive(st: RxState, peer: PeerId, f: Frame): RxState {
    match f
    case PayloadText(p) => ReceiveText(st, peer, p)
    case Chunk(b) => ReceiveChunk(st, b)
    // JSON of a relay envelope has none of the properties the handler looks at
    case EnvelopeText(_) => st
    // arrives as the text "[object Object]": JSON.parse throws and the error is caught
    case PlainObject(_) => st
  }

  /**
   * An object handed to `send` unserialised arrives as text that is not JSON: nothing changes,
   * whatever it carried.
   */
  lemma PlainObjectIgnored(st: RxState, peer: PeerId, obj: Payload)
    ensures Receive(st, peer, PlainObject(obj)) == st
  {
  }

  /** A sequence of `onmessage` events on one channel, in order. */
  function ReceiveAll(st: RxState, peer: PeerId, frames: seq<Frame>): RxState
    decreases |frames|
  {
    if frames == [] then st else ReceiveAll(Receive(st, peer, frames[0]), peer, frames[1..])
  }

  /**
   * A chunk goes to the first registered file still missing bytes, whichever channel it came
   * from; with no such file nothing changes. Its bytes are appended to that file and its count
   * grows by exactly the chunk's length; once the count reaches the size the entry is deleted,
   * so no later chunk can be appended to it. Other files are untouched.
   */
  lemma ChunkTarget(st: RxState, b: seq<Byte>)
    requires Unique(st.incoming)
    ensures var i := FirstUnfilled(st.incoming);
      forall j :: 0 <= j < i ==> st.incoming[j].1.received >= st.incoming[j].1.size
    ensures FirstUnfilled(st.incoming) == |st.incoming| ==> ReceiveChunk(st, b) == st
    ensures var r := ReceiveChunk(st, b);
      var i := FirstUnfilled(st.incoming);
      i < |st.incoming| ==>
        var id := st.incoming[i].0;
        var e := st.incoming[i].1;
        var grown := Grow(e, b);
        && st.incoming[i].1.received < st.incoming[i].1.size
        && (forall k :: k != id ==> Get(r.incoming, k) == Get(st.incoming, k))
        && Get(r.incoming, id) == (if grown.received < e.size then Some(grown) else None)
        && r.incoming == if grown.received < e.size then st.incoming[i := (id, grown)]
                         else st.incoming[..i] + st.incoming[i + 1..]
  {
    var i := FirstUnfilled(st.incoming);
    if i < |st.incoming| {
      var e' := Grow(st.incoming[i].1, b);
      assert ReceiveChunk(st, b).incoming == FilesAfterChunk(st.incoming, i, b);
      if e'.received < e'.size {
        UpdateAtIsPut(st.incoming, i, e');
      } else {
        RemoveAt(st.incoming, i);
      }
    }
  }

  /**
   * The messages after a chunk for file `id`: while the file is incomplete its placeholders
   * (messages of that file without a blob) show the recomputed progress; once complete every
   * message of that file gets the concatenated chunks and progress 100. Other messages are
   * untouched.
   */
  lemma ChunkMessages(st: RxState, b: seq<Byte>)
    ensures var r := ReceiveChunk(st, b);
      var i := FirstUnfilled(st.incoming);
      i < |st.incoming| ==>
        var id := st.incoming[i].0;
        var e := st.incoming[i].1;
        var received := e.received + |b|;
        && |r.messages| == |st.messages|
        && forall j :: 0 <= j < |st.messages| ==>
             var m := st.messages[j];
             r.messages[j] ==
               if !(m.FileMsg? && m.fileId == id) then m
               else if received >= e.size then m.(blob := Some(Concat(e.chunks + [b])), progress := 100)
               else if m.blob.None? then m.(progress := Progress(received, e.size))
               else m
  {
  }

  lemma ChunkKeepsInvariant(m: Files, i: nat, b: seq<Byte>)
    requires Unique(m) && Consistent(m) && i < |m|
    ensures Unique(FilesAfterChunk(m, i, b)) && Consistent(FilesAfterChunk(m, i, b))
  {
    var e' := Grow(m[i].1, b);
    ConcatSnoc(m[i].1.chunks, b);
    assert m[i] in m;
    if e'.received < e'.size {
      UpdateAtIsPut(m, i, e');
      PutElements(m, m[i].0, e');
    } else {
      RemoveUnique(m, m[i].0);
    }
  }

  /** Receiving keeps keys distinct and every count equal to the bytes held. */
  lemma ReceiveKeepsInvariant(st: RxState, peer: PeerId, f: Frame)
    requires Unique(st.incoming) && Consistent(st.incoming)
    ensures Unique(Receive(st, peer, f).incoming) && Consistent(Receive(st, peer, f).incoming)
  {
    if f.Chunk? {
      var i := FirstUnfilled(st.incoming);
      if i < |st.incoming| {
        ChunkKeepsInvariant(st.incoming, i, f.bytes);
      }
    }
  }

  /** On completion the assembled file is exactly as long as the byte count says. */
  lemma CompletedLength(st: RxState, b: seq<Byte>)
    requires Consistent(st.incoming)
    requires FirstUnfilled(st.incoming) < |st.incoming|
    ensures var e := st.incoming[FirstUnfilled(st.incoming)].1;
      |Concat(e.chunks + [b])| == e.received + |b|
  {
    var e := st.incoming[FirstUnfilled(st.incoming)].1;
    assert st.incoming[FirstUnfilled(st.incoming)] in st.incoming;
    ConcatSnoc(e.chunks, b);
  }
}

/**
 * A file sent over one data channel and received at the other end: the frames `handleDrop`
 * sends (metadata, then the slices in order), delivered in order to `dc.onmessage`, rebuild
 * the file byte for byte.
 */
module Transfer {
  import opened Optional
  import opened OrderedMap
  import opened Protocol
  import opened Reassembly
  import opened Chunking

  /** A receiver that is not in the middle of any file and has never seen `fileId`. */
  predicate Idle(st: RxState, fileId: FileId) {
    && (forall e :: e in st.incoming ==> e.1.size <= e.1.received)
    && fileId !in Keys(st.incoming)
    && (forall m :: m in st.messages ==> !(m.FileMsg? && m.fileId == fileId))
  }

  /** The placeholder the receiver shows for the file. */
  function Shown(peer: PeerId, sender: string, file: FileInfo, fileId: FileId,
                 blob: Option<seq<Byte>>, progress: int): Message {
    FileMsg(SenderOr(sender, peer), file.name, Some(|file.bytes|), blob, progress, fileId)
  }

  /** The file's entry after its metadata and `k` chunks. */
  function EntryAt(sender: string, file: FileInfo, fileId: FileId, k: nat): Incoming
    requires k <= TotalChunks(|file.bytes|)
  {
    Incoming(Slices(file.bytes)[..k], |file.bytes|, k * CHUNK_SIZE, MetaFor(sender, file, fileId))
  }

  /** The receiver after the metadata and the first `k` chunks, before the last one. */
  function AfterChunks(st: RxState, peer: PeerId, sender: string, file: FileInfo, fileId: FileId, k: nat): RxState
    requires k < TotalChunks(|file.bytes|)
  {
    StartInside(|file.bytes|, k);
    var received := k * CHUNK_SIZE;
    RxState(st.incoming + [(fileId, EntryAt(sender, file, fileId, k))],
            st.messages + [Shown(peer, sender, file, fileId, None, Progress(received, |file.bytes|))])
  }

  /** The receiver once the whole file has arrived. */
  function Completed(st: RxState, peer: PeerId, sender: string, file: FileInfo, fileId: FileId): RxState {
    RxState(st.incoming, st.messages + [Shown(peer, sender, file, fileId, Some(file.bytes), 100)])
  }

  /** `SetProgress` and `Complete` leave messages of other files alone. */
  lemma UpdatesTouchOnlyFile(ms: seq<Message>, m: Message, id: FileId, p: int, blob: seq<Byte>)
    requires forall x :: x in ms ==> !(x.FileMsg? && x.fileId == id)
    requires m.FileMsg? && m.fileId == id
    ensures SetProgress(ms + [m], id, p) == ms + [if m.blob.None? then m.(progress := p) else m]
    ensures Complete(ms + [m], id, blob) == ms + [m.(blob := Some(blob), progress := 100)]
  {
    assert forall i :: 0 <= i < |ms| ==> ms[i] in ms;
  }

  /** Metadata for a new file appends its entry and a placeholder with progress 0. */
  lemma MetadataAppends(st: RxState, peer: PeerId, meta: Payload)
    requires !IsChat(meta) && IsMetadata(meta) && meta.fileId !in Keys(st.incoming)
    ensures ReceiveText(st, peer, meta) ==
            RxState(st.incoming + [(meta.fileId, Incoming([], meta.size, 0, meta))],
                    st.messages + [FileMsg(SenderOr(meta.sender, peer), meta.filename, Some(meta.size), None, 0, meta.fileId)])
  {
    PutAbsent(st.incoming, meta.fileId, Incoming([], meta.size, 0, meta));
  }

  lemma ProgressZero(size: int)
    requires size > 0
    ensures Progress(0, size) == 0
  {
    assert 100 * 0 == 0;
    assert 0 / size == 0;
  }

  /** The metadata registers the file at the end of the table with an empty placeholder. */
  lemma MetadataStep(st: RxState, peer: PeerId, sender: string, file: FileInfo, fileId: FileId)
    requires fileId !in Keys(st.incoming) && file.name != "" && |file.bytes| > 0 && fileId != ""
    ensures Receive(st, peer, PayloadText(MetaFor(sender, file, fileId))) ==
            AfterChunks(st, peer, sender, file, fileId, 0)
  {
    var meta := MetaFor(sender, file, fileId);
    MetadataAppends(st, peer, meta);
    assert Slices(file.bytes)[..0] == [];
    ProgressZero(|file.bytes|);
    var expected := RxState(st.incoming + [(fileId, Incoming([], |file.bytes|, 0, meta))],
                            st.messages + [Shown(peer, sender, file, fileId, None, 0)]);
    assert AfterChunks(st, peer, sender, file, fileId, 0) == expected;
    assert Receive(st, peer, PayloadText(meta)) == ReceiveText(st, peer, meta) == expected;
  }

  /** A file appended behind complete ones is the first still missing bytes. */
  lemma AppendedIsFirstUnfilled(files: Files, id: FileId, e: Incoming)
    requires forall x :: x in files ==> x.1.size <= x.1.received
    requires e.received < e.size
    ensures FirstUnfilled(files + [(id, e)]) == |files|
  {
    var m := files + [(id, e)];
    forall j | 0 <= j < |files| ensures m[j].1.size <= m[j].1.received {
      assert m[j] == files[j] && files[j] in files;
    }
    assert m[|files|].1.received < m[|files|].1.size;
    var i := FirstUnfilled(m);
    if i < |files| {
      assert false;
    }
  }

  /** A chunk for the last-appended file grows it in place or, when it completes, deletes it. */
  lemma FilesStep(files: Files, id: FileId, e: Incoming, b: seq<Byte>)
    requires id !in Keys(files)
    ensures FilesAfterChunk(files + [(id, e)], |files|, b) ==
            if Grow(e, b).received >= e.size then files else files + [(id, Grow(e, b))]
  {
    var m := files + [(id, e)];
    if Grow(e, b).received >= e.size {
      RemoveAppended(files, id, e);
    } else {
      assert m[|files| := (id, Grow(e, b))] == files + [(id, Grow(e, b))];
    }
  }

  /** The messages after a chunk of the last-appended file, whose only message is its placeholder. */
  lemma MessagesStep(ms: seq<Message>, ph: Message, e: Incoming, b: seq<Byte>)
    requires ph.FileMsg? && ph.blob.None? && e.received < e.size
    requires forall x :: x in ms ==> !(x.FileMsg? && x.fileId == ph.fileId)
    ensures MessagesAfterChunk(ms + [ph], ph.fileId, e, b) ==
            ms + [if Grow(e, b).received >= e.size
                  then ph.(blob := Some(Concat(Grow(e, b).chunks)), progress := 100)
                  else ph.(progress := Progress(Grow(e, b).received, e.size))]
  {
    var p := Progress(Grow(e, b).received, e.size);
    UpdatesTouchOnlyFile(ms, ph, ph.fileId, p, Concat(Grow(e, b).chunks));
    UpdatesTouchOnlyFile(ms, ph.(progress := p), ph.fileId, p, Concat(Grow(e, b).chunks));
  }

  /**
   * A chunk arriving while the last-appended file is the only one missing bytes goes to that
   * file, whose only message is its placeholder.
   */
  lemma ChunkToAppended(files: Files, ms: seq<Message>, id: FileId, e: Incoming, ph: Message, b: seq<Byte>)
    requires forall x :: x in files ==> x.1.size <= x.1.received
    requires id !in Keys(files) && e.received < e.size
    requires ph.FileMsg? && ph.fileId == id && ph.blob.None?
    requires forall x :: x in ms ==> !(x.FileMsg? && x.fileId == id)
    ensures var g := Grow(e, b);
      ReceiveChunk(RxState(files + [(id, e)], ms + [ph]), b) ==
      if g.received >= e.size then RxState(files, ms + [ph.(blob := Some(Concat(g.chunks)), progress := 100)])
      else RxState(files + [(id, g)], ms + [ph.(progress := Progress(g.received, e.size))])
  {
    AppendedIsFirstUnfilled(files, id, e);
    assert (files + [(id, e)])[|files|] == (id, e);
    FilesStep(files, id, e, b);
    MessagesStep(ms, ph, e, b);
  }

  /** The entry after chunk `k` holds the first `k + 1` slices and counts their bytes. */
  lemma GrowBySlice(bytes: seq<Byte>, k: nat, e: Incoming)
    requires k < TotalChunks(|bytes|)
    requires e.chunks == Slices(bytes)[..k] && e.received == k * CHUNK_SIZE
    ensures Grow(e, Slice(bytes, k)).chunks == Slices(bytes)[..k + 1]
    ensures Grow(e, Slice(bytes, k)).received == Min((k + 1) * CHUNK_SIZE, |bytes|)
  {
    StartInside(|bytes|, k);
    assert Slices(bytes)[..k + 1] == Slices(bytes)[..k] + [Slice(bytes, k)];
  }

  /** Chunk `k` goes to this file: its entry grows by the slice, its placeholder is updated. */
  lemma ChunkGrows(st: RxState, peer: PeerId, sender: string, file: FileInfo, fileId: FileId, k: nat)
    requires Idle(st, fileId) && k < TotalChunks(|file.bytes|)
    ensures var g := Grow(EntryAt(sender, file, fileId, k), Slice(file.bytes, k));
      var ph := Shown(peer, sender, file, fileId, None, Progress(k * CHUNK_SIZE, |file.bytes|));
      && g.chunks == Slices(file.bytes)[..k + 1]
      && g.received == Min((k + 1) * CHUNK_SIZE, |file.bytes|)
      && Receive(AfterChunks(st, peer, sender, file, fileId, k), peer, ChunkFrames(file.bytes)[k]) ==
         if g.received >= |file.bytes| then RxState(st.incoming, st.messages + [ph.(blob := Some(Concat(g.chunks)), progress := 100)])
         else RxState(st.incoming + [(fileId, g)], st.messages + [ph.(progress := Progress(g.received, |file.bytes|))])
  {
    var bytes := file.bytes;
    StartInside(|bytes|, k);
    var e := EntryAt(sender, file, fileId, k);
    var ph := Shown(peer, sender, file, fileId, None, Progress(k * CHUNK_SIZE, |bytes|));
    var b := Slice(bytes, k);
    assert AfterChunks(st, peer, sender, file, fileId, k) == RxState(st.incoming + [(fileId, e)], st.messages + [ph]);
    assert ChunkFrames(bytes)[k] == Chunk(b);
    ChunkToAppended(st.incoming, st.messages, fileId, e, ph, b);
    GrowBySlice(bytes, k, e);
  }

  /** Chunk `k` goes to this file, and completes it exactly when it is the last one. */
  lemma ChunkStep(st: RxState, peer: PeerId, sender: string, file: FileInfo, fileId: FileId, k: nat)
    requires Idle(st, fileId) && k < TotalChunks(|file.bytes|)
    ensures Receive(AfterChunks(st, peer, sender, file, fileId, k), peer, ChunkFrames(file.bytes)[k]) ==
            if k + 1 < TotalChunks(|file.bytes|) then AfterChunks(st, peer, sender, file, fileId, k + 1)
            else Completed(st, peer, sender, file, fileId)
  {
    var bytes := file.bytes;
    StartInside(|bytes|, k + 1);
    ChunkGrows(st, peer, sender, file, fileId, k);
    if k + 1 == TotalChunks(|bytes|) {
      SlicesCoverFile(bytes);
      assert Slices(bytes)[..k + 1] == Slices(bytes);
    }
  }

  lemma {:induction false} RemainingChunks(st: RxState, peer: PeerId, sender: string, file: FileInfo, fileId: FileId, k: nat)
    requires Idle(st, fileId) && k < TotalChunks(|file.bytes|)
    ensures ReceiveAll(AfterChunks(st, peer, sender, file, fileId, k), peer, ChunkFrames(file.bytes)[k..]) ==
            Completed(st, peer, sender, file, fileId)
    decreases TotalChunks(|file.bytes|) - k
  {
    var frames := ChunkFrames(file.bytes);
    ChunkStep(st, peer, sender, file, fileId, k);
    assert frames[k..][0] == frames[k];
    assert frames[k..][1..] == frames[k + 1..];
    if k + 1 < TotalChunks(|file.bytes|) {
      RemainingChunks(st, peer, sender, file, fileId, k + 1);
    } else {
      assert frames[k + 1..] == [];
    }
  }

  /**
   * Round trip: an idle receiver that gets a non-empty file's metadata followed by its chunks
   * ends with its file table as before and one new message holding the original bytes with
   * progress 100.
   */
  lemma FileRoundTrip(st: RxState, peer: PeerId, sender: string, file: FileInfo, fileId: FileId)
    requires Idle(st, fileId) && file.name != "" && |file.bytes| > 0 && fileId != ""
    ensures ReceiveAll(st, peer, [PayloadText(MetaFor(sender, file, fileId))] + ChunkFrames(file.bytes)) ==
            RxState(st.incoming, st.messages +
              [FileMsg(SenderOr(sender, peer), file.name, Some(|file.bytes|), Some(file.bytes), 100, fileId)])
  {
    var frames := [PayloadText(MetaFor(sender, file, fileId))] + ChunkFrames(file.bytes);
    MetadataStep(st, peer, sender, file, fileId);
    assert frames[1..] == ChunkFrames(file.bytes)[0..];
    RemainingChunks(st, peer, sender, file, fileId, 0);
  }

  /** A zero-byte file announces `size: 0`, which the receiver ignores, and sends no chunk. */
  lemma EmptyFileIgnored(st: RxState, peer: PeerId, sender: string, file: FileInfo, fileId: FileId)
    requires |file.bytes| == 0
    ensures ReceiveAll(st, peer, [PayloadText(MetaFor(sender, file, fileId))] + ChunkFrames(file.bytes)) == st
  {
    var frames := [PayloadText(MetaFor(sender, file, fileId))] + ChunkFrames(file.bytes);
    assert frames[1..] == [];
  }
}

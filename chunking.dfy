/**
 * The sender's plan for a dropped file (`handleDrop`): the metadata object, the slices
 * `[offset, offset + CHUNK_SIZE)` with `offset` stepping by `CHUNK_SIZE`, and the adaptive window.
 */
module Chunking {
  import opened Protocol
  import opened Reassembly

  /** `Math.ceil(size / CHUNK_SIZE)` */
  function TotalChunks(size: nat): (n: nat)
    ensures n * CHUNK_SIZE >= size
    ensures n > 0 ==> (n - 1) * CHUNK_SIZE < size
    ensures n == 0 <==> size == 0
  {
    (size + CHUNK_SIZE - 1) / CHUNK_SIZE
  }

  /** A slice starting at `k * CHUNK_SIZE` lies inside the file exactly for the first `TotalChunks` values of `k`. */
  lemma StartInside(size: nat, k: nat)
    ensures k * CHUNK_SIZE < size <==> k < TotalChunks(size)
  {
    var n := TotalChunks(size);
    if k < n {
      assert k * CHUNK_SIZE <= (n - 1) * CHUNK_SIZE;
    } else {
      assert k * CHUNK_SIZE >= n * CHUNK_SIZE;
    }
  }

  function Min(a: int, b: int): int {
    if a <= b then a else b
  }

  /** `file.slice(k * CHUNK_SIZE, k * CHUNK_SIZE + CHUNK_SIZE)`, which stops at the end of the file. */
  function Slice(file: seq<Byte>, k: nat): (r: seq<Byte>)
    requires k < TotalChunks(|file|)
    ensures 0 < |r| <= CHUNK_SIZE
    ensures k + 1 < TotalChunks(|file|) ==> |r| == CHUNK_SIZE
  {
    StartInside(|file|, k);
    StartInside(|file|, k + 1);
    file[k * CHUNK_SIZE .. Min((k + 1) * CHUNK_SIZE, |file|)]
  }

  /** The chunk bytes in the order the slices are taken. */
  function Slices(file: seq<Byte>): (r: seq<seq<Byte>>)
    ensures |r| == TotalChunks(|file|)
  {
    seq(TotalChunks(|file|), k requires 0 <= k < TotalChunks(|file|) => Slice(file, k))
  }

  /** The binary frames a transfer sends after its metadata. */
  function ChunkFrames(file: seq<Byte>): (r: seq<Frame>)
    ensures |r| == TotalChunks(|file|)
    ensures forall k :: 0 <= k < |r| ==> r[k] == Chunk(Slices(file)[k])
  {
    seq(TotalChunks(|file|), k requires 0 <= k < TotalChunks(|file|) => Chunk(Slice(file, k)))
  }

  /** The frames of the first `k + 1` chunks are those of the first `k`, then chunk `k`. */
  lemma FramesNext(file: seq<Byte>, k: nat)
    requires k < TotalChunks(|file|)
    ensures ChunkFrames(file)[..k + 1] == ChunkFrames(file)[..k] + [Chunk(Slice(file, k))]
  {
    assert ChunkFrames(file)[k] == Chunk(Slice(file, k));
  }

  /** The first `k` slices are the first `k * CHUNK_SIZE` bytes (or the whole file): disjoint and contiguous. */
  lemma {:induction false} SlicesPrefix(file: seq<Byte>, k: nat)
    requires k <= TotalChunks(|file|)
    ensures Concat(Slices(file)[..k]) == file[..Min(k * CHUNK_SIZE, |file|)]
  {
    if k > 0 {
      SlicesPrefix(file, k - 1);
      StartInside(|file|, k - 1);
      assert Slices(file)[..k][..k - 1] == Slices(file)[..k - 1];
      var lo := (k - 1) * CHUNK_SIZE;
      assert Min(lo, |file|) == lo;
      assert file[..Min(k * CHUNK_SIZE, |file|)] == file[..lo] + file[lo..Min(k * CHUNK_SIZE, |file|)];
    }
  }

  /** Together the slices are exactly the file. */
  lemma SlicesCoverFile(file: seq<Byte>)
    ensures Concat(Slices(file)) == file
  {
    var n := TotalChunks(|file|);
    SlicesPrefix(file, n);
    assert Slices(file)[..n] == Slices(file);
  }

  /** The metadata object sent before any chunk. */
  function MetaFor(sender: string, file: FileInfo, fileId: FileId): (p: Payload)
    ensures p.size == |file.bytes| && p.totalChunks == TotalChunks(|file.bytes|)
    ensures p.message == "" && p.fileId == fileId && p.filename == file.name && p.sender == sender
    ensures p.mime == if file.mime != "" then file.mime else "application/octet-stream"
  {
    Payload(sender, "", file.name, |file.bytes|, TotalChunks(|file.bytes|), fileId,
            if file.mime != "" then file.mime else "application/octet-stream")
  }

  /**
   * One window adjustment after a chunk send, given the channel's `bufferedAmount`:
   * it grows only while below the cap and only when the buffer is under a quarter of
   * MAX_BUFFER, shrinks only while above 1 and only when the buffer is over half.
   */
  function AdjustWindow(w: int, buffered: int): (r: int)
    ensures 1 <= w <= MAX_WINDOW ==> 1 <= r <= MAX_WINDOW
    ensures w - 1 <= r <= w + 1
    ensures r > w ==> buffered < MAX_BUFFER / 4 && w < MAX_WINDOW
    ensures r < w ==> buffered > MAX_BUFFER / 2 && w > 1
    ensures buffered < MAX_BUFFER / 4 && w < MAX_WINDOW ==> r == w + 1
    ensures buffered > MAX_BUFFER / 2 && w > 1 ==> r == w - 1
    ensures !(buffered < MAX_BUFFER / 4 && w < MAX_WINDOW) && !(buffered > MAX_BUFFER / 2 && w > 1) ==> r == w
  {
    if buffered < MAX_BUFFER / 4 && w < MAX_WINDOW then w + 1
    else if buffered > MAX_BUFFER / 2 && w > 1 then w - 1
    else w
  }

  /** The window after one adjustment per reading, in order. */
  function WindowAfter(w: int, readings: seq<int>): int {
    if readings == [] then w
    else AdjustWindow(WindowAfter(w, readings[..|readings| - 1]), readings[|readings| - 1])
  }

  /** The first `n` readings of `bufferedAmount`, one after each chunk sent. */
  function Readings(bufferedAfter: nat -> int, n: nat): (r: seq<int>)
    ensures |r| == n && forall k :: 0 <= k < n ==> r[k] == bufferedAfter(k)
  {
    seq(n, k requires 0 <= k => bufferedAfter(k))
  }

  /** Claiming one more slice moves the offset by one chunk. */
  lemma NextOffset(k: nat)
    ensures (k + 1) * CHUNK_SIZE == k * CHUNK_SIZE + CHUNK_SIZE
  {
  }

  /** One more reading is one more adjustment of the window. */
  lemma WindowNext(w: int, bufferedAfter: nat -> int, n: nat)
    ensures WindowAfter(w, Readings(bufferedAfter, n + 1)) == AdjustWindow(WindowAfter(w, Readings(bufferedAfter, n)), bufferedAfter(n))
  {
    assert Readings(bufferedAfter, n + 1)[..n] == Readings(bufferedAfter, n);
  }

  /** However many adjustments happen, a window that starts in [1, MAX_WINDOW] stays there. */
  lemma {:induction false} WindowStaysBounded(w: int, readings: seq<int>)
    requires 1 <= w <= MAX_WINDOW
    ensures 1 <= WindowAfter(w, readings) <= MAX_WINDOW
  {
    if readings != [] {
      WindowStaysBounded(w, readings[..|readings| - 1]);
    }
  }

  /** The transfer's pipeline starts `min(INITIAL_WINDOW, totalChunks)` chains. */
  function Starters(size: nat): (r: nat)
    ensures r <= INITIAL_WINDOW && r <= TotalChunks(size)
    ensures r == INITIAL_WINDOW || r == TotalChunks(size)
  {
    Min(INITIAL_WINDOW, TotalChunks(size))
  }
}

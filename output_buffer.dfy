/** The output-volume limit on one ssh or scp run (dcli's readNLines): every time more than
    --maxlines lines have accumulated, the buffer is shown and emptied; in chunk mode
    (serial runs, or a single host) reading goes on, otherwise the rest is dropped and the
    run is marked truncated. */
module OutputBuffer {

  /** Lines per shown chunk: one more than --maxlines, and at least one. */
  function ChunkSize(maxLines: int): (k: nat)
    ensures k >= 1 && k > maxLines
    ensures maxLines >= 0 ==> k == maxLines + 1
  {
    if maxLines + 1 >= 1 then maxLines + 1 else 1
  }

  /** The buffer, filled one line at a time from empty, exceeds --maxlines exactly when it
      holds a whole chunk. */
  lemma BufferFullAt(i: nat, maxLines: int)
    requires 1 <= i <= ChunkSize(maxLines)
    ensures i > maxLines <==> i == ChunkSize(maxLines)
  {
  }

  /** The complete chunks of `k` lines at the front of `lines`, in order. */
  function FullChunks(lines: seq<string>, k: nat): seq<seq<string>>
    requires k >= 1
    decreases |lines|
  {
    if |lines| < k then [] else [lines[..k]] + FullChunks(lines[k..], k)
  }

  /** `"".join` of the chunks: the lines they hold, in order. */
  function Flatten(chunks: seq<seq<string>>): seq<string>
  {
    if |chunks| == 0 then [] else chunks[0] + Flatten(chunks[1..])
  }

  /** The complete chunks are the front of the output, and fewer than `k` lines follow them. */
  lemma {:induction false} FullChunksPrefix(lines: seq<string>, k: nat)
    requires k >= 1
    ensures |Flatten(FullChunks(lines, k))| <= |lines| < |Flatten(FullChunks(lines, k))| + k
    ensures Flatten(FullChunks(lines, k)) == lines[..|Flatten(FullChunks(lines, k))|]
    decreases |lines|
  {
    if |lines| >= k {
      FullChunksPrefix(lines[k..], k);
      var rest := FullChunks(lines[k..], k);
      assert FullChunks(lines, k)[1..] == rest;
      assert Flatten(FullChunks(lines, k)) == lines[..k] + Flatten(rest);
      assert lines[..k] + lines[k..][..|Flatten(rest)|] == lines[..k + |Flatten(rest)|];
    }
  }

  /** What one run's output becomes: the chunks shown while reading, the lines left in the
      buffer (returned to the caller), and whether the output was truncated. */
  datatype Buffered = Buffered(shown: seq<seq<string>>, rest: seq<string>, truncated: bool)

  /** The effect of readNLines on the whole output of a run. */
  function Buffer(lines: seq<string>, maxLines: int, chunkMode: bool): Buffered
  {
    var k := ChunkSize(maxLines);
    if chunkMode then
      var shown := FullChunks(lines, k);
      FullChunksPrefix(lines, k);
      Buffered(shown, lines[|Flatten(shown)|..], false)
    else if |lines| >= k then Buffered([lines[..k]], [], true)
    else Buffered([], lines, false)
  }

  lemma {:induction false} FlattenSnoc(chunks: seq<seq<string>>, c: seq<string>)
    ensures Flatten(chunks + [c]) == Flatten(chunks) + c
  {
    if |chunks| != 0 {
      assert (chunks + [c])[1..] == chunks[1..] + [c];
      FlattenSnoc(chunks[1..], c);
    }
  }

  /** Appending one more complete chunk after a whole number of chunks adds exactly that chunk. */
  lemma {:induction false} FullChunksSnoc(done: seq<string>, c: seq<string>, k: nat)
    requires k >= 1 && |c| == k && Flatten(FullChunks(done, k)) == done
    ensures FullChunks(done + c, k) == FullChunks(done, k) + [c]
    decreases |done|
  {
    if |done| == 0 {
      assert (done + c)[..k] == c && (done + c)[k..] == [];
    } else {
      FullChunksPrefix(done, k);
      var tail := done[k..];
      assert FullChunks(done, k) == [done[..k]] + FullChunks(tail, k);
      assert Flatten(FullChunks(tail, k)) == tail;
      assert (done + c)[..k] == done[..k];
      assert (done + c)[k..] == tail + c;
      FullChunksSnoc(tail, c, k);
    }
  }

  /** A partial chunk after a whole number of chunks adds nothing. */
  lemma {:induction false} FullChunksShortTail(done: seq<string>, t: seq<string>, k: nat)
    requires k >= 1 && |t| < k && Flatten(FullChunks(done, k)) == done
    ensures FullChunks(done + t, k) == FullChunks(done, k)
    decreases |done|
  {
    if |done| == 0 {
      assert done + t == t;
    } else {
      FullChunksPrefix(done, k);
      var tail := done[k..];
      assert FullChunks(done, k) == [done[..k]] + FullChunks(tail, k);
      assert Flatten(FullChunks(tail, k)) == tail;
      assert (done + t)[..k] == done[..k];
      assert (done + t)[k..] == tail + t;
      FullChunksShortTail(tail, t, k);
    }
  }

  /** One chunk-mode step of readNLines: a full buffer after a whole number of chunks. */
  lemma EmitChunk(lines: seq<string>, start: nat, k: nat, shown: seq<seq<string>>)
    requires k >= 1 && start + k <= |lines|
    requires shown == FullChunks(lines[..start], k) && Flatten(shown) == lines[..start]
    ensures shown + [lines[start..start + k]] == FullChunks(lines[..start + k], k)
    ensures Flatten(shown + [lines[start..start + k]]) == lines[..start + k]
  {
    var c := lines[start..start + k];
    assert lines[..start] + c == lines[..start + k];
    FullChunksSnoc(lines[..start], c, k);
    FlattenSnoc(shown, c);
  }

  /** The end of a chunk-mode read: fewer than `k` lines remain after the shown chunks. */
  lemma EndOfInput(lines: seq<string>, start: nat, k: nat, shown: seq<seq<string>>)
    requires k >= 1 && start <= |lines| < start + k
    requires shown == FullChunks(lines[..start], k) && Flatten(shown) == lines[..start]
    ensures shown == FullChunks(lines, k) && |Flatten(shown)| == start
  {
    assert lines[..start] + lines[start..] == lines;
    FullChunksShortTail(lines[..start], lines[start..], k);
  }

  /** dcli's readNLines over the whole output of one run. `chunkMode` is "serial, or one host". */
  method ReadNLines(lines: seq<string>, maxLines: int, chunkMode: bool)
    returns (shown: seq<seq<string>>, outputLines: seq<string>, truncated: bool)
    ensures Buffered(shown, outputLines, truncated) == Buffer(lines, maxLines, chunkMode)
  {
    var k := ChunkSize(maxLines);
    shown := [];
    outputLines := [];
    truncated := false;
    ghost var start := 0;
    var i := 0;
    var n := 0;
    while n < |lines|
      invariant start + i == n <= |lines| && i == |outputLines| < k
      invariant outputLines == lines[start..n]
      invariant chunkMode ==> shown == FullChunks(lines[..start], k) && Flatten(shown) == lines[..start]
      invariant !chunkMode ==> shown == [] && start == 0 && !truncated
    {
      outputLines := outputLines + [lines[n]];
      i := i + 1;
      n := n + 1;
      assert outputLines == lines[start..n];
      BufferFullAt(i, maxLines);
      if i > maxLines {
        if chunkMode {
          EmitChunk(lines, start, k, shown);
        }
        shown := shown + [outputLines];
        start := n;
        i := 0;
        outputLines := [];
        if !chunkMode {
          truncated := true;
          assert shown == [lines[..k]];
          return;
        }
      }
    }
    if chunkMode {
      EndOfInput(lines, start, k, shown);
    }
  }

  /** In chunk mode no line is lost: the shown chunks followed by the returned lines are the
      whole output, and fewer than a chunk's worth are returned. */
  lemma ChunkModeKeepsEveryLine(lines: seq<string>, maxLines: int)
    ensures var b := Buffer(lines, maxLines, true);
      Flatten(b.shown) + b.rest == lines && |b.rest| < ChunkSize(maxLines) && !b.truncated
  {
    FullChunksPrefix(lines, ChunkSize(maxLines));
  }

  /** Every chunk shown holds exactly --maxlines + 1 lines (at least one). */
  lemma {:induction false} ChunksAreFull(lines: seq<string>, k: nat)
    requires k >= 1
    ensures forall j :: 0 <= j < |FullChunks(lines, k)| ==> |FullChunks(lines, k)[j]| == k
    decreases |lines|
  {
    if |lines| >= k {
      ChunksAreFull(lines[k..], k);
    }
  }

  lemma ShownChunksAreFull(lines: seq<string>, maxLines: int, chunkMode: bool)
    ensures var b := Buffer(lines, maxLines, chunkMode);
      forall j :: 0 <= j < |b.shown| ==> |b.shown[j]| == ChunkSize(maxLines)
  {
    ChunksAreFull(lines, ChunkSize(maxLines));
  }

  /** Outside chunk mode at most one chunk is shown, and the output is truncated exactly when
      it has more than --maxlines lines; then nothing is returned, else everything is. */
  lemma TruncationMode(lines: seq<string>, maxLines: int)
    ensures var b := Buffer(lines, maxLines, false);
      |b.shown| <= 1
      && (b.truncated <==> |lines| >= ChunkSize(maxLines))
      && (b.truncated ==> b.rest == [] && b.shown == [lines[..ChunkSize(maxLines)]])
      && (!b.truncated ==> b.rest == lines && b.shown == [])
  {
  }
}

/**
 * scripts/chunk_texts.py: the text of every `.txt` file is split into
 * overlapping runs of words, and chunk i of file `base.txt` is written to
 * `base_chunk_{i+1:03d}.txt`.
 */
module Chunking {
  import opened Common
  import opened Text
  import Seqs

  /** The script's parameters, in words. */
  const ChunkSize: int := 200
  const Overlap: int := 50

  /** `" ".join(words[i:i + size])`. */
  function ChunkText(words: seq<string>, i: nat, size: int): string
  {
    Join(" ", Seqs.PySlice(words, i, i + size))
  }

  /** The values of `range(start, n, step)` for a positive step. */
  function Starts(start: nat, n: nat, step: nat): seq<nat>
    requires step > 0
    decreases n - start
  {
    if start >= n then [] else [start] + Starts(start + step, n, step)
  }

  /** One chunk per start index. */
  function ChunksAt(words: seq<string>, starts: seq<nat>, size: int): (r: seq<string>)
    ensures |r| == |starts| && forall k :: 0 <= k < |r| ==> r[k] == ChunkText(words, starts[k], size)
  {
    seq(|starts|, k requires 0 <= k < |starts| => ChunkText(words, starts[k], size))
  }

  /**
   * split_into_chunks: `range` raises on a zero step and is empty for a
   * negative one (its start 0 is never above the stop).
   */
  function Chunks(text: string, size: int, overlap: int): (r: Result<seq<string>>)
    ensures r.Err? <==> size == overlap
    ensures Words(text) == [] && size != overlap ==> r == Ok([])
  {
    var words := Words(text);
    var step := size - overlap;
    if step == 0 then Err(ZeroStep)
    else if step < 0 then Ok([])
    else Ok(ChunksAt(words, Starts(0, |words|, step), size))
  }

  method SplitIntoChunks(text: string, chunkSize: int, overlap: int) returns (r: Result<seq<string>>)
    ensures r == Chunks(text, chunkSize, overlap)
  {
    var words := Words(text);
    var step := chunkSize - overlap;
    if step == 0 {
      return Err(ZeroStep);
    }
    var chunks: seq<string> := [];
    if step > 0 {
      chunks := ChunkLoop(words, chunkSize, step);
    }
    return Ok(chunks);
  }

  /** The `for i in range(0, len(words), step)` loop, for a positive step. */
  method ChunkLoop(words: seq<string>, chunkSize: int, step: nat) returns (chunks: seq<string>)
    requires step > 0
    ensures chunks == ChunksAt(words, Starts(0, |words|, step), chunkSize)
  {
    chunks := [];
    var i: nat := 0;
    ghost var done: seq<nat> := [];
    while i < |words|
      invariant done + Starts(i, |words|, step) == Starts(0, |words|, step)
      invariant chunks == ChunksAt(words, done, chunkSize)
      decreases |words| - i
    {
      var chunk := ChunkText(words, i, chunkSize);
      ChunksAtSnoc(words, done, i, chunkSize);
      StartsStep(done, i, |words|, step);
      chunks := chunks + [chunk];
      done := done + [i];
      i := i + step;
    }
    StartsDone(done, i, |words|, step);
  }

  /** One more start index adds its chunk at the end. */
  lemma ChunksAtSnoc(words: seq<string>, starts: seq<nat>, i: nat, size: int)
    ensures ChunksAt(words, starts + [i], size) == ChunksAt(words, starts, size) + [ChunkText(words, i, size)]
  {
    assert forall k :: 0 <= k < |starts| ==> (starts + [i])[k] == starts[k];
  }

  /** Taking the first value of a nonempty range moves it to the values already taken. */
  lemma StartsStep(done: seq<nat>, i: nat, n: nat, step: nat)
    requires step > 0 && i < n
    ensures done + Starts(i, n, step) == (done + [i]) + Starts(i + step, n, step)
  {
  }

  /** An exhausted range leaves exactly the values already taken. */
  lemma StartsDone(done: seq<nat>, i: nat, n: nat, step: nat)
    requires step > 0 && i >= n
    ensures done + Starts(i, n, step) == done
  {
  }

  /** `k * step`, spelled out as repeated addition so that proofs about strides stay linear. */
  function Stride(k: nat, step: nat): nat
  {
    if k == 0 then 0 else Stride(k - 1, step) + step
  }

  lemma {:induction false} StrideIsProduct(k: nat, step: nat)
    ensures Stride(k, step) == k * step
  {
    if k > 0 {
      StrideIsProduct(k - 1, step);
      assert (k - 1) * step + step == k * step;
    }
  }

  lemma StrideSucc(k: nat, step: nat)
    ensures Stride(k + 1, step) == Stride(k, step) + step
  {
  }

  /** Chunk k starts at word `start + k * step`, below n. */
  lemma {:induction false} StartAt(start: nat, n: nat, step: nat, k: nat)
    requires step > 0 && k < |Starts(start, n, step)|
    ensures Starts(start, n, step)[k] == start + Stride(k, step) < n
    decreases k
  {
    if k > 0 {
      StartAt(start + step, n, step, k - 1);
      StrideSucc(k - 1, step);
    }
  }

  /**
   * There are ceil(n / step) chunks of n words: the last chunk starts below n,
   * and one more stride would reach n.
   */
  lemma {:induction false} StartCount(start: nat, n: nat, step: nat)
    requires step > 0 && start <= n
    ensures var c := |Starts(start, n, step)|;
      && (c == 0 <==> start == n)
      && (c > 0 ==> start + Stride(c - 1, step) < n <= start + Stride(c, step))
    decreases n - start
  {
    if start + step < n {
      StartCount(start + step, n, step);
      var c := |Starts(start + step, n, step)|;
      StrideSucc(c, step);
      StrideSucc(c - 1, step);
    } else if start < n {
      assert Starts(start + step, n, step) == [];
    }
  }

  /** The chunk count as the ceiling of n / step. */
  lemma ChunkCount(words: seq<string>, size: int, step: nat)
    requires step > 0
    ensures var c := |ChunksAt(words, Starts(0, |words|, step), size)|;
      (c == 0 <==> |words| == 0) && (c > 0 ==> (c - 1) * step < |words| <= c * step)
  {
    StartCount(0, |words|, step);
    var c := |Starts(0, |words|, step)|;
    if c > 0 {
      StrideIsProduct(c, step);
      StrideIsProduct(c - 1, step);
    }
  }

  /** Chunk k is the words from index `k * step` on. */
  lemma ChunkStart(words: seq<string>, size: int, step: nat, k: nat)
    requires step > 0 && k < |ChunksAt(words, Starts(0, |words|, step), size)|
    ensures k * step < |words|
    ensures ChunksAt(words, Starts(0, |words|, step), size)[k] == ChunkText(words, k * step, size)
  {
    StartAt(0, |words|, step, k);
    StrideIsProduct(k, step);
  }

  /** `words[i:i + size]` for a positive size: at most `size` words, in place. */
  lemma SliceShape(words: seq<string>, i: nat, size: int)
    requires size > 0 && i < |words|
    ensures var c := Seqs.PySlice(words, i, i + size);
      && |c| <= size
      && c == words[i..if i + size <= |words| then i + size else |words|]
  {
  }

  /** Every chunk has at most `size` words, and `chunk.split()` gives back exactly its word slice. */
  lemma ChunkWords(words: seq<string>, size: int, i: nat)
    requires size > 0 && i < |words|
    requires forall j :: 0 <= j < |words| ==> IsWord(words[j])
    ensures var s := Seqs.PySlice(words, i, i + size);
      && |s| <= size
      && Words(ChunkText(words, i, size)) == s
  {
    var s := Seqs.PySlice(words, i, i + size);
    SliceShape(words, i, size);
    assert forall m :: 0 <= m < |s| ==> s[m] == words[i + m];
    WordsOfJoin(s);
  }

  /** With `0 < step <= size` (that is, `0 <= overlap < size`), every index from `start` on lies in some chunk. */
  lemma {:induction false} StartsCover(start: nat, n: nat, size: int, step: nat, j: nat)
    requires 0 < step <= size && start <= j < n
    ensures exists k :: (0 <= k < |Starts(start, n, step)|
      && Starts(start, n, step)[k] <= j < Starts(start, n, step)[k] + size)
    decreases n - start
  {
    var ss := Starts(start, n, step);
    if j < start + step {
      assert ss[0] <= j < ss[0] + size;
    } else {
      StartsCover(start + step, n, size, step, j);
      var k :| 0 <= k < |Starts(start + step, n, step)|
        && Starts(start + step, n, step)[k] <= j < Starts(start + step, n, step)[k] + size;
      assert ss[k + 1] <= j < ss[k + 1] + size;
    }
  }

  /** With `0 <= overlap < size`, every word lies in the word range of some chunk. */
  lemma ChunksCover(words: seq<string>, size: int, overlap: int, j: nat)
    requires 0 <= overlap < size && j < |words|
    ensures var step := size - overlap;
      exists k :: 0 <= k < |ChunksAt(words, Starts(0, |words|, step), size)| && k * step <= j < k * step + size
  {
    var step := size - overlap;
    StartsCover(0, |words|, size, step, j);
    var k :| 0 <= k < |Starts(0, |words|, step)|
      && Starts(0, |words|, step)[k] <= j < Starts(0, |words|, step)[k] + size;
    StartAt(0, |words|, step, k);
    StrideIsProduct(k, step);
  }

  /** Two consecutive full chunks share exactly `overlap` words: the tail of one is the head of the next. */
  lemma ConsecutiveOverlap(words: seq<string>, size: int, overlap: int, i: nat)
    requires 0 <= overlap < size
    requires i + (size - overlap) + size <= |words|
    ensures var step := size - overlap;
      var a := Seqs.PySlice(words, i, i + size);
      var b := Seqs.PySlice(words, i + step, i + step + size);
      && |a| == size && |b| == size
      && a[step..] == b[..overlap]
  {
    var step := size - overlap;
    var a := Seqs.PySlice(words, i, i + size);
    var b := Seqs.PySlice(words, i + step, i + step + size);
    assert a == words[i..i + size];
    assert b == words[i + step..i + step + size];
    assert a[step..] == words[i + step..i + size];
  }

  /**
   * With the script's parameters a 200-word text gives two chunks, and the
   * second (words 150 to 199) lies entirely inside the first (words 0 to 199).
   */
  lemma TrailingChunkInsideOverlap(words: seq<string>)
    requires |words| == 200
    ensures Starts(0, |words|, ChunkSize - Overlap) == [0, 150]
    ensures Seqs.PySlice(words, 150, 150 + ChunkSize) == Seqs.PySlice(words, 0, ChunkSize)[150..]
  {
    assert Starts(300, 200, 150) == [];
    assert Starts(150, 200, 150) == [150];
  }

  // ------------------------------------------------------------------
  // The script's loop over the input folder
  // ------------------------------------------------------------------

  /** A file of a folder: its name and its text. */
  datatype TextFile = TextFile(name: string, content: string)

  /** `filename.replace(".txt", "")`. */
  function BaseName(filename: string): string
  {
    RemoveAll(filename, ".txt")
  }

  /** `f"{base}_chunk_{i + 1:03d}.txt"`. */
  function ChunkFileName(base: string, i: nat): (r: string)
    ensures EndsWith(r, ".txt")
  {
    var r := base + "_chunk_" + Pad3(i + 1) + ".txt";
    assert r[|r| - 4..] == ".txt";
    r
  }

  /** Distinct chunks of one input get distinct file names, so no chunk file overwrites another. */
  lemma ChunkNamesDistinct(base: string, i: nat, j: nat)
    ensures ChunkFileName(base, i) == ChunkFileName(base, j) ==> i == j
  {
    if ChunkFileName(base, i) == ChunkFileName(base, j) {
      SameNumber(base, i, j);
      Pad3Injective(i + 1, j + 1);
    }
  }

  /** Equal chunk names of one input carry the same padded number. */
  lemma SameNumber(base: string, i: nat, j: nat)
    requires ChunkFileName(base, i) == ChunkFileName(base, j)
    ensures Pad3(i + 1) == Pad3(j + 1)
  {
    Middle(base + "_chunk_", Pad3(i + 1), Pad3(j + 1), ".txt");
  }

  /** Two strings with the same prefix and suffix agree in the middle. */
  lemma Middle(x: string, y: string, y': string, z: string)
    requires x + y + z == x + y' + z
    ensures y == y'
  {
    var w, w' := x + y + z, x + y' + z;
    assert w[|x|..|w| - |z|] == y;
    assert w'[|x|..|w'| - |z|] == y';
  }

  /** The files written for one input: chunk i under its numbered name. */
  function NamedChunks(base: string, chunks: seq<string>): seq<TextFile>
    decreases |chunks|
  {
    if chunks == [] then []
    else NamedChunks(base, chunks[..|chunks| - 1]) + [TextFile(ChunkFileName(base, |chunks| - 1), chunks[|chunks| - 1])]
  }

  lemma {:induction false} NamedChunksAt(base: string, chunks: seq<string>, i: nat)
    ensures |NamedChunks(base, chunks)| == |chunks|
    ensures i < |chunks| ==> NamedChunks(base, chunks)[i] == TextFile(ChunkFileName(base, i), chunks[i])
    decreases |chunks|
  {
    if chunks != [] {
      var init := chunks[..|chunks| - 1];
      NamedChunksAt(base, init, i);
      if i < |init| {
        assert chunks[i] == init[i];
      }
    }
  }

  /** `for i, chunk in enumerate(chunks)`: one write per chunk. */
  method NameChunks(base: string, chunks: seq<string>) returns (out: seq<TextFile>)
    ensures out == NamedChunks(base, chunks)
  {
    out := [];
    var i := 0;
    while i < |chunks|
      invariant 0 <= i <= |chunks|
      invariant out == NamedChunks(base, chunks[..i])
    {
      assert chunks[..i + 1][..i] == chunks[..i];
      out := out + [TextFile(ChunkFileName(base, i), chunks[i])];
      i := i + 1;
    }
    assert chunks[..i] == chunks;
  }

  /** The chunk files written for one input file (none unless its name ends in `.txt`). */
  function ChunkFilesOf(f: TextFile): seq<TextFile>
  {
    if EndsWith(f.name, ".txt") then
      NamedChunks(BaseName(f.name), Chunks(f.content, ChunkSize, Overlap).value)
    else []
  }

  /** Every write of the script, in folder-listing order. */
  function ChunkFiles(files: seq<TextFile>): seq<TextFile>
  {
    if files == [] then [] else ChunkFiles(files[..|files| - 1]) + ChunkFilesOf(files[|files| - 1])
  }

  /** The script's loop: the writes it makes, in order, for the folder listing `files`. */
  method ChunkFolder(files: seq<TextFile>) returns (written: seq<TextFile>)
    ensures written == ChunkFiles(files)
  {
    written := [];
    var k := 0;
    while k < |files|
      invariant 0 <= k <= |files|
      invariant written == ChunkFiles(files[..k])
    {
      var f := files[k];
      assert files[..k + 1][..k] == files[..k];
      if EndsWith(f.name, ".txt") {
        var chunks := SplitIntoChunks(f.content, ChunkSize, Overlap);
        var out := NameChunks(BaseName(f.name), chunks.value);
        written := written + out;
      }
      k := k + 1;
    }
    assert files[..k] == files;
  }

  /** Only `.txt` inputs produce chunk files, and every chunk file's name ends in `.txt`. */
  lemma {:induction false} ChunkFilesNames(files: seq<TextFile>, j: nat)
    requires j < |ChunkFiles(files)|
    ensures EndsWith(ChunkFiles(files)[j].name, ".txt")
    ensures exists i :: 0 <= i < |files| && EndsWith(files[i].name, ".txt")
    decreases |files|
  {
    var init := files[..|files| - 1];
    var last := files[|files| - 1];
    if j < |ChunkFiles(init)| {
      ChunkFilesNames(init, j);
      var i :| 0 <= i < |init| && EndsWith(init[i].name, ".txt");
      assert files[i] == init[i];
    } else {
      assert ChunkFiles(files)[j] == ChunkFilesOf(last)[j - |ChunkFiles(init)|];
      if EndsWith(last.name, ".txt") {
        NamedChunksAt(BaseName(last.name), Chunks(last.content, ChunkSize, Overlap).value, j - |ChunkFiles(init)|);
      }
    }
  }
}

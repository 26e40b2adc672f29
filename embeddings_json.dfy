/**
 * scripts/create_embeddings_json.py: every chunk file, in sorted name order,
 * is embedded once; a file whose embedding comes back empty is skipped, and
 * the others become records whose `quelle` and `chunk_id` are parsed back out
 * of the chunk file name written by scripts/chunk_texts.py.
 */
module EmbeddingsJson {
  import opened Common
  import opened Text
  import opened Oracles
  import opened Chunking
  import opened RagTools

  const EmbedModel: string := "nomic-embed-text"
  const Marker: string := "_chunk_"

  // ------------------------------------------------------------------
  // The file name parse
  // ------------------------------------------------------------------

  /**
   * `quelle, chunk_id = filename.replace(".txt", "").split("_chunk_")`:
   * the unpacking raises unless the split gives exactly two parts.
   */
  function ParseChunkName(filename: string): (r: Result<(string, string)>)
    ensures r.Ok? ==> r.value.0 + Marker + r.value.1 == RemoveAll(filename, ".txt")
    ensures r.Ok? ==> !Contains(r.value.0, Marker) && !Contains(r.value.1, Marker)
    ensures !Contains(RemoveAll(filename, ".txt"), Marker) ==> r == Err(UnpackFailure(1))
  {
    var stem := RemoveAll(filename, ".txt");
    var parts := SplitOn(stem, Marker);
    if |parts| == 2 then
      assert Join(Marker, parts) == parts[0] + Marker + parts[1];
      Ok((parts[0], parts[1]))
    else Err(UnpackFailure(|parts|))
  }

  /**
   * When the first `_chunk_` of the stem is at k and no `_chunk_` starts at
   * or after k + 7, the name parses to the parts around the one at k.
   * Occurrences may overlap: "a_chunk_chunk_001" holds `_chunk_` at 1 and
   * at 7, and still parses, to ("a", "chunk_001").
   */
  lemma ParseChunkNameOnly(filename: string, k: nat)
    requires Find(RemoveAll(filename, ".txt"), Marker) == Some(k)
    requires !Contains(RemoveAll(filename, ".txt")[k + 7..], Marker)
    ensures var stem := RemoveAll(filename, ".txt");
      ParseChunkName(filename) == Ok((stem[..k], stem[k + 7..]))
  {
    SplitAtOnly(RemoveAll(filename, ".txt"), k);
  }

  /**
   * The converse: a name that parses has its first `_chunk_` right after the
   * first part, and none starts in the rest of the stem.
   */
  lemma ParseChunkNameFirst(filename: string)
    requires ParseChunkName(filename).Ok?
    ensures var stem := RemoveAll(filename, ".txt");
      var k := |ParseChunkName(filename).value.0|;
      Find(stem, Marker) == Some(k) && k + 7 <= |stem| && !Contains(stem[k + 7..], Marker)
  {
    var stem := RemoveAll(filename, ".txt");
    var k := Find(stem, Marker).value;
    var rest := stem[k + 7..];
    assert SplitOn(stem, Marker) == [stem[..k]] + SplitOn(rest, Marker);
  }

  /** `p` occurs first at `k`. */
  lemma FindIs(s: string, p: string, k: nat)
    requires OccursAt(s, p, k)
    requires forall j :: 0 <= j < k ==> !OccursAt(s, p, j)
    ensures Find(s, p) == Some(k)
  {
  }

  /** No character of `Marker` or of a digit string is a '.'. */
  lemma TailHasNoDot(d: string)
    requires IsDigits(d)
    ensures forall k :: 0 <= k < |Marker + d| ==> (Marker + d)[k] != '.'
  {
    forall k | 0 <= k < |Marker + d| ensures (Marker + d)[k] != '.' {
      if k >= |Marker| {
        assert (Marker + d)[k] == d[k - |Marker|];
      }
    }
  }

  /** One mismatching character rules an occurrence out. */
  lemma Mismatch(s: string, p: string, j: nat, q: nat)
    requires q < |p| && j + |p| <= |s| && s[j + q] != p[q]
    ensures !OccursAt(s, p, j)
  {
    assert s[j..j + |p|][q] == s[j + q];
  }

  /** Removing every `pat` from `stem + pat` whose first `pat` is the suffix gives `stem`. */
  lemma RemoveSuffixOnce(stem: string, pat: string)
    requires |pat| > 0 && Find(stem + pat, pat) == Some(|stem|)
    ensures RemoveAll(stem + pat, pat) == stem
  {
    var s := stem + pat;
    assert s[..|stem|] == stem;
    assert s[|stem| + |pat|..] == [];
  }

  /** For a base free of ".txt", removing every ".txt" from a chunk file name drops just its suffix. */
  lemma StemOfChunkName(base: string, i: nat)
    requires !Contains(base, ".txt")
    ensures RemoveAll(ChunkFileName(base, i), ".txt") == base + Marker + Pad3(i + 1)
  {
    var d := Pad3(i + 1);
    var x := Marker + d;
    var stem := base + x;
    var name := stem + ".txt";
    assert ChunkFileName(base, i) == name;
    var b := |base|;
    var m := |stem|;
    TailHasNoDot(d);
    forall j | 0 <= j < m ensures !OccursAt(name, ".txt", j) {
      if j + 4 <= b {
        if OccursAt(name, ".txt", j) {
          assert base[j..j + 4] == name[j..j + 4];
          ContainsAt(base, ".txt", j);
        }
      } else if j < b {
        assert name[b] == x[0];
        Mismatch(name, ".txt", j, b - j);
      } else {
        assert name[j] == x[j - b];
        Mismatch(name, ".txt", j, 0);
      }
    }
    assert name[m..m + 4] == ".txt";
    FindIs(name, ".txt", m);
    RemoveSuffixOnce(stem, ".txt");
  }

  /** A string of digits holds no `Marker`. */
  lemma DigitsNoMarker(d: string)
    requires IsDigits(d)
    ensures !Contains(d, Marker)
  {
    forall j | 0 <= j ensures !OccursAt(d, Marker, j) {
      if j + 7 <= |d| {
        assert d[j..j + 7][0] == d[j];
      }
    }
  }

  /** In `base + Marker + d`, for a base free of `_chunk_` not ending in `_chunk`, the first `_chunk_` follows the base. */
  lemma FindMarkerAfterBase(base: string, d: string)
    requires !Contains(base, Marker) && !EndsWith(base, "_chunk")
    ensures Find(base + Marker + d, Marker) == Some(|base|)
  {
    var t := base + Marker + d;
    var b := |base|;
    forall j | 0 <= j < b ensures !OccursAt(t, Marker, j) {
      if j + 7 <= b {
        if OccursAt(t, Marker, j) {
          assert base[j..j + 7] == t[j..j + 7];
          ContainsAt(base, Marker, j);
        }
      } else if j == b - 6 {
        assert t[j..j + 7][..6] == base[b - 6..];
      } else {
        assert t[b] == '_';
        Mismatch(t, Marker, j, b - j);
      }
    }
    assert t[b..b + 7] == Marker;
    FindIs(t, Marker, b);
  }

  /** A string whose first `_chunk_` is at b and the only one splits into the parts around it. */
  lemma SplitAtOnly(t: string, b: nat)
    requires Find(t, Marker) == Some(b) && !Contains(t[b + 7..], Marker)
    ensures SplitOn(t, Marker) == [t[..b], t[b + 7..]]
  {
    SplitWithoutMarker(t[b + 7..]);
  }

  /** Splitting a string with no `_chunk_` gives the string alone. */
  lemma SplitWithoutMarker(s: string)
    requires !Contains(s, Marker)
    ensures SplitOn(s, Marker) == [s]
  {
  }

  /**
   * The name written for chunk i of `base` parses back to `base` and the
   * zero-padded number, for a base free of ".txt" and of `_chunk_` that does
   * not end in `_chunk`.
   */
  lemma ParseOfChunkName(base: string, i: nat)
    requires !Contains(base, ".txt") && !Contains(base, Marker) && !EndsWith(base, "_chunk")
    ensures ParseChunkName(ChunkFileName(base, i)) == Ok((base, Pad3(i + 1)))
  {
    var d := Pad3(i + 1);
    StemOfChunkName(base, i);
    var t := base + Marker + d;
    var b := |base|;
    FindMarkerAfterBase(base, d);
    assert t[..b] == base && t[b + 7..] == d;
    DigitsNoMarker(d);
    SplitAtOnly(t, b);
  }

  /** "chunk_" followed by digits holds no `_chunk_`. */
  lemma ChunkTailNoMarker(d: string)
    requires IsDigits(d) && |d| > 0
    ensures !Contains("chunk_" + d, Marker)
  {
    var rest := "chunk_" + d;
    forall j | 0 <= j ensures !OccursAt(rest, Marker, j) {
      if j + 7 <= |rest| {
        if j == 5 {
          assert rest[j..j + 7][1] == rest[6] == d[0];
        } else if j < 5 {
          assert rest[j..j + 7][0] == rest[j];
        } else {
          assert rest[j..j + 7][0] == rest[j] == d[j - 6];
        }
      }
    }
  }

  lemma Regroup(p: string, d: string)
    ensures (p + "_chunk") + Marker + d == p + Marker + ("chunk_" + d)
  {
    assert "_chunk" + Marker == Marker + "chunk_";
  }

  /**
   * A base ending in `_chunk` does not survive the round trip: the name of
   * chunk i of `p + "_chunk"` parses to `p` and `"chunk_"` followed by the
   * number (for p = "a" and chunk 0, "a_chunk_chunk_001.txt" gives
   * ("a", "chunk_001")).
   */
  lemma ParseBreaksOnChunkSuffix(p: string, i: nat)
    requires !Contains(p + "_chunk", ".txt") && !Contains(p, Marker) && !EndsWith(p, "_chunk")
    ensures ParseChunkName(ChunkFileName(p + "_chunk", i)) == Ok((p, "chunk_" + Pad3(i + 1)))
  {
    var base := p + "_chunk";
    var d := Pad3(i + 1);
    StemOfChunkName(base, i);
    var t := base + Marker + d;
    var rest := "chunk_" + d;
    Regroup(p, d);
    FindMarkerAfterBase(p, rest);
    var b := |p|;
    assert t[..b] == p && t[b + 7..] == rest;
    ChunkTailNoMarker(d);
    SplitAtOnly(t, b);
  }

  /** The last occurrence of `p` that starts below `i`. */
  function LastBefore(s: string, p: string, i: nat): (r: Option<nat>)
    decreases i
    ensures r.Some? ==> r.value < i && OccursAt(s, p, r.value) && forall j :: r.value < j < i ==> !OccursAt(s, p, j)
    ensures r.None? ==> forall j :: 0 <= j < i ==> !OccursAt(s, p, j)
  {
    if i == 0 then None else if OccursAt(s, p, i - 1) then Some(i - 1) else LastBefore(s, p, i - 1)
  }

  /**
   * The parse as evidently intended, `filename[:-4].rsplit("_chunk_", 1)` on a
   * name ending in ".txt": drop only the suffix and split at the last `_chunk_`.
   */
  function ParseChunkNameFixed(filename: string): (r: Result<(string, string)>)
    ensures r.Ok? ==> EndsWith(filename, ".txt") && r.value.0 + Marker + r.value.1 == filename[..|filename| - 4]
    ensures r.Ok? ==> !Contains(r.value.1, Marker)
  {
    if !EndsWith(filename, ".txt") then Err(UnpackFailure(1))
    else
      var stem := filename[..|filename| - 4];
      match LastBefore(stem, Marker, |stem| + 1)
      case None => Err(UnpackFailure(1))
      case Some(k) =>
        TailAfterLast(stem, k);
        Ok((stem[..k], stem[k + 7..]))
  }

  /** What follows the last `_chunk_` holds no other. */
  lemma TailAfterLast(stem: string, k: nat)
    requires OccursAt(stem, Marker, k)
    requires forall j :: k < j <= |stem| ==> !OccursAt(stem, Marker, j)
    ensures !Contains(stem[k + 7..], Marker)
    ensures stem == stem[..k] + Marker + stem[k + 7..]
  {
    var tail := stem[k + 7..];
    assert stem == stem[..k] + stem[k..k + 7] + tail;
    match FindFrom(tail, Marker, 0)
    case None =>
    case Some(j) =>
      OccursShift(stem, k + 7, Marker, j);
  }

  /** An occurrence in a suffix is an occurrence in the whole string. */
  lemma OccursShift(s: string, n: nat, p: string, j: nat)
    requires n <= |s| && OccursAt(s[n..], p, j)
    ensures OccursAt(s, p, n + j)
  {
    assert s[n..][j..j + |p|] == s[n + j..n + j + |p|];
  }

  /** With the fixed parse, every chunk file name gives back its base and number, whatever the base. */
  lemma ParseFixedOfChunkName(base: string, i: nat)
    ensures ParseChunkNameFixed(ChunkFileName(base, i)) == Ok((base, Pad3(i + 1)))
  {
    var d := Pad3(i + 1);
    var name := ChunkFileName(base, i);
    var t := base + Marker + d;
    assert name == t + ".txt";
    assert name[..|name| - 4] == t;
    var b := |base|;
    assert OccursAt(t, Marker, b) by {
      assert t[b..b + 7] == Marker;
    }
    forall j | b < j <= |t| ensures !OccursAt(t, Marker, j) {
      if j + 7 <= |t| {
        if j == b + 6 {
          assert t[j..j + 7][1] == t[j + 1] == d[0];
        } else if j < b + 6 {
          assert t[j..j + 7][0] == t[j] == Marker[j - b];
        } else {
          assert t[j..j + 7][0] == t[j] == d[j - b - 7];
        }
      }
    }
    assert LastBefore(t, Marker, |t| + 1) == Some(b);
    assert t[..b] == base && t[b + 7..] == d;
  }

  // ------------------------------------------------------------------
  // sorted(os.listdir(CHUNK_DIR))
  // ------------------------------------------------------------------

  /** Python's string order: lexicographic by code point, a proper prefix first. */
  predicate NameLe(a: string, b: string)
    decreases |a|
  {
    a == [] || (b != [] && (a[0] < b[0] || (a[0] == b[0] && NameLe(a[1..], b[1..]))))
  }

  lemma {:induction false} NameLeTotal(a: string, b: string)
    ensures NameLe(a, b) || NameLe(b, a)
    decreases |a|
  {
    if a != [] && b != [] && a[0] == b[0] {
      NameLeTotal(a[1..], b[1..]);
    }
  }

  predicate SortedByName(s: seq<TextFile>)
  {
    forall i :: 0 <= i < |s| - 1 ==> NameLe(s[i].name, s[i + 1].name)
  }

  function Insert(f: TextFile, s: seq<TextFile>): (r: seq<TextFile>)
    ensures |r| == |s| + 1
    ensures r[0] == f || (s != [] && r[0] == s[0])
  {
    if s == [] then [f] else if NameLe(f.name, s[0].name) then [f] + s else [s[0]] + Insert(f, s[1..])
  }

  /** `sorted(...)`, by insertion. */
  function SortByName(s: seq<TextFile>): (r: seq<TextFile>)
    ensures |r| == |s|
  {
    if s == [] then [] else Insert(s[0], SortByName(s[1..]))
  }

  lemma {:induction false} InsertFacts(f: TextFile, s: seq<TextFile>)
    requires SortedByName(s)
    ensures SortedByName(Insert(f, s))
    ensures multiset(Insert(f, s)) == multiset(s) + multiset{f}
    decreases |s|
  {
    if s != [] && !NameLe(f.name, s[0].name) {
      var t := s[1..];
      SortedTail(s);
      InsertFacts(f, t);
      NameLeTotal(f.name, s[0].name);
      SortedCons(s[0], Insert(f, t));
      assert s == [s[0]] + t;
    } else {
      SortedCons(f, s);
    }
  }

  lemma SortedTail(s: seq<TextFile>)
    requires s != [] && SortedByName(s)
    ensures SortedByName(s[1..])
  {
    forall i | 0 <= i < |s| - 2 ensures NameLe(s[1..][i].name, s[1..][i + 1].name) {
      assert s[1..][i] == s[i + 1] && s[1..][i + 1] == s[i + 2];
    }
  }

  lemma SortedCons(x: TextFile, r: seq<TextFile>)
    requires SortedByName(r) && (r != [] ==> NameLe(x.name, r[0].name))
    ensures SortedByName([x] + r)
  {
    forall i | 0 <= i < |r| ensures NameLe(([x] + r)[i].name, ([x] + r)[i + 1].name) {
      if i > 0 {
        assert ([x] + r)[i] == r[i - 1] && ([x] + r)[i + 1] == r[i];
      }
    }
  }

  /** The listing `sorted` gives: in name order, and the same files. */
  lemma {:induction false} SortFacts(s: seq<TextFile>)
    ensures SortedByName(SortByName(s))
    ensures multiset(SortByName(s)) == multiset(s)
    decreases |s|
  {
    if s != [] {
      SortFacts(s[1..]);
      InsertFacts(s[0], SortByName(s[1..]));
      assert s == [s[0]] + s[1..];
    }
  }

  // ------------------------------------------------------------------
  // The records
  // ------------------------------------------------------------------

  /** One entry of `all_embeddings`; its random `id` is not modelled. */
  datatype Record = Record(text: string, quelle: string, chunkId: string, filename: string, embedding: Vector)

  /**
   * get_embedding: `response.json()["embedding"]` for a 200 reply, `None`
   * for any other status. A request that raises, or a 200 reply without
   * the member, ends the script; a `null` member is `None`.
   */
  function GetEmbedding(reply: EmbedReply): (r: Result<Option<Vector>>)
    ensures reply.EmbedResponse? && reply.status != 200 ==> r == Ok(None)
    ensures reply.EmbedResponse? && reply.status == 200 && reply.member.Null? ==> r == Ok(None)
    ensures r.Ok? && r.value.Some? ==> reply.EmbedResponse? && reply.status == 200 && reply.member == Present(r.value.value)
    ensures r.Err? <==> reply.EmbedRaised? || (reply.status == 200 && reply.member.Absent?)
  {
    match reply
    case EmbedRaised(e) => Err(Transport(e))
    case EmbedResponse(status, _, member) =>
      if status != 200 then Ok(None)
      else match member
        case Absent => Err(MissingKey("embedding"))
        case Null => Ok(None)
        case Present(v) => Ok(Some(v))
  }

  /** What one processed chunk file adds: nothing for a falsy embedding, otherwise one record. */
  function AddRecord(records: seq<Record>, f: TextFile, embedding: Result<Option<Vector>>): Result<seq<Record>>
  {
    match embedding
    case Err(e) => Err(e)
    case Ok(v) =>
      if v.None? || v.value == [] then Ok(records)
      else match ParseChunkName(f.name)
        case Err(e) => Err(e)
        case Ok(parts) => Ok(records + [Record(f.content, parts.0, parts.1, f.name, v.value)])
  }

  /** A 200 reply whose `embedding` is `null` is falsy: the file is skipped and the run goes on. */
  lemma NullEmbeddingSkips(records: seq<Record>, f: TextFile, reply: EmbedReply)
    requires reply.EmbedResponse? && reply.status == 200 && reply.member.Null?
    ensures AddRecord(records, f, GetEmbedding(reply)) == Ok(records)
  {
  }

  /** The records built and the embedding requests made: an exception ends the run. */
  datatype Run = Run(records: Result<seq<Record>>, asked: seq<EmbedRequest>)

  /** The run over the first i files of the sorted listing, the n0-th embedding call first. */
  function RunFirst(embed: (nat, EmbedRequest) -> EmbedReply, files: seq<TextFile>, n0: nat, i: nat): Run
    requires i <= |files|
    decreases i
  {
    if i == 0 then Run(Ok([]), [])
    else
      var prev := RunFirst(embed, files, n0, i - 1);
      var f := files[i - 1];
      if prev.records.Err? || !EndsWith(f.name, ".txt") then prev
      else
        var req := EmbedRequest(EmbedModel, f.content);
        Run(AddRecord(prev.records.value, f, GetEmbedding(embed(n0 + |prev.asked|, req))), prev.asked + [req])
  }

  /** The script's loop, with the folder's files in listing order. */
  method BuildRecords(folder: seq<TextFile>, embedder: Oracle<EmbedRequest, EmbedReply>) returns (r: Result<seq<Record>>)
    modifies embedder
    ensures var run := RunFirst(embedder.respond, SortByName(folder), |old(embedder.asked)|, |folder|);
      r == run.records && embedder.asked == old(embedder.asked) + run.asked
  {
    var files := SortByName(folder);
    ghost var n0 := |embedder.asked|;
    var records: seq<Record> := [];
    var i := 0;
    while i < |files|
      invariant 0 <= i <= |files|
      invariant RunFirst(embedder.respond, files, n0, i).records == Ok(records)
      invariant embedder.asked == old(embedder.asked) + RunFirst(embedder.respond, files, n0, i).asked
    {
      var f := files[i];
      if !EndsWith(f.name, ".txt") {
        RunSkip(embedder.respond, files, n0, i);
        i := i + 1;
        continue;
      }
      var next := EmbedNext(files, i, records, embedder, n0, old(embedder.asked));
      if next.Err? {
        RunErrorSticks(embedder.respond, files, n0, i + 1, |files|);
        return next;
      }
      records := next.value;
      i := i + 1;
    }
    return Ok(records);
  }

  /** One `.txt` file of the loop: the run moves on to the first i + 1 files. */
  method EmbedNext(files: seq<TextFile>, i: nat, records: seq<Record>, embedder: Oracle<EmbedRequest, EmbedReply>,
                   ghost n0: nat, ghost asked0: seq<EmbedRequest>) returns (next: Result<seq<Record>>)
    requires i < |files| && EndsWith(files[i].name, ".txt") && n0 == |asked0|
    requires RunFirst(embedder.respond, files, n0, i).records == Ok(records)
    requires embedder.asked == asked0 + RunFirst(embedder.respond, files, n0, i).asked
    modifies embedder
    ensures next == RunFirst(embedder.respond, files, n0, i + 1).records
    ensures embedder.asked == asked0 + RunFirst(embedder.respond, files, n0, i + 1).asked
  {
    ghost var n := |RunFirst(embedder.respond, files, n0, i).asked|;
    ghost var reply := embedder.Next(EmbedRequest(EmbedModel, files[i].content));
    assert reply == embedder.respond(n0 + n, EmbedRequest(EmbedModel, files[i].content));
    next := EmbedFile(files[i], records, embedder);
    RunAdvance(embedder.respond, files, n0, i, records, n, next, asked0);
  }

  /** The loop body for one `.txt` file: embed its text, skip a falsy embedding, otherwise parse the name and append. */
  method EmbedFile(f: TextFile, records: seq<Record>, embedder: Oracle<EmbedRequest, EmbedReply>) returns (r: Result<seq<Record>>)
    modifies embedder
    ensures embedder.asked == old(embedder.asked) + [EmbedRequest(EmbedModel, f.content)]
    ensures r == AddRecord(records, f, GetEmbedding(old(embedder.Next(EmbedRequest(EmbedModel, f.content)))))
  {
    var reply := embedder.Ask(EmbedRequest(EmbedModel, f.content));
    var embedding := GetEmbedding(reply);
    if embedding.Err? {
      return Err(embedding.error);
    }
    if embedding.value.None? || embedding.value.value == [] {
      return Ok(records);
    }
    var parts := ParseChunkName(f.name);
    if parts.Err? {
      return Err(parts.error);
    }
    return Ok(records + [Record(f.content, parts.value.0, parts.value.1, f.name, embedding.value.value)]);
  }

  /** One `.txt` file of a run that has not raised: one request, and the record step for its reply. */
  lemma RunStep(embed: (nat, EmbedRequest) -> EmbedReply, files: seq<TextFile>, n0: nat, i: nat, records: seq<Record>, n: nat)
    requires i < |files| && EndsWith(files[i].name, ".txt")
    requires RunFirst(embed, files, n0, i).records == Ok(records) && |RunFirst(embed, files, n0, i).asked| == n
    ensures var req := EmbedRequest(EmbedModel, files[i].content);
      RunFirst(embed, files, n0, i + 1) == Run(AddRecord(records, files[i], GetEmbedding(embed(n0 + n, req))), RunFirst(embed, files, n0, i).asked + [req])
  {
  }

  /** A file that is not `.txt` changes nothing. */
  lemma RunSkip(embed: (nat, EmbedRequest) -> EmbedReply, files: seq<TextFile>, n0: nat, i: nat)
    requires i < |files| && !EndsWith(files[i].name, ".txt")
    ensures RunFirst(embed, files, n0, i + 1) == RunFirst(embed, files, n0, i)
  {
  }

  /**
   * The loop step for one `.txt` file whose record step gave `next`: the run
   * goes on with `next` and one more request.
   */
  lemma RunAdvance(embed: (nat, EmbedRequest) -> EmbedReply, files: seq<TextFile>, n0: nat, i: nat, records: seq<Record>, n: nat,
                   next: Result<seq<Record>>, asked: seq<EmbedRequest>)
    requires i < |files| && EndsWith(files[i].name, ".txt")
    requires RunFirst(embed, files, n0, i).records == Ok(records) && |RunFirst(embed, files, n0, i).asked| == n
    requires next == AddRecord(records, files[i], GetEmbedding(embed(n0 + n, EmbedRequest(EmbedModel, files[i].content))))
    ensures RunFirst(embed, files, n0, i + 1).records == next
    ensures asked + RunFirst(embed, files, n0, i).asked + [EmbedRequest(EmbedModel, files[i].content)]
      == asked + RunFirst(embed, files, n0, i + 1).asked
  {
    RunStep(embed, files, n0, i, records, n);
  }

  /** Once a run has raised, later files change nothing. */
  lemma {:induction false} RunErrorSticks(embed: (nat, EmbedRequest) -> EmbedReply, files: seq<TextFile>, n0: nat, j: nat, k: nat)
    requires j <= k <= |files| && RunFirst(embed, files, n0, j).records.Err?
    ensures RunFirst(embed, files, n0, k) == RunFirst(embed, files, n0, j)
    decreases k
  {
    if k > j {
      RunErrorSticks(embed, files, n0, j, k - 1);
      RunHalted(embed, files, n0, k - 1);
    }
  }

  /** A run that has raised stays as it is for one more file. */
  lemma RunHalted(embed: (nat, EmbedRequest) -> EmbedReply, files: seq<TextFile>, n0: nat, i: nat)
    requires i < |files| && RunFirst(embed, files, n0, i).records.Err?
    ensures RunFirst(embed, files, n0, i + 1) == RunFirst(embed, files, n0, i)
  {
  }

  /**
   * One embedding request per `.txt` file, in listing order, until the run
   * raises: before an exception every `.txt` file among the first i was
   * embedded with its own text.
   */
  lemma {:induction false} RunRequests(embed: (nat, EmbedRequest) -> EmbedReply, files: seq<TextFile>, n0: nat, i: nat)
    requires i <= |files| && RunFirst(embed, files, n0, i).records.Ok?
    ensures RunFirst(embed, files, n0, i).asked == TxtRequests(files[..i])
    decreases i
  {
    if i > 0 {
      RunRequests(embed, files, n0, i - 1);
      assert files[..i][..i - 1] == files[..i - 1];
    }
  }

  /** The requests for the `.txt` files of a listing, in order. */
  function TxtRequests(files: seq<TextFile>): seq<EmbedRequest>
  {
    if files == [] then []
    else
      var last := files[|files| - 1];
      TxtRequests(files[..|files| - 1]) + (if EndsWith(last.name, ".txt") then [EmbedRequest(EmbedModel, last.content)] else [])
  }

  /** The positions in the listing, among the first i, of the files that yield a record, in order. */
  function Origins(embed: (nat, EmbedRequest) -> EmbedReply, files: seq<TextFile>, n0: nat, i: nat): (o: seq<nat>)
    requires i <= |files|
    ensures forall k :: 0 <= k < |o| ==> o[k] < i
    decreases i
  {
    if i == 0 then [] else Origins(embed, files, n0, i - 1) + (if Yields(embed, files, n0, i - 1) then [i - 1] else [])
  }

  /**
   * The records of a run that has not raised come one for one from the files
   * that yield one, in listing order: record k is built from file
   * `Origins(..)[k]`, with its text and name, its parsed quelle and chunk id,
   * and the non-empty vector of the embedding reply to that file's text.
   */
  lemma RunRecordOrigins(embed: (nat, EmbedRequest) -> EmbedReply, files: seq<TextFile>, n0: nat, i: nat)
    requires i <= |files| && RunFirst(embed, files, n0, i).records.Ok?
    ensures OriginsFit(BuiltAt(embed, files, n0), |files|, RunFirst(embed, files, n0, i).records.value, Origins(embed, files, n0, i))
  {
    var vecs := seq(|files|, j requires 0 <= j < |files| => EmbeddingFor(embed, files, n0, j));
    RunRecordsFrom(embed, files, n0, i, vecs);
    var recs := RunFirst(embed, files, n0, i).records.value;
    var o := Origins(embed, files, n0, i);
    forall k | 0 <= k < |o| ensures BuiltAt(embed, files, n0)(o[k], recs[k]) {
      assert RecordFrom(files, vecs)(o[k], recs[k]);
    }
  }

  /** RunRecordOrigins with the replies' embeddings given as `vecs`, one per file. */
  lemma {:induction false} RunRecordsFrom(embed: (nat, EmbedRequest) -> EmbedReply, files: seq<TextFile>, n0: nat, i: nat,
                                          vecs: seq<Result<Option<Vector>>>)
    requires i <= |files| && RunFirst(embed, files, n0, i).records.Ok?
    requires |vecs| == |files|
    requires forall j {:trigger EmbeddingFor(embed, files, n0, j)} :: 0 <= j < |files| ==> vecs[j] == EmbeddingFor(embed, files, n0, j)
    ensures OriginsFit(RecordFrom(files, vecs), |files|, RunFirst(embed, files, n0, i).records.value, Origins(embed, files, n0, i))
    decreases i
  {
    if i > 0 {
      var j := i - 1;
      assert j + 1 == i;
      RunOkBefore(embed, files, n0, i);
      RunRecordsFrom(embed, files, n0, j, vecs);
      RecordOriginsStep(embed, files, n0, j, vecs);
    }
  }

  /** A run that has not raised after the first i files had not raised after the first i - 1. */
  lemma RunOkBefore(embed: (nat, EmbedRequest) -> EmbedReply, files: seq<TextFile>, n0: nat, i: nat)
    requires 0 < i <= |files| && RunFirst(embed, files, n0, i).records.Ok?
    ensures RunFirst(embed, files, n0, i - 1).records.Ok?
  {
  }

  /** The step of RunRecordsFrom: file i keeps the records tied to their files. */
  lemma RecordOriginsStep(embed: (nat, EmbedRequest) -> EmbedReply, files: seq<TextFile>, n0: nat, i: nat,
                          vecs: seq<Result<Option<Vector>>>)
    requires i < |files| && |vecs| == |files| && vecs[i] == EmbeddingFor(embed, files, n0, i)
    requires RunFirst(embed, files, n0, i + 1).records.Ok? && RunFirst(embed, files, n0, i).records.Ok?
    requires OriginsFit(RecordFrom(files, vecs), |files|, RunFirst(embed, files, n0, i).records.value, Origins(embed, files, n0, i))
    ensures OriginsFit(RecordFrom(files, vecs), |files|, RunFirst(embed, files, n0, i + 1).records.value, Origins(embed, files, n0, i + 1))
  {
    RunGrowth(embed, files, n0, i);
    var prev := RunFirst(embed, files, n0, i).records.value;
    var recs := RunFirst(embed, files, n0, i + 1).records.value;
    OriginsStep(RecordFrom(files, vecs), |files|, prev, recs, Origins(embed, files, n0, i), Yields(embed, files, n0, i), i);
  }

  /** Element k of `recs` was built from the file at position `origin[k]` of n, and `origin` increases. */
  predicate OriginsFit<R>(built: (nat, R) -> bool, n: nat, recs: seq<R>, origin: seq<nat>)
  {
    && |origin| == |recs|
    && (forall k :: 0 <= k < |origin| ==> origin[k] < n)
    && (forall k, l :: 0 <= k < l < |origin| ==> origin[k] < origin[l])
    && (forall k :: 0 <= k < |origin| ==> built(origin[k], recs[k]))
  }

  /** One more file: its element, if it has one, is appended after those of the earlier files. */
  lemma OriginsStep<R>(built: (nat, R) -> bool, n: nat, prev: seq<R>, recs: seq<R>, o: seq<nat>, y: bool, i: nat)
    requires i < n && OriginsFit(built, n, prev, o)
    requires forall k :: 0 <= k < |o| ==> o[k] < i
    requires y ==> |recs| == |prev| + 1 && recs[..|prev|] == prev && built(i, recs[|prev|])
    requires !y ==> recs == prev
    ensures OriginsFit(built, n, recs, o + (if y then [i] else []))
  {
    if y {
      var origin := o + [i];
      forall k | 0 <= k < |origin| ensures built(origin[k], recs[k]) {
        if k < |o| {
          assert recs[k] == prev[k];
        }
      }
    }
  }

  /** A file among the first i has a record exactly when it yields one. */
  lemma {:induction false} OriginsExact(embed: (nat, EmbedRequest) -> EmbedReply, files: seq<TextFile>, n0: nat, i: nat, j: nat)
    requires i <= |files| && j < i
    ensures j in Origins(embed, files, n0, i) <==> Yields(embed, files, n0, j)
    decreases i
  {
    var o := Origins(embed, files, n0, i - 1);
    if j < i - 1 {
      OriginsExact(embed, files, n0, i - 1, j);
    } else {
      assert j !in o;
    }
  }

  /**
   * One file of a run that has not raised: the records grow by one, a record
   * of that file, when it yields one, and stay as they were otherwise.
   */
  lemma RunGrowth(embed: (nat, EmbedRequest) -> EmbedReply, files: seq<TextFile>, n0: nat, i: nat)
    requires i < |files| && RunFirst(embed, files, n0, i + 1).records.Ok?
    ensures RunFirst(embed, files, n0, i).records.Ok?
    ensures var prev := RunFirst(embed, files, n0, i).records.value;
      var recs := RunFirst(embed, files, n0, i + 1).records.value;
      if Yields(embed, files, n0, i) then |recs| == |prev| + 1 && recs[..|prev|] == prev && RecordAt(embed, files, n0, i, recs[|prev|])
      else recs == prev
  {
  }

  /** Record `r` was built from chunk file `f`. */
  predicate RecordOf(f: TextFile, r: Record)
  {
    && EndsWith(f.name, ".txt")
    && r.text == f.content && r.filename == f.name && r.embedding != []
    && ParseChunkName(f.name) == Ok((r.quelle, r.chunkId))
  }

  /** `get_embedding` of file j's text, asked as the run's next embedding call. */
  function EmbeddingFor(embed: (nat, EmbedRequest) -> EmbedReply, files: seq<TextFile>, n0: nat, j: nat): Result<Option<Vector>>
    requires j < |files|
  {
    GetEmbedding(embed(n0 + |RunFirst(embed, files, n0, j).asked|, EmbedRequest(EmbedModel, files[j].content)))
  }

  /** Record `r` was built from file j of `files`, with the embedding `vecs[j]`. */
  function RecordFrom(files: seq<TextFile>, vecs: seq<Result<Option<Vector>>>): (nat, Record) -> bool
  {
    (j: nat, r: Record) => j < |files| && j < |vecs| && RecordOf(files[j], r) && vecs[j] == Ok(Some(r.embedding))
  }

  /** RecordAt as a relation from positions of the listing to records. */
  function BuiltAt(embed: (nat, EmbedRequest) -> EmbedReply, files: seq<TextFile>, n0: nat): (nat, Record) -> bool
  {
    (j: nat, r: Record) => RecordAt(embed, files, n0, j, r)
  }

  /** Record `r` was built from file j of the listing, with the vector of the reply to that file's text. */
  predicate RecordAt(embed: (nat, EmbedRequest) -> EmbedReply, files: seq<TextFile>, n0: nat, j: nat, r: Record)
  {
    && j < |files|
    && RecordOf(files[j], r)
    && EmbeddingFor(embed, files, n0, j) == Ok(Some(r.embedding))
  }

  /**
   * Chunk file j of the listing gives a record: a `.txt` file whose
   * embedding reply, the one the run asks for next, is a non-empty vector and
   * whose name parses.
   */
  predicate Yields(embed: (nat, EmbedRequest) -> EmbedReply, files: seq<TextFile>, n0: nat, j: nat)
    requires j < |files|
  {
    && EndsWith(files[j].name, ".txt")
    && var e := EmbeddingFor(embed, files, n0, j);
      && e.Ok? && e.value.Some? && e.value.value != []
      && ParseChunkName(files[j].name).Ok?
  }
}

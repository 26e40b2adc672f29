/**
 * graph_config.py: the LangGraph state machine behind the research-question
 * mode. A router classifies the question into one of three tasks, a fixed
 * conditional edge sends each task to its pipeline, and every pipeline is a
 * straight chain of nodes that update one shared state in place.
 */
module Graph {
  import opened Common
  import opened Text
  import opened Seqs
  import opened Dicts
  import opened Prompts
  import opened Oracles
  import opened RagTools

  // ------------------------------------------------------------------
  // Labels
  // ------------------------------------------------------------------

  const PaperQuestion: string := "paper_question"
  const StructureQuestion: string := "structure_question"
  const GapAnalysis: string := "gap_analysis"
  const TaskLabels: seq<string> := [PaperQuestion, StructureQuestion, GapAnalysis]

  const CritiqueDesign: string := "critique_design"
  const ProposeDesign: string := "propose_design"
  const RefineQuestion: string := "refine_question"
  const MethodsLabels: seq<string> := [CritiqueDesign, ProposeDesign, RefineQuestion]

  /**
   * `label = text.strip().lower(); if label not in allowed: label = fallback`,
   * the label parse that router_node and methods_parse_request share.
   */
  function Label(text: string, allowed: seq<string>, fallback: string): (r: string)
    ensures fallback in allowed ==> r in allowed
    ensures r == Lower(Strip(text)) || r == fallback
    ensures Lower(Strip(text)) in allowed ==> r == Lower(Strip(text))
  {
    var l := Lower(Strip(text));
    if l in allowed then l else fallback
  }

  /** router_node's label: one of the three tasks, `structure_question` by default. */
  function RouteLabel(text: string): string
  {
    Label(text, TaskLabels, StructureQuestion)
  }

  /** methods_parse_request's label: one of the three methods tasks, `critique_design` by default. */
  function MethodsTask(text: string): string
  {
    Label(text, MethodsLabels, CritiqueDesign)
  }

  /** Dropping trailing whitespace from `x + post`, for `x` not ending in whitespace, gives `x`. */
  lemma {:induction false} RStripPadding(x: string, post: string)
    requires AllSpace(post) && (x == [] || !IsSpace(x[|x| - 1]))
    ensures RStrip(x + post) == x
    decreases |post|
  {
    if post != [] {
      var p' := post[..|post| - 1];
      assert (x + post)[..|x + post| - 1] == x + p';
      RStripPadding(x, p');
    } else {
      assert x + post == x;
    }
  }

  /** Dropping leading whitespace from `pre + x`, for `x` not starting with whitespace, gives `x`. */
  lemma {:induction false} LStripPadding(pre: string, x: string)
    requires AllSpace(pre) && (x == [] || !IsSpace(x[0]))
    ensures LStrip(pre + x) == x
    decreases |pre|
  {
    if pre != [] {
      assert (pre + x)[1..] == pre[1..] + x;
      LStripPadding(pre[1..], x);
    } else {
      assert pre + x == x;
    }
  }

  /** `strip` removes exactly a whitespace margin around text that has none of its own. */
  lemma StripPadding(pre: string, x: string, post: string)
    requires AllSpace(pre) && AllSpace(post) && |x| > 0 && !IsSpace(x[0]) && !IsSpace(x[|x| - 1])
    ensures Strip(pre + x + post) == x
  {
    RStripPadding(pre + x, post);
    LStripPadding(pre, x);
  }

  /**
   * The label parse ignores surrounding whitespace and letter case: any
   * spelling of an allowed label, padded with whitespace, gives that label.
   */
  lemma LabelPadded(pre: string, u: string, post: string, allowed: seq<string>, fallback: string)
    requires AllSpace(pre) && AllSpace(post) && |u| > 0 && !IsSpace(u[0]) && !IsSpace(u[|u| - 1])
    requires Lower(u) in allowed
    ensures Label(pre + u + post, allowed, fallback) == Lower(u)
  {
    StripPadding(pre, u, post);
  }

  /** A lower-case label free of whitespace is parsed as itself. */
  lemma LabelOfLabel(l: string, allowed: seq<string>, fallback: string)
    requires l in allowed && LabelWord(l)
    ensures Label(l, allowed, fallback) == l
  {
    assert Lower(l) == l;
    LabelPadded([], l, [], allowed, fallback);
    assert [] + l + [] == l;
  }

  /** A label written in lower-case letters and underscores. */
  predicate LabelWord(l: string)
  {
    |l| > 0 && forall k :: 0 <= k < |l| ==> 'a' <= l[k] <= 'z' || l[k] == '_'
  }

  lemma LabelWords()
    ensures forall l :: l in TaskLabels ==> LabelWord(l)
    ensures forall l :: l in MethodsLabels ==> LabelWord(l)
  {
  }

  /** The router's answer is always one of the three tasks, and each task label is read as itself. */
  lemma RouteLabelFacts(text: string)
    ensures RouteLabel(text) in TaskLabels
    ensures forall l :: l in TaskLabels ==> RouteLabel(l) == l
  {
    LabelWords();
    forall l | l in TaskLabels ensures RouteLabel(l) == l {
      LabelOfLabel(l, TaskLabels, StructureQuestion);
    }
  }

  /** The methods label is always one of the three methods tasks, and each is read as itself. */
  lemma MethodsTaskFacts(text: string)
    ensures MethodsTask(text) in MethodsLabels
    ensures forall l :: l in MethodsLabels ==> MethodsTask(l) == l
  {
    LabelWords();
    forall l | l in MethodsLabels ensures MethodsTask(l) == l {
      LabelOfLabel(l, MethodsLabels, CritiqueDesign);
    }
  }

  // ------------------------------------------------------------------
  // The graph's edges
  // ------------------------------------------------------------------

  datatype Node =
    | Router
    | PaperSelectScope | PaperRetrievePassages | PaperSynthesizeAnswer
    | MethodsParseRequest | MethodsRetrieveGuidance | MethodsApplyGuidance
    | GapCollectInputs | GapRetrieveGuides | GapProposeGaps | GapProposeRqs | GapFormatAnswer
    | End

  /** router_edge: the state's task, `structure_question` when it has none. */
  function RouterEdge(task: Option<string>): (r: string)
    ensures task.Some? ==> r == task.value
    ensures task.None? ==> r == StructureQuestion
  {
    task.GetOr(StructureQuestion)
  }

  /** The conditional edge's mapping; LangGraph raises on a label outside it. */
  function RouteTarget(task: string): (r: Result<Node>)
    ensures r.Ok? <==> task in TaskLabels
  {
    if task == PaperQuestion then Ok(PaperSelectScope)
    else if task == StructureQuestion then Ok(MethodsParseRequest)
    else if task == GapAnalysis then Ok(GapCollectInputs)
    else Err(UnknownRoute(task))
  }

  /** The fixed edges: each node after the router has exactly one successor. */
  function Edge(n: Node): Node
    requires n != Router && n != End
  {
    match n
    case PaperSelectScope => PaperRetrievePassages
    case PaperRetrievePassages => PaperSynthesizeAnswer
    case PaperSynthesizeAnswer => End
    case MethodsParseRequest => MethodsRetrieveGuidance
    case MethodsRetrieveGuidance => MethodsApplyGuidance
    case MethodsApplyGuidance => End
    case GapCollectInputs => GapRetrieveGuides
    case GapRetrieveGuides => GapProposeGaps
    case GapProposeGaps => GapProposeRqs
    case GapProposeRqs => GapFormatAnswer
    case GapFormatAnswer => End
  }

  /** How many fixed edges lead from a node to END. */
  function StepsToEnd(n: Node): nat
    requires n != Router
  {
    match n
    case PaperSelectScope => 3
    case PaperRetrievePassages => 2
    case PaperSynthesizeAnswer => 1
    case MethodsParseRequest => 3
    case MethodsRetrieveGuidance => 2
    case MethodsApplyGuidance => 1
    case GapCollectInputs => 5
    case GapRetrieveGuides => 4
    case GapProposeGaps => 3
    case GapProposeRqs => 2
    case GapFormatAnswer => 1
    case End => 0
  }

  /** The nodes visited from `n` by the fixed edges, up to and excluding END. */
  function Chain(n: Node): (r: seq<Node>)
    requires n != Router
    decreases StepsToEnd(n)
    ensures |r| == StepsToEnd(n)
    ensures End !in r && Router !in r
  {
    if n == End then [] else [n] + Chain(Edge(n))
  }

  /** The nodes of each task's pipeline, in order. */
  function Pipeline(task: string): seq<Node>
  {
    if task == PaperQuestion then [PaperSelectScope, PaperRetrievePassages, PaperSynthesizeAnswer]
    else if task == StructureQuestion then [MethodsParseRequest, MethodsRetrieveGuidance, MethodsApplyGuidance]
    else [GapCollectInputs, GapRetrieveGuides, GapProposeGaps, GapProposeRqs, GapFormatAnswer]
  }

  /**
   * Every task label leads to its pipeline's first node, and from there the
   * fixed edges run through exactly that pipeline to END.
   */
  lemma RoutesReachEnd(task: string)
    requires task in TaskLabels
    ensures RouteTarget(task).Ok? && Chain(RouteTarget(task).value) == Pipeline(task)
  {
    var n := RouteTarget(task).value;
    assert Chain(n) == [n] + Chain(Edge(n));
    assert Chain(Edge(n)) == [Edge(n)] + Chain(Edge(Edge(n)));
    if task == GapAnalysis {
      var m := Edge(Edge(n));
      assert Chain(m) == [m] + Chain(Edge(m));
      assert Chain(Edge(m)) == [Edge(m)] + Chain(Edge(Edge(m)));
    }
  }

  /** The three pipelines share no node. */
  lemma PipelinesDisjoint(task: string, other: string)
    requires task in TaskLabels && other in TaskLabels && task != other
    ensures forall n :: n in Pipeline(task) ==> n !in Pipeline(other)
  {
  }

  /** After the router, the conditional edge always finds a pipeline. */
  lemma RouterEdgeRoutes(text: string)
    ensures RouteTarget(RouterEdge(Some(RouteLabel(text)))).Ok?
  {
    RouteLabelFacts(text);
  }

  // ------------------------------------------------------------------
  // _extract_pdf_titles: `([\w\-.]+\.pdf)`, IGNORECASE, every match lower-cased
  // ------------------------------------------------------------------

  /** `[\w\-.]` with ASCII `\w`. */
  predicate TitleChar(c: char)
  {
    'a' <= c <= 'z' || 'A' <= c <= 'Z' || '0' <= c <= '9' || c == '_' || c == '-' || c == '.'
  }

  /** `\.pdf` matches at k, letters in either case. */
  predicate PdfAt(s: string, k: nat)
  {
    k + 4 <= |s| && s[k] == '.' && LowerChar(s[k + 1]) == 'p' && LowerChar(s[k + 2]) == 'd' && LowerChar(s[k + 3]) == 'f'
  }

  /** The end of the run of title characters that starts at p. */
  function RunEnd(s: string, p: nat): (e: nat)
    requires p <= |s|
    decreases |s| - p
    ensures p <= e <= |s|
    ensures forall j :: p <= j < e ==> TitleChar(s[j])
    ensures e < |s| ==> !TitleChar(s[e])
  {
    if p < |s| && TitleChar(s[p]) then RunEnd(s, p + 1) else p
  }

  /** The last `.pdf` that starts in [lo, n). */
  function LastPdfBefore(s: string, lo: nat, n: nat): (r: Option<nat>)
    decreases n
    ensures r.Some? ==> lo <= r.value < n && PdfAt(s, r.value) && forall j :: r.value < j < n ==> !PdfAt(s, j)
    ensures r.None? ==> forall j :: lo <= j < n ==> !PdfAt(s, j)
  {
    if n <= lo then None else if PdfAt(s, n - 1) then Some(n - 1) else LastPdfBefore(s, lo, n - 1)
  }

  /**
   * The end of the match at p. The greedy `[\w\-.]+` takes the whole run of
   * title characters and gives back characters until `\.pdf` follows, so the
   * match ends after the last `.pdf` that starts beyond p inside the run.
   */
  function MatchAt(s: string, p: nat): (r: Option<nat>)
    requires p < |s|
    ensures r.Some? ==> p + 5 <= r.value <= RunEnd(s, p) && PdfAt(s, r.value - 4)
  {
    if !TitleChar(s[p]) then None
    else
      var e := RunEnd(s, p);
      if e < p + 5 then None
      else match LastPdfBefore(s, p + 1, e - 3)
        case None => None
        case Some(k) => Some(k + 4)
  }

  /**
   * The match is the longest one: no `.pdf` starts after the one it ends
   * with inside the run, and there is no match only when p does not start
   * a run or no `.pdf` beyond p fits inside its run.
   */
  lemma MatchAtLongest(s: string, p: nat)
    requires p < |s|
    ensures var r := MatchAt(s, p);
      && (r.Some? ==> forall j :: r.value - 4 < j < RunEnd(s, p) ==> !PdfAt(s, j))
      && (r.None? ==> !TitleChar(s[p]) || forall j :: p + 1 <= j && j + 4 <= RunEnd(s, p) ==> !PdfAt(s, j))
  {
    var e := RunEnd(s, p);
    assert forall j :: e <= j + 3 && j < e ==> !PdfAt(s, j);
  }

  /** `finditer` from p: a match resumes the scan at its end, a failed position at the next one. */
  function FindIter(s: string, p: nat): seq<string>
    requires p <= |s|
    decreases |s| - p
  {
    if p == |s| then []
    else match MatchAt(s, p)
      case Some(e) => [Lower(s[p..e])] + FindIter(s, e)
      case None => FindIter(s, p + 1)
  }

  /** _extract_pdf_titles. */
  function PdfTitles(question: string): seq<string>
  {
    FindIter(question, 0)
  }

  /** A file name as extracted: lower case, made of title characters, ending in ".pdf" after a non-empty stem. */
  predicate IsPdfTitle(t: string)
  {
    && |t| >= 5 && EndsWith(t, ".pdf") && Lower(t) == t
    && forall k :: 0 <= k < |t| ==> TitleChar(t[k])
  }

  lemma MatchIsTitle(s: string, p: nat, e: nat)
    requires p < |s| && MatchAt(s, p) == Some(e)
    ensures IsPdfTitle(Lower(s[p..e]))
  {
    var t := Lower(s[p..e]);
    var k := e - 4 - p;
    assert t[k] == '.' && t[k + 1] == 'p' && t[k + 2] == 'd' && t[k + 3] == 'f';
    assert t[|t| - 4..] == ".pdf";
    forall j | 0 <= j < |t| ensures TitleChar(t[j]) {
      assert s[p..e][j] == s[p + j];
    }
  }

  /** `spans` are the matches behind the titles `ts` found from p, in order and disjoint. */
  predicate SpansOf(s: string, p: nat, ts: seq<string>, spans: seq<(nat, nat)>)
  {
    && |spans| == |ts|
    && SpansMatch(s, p, spans)
    && SpansTitles(s, ts, spans)
    && SpansOrdered(spans)
  }

  predicate SpansOrdered(spans: seq<(nat, nat)>)
  {
    forall k, l :: 0 <= k < l < |spans| ==> spans[k].1 <= spans[l].0
  }

  lemma SpansOrderedCons(p: nat, e: nat, rest: seq<(nat, nat)>)
    requires SpansOrdered(rest) && forall k :: 0 <= k < |rest| ==> e <= rest[k].0
    ensures SpansOrdered([(p, e)] + rest)
  {
    var spans := [(p, e)] + rest;
    forall k, l | 0 <= k < l < |spans| ensures spans[k].1 <= spans[l].0 {
      assert spans[l] == rest[l - 1];
      if k > 0 {
        assert spans[k] == rest[k - 1];
      }
    }
  }

  predicate SpansTitles(s: string, ts: seq<string>, spans: seq<(nat, nat)>)
    requires |spans| == |ts|
  {
    forall k :: 0 <= k < |spans| ==> spans[k].0 < spans[k].1 <= |s| && ts[k] == Lower(s[spans[k].0..spans[k].1])
  }

  lemma SpansTitlesCons(s: string, p: nat, e: nat, tail: seq<string>, rest: seq<(nat, nat)>)
    requires p < e <= |s| && |tail| == |rest| && SpansTitles(s, tail, rest)
    ensures SpansTitles(s, [Lower(s[p..e])] + tail, [(p, e)] + rest)
  {
    var spans := [(p, e)] + rest;
    var ts := [Lower(s[p..e])] + tail;
    forall k | 0 < k < |spans| ensures spans[k] == rest[k - 1] && ts[k] == tail[k - 1] {
    }
  }

  predicate SpansMatch(s: string, p: nat, spans: seq<(nat, nat)>)
  {
    forall k :: 0 <= k < |spans| ==> p <= spans[k].0 < spans[k].1 <= |s| && MatchAt(s, spans[k].0) == Some(spans[k].1)
  }

  lemma SpansMatchCons(s: string, p: nat, e: nat, rest: seq<(nat, nat)>)
    requires p < e <= |s| && MatchAt(s, p) == Some(e) && SpansMatch(s, e, rest)
    ensures SpansMatch(s, p, [(p, e)] + rest)
  {
    var spans := [(p, e)] + rest;
    forall k | 0 < k < |spans| ensures spans[k] == rest[k - 1] {
    }
  }

  lemma SpansCons(s: string, p: nat, e: nat, tail: seq<string>, rest: seq<(nat, nat)>)
    requires p < e <= |s| && MatchAt(s, p) == Some(e) && SpansOf(s, e, tail, rest)
    ensures SpansOf(s, p, [Lower(s[p..e])] + tail, [(p, e)] + rest)
  {
    SpansMatchCons(s, p, e, rest);
    SpansTitlesCons(s, p, e, tail, rest);
    SpansOrderedCons(p, e, rest);
  }

  /**
   * The extracted titles, left to right: `spans[k]` is the stretch of the
   * question that title k lower-cases, each a full match of the pattern,
   * in increasing, non-overlapping order.
   */
  lemma {:induction false} FindIterSpans(s: string, p: nat) returns (spans: seq<(nat, nat)>)
    requires p <= |s|
    ensures SpansOf(s, p, FindIter(s, p), spans)
    decreases |s| - p
  {
    if p == |s| {
      spans := [];
    } else {
      match MatchAt(s, p)
      case Some(e) =>
        var rest := FindIterSpans(s, e);
        SpansCons(s, p, e, FindIter(s, e), rest);
        spans := [(p, e)] + rest;
      case None =>
        spans := FindIterSpans(s, p + 1);
    }
  }

  /** Every extracted title is a lower-case name ending in ".pdf". */
  lemma TitlesArePdfNames(s: string)
    ensures forall t :: t in PdfTitles(s) ==> IsPdfTitle(t)
  {
    var spans := FindIterSpans(s, 0);
    forall t | t in PdfTitles(s) ensures IsPdfTitle(t) {
      var k :| 0 <= k < |PdfTitles(s)| && PdfTitles(s)[k] == t;
      MatchIsTitle(s, spans[k].0, spans[k].1);
    }
  }

  /** A run of title characters reaches at least as far as they go. */
  lemma {:induction false} RunEndAtLeast(s: string, p: nat, m: nat)
    requires p <= m <= |s| && forall j :: p <= j < m ==> TitleChar(s[j])
    ensures RunEnd(s, p) >= m
    decreases m - p
  {
    if p < m {
      RunEndAtLeast(s, p + 1, m);
    }
  }

  /** A `.pdf` preceded by a title character at or after p. */
  predicate PdfAfter(s: string, p: nat)
  {
    exists k :: p + 1 <= k < |s| && PdfAt(s, k) && TitleChar(s[k - 1])
  }

  /** The scan from p finds nothing exactly when no `.pdf` preceded by a title character starts beyond p. */
  lemma {:induction false} FindIterEmpty(s: string, p: nat)
    requires p <= |s|
    ensures FindIter(s, p) == [] <==> !PdfAfter(s, p)
    decreases |s| - p
  {
    if p < |s| {
      match MatchAt(s, p)
      case Some(e) =>
        assert TitleChar(s[e - 5]);
        assert PdfAfter(s, p) by {
          assert p + 1 <= e - 4 && PdfAt(s, e - 4) && TitleChar(s[e - 4 - 1]);
        }
      case None =>
        FindIterEmpty(s, p + 1);
        MatchAtLongest(s, p);
        if PdfAfter(s, p) {
          var k :| p + 1 <= k && PdfAt(s, k) && TitleChar(s[k - 1]);
          if k == p + 1 {
            assert false;
          }
          assert PdfAfter(s, p + 1);
        }
        if PdfAfter(s, p + 1) {
          var k :| p + 2 <= k && PdfAt(s, k) && TitleChar(s[k - 1]);
          assert PdfAfter(s, p);
        }
    }
  }

  /**
   * The titles of a question: each a lower-case name ending in ".pdf", and
   * none at all exactly when the question has no ".pdf" (in any case) right
   * after a title character.
   */
  lemma PdfTitlesFacts(question: string)
    ensures forall t :: t in PdfTitles(question) ==> IsPdfTitle(t)
    ensures PdfTitles(question) == [] <==> !PdfAfter(question, 0)
  {
    TitlesArePdfNames(question);
    FindIterEmpty(question, 0);
  }
  // ------------------------------------------------------------------
  // paper_retrieve_passages: which stored summaries are used
  // ------------------------------------------------------------------

  /** `[t.lower() for t in titles]`. */
  function Lowered(titles: seq<string>): (r: seq<string>)
    ensures |r| == |titles| && forall k :: 0 <= k < |r| ==> r[k] == Lower(titles[k])
  {
    seq(|titles|, k requires 0 <= k < |titles| => Lower(titles[k]))
  }

  /** The entries whose file name, lower-cased, is one of `wanted`. */
  function WantedIn(wanted: seq<string>): ((string, string)) -> bool
  {
    (e: (string, string)) => Lower(e.0) in wanted
  }

  /**
   * The summaries the paper pipeline reads: the wanted ones when any is
   * stored, otherwise all of them (`paper_summaries` missing reads as `{}`).
   */
  function Scope(summaries: Option<Dict<string>>, selected: seq<string>): Dict<string>
  {
    var all := summaries.GetOr([]);
    var wanted := Lowered(selected);
    var matched := if wanted != [] then Filter(all, WantedIn(wanted)) else [];
    if matched != [] then matched else all
  }

  /** The summary texts of some entries, in order. */
  function Docs(entries: Dict<string>): (r: seq<string>)
    ensures |r| == |entries| && forall k :: 0 <= k < |r| ==> r[k] == entries[k].1
  {
    seq(|entries|, k requires 0 <= k < |entries| => entries[k].1)
  }

  /** `{"title": filename}` for each of some entries, in order. */
  function TitleMetas(entries: Dict<string>): (r: seq<SourceMeta>)
    ensures |r| == |entries| && forall k :: 0 <= k < |r| ==> r[k] == SourceMeta(None, Some(entries[k].0), None)
  {
    seq(|entries|, k requires 0 <= k < |entries| => SourceMeta(None, Some(entries[k].0), None))
  }

  /**
   * When some stored file name, lower-cased, is among the selected titles,
   * the scope is exactly the entries so named, in dictionary order: `idx`
   * lists their positions, increasing, and a position is listed exactly
   * when its name is wanted.
   */
  lemma ScopeMatches(summaries: Dict<string>, selected: seq<string>, j: nat) returns (idx: seq<nat>)
    requires j < |summaries| && Lower(summaries[j].0) in Lowered(selected)
    ensures var sc := Scope(Some(summaries), selected);
      && |idx| == |sc|
      && (forall k :: 0 <= k < |idx| ==> idx[k] < |summaries| && sc[k] == summaries[idx[k]])
      && (forall k, l :: 0 <= k < l < |idx| ==> idx[k] < idx[l])
      && (forall i :: 0 <= i < |summaries| ==> (Lower(summaries[i].0) in Lowered(selected) <==> i in idx))
  {
    var wanted := Lowered(selected);
    idx := FilterFacts(summaries, WantedIn(wanted));
    assert WantedIn(wanted)(summaries[j]);
    assert j in idx;
  }

  /** A stored file whose name equals a selected title up to letter case is in the scope. */
  lemma ScopeIncludesNamed(summaries: Dict<string>, selected: seq<string>, j: nat, t: string)
    requires j < |summaries| && t in selected && Lower(summaries[j].0) == Lower(t)
    ensures summaries[j] in Scope(Some(summaries), selected)
  {
    var k :| 0 <= k < |selected| && selected[k] == t;
    assert Lowered(selected)[k] == Lower(t);
    var idx := ScopeMatches(summaries, selected, j);
    var m :| 0 <= m < |idx| && idx[m] == j;
    assert Scope(Some(summaries), selected)[m] == summaries[j];
  }

  /** When no stored name is wanted (in particular when nothing is selected), every summary is used. */
  lemma ScopeFallsBack(summaries: Option<Dict<string>>, selected: seq<string>)
    requires forall i :: 0 <= i < |summaries.GetOr([])| ==> Lower(summaries.GetOr([])[i].0) !in Lowered(selected)
    ensures Scope(summaries, selected) == summaries.GetOr([])
  {
    FilterNone(summaries.GetOr([]), WantedIn(Lowered(selected)));
  }

  /** Without stored summaries the scope is empty; with some, it is never empty. */
  lemma ScopeEmpty(summaries: Option<Dict<string>>, selected: seq<string>)
    ensures Scope(summaries, selected) == [] <==> summaries.GetOr([]) == []
  {
  }

  // ------------------------------------------------------------------
  // paper_synthesize_answer: the combined summaries and the title list
  // ------------------------------------------------------------------

  const NoSummariesAnswer: string :=
    "I couldn't find any summaries of your uploaded papers.\n\n"
    + "Please upload PDFs in the sidebar, click **“Summarize uploaded papers”**, "
    + "and then ask your question again."

  const MaxContextChars: nat := 15000

  /** `doc_text.strip() + "\n\n"`: what one document adds to the combined summaries. */
  function Block(doc: string): (r: string)
    ensures |r| >= 2 && EndsWith(r, "\n\n")
  {
    var r := Strip(doc) + "\n\n";
    assert r[|r| - 2..] == "\n\n";
    r
  }

  /** The block of every document, in order. */
  function Blocks(docs: seq<string>): (r: seq<string>)
    ensures |r| == |docs| && forall i :: 0 <= i < |r| ==> r[i] == Block(docs[i])
  {
    seq(|docs|, i requires 0 <= i < |docs| => Block(docs[i]))
  }

  /** `combined_summaries` once the loop has read the first n documents. */
  function Combined(docs: seq<string>, n: nat): string
    requires n <= |docs|
  {
    Concat(Blocks(docs), n)
  }

  /** One more document appends its block. */
  lemma CombinedSnoc(docs: seq<string>, n: nat)
    requires n < |docs|
    ensures Combined(docs, n + 1) == Combined(docs, n) + Block(docs[n])
  {
    assert Concat(Blocks(docs), n + 1) == Concat(Blocks(docs), n) + Blocks(docs)[n];
  }

  /** The combined text of fewer documents begins the combined text of more of them. */
  lemma CombinedMono(docs: seq<string>, k: nat, n: nat)
    requires k <= n <= |docs|
    ensures StartsWith(Combined(docs, n), Combined(docs, k))
  {
    ConcatMono(Blocks(docs), k, n);
  }

  /**
   * The documents are concatenated, none dropped: the k-th one, stripped
   * and followed by "\n\n", sits right after the first k in the combined
   * text, even when it repeats an earlier one.
   */
  lemma CombinedPrefix(docs: seq<string>, k: nat)
    requires k < |docs|
    ensures StartsWith(Combined(docs, |docs|), Combined(docs, k) + Block(docs[k]))
  {
    CombinedMono(docs, k + 1, |docs|);
    CombinedSnoc(docs, k);
  }

  /** Every document adds its stripped text and two newlines. */
  lemma {:induction false} CombinedLength(docs: seq<string>, n: nat)
    requires n <= |docs|
    ensures |Combined(docs, n)| >= 2 * n
    ensures n > 0 ==> Combined(docs, n) != [] && EndsWith(Combined(docs, n), "\n\n")
    decreases n
  {
    if n > 0 {
      CombinedLength(docs, n - 1);
      CombinedSnoc(docs, n - 1);
      EndsWithAppend(Combined(docs, n - 1), Block(docs[n - 1]), "\n\n");
    }
  }

  /** The hard cap: a prefix of at most 15000 characters, the whole text when it fits. */
  function Cap(text: string): (r: string)
    ensures |r| <= MaxContextChars && |r| <= |text| && r == text[..|r|]
    ensures |text| <= MaxContextChars <==> r == text
  {
    if |text| > MaxContextChars then text[..MaxContextChars] else text
  }

  /** `(meta.get("title") or "uploaded paper").strip()`. */
  function MetaTitle(m: SourceMeta): string
  {
    Strip(OrElse(m.title, "uploaded paper"))
  }

  /** The title of each metadata record, in order. */
  function MetaTitles(metas: seq<SourceMeta>): (r: seq<string>)
    ensures |r| == |metas| && forall k :: 0 <= k < |r| ==> r[k] == MetaTitle(metas[k])
  {
    seq(|metas|, k requires 0 <= k < |metas| => MetaTitle(metas[k]))
  }

  /** `", ".join(paper_titles) if paper_titles else "the uploaded papers"`. */
  function TitlesText(titles: seq<string>): string
  {
    if titles == [] then "the uploaded papers" else Join(", ", titles)
  }

  /** `zip(docs, metas)` stops at the shorter list. */
  function ZipLength(docs: seq<string>, metas: seq<SourceMeta>): (n: nat)
    ensures n <= |docs| && n <= |metas| && (n == |docs| || n == |metas|)
  {
    if |docs| < |metas| then |docs| else |metas|
  }

  /**
   * The paper titles: each distinct title once, in the order of first
   * appearance; a record without a title counts as "uploaded paper".
   */
  lemma PaperTitlesFacts(metas: seq<SourceMeta>, n: nat)
    requires n <= |metas|
    ensures NoDup(Dedup(MetaTitles(metas[..n])))
    ensures forall t :: t in Dedup(MetaTitles(metas[..n])) <==> t in MetaTitles(metas[..n])
    ensures forall k :: 0 <= k < n ==> MetaTitle(metas[k]) in Dedup(MetaTitles(metas[..n]))
  {
    var ts := MetaTitles(metas[..n]);
    DedupFacts(ts);
    forall k | 0 <= k < n
      ensures MetaTitle(metas[k]) in ts
    {
      assert metas[..n][k] == metas[k];
      assert ts[k] == MetaTitle(metas[k]);
    }
  }

  /** A record without a title, or with an empty one, is listed as "uploaded paper". */
  lemma MetaTitleDefault(m: SourceMeta)
    requires m.title.None? || m.title == Some("")
    ensures MetaTitle(m) == "uploaded paper"
  {
    StripNoSpace("uploaded paper");
  }

  // ------------------------------------------------------------------
  // The methods pipeline
  // ------------------------------------------------------------------

  const CritiqueSuffix: string := " (research design evaluation, validity, reliability, sampling, data collection, BFH thesis requirements)"
  const ProposeSuffix: string := " (how to design a study, data sources, methods choice, Creswell designs, BFH guidelines)"
  const RefineSuffix: string := " (good research questions, operationalization, variables, constructs, Creswell research questions)"

  /** The flavour methods_retrieve_guidance adds for a task; refine_question is the else-arm. */
  function MethodsSuffix(task: string): (x: string)
    ensures |x| >= 88
  {
    if task == CritiqueDesign then CritiqueSuffix
    else if task == ProposeDesign then ProposeSuffix
    else RefineSuffix
  }

  /** The knowledge-base query of methods_retrieve_guidance: the question flavoured by the task. */
  function MethodsQuery(question: string, task: string): string
  {
    question + MethodsSuffix(task)
  }

  /** The character that tells the three suffixes apart, third from their end. */
  function SuffixMark(task: string): char
  {
    if task == CritiqueDesign then 't' else if task == ProposeDesign then 'e' else 'n'
  }

  lemma SuffixMarks(task: string)
    ensures var x := MethodsSuffix(task); x[|x| - 3] == SuffixMark(task)
  {
  }

  /**
   * The query keeps the question and tells the tasks apart: two queries are
   * equal exactly when the questions are equal and the tasks take the same
   * arm (the three methods labels take three different arms).
   */
  lemma MethodsQueryInjective(q1: string, t1: string, q2: string, t2: string)
    requires t1 in MethodsLabels && t2 in MethodsLabels
    ensures MethodsQuery(q1, t1) == MethodsQuery(q2, t2) <==> q1 == q2 && t1 == t2
  {
    var x1, x2 := MethodsSuffix(t1), MethodsSuffix(t2);
    var a, b := q1 + x1, q2 + x2;
    if a == b {
      SuffixMarks(t1);
      SuffixMarks(t2);
      assert a[|a| - 3] == x1[|x1| - 3];
      assert b[|b| - 3] == x2[|x2| - 3];
      assert t1 == t2;
      assert q1 == a[..|q1|];
      assert q2 == b[..|q2|];
    }
  }

  /** methods_apply_guidance's choice of instructions: refinement for any other task. */
  function FocusFor(task: string): (f: Focus)
    ensures f == CritiqueFocus <==> task == CritiqueDesign
    ensures f == ProposeFocus <==> task == ProposeDesign
  {
    if task == CritiqueDesign then CritiqueFocus
    else if task == ProposeDesign then ProposeFocus
    else RefineFocus
  }

  /** The methods label behind each focus. */
  function FocusLabel(f: Focus): (task: string)
    ensures task in MethodsLabels
  {
    match f
    case CritiqueFocus => CritiqueDesign
    case ProposeFocus => ProposeDesign
    case RefineFocus => RefineQuestion
  }

  /** The three methods labels and the three foci correspond one to one, and the query takes the focus's arm. */
  lemma FocusRoundTrip(task: string, f: Focus, question: string)
    ensures FocusFor(FocusLabel(f)) == f
    ensures task in MethodsLabels ==> FocusLabel(FocusFor(task)) == task
    ensures MethodsQuery(question, task) == MethodsQuery(question, FocusLabel(FocusFor(task)))
  {
  }

  // ------------------------------------------------------------------
  // The gap pipeline
  // ------------------------------------------------------------------

  const NoPaperSummaries: string :=
    "No paper summaries are available. "
    + "Please upload PDFs, click 'Summarize uploaded papers', "
    + "and then try gap analysis again."

  const GapSuffix: string := " (research gaps, contribution, how to identify gaps, how to formulate research questions)"

  /** gap_retrieve_guides' query. */
  function GapQuery(question: string): (q: string)
    ensures |q| == |question| + |GapSuffix| && q[..|question|] == question
  {
    question + GapSuffix
  }

  /** The block of one summary: stripped, under a "## file" heading unless it already has one. */
  function GapBlock(filename: string, summary: string): string
  {
    Headed(filename, Strip(summary))
  }

  function Headed(filename: string, text: string): string
  {
    if !StartsWith(Lower(text), "## ") then "## " + filename + "\n\n" + text else text
  }

  /**
   * Every block starts with "## " (in any letter case) and ends with the
   * stripped summary; a summary that already has a heading is only stripped.
   */
  lemma GapBlockFacts(filename: string, summary: string)
    ensures StartsWith(Lower(GapBlock(filename, summary)), "## ")
    ensures EndsWith(GapBlock(filename, summary), Strip(summary))
    ensures StartsWith(Lower(Strip(summary)), "## ") ==> GapBlock(filename, summary) == Strip(summary)
  {
    HeadedFacts(filename, Strip(summary));
  }

  lemma HeadedFacts(filename: string, text: string)
    ensures StartsWith(Lower(Headed(filename, text)), "## ")
    ensures EndsWith(Headed(filename, text), text)
  {
    if !StartsWith(Lower(text), "## ") {
      var b := "## " + filename + "\n\n" + text;
      assert b[0] == '#' && b[1] == '#' && b[2] == ' ';
      assert Lower(b)[..3] == "## ";
      assert b[|b| - |text|..] == text;
    } else {
      assert text[|text| - |text|..] == text;
    }
  }

  /** The block of every entry, in dictionary order. */
  function GapBlocks(summaries: Dict<string>): (r: seq<string>)
    ensures |r| == |summaries| && forall k :: 0 <= k < |r| ==> r[k] == GapBlock(summaries[k].0, summaries[k].1)
  {
    seq(|summaries|, k requires 0 <= k < |summaries| => GapBlock(summaries[k].0, summaries[k].1))
  }

  /** `gap_paper_summaries` after gap_collect_inputs. */
  function GapInputs(summaries: Option<Dict<string>>): string
  {
    var all := summaries.GetOr([]);
    if all == [] then NoPaperSummaries else Join("\n\n", GapBlocks(all))
  }

  /**
   * With no summaries the gap inputs are the fixed placeholder; otherwise
   * they open with the first summary's block, so with a "## " heading.
   */
  lemma GapInputsFacts(summaries: Option<Dict<string>>)
    ensures summaries.GetOr([]) == [] ==> GapInputs(summaries) == NoPaperSummaries
    ensures summaries.GetOr([]) != [] ==>
      var all := summaries.GetOr([]);
      && StartsWith(GapInputs(summaries), GapBlock(all[0].0, all[0].1))
      && StartsWith(Lower(GapInputs(summaries)), "## ")
  {
    var all := summaries.GetOr([]);
    if all != [] {
      var bs := GapBlocks(all);
      GapBlockFacts(all[0].0, all[0].1);
      JoinStarts("\n\n", bs);
      LowerPrefix(Join("\n\n", bs), bs[0]);
      StartsWithTrans(Lower(Join("\n\n", bs)), Lower(bs[0]), "## ");
    }
  }

  const GapAnswerHead: string := "### Identified gaps\n"
  const GapAnswerMiddle: string := "\n\n### Candidate research questions\n"
  const GapAnswerTail: string :=
    "\n\n### How to use this\n"
    + "- Choose 1–2 gaps that match your interests and constraints (time, data access, skills).\n"
    + "- Refine the corresponding research questions with your supervisor.\n"
    + "- Use the gaps to justify the relevance of your thesis in the introduction and literature review.\n"

  /** gap_format_answer's template. */
  function GapAnswer(gaps: string, rqs: string): string
  {
    GapAnswerHead + gaps + GapAnswerMiddle + rqs + GapAnswerTail
  }

  /**
   * The answer holds the gaps and the research questions verbatim in their
   * sections, so they can be read back: equal answers with gap texts of the
   * same length have the same gaps and the same questions.
   */
  lemma GapAnswerParts(gaps: string, rqs: string)
    ensures var a := GapAnswer(gaps, rqs);
      var g0 := |GapAnswerHead|;
      var r0 := g0 + |gaps| + |GapAnswerMiddle|;
      && |a| == r0 + |rqs| + |GapAnswerTail|
      && a[..g0] == GapAnswerHead && a[g0..g0 + |gaps|] == gaps
      && a[g0 + |gaps|..r0] == GapAnswerMiddle
      && a[r0..r0 + |rqs|] == rqs && a[r0 + |rqs|..] == GapAnswerTail
  {
  }

  lemma GapAnswerInjective(g1: string, r1: string, g2: string, r2: string)
    requires |g1| == |g2|
    ensures GapAnswer(g1, r1) == GapAnswer(g2, r2) <==> g1 == g2 && r1 == r2
  {
    GapAnswerParts(g1, r1);
    GapAnswerParts(g2, r2);
  }
}

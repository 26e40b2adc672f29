/**
 * graph_config.py's AppState and its nodes. The state is one record that
 * every node updates in place; a node that calls a service and gets an
 * exception ends the run with that exception, leaving the fields it had
 * already written.
 */
module GraphState {
  import opened Common
  import opened Text
  import opened Seqs
  import opened Dicts
  import opened Prompts
  import opened Oracles
  import opened RagTools
  import opened Graph

  /** A snapshot of every field of the state. `paperSummaries` is `None` when the key is absent. */
  datatype State = State(
    question: string, mode: string, persona: string, summary: string, recentQas: string,
    task: string, uploadCollectionName: string,
    paperSummaries: Option<Dict<string>>,
    selectedTitles: seq<string>, contextDocs: seq<string>, metadatas: seq<SourceMeta>, answer: string,
    gapPaperSummaries: string, gapGuides: string, gapCandidates: string, rqCandidates: string,
    methodsTask: string, methodsGuides: string)

  // ------------------------------------------------------------------
  // The requests the nodes send, as functions of the state they read
  // ------------------------------------------------------------------

  function Style(s: State): Persona
  {
    PersonaStyle(s.persona)
  }

  /** router_node's classification request (temperature 0). */
  function RouterRequest(s: State): ChatRequest
  {
    ChatRequest(RouterPrompt(s.mode, s.persona, s.summary, s.recentQas, s.question), 0.0)
  }

  /** How many (document, metadata) pairs paper_synthesize_answer reads. */
  function Paired(s: State): nat
  {
    ZipLength(s.contextDocs, s.metadatas)
  }

  /** The combined summaries after the 15000-character cap. */
  function SynthesisContext(s: State): string
  {
    Cap(Combined(s.contextDocs, Paired(s)))
  }

  /** The distinct paper titles, in order of first appearance. */
  function SynthesisTitles(s: State): seq<string>
  {
    Dedup(MetaTitles(s.metadatas[..Paired(s)]))
  }

  function PaperRequest(s: State): LlmRequest
  {
    LlmRequest(PaperAnswerPrompt(s.mode, s.persona, Style(s), s.summary, s.recentQas,
                                 TitlesText(SynthesisTitles(s)), SynthesisContext(s), s.question),
               900, Temperature(Style(s)))
  }

  function ClassifyRequest(s: State): LlmRequest
  {
    LlmRequest(MethodsClassifyPrompt(s.question), 3, 0.0)
  }

  function CoachRequest(s: State): LlmRequest
  {
    LlmRequest(MethodsCoachPrompt(s.mode, ModeInstructionFor(s.mode), s.persona, Style(s), s.summary,
                                  s.recentQas, s.methodsGuides, s.question, FocusFor(s.methodsTask)),
               900, Temperature(Style(s)))
  }

  function GapsRequest(s: State): LlmRequest
  {
    LlmRequest(GapPrompt(s.gapPaperSummaries, s.gapGuides, s.question), 900, Temperature(Style(s)))
  }

  function RqsRequest(s: State): LlmRequest
  {
    LlmRequest(GapQuestionsPrompt(s.gapCandidates, s.gapGuides, s.question), 900, Temperature(Style(s)))
  }

  /**
   * The paper answer's context is at most 15000 characters, begins the
   * concatenation of the paired documents, and is what the gap pipeline
   * later reuses once stripped; the title list names each paired record's
   * title once.
   */
  lemma SynthesisFacts(s: State)
    ensures |SynthesisContext(s)| <= MaxContextChars
    ensures StartsWith(Combined(s.contextDocs, Paired(s)), SynthesisContext(s))
    ensures |Strip(SynthesisContext(s))| <= MaxContextChars
    ensures NoDup(SynthesisTitles(s))
    ensures forall t :: t in SynthesisTitles(s) <==> t in MetaTitles(s.metadatas[..Paired(s)])
    ensures forall k :: 0 <= k < Paired(s) ==> MetaTitle(s.metadatas[k]) in SynthesisTitles(s)
  {
    PaperTitlesFacts(s.metadatas, Paired(s));
  }

  /** The state once paper_select_scope and paper_retrieve_passages have run. */
  function Scoped(s: State): State
  {
    var sc := Scope(s.paperSummaries, PdfTitles(s.question));
    s.(selectedTitles := PdfTitles(s.question), contextDocs := Docs(sc), metadatas := TitleMetas(sc))
  }

  /** The scoped documents are empty exactly when there are no stored summaries. */
  lemma ScopedEmpty(s: State)
    ensures Scoped(s).contextDocs == [] <==> s.paperSummaries.GetOr([]) == []
    ensures SameInputs(Scoped(s), s) && Scoped(s).task == s.task
  {
    ScopeEmpty(s.paperSummaries, PdfTitles(s.question));
  }

  /** The fields no node writes, which the caller passes in. */
  predicate SameInputs(a: State, b: State)
  {
    && a.question == b.question && a.mode == b.mode && a.persona == b.persona && a.summary == b.summary
    && a.recentQas == b.recentQas && a.uploadCollectionName == b.uploadCollectionName
    && a.paperSummaries == b.paperSummaries
  }

  /**
   * The graph's state. LangGraph hands the same dict to every node, which
   * assigns some of its keys and returns it; here the dict is the record in
   * `state`, and each `state["key"] = value` is an update of that record.
   */
  class AppState {
    var state: State

    constructor (s: State)
      ensures state == s
    {
      state := s;
    }

    // ----------------------------------------------------------------
    // Router
    // ----------------------------------------------------------------

    /** router_node: ask the chat service for a label and keep the parsed one. */
    method Route(svc: Services) returns (o: Outcome)
      modifies this, svc.chat
      ensures var r := ServiceText(svc.chat.respond(|old(svc.chat.asked)|, RouterRequest(old(state))));
        && (r.Ok? ==> o == Pass && state == old(state).(task := RouteLabel(r.value)))
        && (r.Err? ==> o == Fail(r.error) && state == old(state))
      ensures svc.chat.asked == old(svc.chat.asked) + [RouterRequest(old(state))]
      ensures o.Pass? ==> state.task in TaskLabels
    {
      var s := state;
      var r := svc.ChatComplete(RouterPrompt(s.mode, s.persona, s.summary, s.recentQas, s.question), 0.0);
      if r.Err? {
        return Fail(r.error);
      }
      state := s.(task := RouteLabel(r.value));
      return Pass;
    }

    // ----------------------------------------------------------------
    // Paper pipeline
    // ----------------------------------------------------------------

    /** paper_select_scope: the PDF names written in the question. */
    method SelectScope()
      modifies this
      ensures state == old(state).(selectedTitles := PdfTitles(old(state).question))
    {
      state := state.(selectedTitles := PdfTitles(state.question));
    }

    /** paper_retrieve_passages: the scoped summaries as documents, each with its file name as title. */
    method RetrievePassages()
      modifies this
      ensures var sc := Scope(old(state).paperSummaries, old(state).selectedTitles);
        state == old(state).(contextDocs := Docs(sc), metadatas := TitleMetas(sc))
    {
      var summaries := state.paperSummaries.GetOr([]);
      if summaries == [] {
        state := state.(contextDocs := [], metadatas := []);
        return;
      }
      var wanted := Lowered(state.selectedTitles);
      var docs: seq<string> := [];
      var metas: seq<SourceMeta> := [];
      if wanted != [] {
        docs, metas := AddWanted(summaries, wanted);
      }
      if docs == [] {
        docs, metas := AddAll(summaries);
      }
      state := state.(contextDocs := docs, metadatas := metas);
    }

    /** paper_synthesize_answer. */
    method SynthesizeAnswer(svc: Services) returns (o: Outcome)
      modifies this, svc.llm
      ensures old(state).contextDocs == [] ==>
        o == Pass && state == old(state).(answer := NoSummariesAnswer, gapPaperSummaries := "")
      ensures old(state).contextDocs != [] ==>
        var r := LlmComplete(svc.llm.respond(|old(svc.llm.asked)|, PaperRequest(old(state))));
        var gap := Strip(SynthesisContext(old(state)));
        && (r.Ok? ==> o == Pass && state == old(state).(gapPaperSummaries := gap, answer := r.value))
        && (r.Err? ==> o == Fail(r.error) && state == old(state).(gapPaperSummaries := gap))
      ensures svc.llm.asked == old(svc.llm.asked) + (if old(state).contextDocs == [] then [] else [PaperRequest(old(state))])
    {
      if state.contextDocs == [] {
        state := state.(answer := NoSummariesAnswer, gapPaperSummaries := "");
        return Pass;
      }
      var req, gap := PaperRequestOf(state);
      state := state.(gapPaperSummaries := gap);
      var r := svc.Complete(req.prompt, req.maxTokens, req.temperature);
      if r.Err? {
        return Fail(r.error);
      }
      state := state.(answer := r.value);
      return Pass;
    }

    // ----------------------------------------------------------------
    // Methods pipeline
    // ----------------------------------------------------------------

    /** methods_parse_request: a three-token classification, parsed with critique_design as default. */
    method ParseRequest(svc: Services) returns (o: Outcome)
      modifies this, svc.llm
      ensures var r := LlmComplete(svc.llm.respond(|old(svc.llm.asked)|, ClassifyRequest(old(state))));
        && (r.Ok? ==> o == Pass && state == old(state).(methodsTask := MethodsTask(r.value)))
        && (r.Err? ==> o == Fail(r.error) && state == old(state))
      ensures svc.llm.asked == old(svc.llm.asked) + [ClassifyRequest(old(state))]
      ensures o.Pass? ==> state.methodsTask in MethodsLabels
    {
      var r := svc.Complete(MethodsClassifyPrompt(state.question), 3, 0.0);
      if r.Err? {
        return Fail(r.error);
      }
      state := state.(methodsTask := MethodsTask(r.value));
      return Pass;
    }

    /**
     * methods_retrieve_guidance: one knowledge-base query for the flavoured
     * question, eight results; the documents joined by blank lines are the guidance.
     */
    method RetrieveGuidance(svc: Services) returns (o: Outcome)
      modifies this, svc, svc.embedder, svc.puller, svc.store, svc.sleeper, svc.kb
      ensures o.Fail? ==> state == old(state)
      ensures o.Pass? ==> state == old(state).(contextDocs := state.contextDocs, metadatas := state.metadatas,
                                               methodsGuides := Join("\n\n", state.contextDocs))
      ensures o.Pass? ==>
        && |svc.kb.asked| == |old(svc.kb.asked)| + 1
        && svc.kb.asked[|old(svc.kb.asked)|].nResults == 8 && svc.kb.asked[|old(svc.kb.asked)|].collection == svc.kbCollection
        && svc.kb.respond(|old(svc.kb.asked)|, svc.kb.asked[|old(svc.kb.asked)|]) == KbResult(state.contextDocs, state.metadatas)
      ensures |svc.embedder.asked| > |old(svc.embedder.asked)|
      ensures svc.embedder.asked[|old(svc.embedder.asked)|] ==
        EmbedRequest(old(svc.embeddingModel), MethodsQuery(old(state).question, old(state).methodsTask))
    {
      var r := svc.RetrieveKbContext(MethodsQuery(state.question, state.methodsTask), 8);
      if r.Err? {
        return Fail(r.error);
      }
      var (docs, metas) := r.value;
      state := state.(contextDocs := docs, metadatas := metas, methodsGuides := Join("\n\n", docs));
      return Pass;
    }

    /** methods_apply_guidance: the coaching request, its focus chosen by the methods task. */
    method ApplyGuidance(svc: Services) returns (o: Outcome)
      modifies this, svc.llm
      ensures var r := LlmComplete(svc.llm.respond(|old(svc.llm.asked)|, CoachRequest(old(state))));
        && (r.Ok? ==> o == Pass && state == old(state).(answer := r.value))
        && (r.Err? ==> o == Fail(r.error) && state == old(state))
      ensures svc.llm.asked == old(svc.llm.asked) + [CoachRequest(old(state))]
    {
      var s := state;
      var style := PersonaStyle(s.persona);
      var prompt := MethodsCoachPrompt(s.mode, ModeInstructionFor(s.mode), s.persona, style, s.summary, s.recentQas,
                                       s.methodsGuides, s.question, FocusFor(s.methodsTask));
      var r := svc.Complete(prompt, 900, Temperature(style));
      if r.Err? {
        return Fail(r.error);
      }
      state := s.(answer := r.value);
      return Pass;
    }

    // ----------------------------------------------------------------
    // Gap pipeline
    // ----------------------------------------------------------------

    /** gap_collect_inputs: every stored summary as a block headed by its file name. */
    method CollectInputs()
      modifies this
      ensures state == old(state).(gapPaperSummaries := GapInputs(old(state).paperSummaries))
    {
      var summaries := state.paperSummaries.GetOr([]);
      if summaries == [] {
        state := state.(gapPaperSummaries := NoPaperSummaries);
        return;
      }
      var parts: seq<string> := [];
      var i := 0;
      while i < |summaries|
        invariant 0 <= i <= |summaries|
        invariant |parts| == i && forall k :: 0 <= k < i ==> parts[k] == GapBlock(summaries[k].0, summaries[k].1)
      {
        var (filename, s) := summaries[i];
        var text := Strip(s);
        if !StartsWith(Lower(text), "## ") {
          text := "## " + filename + "\n\n" + text;
        }
        parts := parts + [text];
        i := i + 1;
      }
      assert parts == GapBlocks(summaries);
      state := state.(gapPaperSummaries := Join("\n\n", parts));
    }

    /** gap_retrieve_guides: one knowledge-base query, eight results, joined as the guides. */
    method RetrieveGuides(svc: Services) returns (o: Outcome)
      modifies this, svc, svc.embedder, svc.puller, svc.store, svc.sleeper, svc.kb
      ensures o.Fail? ==> state == old(state)
      ensures o.Pass? ==> state == old(state).(contextDocs := state.contextDocs, metadatas := state.metadatas,
                                               gapGuides := Join("\n\n", state.contextDocs))
      ensures o.Pass? ==>
        && |svc.kb.asked| == |old(svc.kb.asked)| + 1
        && svc.kb.asked[|old(svc.kb.asked)|].nResults == 8 && svc.kb.asked[|old(svc.kb.asked)|].collection == svc.kbCollection
        && svc.kb.respond(|old(svc.kb.asked)|, svc.kb.asked[|old(svc.kb.asked)|]) == KbResult(state.contextDocs, state.metadatas)
      ensures |svc.embedder.asked| > |old(svc.embedder.asked)|
      ensures svc.embedder.asked[|old(svc.embedder.asked)|] == EmbedRequest(old(svc.embeddingModel), GapQuery(old(state).question))
    {
      var r := svc.RetrieveKbContext(GapQuery(state.question), 8);
      if r.Err? {
        return Fail(r.error);
      }
      var (docs, metas) := r.value;
      state := state.(contextDocs := docs, metadatas := metas, gapGuides := Join("\n\n", docs));
      return Pass;
    }

    /** gap_propose_gaps. */
    method ProposeGaps(svc: Services) returns (o: Outcome)
      modifies this, svc.llm
      ensures var r := LlmComplete(svc.llm.respond(|old(svc.llm.asked)|, GapsRequest(old(state))));
        && (r.Ok? ==> o == Pass && state == old(state).(gapCandidates := r.value))
        && (r.Err? ==> o == Fail(r.error) && state == old(state))
      ensures svc.llm.asked == old(svc.llm.asked) + [GapsRequest(old(state))]
    {
      var s := state;
      var r := svc.Complete(GapPrompt(s.gapPaperSummaries, s.gapGuides, s.question), 900, Temperature(PersonaStyle(s.persona)));
      if r.Err? {
        return Fail(r.error);
      }
      state := s.(gapCandidates := r.value);
      return Pass;
    }

    /** gap_propose_rqs: the prompt embeds the proposed gaps and the guides. */
    method ProposeRqs(svc: Services) returns (o: Outcome)
      modifies this, svc.llm
      ensures var r := LlmComplete(svc.llm.respond(|old(svc.llm.asked)|, RqsRequest(old(state))));
        && (r.Ok? ==> o == Pass && state == old(state).(rqCandidates := r.value))
        && (r.Err? ==> o == Fail(r.error) && state == old(state))
      ensures svc.llm.asked == old(svc.llm.asked) + [RqsRequest(old(state))]
    {
      var s := state;
      var r := svc.Complete(GapQuestionsPrompt(s.gapCandidates, s.gapGuides, s.question), 900, Temperature(PersonaStyle(s.persona)));
      if r.Err? {
        return Fail(r.error);
      }
      state := s.(rqCandidates := r.value);
      return Pass;
    }

    /** gap_format_answer: the fixed template, no service call. */
    method FormatAnswer()
      modifies this
      ensures state == old(state).(answer := GapAnswer(old(state).gapCandidates, old(state).rqCandidates))
    {
      state := state.(answer := GapAnswer(state.gapCandidates, state.rqCandidates));
    }

    // ----------------------------------------------------------------
    // The compiled graph
    // ----------------------------------------------------------------

    /**
     * `graph.invoke(state)`: the router, then the pipeline its label selects.
     * `trace` lists the nodes entered, in order; a node that raises ends the
     * run and is the last one listed.
     */
    method Run(svc: Services) returns (o: Outcome, trace: seq<Node>)
      modifies this, svc, svc.llm, svc.chat, svc.embedder, svc.puller, svc.store, svc.sleeper, svc.kb
      ensures SameInputs(state, old(state))
      ensures |trace| >= 1 && trace[0] == Router
      ensures |trace| > 1 ==> state.task in TaskLabels && trace <= [Router] + Pipeline(state.task)
      ensures o.Pass? ==> state.task in TaskLabels && trace == [Router] + Chain(RouteTarget(RouterEdge(Some(state.task))).value)
      ensures o.Pass? && state.task == PaperQuestion && old(state).paperSummaries.GetOr([]) == [] ==>
        state.answer == NoSummariesAnswer
      ensures o.Pass? && state.task == StructureQuestion ==> state.methodsTask in MethodsLabels
      ensures o.Pass? && state.task == GapAnalysis ==>
        state.gapPaperSummaries == GapInputs(old(state).paperSummaries)
        && state.answer == GapAnswer(state.gapCandidates, state.rqCandidates)
    {
      o := Route(svc);
      trace := [Router];
      if o.Fail? {
        return;
      }
      ghost var s1 := state;
      var task := state.task;
      RoutesReachEnd(task);
      var next := RouteTarget(RouterEdge(Some(task))).value;
      var rest: seq<Node>;
      if next == PaperSelectScope {
        assert task == PaperQuestion;
        ScopedEmpty(s1);
        o, rest := RunPaper(svc);
        assert SameInputs(state, s1) && state.task == task;
      } else if next == MethodsParseRequest {
        assert task == StructureQuestion;
        o, rest := RunMethods(svc);
      } else {
        assert task == GapAnalysis;
        o, rest := RunGap(svc);
      }
      assert rest <= Pipeline(task) && (o.Pass? ==> rest == Pipeline(task));
      PrefixCons(Router, rest, Pipeline(task));
      trace := trace + rest;
    }

    /** select_scope, retrieve_passages, synthesize_answer. */
    method RunPaper(svc: Services) returns (o: Outcome, trace: seq<Node>)
      modifies this, svc.llm
      ensures trace == Pipeline(PaperQuestion)
      ensures var m := Scoped(old(state));
        && (m.contextDocs == [] ==> o == Pass && state == m.(answer := NoSummariesAnswer, gapPaperSummaries := ""))
        && (m.contextDocs != [] ==>
              var r := LlmComplete(svc.llm.respond(|old(svc.llm.asked)|, PaperRequest(m)));
              var gap := Strip(SynthesisContext(m));
              && (r.Ok? ==> o == Pass && state == m.(gapPaperSummaries := gap, answer := r.value))
              && (r.Err? ==> o == Fail(r.error) && state == m.(gapPaperSummaries := gap)))
      ensures svc.llm.asked == old(svc.llm.asked) + (if Scoped(old(state)).contextDocs == [] then [] else [PaperRequest(Scoped(old(state)))])
    {
      ghost var m := Scoped(state);
      SelectScope();
      RetrievePassages();
      assert state == m;
      o := SynthesizeAnswer(svc);
      trace := [PaperSelectScope, PaperRetrievePassages, PaperSynthesizeAnswer];
    }

    /** parse_request, retrieve_guidance, apply_guidance. */
    method RunMethods(svc: Services) returns (o: Outcome, trace: seq<Node>)
      modifies this, svc, svc.llm, svc.embedder, svc.puller, svc.store, svc.sleeper, svc.kb
      ensures SameInputs(state, old(state)) && state.task == old(state).task
      ensures 1 <= |trace| && trace <= Pipeline(StructureQuestion)
      ensures o.Pass? ==> trace == Pipeline(StructureQuestion)
      ensures o.Pass? ==>
        && state.methodsTask in MethodsLabels
        && state.methodsGuides == Join("\n\n", state.contextDocs)
        && svc.llm.asked == old(svc.llm.asked) + [ClassifyRequest(old(state)), CoachRequest(state)]
        && LlmComplete(svc.llm.respond(|old(svc.llm.asked)| + 1, CoachRequest(state))) == Ok(state.answer)
    {
      ghost var s0 := state;
      trace := [MethodsParseRequest];
      o := ParseRequest(svc);
      if o.Fail? {
        return;
      }
      ghost var s1 := state;
      assert SameInputs(s1, s0) && s1.task == s0.task && s1.methodsTask in MethodsLabels;
      trace := [MethodsParseRequest, MethodsRetrieveGuidance];
      o := RetrieveGuidance(svc);
      if o.Fail? {
        return;
      }
      ghost var s2 := state;
      assert SameInputs(s2, s0) && s2.task == s0.task && s2.methodsTask in MethodsLabels;
      assert s2.methodsGuides == Join("\n\n", s2.contextDocs);
      trace := [MethodsParseRequest, MethodsRetrieveGuidance, MethodsApplyGuidance];
      o := ApplyGuidance(svc);
      if o.Pass? {
        assert CoachRequest(state) == CoachRequest(s2);
        Snoc2(old(svc.llm.asked), ClassifyRequest(s0), CoachRequest(s2));
      }
    }

    /** collect_inputs, retrieve_guides, propose_gaps, propose_rqs, format_answer. */
    method RunGap(svc: Services) returns (o: Outcome, trace: seq<Node>)
      modifies this, svc, svc.llm, svc.embedder, svc.puller, svc.store, svc.sleeper, svc.kb
      ensures SameInputs(state, old(state)) && state.task == old(state).task
      ensures 1 <= |trace| && trace <= Pipeline(GapAnalysis)
      ensures o.Pass? ==> trace == Pipeline(GapAnalysis)
      ensures |trace| > 1 ==> state.gapPaperSummaries == GapInputs(old(state).paperSummaries)
      ensures o.Pass? ==>
        && state.gapGuides == Join("\n\n", state.contextDocs)
        && svc.llm.asked == old(svc.llm.asked) + [GapsRequest(state), RqsRequest(state)]
        && state.answer == GapAnswer(state.gapCandidates, state.rqCandidates)
    {
      ghost var s0 := state;
      CollectInputs();
      trace := [GapCollectInputs];
      ghost var s1 := state;
      assert SameInputs(s1, s0) && s1.task == s0.task && s1.gapPaperSummaries == GapInputs(s0.paperSummaries);
      trace := [GapCollectInputs, GapRetrieveGuides];
      o := RetrieveGuides(svc);
      if o.Fail? {
        return;
      }
      ghost var s2 := state;
      assert SameInputs(s2, s0) && s2.task == s0.task && s2.gapPaperSummaries == s1.gapPaperSummaries;
      assert s2.gapGuides == Join("\n\n", s2.contextDocs);
      trace := [GapCollectInputs, GapRetrieveGuides, GapProposeGaps];
      o := ProposeGaps(svc);
      if o.Fail? {
        return;
      }
      ghost var s3 := state;
      assert s3 == s2.(gapCandidates := s3.gapCandidates);
      trace := [GapCollectInputs, GapRetrieveGuides, GapProposeGaps, GapProposeRqs];
      o := ProposeRqs(svc);
      if o.Fail? {
        return;
      }
      ghost var s4 := state;
      assert s4 == s3.(rqCandidates := s4.rqCandidates);
      trace := [GapCollectInputs, GapRetrieveGuides, GapProposeGaps, GapProposeRqs, GapFormatAnswer];
      FormatAnswer();
      assert GapsRequest(state) == GapsRequest(s2) && RqsRequest(state) == RqsRequest(s3);
      Snoc2(old(svc.llm.asked), GapsRequest(s2), RqsRequest(s3));
    }
  }

  // ------------------------------------------------------------------
  // The loops inside the nodes
  // ------------------------------------------------------------------

  /** paper_retrieve_passages' first loop: the entries whose lower-cased name is wanted. */
  method AddWanted(summaries: Dict<string>, wanted: seq<string>) returns (docs: seq<string>, metas: seq<SourceMeta>)
    ensures docs == Docs(Filter(summaries, WantedIn(wanted)))
    ensures metas == TitleMetas(Filter(summaries, WantedIn(wanted)))
  {
    docs, metas := [], [];
    var i := 0;
    while i < |summaries|
      invariant 0 <= i <= |summaries|
      invariant docs == Docs(Filter(summaries[..i], WantedIn(wanted)))
      invariant metas == TitleMetas(Filter(summaries[..i], WantedIn(wanted)))
    {
      var (filename, text) := summaries[i];
      ghost var before := Filter(summaries[..i], WantedIn(wanted));
      FilterSnoc(summaries[..i], summaries[i], WantedIn(wanted));
      assert summaries[..i + 1] == summaries[..i] + [summaries[i]];
      if Lower(filename) in wanted {
        EntriesSnoc(before, summaries[i]);
        docs := docs + [text];
        metas := metas + [SourceMeta(None, Some(filename), None)];
      }
      i := i + 1;
    }
    assert summaries[..i] == summaries;
  }

  /** The fallback loop: every entry. */
  method AddAll(summaries: Dict<string>) returns (docs: seq<string>, metas: seq<SourceMeta>)
    ensures docs == Docs(summaries) && metas == TitleMetas(summaries)
  {
    docs, metas := [], [];
    var i := 0;
    while i < |summaries|
      invariant 0 <= i <= |summaries|
      invariant docs == Docs(summaries[..i]) && metas == TitleMetas(summaries[..i])
    {
      var (filename, text) := summaries[i];
      EntriesSnoc(summaries[..i], summaries[i]);
      assert summaries[..i + 1] == summaries[..i] + [summaries[i]];
      docs := docs + [text];
      metas := metas + [SourceMeta(None, Some(filename), None)];
      i := i + 1;
    }
    assert summaries[..i] == summaries;
  }

  /**
   * The part of paper_synthesize_answer that builds the request: the
   * combined summaries under the cap, and the title list.
   */
  method PaperRequestOf(s: State) returns (req: LlmRequest, gap: string)
    ensures req == PaperRequest(s) && gap == Strip(SynthesisContext(s))
  {
    var style := PersonaStyle(s.persona);
    var combined, titles := CombineSummaries(s.contextDocs, s.metadatas);
    var titlesText := TitlesText(titles);
    if |combined| > MaxContextChars {
      combined := combined[..MaxContextChars];
    }
    req := LlmRequest(PaperAnswerPrompt(s.mode, s.persona, style, s.summary, s.recentQas, titlesText, combined, s.question),
                      900, Temperature(style));
    gap := Strip(combined);
  }

  /** The loop of paper_synthesize_answer over `zip(docs, metas)`. */
  method CombineSummaries(docs: seq<string>, metas: seq<SourceMeta>) returns (combined: string, titles: seq<string>)
    ensures var n := ZipLength(docs, metas);
      combined == Combined(docs, n) && titles == Dedup(MetaTitles(metas[..n]))
  {
    var n := ZipLength(docs, metas);
    ghost var xs := MetaTitles(metas[..n]);
    combined, titles := "", [];
    var seen: set<string> := {};
    var i := 0;
    while i < n
      invariant 0 <= i <= n
      invariant combined == Combined(docs, i)
      invariant titles + DedupFrom(xs[i..], seen) == Dedup(xs)
    {
      var title := MetaTitle(metas[i]);
      assert title == xs[i];
      DedupAdvance(xs, i, titles, seen);
      if title !in seen {
        seen := seen + {title};
        titles := titles + [title];
      }
      CombinedSnoc(docs, i);
      combined := combined + (Strip(docs[i]) + "\n\n");
      i := i + 1;
    }
    assert xs[n..] == [];
  }

  lemma PrefixCons<T>(x: T, a: seq<T>, b: seq<T>)
    requires a <= b
    ensures [x] + a <= [x] + b
  {
    assert ([x] + b)[..|a| + 1] == [x] + a;
  }

  /** Two calls logged one after the other. */
  lemma Snoc2<T>(xs: seq<T>, a: T, b: T)
    ensures xs + [a] + [b] == xs + [a, b]
  {
  }

  /** Appending one entry appends its text and its title record. */
  lemma EntriesSnoc(entries: Dict<string>, e: (string, string))
    ensures Docs(entries + [e]) == Docs(entries) + [e.1]
    ensures TitleMetas(entries + [e]) == TitleMetas(entries) + [SourceMeta(None, Some(e.0), None)]
  {
    assert Docs(entries + [e]) == Docs(entries) + [e.1];
    assert TitleMetas(entries + [e]) == TitleMetas(entries) + [SourceMeta(None, Some(e.0), None)];
  }
}

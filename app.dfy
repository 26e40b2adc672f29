/**
 * The Streamlit session of app.py: the session state, the wrapper that sends
 * a question to the proposal graph or to the rag graph, and the session
 * updates made by the chat input and the sidebar buttons.
 *
 * `st.session_state` is the class `Session`; each interaction the script
 * handles on a rerun is one method on it.
 */
module App {
  import opened Common
  import opened Text
  import opened Seqs
  import opened Dicts
  import opened Prompts
  import opened RagTools
  import opened Graph
  import opened GraphState
  import opened SummaryUtils

  const DefaultMode: string := "Research question helper"
  const ProposalMode: string := "Proposal refinement assistant"
  /** The choices of the two sidebar radios. */
  const Modes: seq<string> := [DefaultMode, ProposalMode]
  const Personas: seq<string> := ["Supervisor", "Helper", "Creative"]
  /** The task the proposal graph reports. */
  const ProposalRefine: string := "proposal_refine"

  // ------------------------------------------------------------------
  // answer_with_rag_and_memory: what it hands to the graphs
  // ------------------------------------------------------------------

  function QaText(h: Turn): string
  {
    "Q: " + h.question + "\nA: " + h.answer
  }

  function QaLines(chat: seq<Turn>): (r: seq<string>)
    ensures |r| == |chat| && forall k :: 0 <= k < |r| ==> r[k] == QaText(chat[k])
  {
    seq(|chat|, k requires 0 <= k < |chat| => QaText(chat[k]))
  }

  /** `recent_qas_text`: every chat turn as "Q: …\nA: …", blank-line separated, or "None". */
  function RecentQas(history: seq<Turn>): string
  {
    var joined := Join("\n\n", QaLines(ChatTurns(history)));
    if joined == "" then "None" else joined
  }

  /** The recent Q&A text is "None" exactly when the history holds no chat turn. */
  lemma RecentQasNone(history: seq<Turn>)
    ensures RecentQas(history) == "None" <==> ChatTurns(history) == []
  {
    var lines := QaLines(ChatTurns(history));
    if lines != [] {
      JoinStarts("\n\n", lines);
      assert Join("\n\n", lines)[0] == lines[0][0] == 'Q';
    }
  }

  /** A record the history replay does not count as chat leaves the recent Q&A text as it was. */
  lemma RecentQasIgnoresOther(history: seq<Turn>, h: Turn)
    requires !IsChat(h)
    ensures RecentQas(history + [h]) == RecentQas(history)
  {
    FilterSnoc(history, h, IsChat);
    assert ChatTurns(history + [h]) == ChatTurns(history);
  }

  /** A chat record adds its own "Q: …\nA: …" entry after those of the earlier chat turns. */
  lemma RecentQasAppend(history: seq<Turn>, h: Turn)
    requires IsChat(h)
    ensures RecentQas(history + [h]) ==
      if ChatTurns(history) == [] then QaText(h) else RecentQas(history) + "\n\n" + QaText(h)
  {
    FilterSnoc(history, h, IsChat);
    var chat := ChatTurns(history);
    assert ChatTurns(history + [h]) == chat + [h];
    assert QaLines(chat + [h]) == QaLines(chat) + [QaText(h)];
    JoinSnoc("\n\n", QaLines(chat), QaText(h));
    RecentQasNone(history);
    RecentQasNone(history + [h]);
  }

  /** Joining one more part adds the separator and the part at the end. */
  lemma {:induction false} JoinSnoc(sep: string, xs: seq<string>, x: string)
    ensures Join(sep, xs + [x]) == if xs == [] then x else Join(sep, xs) + sep + x
    decreases |xs|
  {
    if |xs| > 1 {
      assert (xs + [x])[1..] == xs[1..] + [x];
      JoinSnoc(sep, xs[1..], x);
    } else if |xs| == 1 {
      assert (xs + [x])[1..] == [x];
    }
  }

  /** proposal_refine_node's completion request: 900 tokens at the persona's temperature. */
  function ProposalRequest(question: string, mode: string, persona: string, summary: string, recentQas: string): LlmRequest
  {
    var style := PersonaStyle(persona);
    LlmRequest(ProposalPrompt(mode, persona, style, summary, recentQas, question), 900, Temperature(style))
  }

  /**
   * The rag graph's initial state as app.py:153-175 writes it: it has no
   * `paper_summaries` entry, so the graph never sees the stored summaries.
   */
  function InitialStateAsWritten(question: string, mode: string, persona: string, summary: string,
                                 recentQas: string, collection: string): State
  {
    State(question, mode, persona, summary, recentQas, StructureQuestion, collection,
          None, [], [], [], "", "", "", "", "", CritiqueDesign, "")
  }

  /** The initial state with the stored summaries handed over, as the sidebar help text promises. */
  function InitialState(question: string, mode: string, persona: string, summary: string,
                        recentQas: string, collection: string, summaries: Dict<string>): State
  {
    InitialStateAsWritten(question, mode, persona, summary, recentQas, collection).(paperSummaries := Some(summaries))
  }

  /**
   * As written, whatever the user has summarised, a paper question finds no
   * passages and gap analysis finds no summaries.
   */
  lemma AsWrittenIgnoresUploads(question: string, mode: string, persona: string, summary: string,
                                recentQas: string, collection: string, task: string)
    ensures var s := InitialStateAsWritten(question, mode, persona, summary, recentQas, collection).(task := task);
      && Scoped(s).contextDocs == []
      && GapInputs(s.paperSummaries) == NoPaperSummaries
  {
    var s := InitialStateAsWritten(question, mode, persona, summary, recentQas, collection).(task := task);
    ScopedEmpty(s);
  }

  /**
   * With the summaries handed over, a paper question finds passages and gap
   * analysis gets the summaries exactly when some are stored.
   */
  lemma InitialStateUsesUploads(question: string, mode: string, persona: string, summary: string,
                                recentQas: string, collection: string, summaries: Dict<string>, task: string)
    ensures var s := InitialState(question, mode, persona, summary, recentQas, collection, summaries).(task := task);
      && (Scoped(s).contextDocs == [] <==> summaries == [])
      && (GapInputs(s.paperSummaries) == NoPaperSummaries <==> summaries == [])
  {
    var s := InitialState(question, mode, persona, summary, recentQas, collection, summaries).(task := task);
    ScopedEmpty(s);
    if summaries != [] {
      var blocks := GapBlocks(summaries);
      GapBlockHead(summaries[0].0, summaries[0].1);
      JoinStarts("\n\n", blocks);
      assert GapInputs(s.paperSummaries)[0] == blocks[0][0] == '#';
      assert NoPaperSummaries[0] == 'N';
    }
  }

  /** Every gap block starts with a heading mark. */
  lemma GapBlockHead(filename: string, summary: string)
    ensures GapBlock(filename, summary) != [] && GapBlock(filename, summary)[0] == '#'
  {
    var text := Strip(summary);
    if StartsWith(Lower(text), "## ") {
      assert Lower(text)[0] == '#' == LowerChar(text[0]);
    }
  }

  // ------------------------------------------------------------------
  // Source titles shown under an answer
  // ------------------------------------------------------------------

  /** `(meta.get("quelle") or meta.get("title") or "Untitled").strip()`. */
  function SourceTitle(m: SourceMeta): string
  {
    Strip(OrElse(m.quelle, OrElse(m.title, "Untitled")))
  }

  function SourceTitleList(metas: seq<SourceMeta>): (r: seq<string>)
    ensures |r| == |metas| && forall k :: 0 <= k < |r| ==> r[k] == SourceTitle(metas[k])
  {
    seq(|metas|, k requires 0 <= k < |metas| => SourceTitle(metas[k]))
  }

  /**
   * The title loop of the history replay: each source's title once, in the
   * order the titles first occur.
   */
  method SourceTitles(metas: seq<SourceMeta>) returns (titles: seq<string>)
    ensures titles == Dedup(SourceTitleList(metas))
  {
    ghost var xs := SourceTitleList(metas);
    titles := [];
    var seen: set<string> := {};
    var i := 0;
    while i < |metas|
      invariant 0 <= i <= |metas|
      invariant titles + DedupFrom(xs[i..], seen) == Dedup(xs)
    {
      var title := SourceTitle(metas[i]);
      DedupAdvance(xs, i, titles, seen);
      if title !in seen {
        seen := seen + {title};
        titles := titles + [title];
      }
      i := i + 1;
    }
    assert xs[|metas|..] == [];
  }

  /** The titles shown: each source's title once, and no other. */
  lemma SourceTitlesFacts(metas: seq<SourceMeta>)
    ensures NoDup(Dedup(SourceTitleList(metas)))
    ensures forall t :: t in Dedup(SourceTitleList(metas)) <==> exists k :: 0 <= k < |metas| && SourceTitle(metas[k]) == t
  {
    var ts := SourceTitleList(metas);
    DedupFacts(ts);
    forall t ensures t in ts <==> exists k :: 0 <= k < |metas| && SourceTitle(metas[k]) == t {
      if t in ts {
        var k :| 0 <= k < |ts| && ts[k] == t;
        assert SourceTitle(metas[k]) == t;
      }
    }
  }

  // ------------------------------------------------------------------
  // The rag graph, run from the session
  // ------------------------------------------------------------------

  /**
   * What a run of the rag graph from `init` guarantees: the inputs come back
   * unchanged, and an answer comes with a known task, the metadata of the
   * passages used and the task's own guarantee.
   */
  predicate RagAnswered(init: State, final: State, r: Result<(string, seq<SourceMeta>)>)
  {
    && SameInputs(final, init)
    && (r.Ok? ==>
          && final.task in TaskLabels
          && r == Ok((final.answer, final.metadatas))
          && (final.task == PaperQuestion && init.paperSummaries.GetOr([]) == [] ==> final.answer == NoSummariesAnswer)
          && (final.task == StructureQuestion ==> final.methodsTask in MethodsLabels)
          && (final.task == GapAnalysis ==>
                final.gapPaperSummaries == GapInputs(init.paperSummaries)
                && final.answer == GapAnswer(final.gapCandidates, final.rqCandidates)))
  }

  /** `rag_app.invoke(initial_state)` and the answer and sources read from its result. */
  method AskRag(svc: Services, init: State) returns (r: Result<(string, seq<SourceMeta>)>, final: State)
    modifies svc, svc.llm, svc.chat, svc.embedder, svc.puller, svc.store, svc.sleeper, svc.kb
    ensures RagAnswered(init, final, r)
  {
    var graph := new AppState(init);
    var o, trace := graph.Run(svc);
    final := graph.state;
    if o.Fail? {
      return Err(o.error), final;
    }
    r := Ok((final.answer, final.metadatas));
  }

  // ------------------------------------------------------------------
  // The session
  // ------------------------------------------------------------------

  class Session {
    var history: seq<Turn>
    var summary: string
    var recentSources: seq<SourceMeta>
    var mode: string
    var persona: string
    /** `user_uploads_` and eight hex digits of a fresh UUID; set once. */
    const uploadCollectionName: string
    var paperSummaries: Dict<string>
    var summarizedPaperCount: nat
    var lastTask: string

    /** The stored summaries have one entry per title and the count is their number. */
    predicate Valid()
      reads this
    {
      DistinctKeys(paperSummaries) && summarizedPaperCount == |paperSummaries|
    }

    /** The first run of the script: `uuidHex` is the hex form of the UUID it draws. */
    constructor (uuidHex: string)
      ensures Valid()
      ensures history == [] && summary == "" && recentSources == []
      ensures mode == DefaultMode && persona == "Helper"
      ensures uploadCollectionName == "user_uploads_" + PySlice(uuidHex, 0, 8)
      ensures paperSummaries == [] && summarizedPaperCount == 0 && lastTask == "(none)"
    {
      history := [];
      summary := "";
      recentSources := [];
      mode := DefaultMode;
      persona := "Helper";
      uploadCollectionName := "user_uploads_" + PySlice(uuidHex, 0, 8);
      paperSummaries := [];
      summarizedPaperCount := 0;
      lastTask := "(none)";
    }

    /** The two sidebar radios: the assistant mode and the answer style. */
    method ChooseControls(newMode: string, newPersona: string)
      requires newMode in Modes && newPersona in Personas
      modifies this
      ensures mode == newMode && persona == newPersona
      ensures history == old(history) && summary == old(summary) && recentSources == old(recentSources)
      ensures paperSummaries == old(paperSummaries) && summarizedPaperCount == old(summarizedPaperCount)
      ensures lastTask == old(lastTask)
    {
      mode := newMode;
      persona := newPersona;
    }

    /**
     * answer_with_rag_and_memory: the proposal graph for the proposal mode,
     * the rag graph for every other mode. `final` is the rag graph's final
     * state. An exception from either graph leaves the session as it was.
     */
    method AnswerQuestion(svc: Services, question: string) returns (r: Result<(string, seq<SourceMeta>)>, ghost final: State)
      modifies this, svc, svc.llm, svc.chat, svc.embedder, svc.puller, svc.store, svc.sleeper, svc.kb
      ensures history == old(history) && summary == old(summary) && mode == old(mode) && persona == old(persona)
      ensures paperSummaries == old(paperSummaries) && summarizedPaperCount == old(summarizedPaperCount)
      ensures r.Err? ==> lastTask == old(lastTask) && recentSources == old(recentSources)
      ensures r.Ok? ==> recentSources == r.value.1
      ensures old(mode) == ProposalMode ==>
        var req := ProposalRequest(question, old(mode), old(persona), old(summary), RecentQas(old(history)));
        var c := LlmComplete(svc.llm.respond(|old(svc.llm.asked)|, req));
        && svc.llm.asked == old(svc.llm.asked) + [req]
        && svc.chat.asked == old(svc.chat.asked) && svc.embedder.asked == old(svc.embedder.asked)
        && svc.puller.asked == old(svc.puller.asked) && svc.store.asked == old(svc.store.asked)
        && svc.sleeper.asked == old(svc.sleeper.asked) && svc.kb.asked == old(svc.kb.asked)
        && svc.embeddingModel == old(svc.embeddingModel)
        && (c.Ok? ==> r == Ok((c.value, [])) && lastTask == ProposalRefine)
        && (c.Err? ==> r == Err(c.error))
      ensures old(mode) != ProposalMode ==>
        && RagAnswered(InitialStateAsWritten(question, old(mode), old(persona), old(summary), RecentQas(old(history)),
                                             uploadCollectionName), final, r)
        && (r.Ok? ==> lastTask == final.task)
        && (r.Ok? && final.task == PaperQuestion ==> r.value.0 == NoSummariesAnswer)
        && (r.Ok? && final.task == GapAnalysis ==> final.gapPaperSummaries == NoPaperSummaries)
    {
      var recentQas := RecentQas(history);
      final := InitialStateAsWritten(question, mode, persona, summary, recentQas, uploadCollectionName);
      if mode == ProposalMode {
        var req := ProposalRequest(question, mode, persona, summary, recentQas);
        var c := svc.Complete(req.prompt, req.maxTokens, req.temperature);
        if c.Err? {
          return Err(c.error), final;
        }
        lastTask := ProposalRefine;
        recentSources := [];
        return Ok((c.value, [])), final;
      }
      var done;
      r, done := AskRag(svc, InitialStateAsWritten(question, mode, persona, summary, recentQas, uploadCollectionName));
      final := done;
      if r.Ok? {
        lastTask := done.task;
        recentSources := done.metadatas;
      }
    }

    /**
     * A question from the chat input: once it is answered, exactly one chat
     * record is appended and the summary is brought up to date. An empty
     * input does nothing.
     */
    method Submit(svc: Services, question: string) returns (r: Option<Result<(string, seq<SourceMeta>)>>)
      requires Valid()
      modifies this, svc, svc.llm, svc.chat, svc.embedder, svc.puller, svc.store, svc.sleeper, svc.kb
      ensures Valid()
      ensures mode == old(mode) && persona == old(persona) && paperSummaries == old(paperSummaries)
      ensures question == "" ==> r.None? && history == old(history) && summary == old(summary)
      ensures question != "" ==> r.Some?
      ensures r.Some? && r.value.Err? ==> history == old(history) && summary == old(summary)
      ensures r.Some? && r.value.Ok? ==>
        && history == old(history) + [Turn(Some("chat"), question, r.value.value.0, r.value.value.1)]
        && recentSources == r.value.value.1
        && |svc.llm.asked| > 0
        && svc.llm.asked[|svc.llm.asked| - 1] == MemoryRequest(history, old(summary))
        && summary == SummaryAfter(LlmComplete(svc.llm.respond(|svc.llm.asked| - 1, MemoryRequest(history, old(summary)))), old(summary))
    {
      if question == "" {
        return None;
      }
      var answer, _ := AnswerQuestion(svc, question);
      if answer.Err? {
        return Some(answer);
      }
      Record(svc, question, answer.value.0, answer.value.1);
      r := Some(answer);
    }

    /** The chat record of an answered question, then the summary update over the new history. */
    method Record(svc: Services, question: string, answer: string, sources: seq<SourceMeta>)
      modifies this, svc.llm
      ensures history == old(history) + [Turn(Some("chat"), question, answer, sources)]
      ensures svc.llm.asked == old(svc.llm.asked) + [MemoryRequest(history, old(summary))]
      ensures summary == SummaryAfter(LlmComplete(svc.llm.respond(|old(svc.llm.asked)|, MemoryRequest(history, old(summary)))), old(summary))
      ensures recentSources == old(recentSources) && mode == old(mode) && persona == old(persona)
      ensures paperSummaries == old(paperSummaries) && summarizedPaperCount == old(summarizedPaperCount)
      ensures lastTask == old(lastTask)
    {
      history := history + [Turn(Some("chat"), question, answer, sources)];
      summary := UpdateSummary(svc, history, summary);
    }

    /**
     * "Summarize uploaded papers": the new summaries are merged into the
     * stored ones (a title summarised again is overwritten) and the count is
     * the number of stored summaries. Without uploads nothing happens.
     */
    method SummarizeUploads(svc: Services, files: seq<UploadedFile>) returns (o: Outcome)
      requires Valid()
      modifies this, svc.chat
      ensures Valid()
      ensures history == old(history) && summary == old(summary) && recentSources == old(recentSources)
      ensures mode == old(mode) && persona == old(persona) && lastTask == old(lastTask)
      ensures files == [] ==> o == Pass && paperSummaries == old(paperSummaries) && svc.chat.asked == old(svc.chat.asked)
      ensures files != [] ==>
        var batch := SummarizeAll(svc.Summarizer(), files, |old(svc.chat.asked)|);
        && svc.chat.asked == old(svc.chat.asked) + batch.requests
        && (batch.result.Err? ==> o == Fail(batch.result.error) && paperSummaries == old(paperSummaries))
        && (batch.result.Ok? ==>
              && o == Pass
              && paperSummaries == Update(old(paperSummaries), batch.result.value)
              && forall k :: Get(paperSummaries, k) ==
                   if HasKey(batch.result.value, k) then Get(batch.result.value, k) else Get(old(paperSummaries), k))
    {
      if files == [] {
        return Pass;
      }
      ghost var n0 := |svc.chat.asked|;
      var summaries := svc.SummarizeUploadedPapers(files);
      if summaries.Err? {
        return Fail(summaries.error);
      }
      SummarizeAllKeys(svc.Summarizer(), files, n0, "");
      UpdateMerge(paperSummaries, summaries.value);
      paperSummaries := Update(paperSummaries, summaries.value);
      summarizedPaperCount := |paperSummaries|;
      o := Pass;
    }

    /** "Reset session": history, summary, sources and stored summaries are emptied. */
    method Reset()
      modifies this
      ensures Valid()
      ensures history == [] && summary == "" && recentSources == []
      ensures paperSummaries == [] && summarizedPaperCount == 0
      ensures mode == old(mode) && persona == old(persona) && lastTask == old(lastTask)
    {
      history := [];
      summary := "";
      recentSources := [];
      paperSummaries := [];
      summarizedPaperCount := 0;
    }
  }
}

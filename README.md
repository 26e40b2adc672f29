# Proposify rag-chatbot: a verified model of its control flow

Proposify is a thesis-proposal assistant. A Streamlit page keeps a chat
session. Each question goes either to a one-node proposal graph or to a
LangGraph state machine, the rag graph:

- A router asks an LLM for one of three task labels.
- Each label runs a linear pipeline over one shared state record:
  - paper questions, answered from stored summaries of uploaded PDFs;
  - research-design coaching, backed by a methods knowledge base in ChromaDB;
  - gap analysis, which proposes research gaps and research questions.

Around the graphs sit:

- the session memory: text cleaning, a best-effort running summary, the recent Q&A text, and merging of paper summaries;
- resilient retrieval: an embedding-model fallback chain with a sticky current model, pull-based provisioning, and a bounded connection retry loop;
- two ingestion scripts: one cuts texts into overlapping word chunks under numbered file names, the other embeds the chunks and parses each file name back into source and chunk id.

The model keeps the deterministic logic and treats every outside service as an oracle:

- Services are instances of `Oracles.Oracle`. A reply is an arbitrary function of the call's position and its request, and every request is logged.
- Each LLM or vector-store call is stated as "this request was logged, and this is what the code does with the reply".
- Node functions over the shared state are methods of `GraphState.AppState`.
- The session is the class `App.Session`.
- The services and the sticky `EMBEDDING_MODEL` global form the class `RagTools.Services`.
- The pure string logic is functions with lemmas: labels, `.pdf` extraction, scoping, the 15000-character cap, gap blocks, text cleaning, chunking and filename parsing.
- The loops are methods proved against those functions.

The module layout follows the source:

| module | file |
|---|---|
| `Graph` | the pure parts of `graph_config.py` |
| `GraphState` | its nodes |
| `App` and `SummaryUtils` | `app.py` |
| `RagTools` | `rag_tools.py` and the `llm_service.py` wrapper |
| `Chunking` | `scripts/chunk_texts.py` |
| `EmbeddingsJson` | `scripts/create_embeddings_json.py` |
| `Text`, `Seqs` and `Dicts` | Python's `str`, list and `dict` operations that the code relies on |

Two places where the code differs from what is evidently intended are listed under "## Findings":

- `App.Session.AnswerQuestion` builds the rag graph's initial state as `app.py` writes it, without `paper_summaries`.
- `EmbeddingsJson.BuildRecords` parses chunk names with the script's `replace(".txt", "").split("_chunk_")`.

The corrected versions are defined and proved beside them.

The self-reflection checklist pattern (`app.py:58`) ends at the first blank line after the marker, and the text after that line is kept.

## Model

| member | source | states |
|---|---|---|
| Graph.Label | rag-chatbot/graph_config.py:141-146 | the label is the stripped, lower-cased reply when that is allowed, else the fallback; so it is always an allowed label |
| Graph.LabelPadded | rag-chatbot/graph_config.py:141-144 | any spelling of an allowed label, in any case and padded with whitespace, is parsed as that label |
| Graph.LabelOfLabel | rag-chatbot/graph_config.py:141-146 | each allowed label is read as itself |
| Graph.RouteLabelFacts | rag-chatbot/graph_config.py:141-147 | after router_node the task is one of paper_question, structure_question, gap_analysis, and each of them is read as itself |
| Graph.LabelWords | rag-chatbot/graph_config.py:141-146 | every task and methods label is non-empty and made of lower-case letters and `_`, so strip and lower keep it |
| Graph.MethodsTaskFacts | rag-chatbot/graph_config.py:341-344 | methods_task is always one of the three methods labels (critique_design by default), and each is read as itself |
| Graph.RouterEdge | rag-chatbot/graph_config.py:150-151 | router_edge is the state's task, or structure_question when the task is absent |
| Graph.RouteTarget | rag-chatbot/graph_config.py:619-627 | the conditional edge maps exactly the three task labels; any other label is an error |
| Graph.Chain | rag-chatbot/graph_config.py:630-644 | the nodes reached by the fixed edges never include the router or END, and their number is the distance to END |
| Graph.RoutesReachEnd | rag-chatbot/graph_config.py:617-644 | each task label leads to its pipeline's first node, and from there the fixed edges pass through exactly that pipeline to END |
| Graph.PipelinesDisjoint | rag-chatbot/graph_config.py:630-644 | the three pipelines share no node |
| Graph.RouterEdgeRoutes | rag-chatbot/graph_config.py:146-151 | after the router, the conditional edge always finds a pipeline |
| Graph.RunEnd | rag-chatbot/graph_config.py:166 | the greedy `[\w\-.]+` run: all title characters up to the first one that is not |
| Graph.MatchAt | rag-chatbot/graph_config.py:166-167 | a match at p ends inside the run of title characters, right after a `.pdf` (either case) |
| Graph.LastPdfBefore | rag-chatbot/graph_config.py:166 | the last `.pdf` starting in a range, where the backtracking match ends |
| Graph.MatchAtLongest | rag-chatbot/graph_config.py:166-167 | the match is the longest (no later `.pdf` inside the run); no match only when p starts no run or no `.pdf` fits in it |
| Graph.MatchIsTitle | rag-chatbot/graph_config.py:166-167 | each lower-cased match is a name of title characters ending in ".pdf" |
| Graph.FindIterSpans | rag-chatbot/graph_config.py:166-167 | finditer's titles, left to right: each is a full match lower-cased, at increasing, non-overlapping positions |
| Graph.TitlesArePdfNames | rag-chatbot/graph_config.py:159-167 | every extracted title is lower case and ends in ".pdf" |
| Graph.FindIterEmpty | rag-chatbot/graph_config.py:166-167 | the scan finds nothing exactly when no `.pdf`, in any case, follows a title character |
| Graph.PdfTitlesFacts | rag-chatbot/graph_config.py:159-178 | _extract_pdf_titles: lower-case `.pdf` names, and an empty list exactly when the question has no `.pdf` after a title character |
| Graph.Lowered | rag-chatbot/graph_config.py:199 | `wanted` is the lower-cased selected titles, one for one |
| Graph.Docs | rag-chatbot/graph_config.py:201-203 | the documents added are the summary texts of the scoped entries, in order |
| Graph.TitleMetas | rag-chatbot/graph_config.py:201-203 | each added document gets the metadata `{"title": filename}`, in the same order |
| Graph.ScopeMatches | rag-chatbot/graph_config.py:205-209 | when some stored name, lower-cased, is wanted, the scope is exactly the entries so named, in dictionary order |
| Graph.ScopeIncludesNamed | rag-chatbot/graph_config.py:205-209 | a stored file whose name equals a selected title up to case is in the scope |
| Graph.ScopeFallsBack | rag-chatbot/graph_config.py:211-214 | when no stored name is wanted (in particular when nothing is selected), every summary is used |
| Graph.ScopeEmpty | rag-chatbot/graph_config.py:190-197 | the scope is empty exactly when there are no stored summaries (a missing `paper_summaries` reads as `{}`) |
| Graph.CombinedSnoc | rag-chatbot/graph_config.py:263 | one more document appends its block, doc.strip() + "\n\n" |
| Graph.CombinedMono | rag-chatbot/graph_config.py:256-263 | the combined text of the first k documents begins that of the first n, for k <= n |
| Graph.CombinedPrefix | rag-chatbot/graph_config.py:263 | every document, repeats included, is appended stripped and followed by "\n\n" (docs are not deduplicated) |
| Graph.CombinedLength | rag-chatbot/graph_config.py:263 | each document adds at least two characters, and a non-empty combination ends with "\n\n" |
| Graph.Cap | rag-chatbot/graph_config.py:267-270 | the hard cap gives a prefix of at most 15000 characters, and the whole text exactly when it fits |
| Graph.MetaTitles | rag-chatbot/graph_config.py:257-258 | each record's title is `(meta.get("title") or "uploaded paper").strip()`, in order |
| Graph.ZipLength | rag-chatbot/graph_config.py:256 | `zip` stops at the shorter of docs and metas |
| Graph.PaperTitlesFacts | rag-chatbot/graph_config.py:252-261 | the deduplicated titles of the first n records: each distinct title once, every record's title among them, and nothing else |
| Graph.MetaTitleDefault | rag-chatbot/graph_config.py:257 | a record without a title, or with an empty one, is listed as "uploaded paper" |
| Seqs.DedupStep | rag-chatbot/graph_config.py:258-260 | a title is appended exactly when it has not been seen before |
| Graph.MethodsSuffix | rag-chatbot/graph_config.py:357-362 | each task adds its own flavour suffix; refine_question is the else-arm |
| Graph.SuffixMarks | rag-chatbot/graph_config.py:357-362 | the three suffixes differ at a known position |
| Graph.MethodsQueryInjective | rag-chatbot/graph_config.py:353-362 | two flavoured queries are equal exactly when their questions are equal and their methods tasks are equal |
| Graph.FocusFor | rag-chatbot/graph_config.py:387-400 | methods_apply_guidance critiques exactly for critique_design, proposes exactly for propose_design, and refines otherwise |
| Graph.FocusLabel | rag-chatbot/graph_config.py:387-400 | each focus belongs to a methods label |
| Graph.FocusRoundTrip | rag-chatbot/graph_config.py:357-400 | the methods labels and the three foci correspond one to one, and the KB query takes the same arm as the focus |
| Graph.GapQuery | rag-chatbot/graph_config.py:480-481 | the gap query is the question followed by the fixed suffix |
| Graph.GapBlockFacts | rag-chatbot/graph_config.py:464-469 | each block starts with "## " in any case and ends with the stripped summary; one that already has a heading is only stripped |
| Graph.GapBlocks | rag-chatbot/graph_config.py:463-469 | one block per stored summary, in dictionary order |
| Graph.HeadedFacts | rag-chatbot/graph_config.py:468 | a headed block starts with "## " and ends with the summary text |
| Graph.GapInputsFacts | rag-chatbot/graph_config.py:453-471 | no summaries give the fixed placeholder; otherwise the text opens with the first summary's block, under a "## " heading |
| Graph.GapAnswerParts | rag-chatbot/graph_config.py:573-588 | the gap answer holds the gaps and the research questions verbatim, each between its fixed header texts |
| Graph.GapAnswerInjective | rag-chatbot/graph_config.py:576-586 | for gap texts of equal length, two answers are equal exactly when the gaps and the questions are |
| GraphState.SynthesisFacts | rag-chatbot/graph_config.py:249-273 | the paper context is at most 15000 characters and begins the combination of the paired docs; the titles list each paired record's title once and nothing else |
| GraphState.ScopedEmpty | rag-chatbot/graph_config.py:170-218 | after scope selection and retrieval, the documents are empty exactly when there are no stored summaries; the inputs are untouched |
| GraphState.EntriesSnoc | rag-chatbot/graph_config.py:201-203 | one more entry appends its text and its title record |
| GraphState.AppState.Route | rag-chatbot/graph_config.py:53-147 | router_node makes one chat request; on success only `task` changes, to the parsed label; an exception changes nothing |
| GraphState.AppState.SelectScope | rag-chatbot/graph_config.py:170-179 | only `selected_titles` changes, to the question's extracted PDF titles |
| GraphState.AppState.RetrievePassages | rag-chatbot/graph_config.py:182-218 | only `context_docs` and `metadatas` change, to the scoped summaries and their file names |
| GraphState.AddWanted | rag-chatbot/graph_config.py:205-209 | the first loop collects exactly the wanted entries' texts and titles |
| GraphState.AddAll | rag-chatbot/graph_config.py:211-214 | the fallback loop collects every entry's text and title |
| GraphState.AppState.SynthesizeAnswer | rag-chatbot/graph_config.py:221-311 | no docs: the fixed answer, `gap_paper_summaries = ""`, no LLM call; otherwise one request, and the stripped capped context is kept even when the call raises |
| GraphState.PaperRequestOf | rag-chatbot/graph_config.py:246-309 | builds the paper request and the stripped, capped context |
| GraphState.CombineSummaries | rag-chatbot/graph_config.py:250-263 | the loop over `zip(docs, metas)` yields the combined text and the deduplicated titles |
| GraphState.AppState.ParseRequest | rag-chatbot/graph_config.py:319-345 | one three-token completion; only `methods_task` changes, to the parsed methods label |
| GraphState.AppState.RetrieveGuidance | rag-chatbot/graph_config.py:348-368 | one KB query of 8 results on the flavoured question; docs, metadatas and `methods_guides` (docs joined by blank lines) change; a failure changes nothing |
| GraphState.AppState.ApplyGuidance | rag-chatbot/graph_config.py:371-437 | one coaching request; only `answer` changes |
| GraphState.AppState.CollectInputs | rag-chatbot/graph_config.py:446-472 | only `gap_paper_summaries` changes, to the headed blocks or the placeholder |
| GraphState.AppState.RetrieveGuides | rag-chatbot/graph_config.py:476-486 | one KB query of 8 results on the gap query; docs, metadatas and `gap_guides` change; a failure changes nothing |
| GraphState.AppState.ProposeGaps | rag-chatbot/graph_config.py:489-527 | one completion; only `gap_candidates` changes |
| GraphState.AppState.ProposeRqs | rag-chatbot/graph_config.py:530-566 | one completion whose prompt embeds the gaps and the guides; only `rq_candidates` changes |
| GraphState.AppState.FormatAnswer | rag-chatbot/graph_config.py:569-589 | the answer is the fixed template over gaps and research questions; no service call |
| GraphState.AppState.RunPaper | rag-chatbot/graph_config.py:630-632 | the paper pipeline runs its three nodes in order, with the combined outcome stated |
| GraphState.AppState.RunMethods | rag-chatbot/graph_config.py:635-637 | the methods pipeline: a prefix of its nodes, all three on success, with a methods label and the guidance join |
| GraphState.AppState.RunGap | rag-chatbot/graph_config.py:640-644 | the gap pipeline: a prefix of its nodes, all five on success, with the gap inputs and the templated answer |
| GraphState.AppState.Run | rag-chatbot/graph_config.py:596-646 | `rag_graph.invoke`: the router, then exactly the chosen pipeline; the caller's inputs are unchanged, with each task's guarantee |
| App.QaLines | rag-chatbot/app.py:111-117 | one "Q: …\nA: …" entry per chat turn |
| App.RecentQasNone | rag-chatbot/app.py:111-117 | recent_qas is "None" exactly when the history holds no chat turn |
| App.RecentQasIgnoresOther | rag-chatbot/app.py:115 | a record whose kind is not "chat" leaves recent_qas unchanged |
| App.RecentQasAppend | rag-chatbot/app.py:111-117 | a chat record adds its own entry after the earlier ones |
| App.AsWrittenIgnoresUploads | rag-chatbot/app.py:153-175 | with the state as written, a paper question finds no passages and gap analysis finds no summaries, whatever is stored |
| App.InitialStateUsesUploads | rag-chatbot/app.py:153-175 | with `paper_summaries` handed over, both pipelines see summaries exactly when some are stored |
| App.GapBlockHead | rag-chatbot/graph_config.py:467-468 | every gap block starts with '#' |
| App.SourceTitleList | rag-chatbot/app.py:288 | each source's title is `quelle`, else `title`, else "Untitled", stripped |
| App.SourceTitles | rag-chatbot/app.py:284-291 | the title loop yields the titles deduplicated, in order of first occurrence |
| Seqs.DedupAdvance | rag-chatbot/app.py:287-291 | one step of the `seen` loop keeps "kept so far, then what the rest adds" equal to the deduplicated whole |
| App.SourceTitlesFacts | rag-chatbot/app.py:284-291 | each source's title is shown once, and no other title is shown |
| App.AskRag | rag-chatbot/app.py:177-197 | invoking the rag graph returns its answer and metadatas, with the run's guarantees |
| App.Session.constructor | rag-chatbot/app.py:33-53 | the session's first state: empty history, summary and sources, the default mode and persona, `user_uploads_` plus 8 uuid hex digits, no summaries, the count 0 and "(none)" |
| App.Session.ChooseControls | rag-chatbot/app.py:241-259 | the two radios change only the mode and the persona |
| App.Session.AnswerQuestion | rag-chatbot/app.py:110-197 | proposal mode makes one completion, touches no other service (no chat, embedding, pull, connection, sleep or KB request) and sets the task proposal_refine; any other mode runs the rag graph from the as-written state, so a paper question gets the no-summaries answer and gap analysis the placeholder; an exception leaves the session as it was |
| App.Session.Submit | rag-chatbot/app.py:298-314 | empty input does nothing; otherwise exactly one chat record (question, answer, sources) is appended, then the summary update, and the stored summaries stay as they were |
| App.Session.Record | rag-chatbot/app.py:303-314 | append one chat record, then one memory request over the new history |
| App.Session.SummarizeUploads | rag-chatbot/app.py:219-223 | the new summaries are merged (same name overwrites), the count is the number stored, and nothing happens without uploads |
| App.Session.Reset | rag-chatbot/app.py:266-271 | history, summary, sources and stored summaries are emptied, and the count is 0 |
| SummaryUtils.RunEnd | rag-chatbot/app.py:58 | the greedy newline run |
| SummaryUtils.SpaceEnd | rag-chatbot/app.py:62 | the greedy `\s*` run |
| SummaryUtils.ReflectionEnd | rag-chatbot/app.py:58 | where the lazy `.*?(?:\Z\|\n{2,})` stops |
| SummaryUtils.MatchEnd | rag-chatbot/app.py:57-64 | a match of each of the three patterns is non-empty and inside the text |
| SummaryUtils.CleanText | rag-chatbot/app.py:67-73 | "" stays ""; the output has no leading or trailing whitespace and no run of three newlines |
| SummaryUtils.SubSkip | rag-chatbot/app.py:70-72 | `re.sub` copies the positions where the pattern does not match |
| SummaryUtils.SubReplace | rag-chatbot/app.py:70-72 | `re.sub` puts the replacement at a match and resumes after it |
| SummaryUtils.SubNoMatch | rag-chatbot/app.py:70-72 | a pattern that matches nowhere leaves the text unchanged |
| SummaryUtils.SubFirstMatch | rag-chatbot/app.py:70-72 | the first match is replaced, and the text before it is kept |
| SummaryUtils.ReflectionEndNoBlank | rag-chatbot/app.py:58 | with no blank line after the marker, the checklist runs to the end of the text |
| SummaryUtils.ReflectionEndAtBlank | rag-chatbot/app.py:58 | otherwise it ends after the whole newline run of the first blank line |
| SummaryUtils.ReflectionRemoved | rag-chatbot/app.py:57-70 | the first marker, in any case, is removed up to and including the next blank-line run; what follows is kept and scanned on |
| SummaryUtils.ReflectionToEnd | rag-chatbot/app.py:57-70 | a marker with no blank line after it removes the rest of the text |
| SummaryUtils.NoMarkerKept | rag-chatbot/app.py:70 | text without a marker passes unchanged |
| SummaryUtils.EchoExclusive | rag-chatbot/app.py:62 | the two spellings of the echo cannot start at the same place |
| SummaryUtils.EchoRemoved | rag-chatbot/app.py:61-71 | the first prompt echo (either spelling, any case) is removed with the whitespace after it |
| SummaryUtils.NoEchoKept | rag-chatbot/app.py:71 | text without an echo passes unchanged |
| SummaryUtils.CollapseFrom | rag-chatbot/app.py:72 | the blank-line pass leaves no three newlines, and its output starts with at most two |
| SummaryUtils.CollapseNoTriple | rag-chatbot/app.py:72 | `re.sub(r"\n{3,}", "\n\n", …)` leaves no run of three newlines |
| SummaryUtils.CollapseNoop | rag-chatbot/app.py:72 | text without three newlines in a row passes unchanged |
| SummaryUtils.StripKeepsNoTriple | rag-chatbot/app.py:72 | stripping keeps the absence of triple newlines |
| SummaryUtils.CleanedTurns | rag-chatbot/app.py:79-81 | each chat turn's question and answer are cleaned |
| SummaryUtils.SummaryAfter | rag-chatbot/app.py:101-105 | the new summary is the cleaned completion, or the current summary when the call raised or cleaned to nothing |
| SummaryUtils.PairsKeep | rag-chatbot/app.py:82-83 | a turn that is not blank after cleaning contributes a pair |
| SummaryUtils.PairsAllBlank | rag-chatbot/app.py:82 | blank turns contribute nothing |
| SummaryUtils.PairsEmpty | rag-chatbot/app.py:78-84 | the pairs list is empty exactly when every turn is blank after cleaning |
| SummaryUtils.PairsHead | rag-chatbot/app.py:83 | every pair starts with "USER: " |
| SummaryUtils.RecentTextNone | rag-chatbot/app.py:77-84 | the memory prompt's turns read "None" exactly when every chat turn is empty after cleaning |
| SummaryUtils.RecentTextIgnoresOther | rag-chatbot/app.py:77 | a record whose kind is not "chat" changes nothing |
| SummaryUtils.PairsAppendChat | rag-chatbot/app.py:77-83 | a chat record adds its own pair, if any, after the earlier ones |
| SummaryUtils.TurnPairs | rag-chatbot/app.py:78-83 | the append loop builds exactly the pairs list |
| SummaryUtils.UpdateSummary | rag-chatbot/app.py:76-105 | one completion (180 tokens, temperature 0); the result is SummaryAfter of its outcome |
| RagTools.StrippedNonEmptyEntries | rag-chatbot/rag_tools.py:30-34 | the comprehension keeps only non-empty, stripped, comma-free entries |
| RagTools.FallbacksWellFormed | rag-chatbot/rag_tools.py:30-34 | every parsed fallback is non-empty, stripped and comma-free |
| RagTools.FallbacksRoundTrip | rag-chatbot/rag_tools.py:30-34 | a list of well-formed entries, joined by commas, parses back to itself |
| RagTools.FallbackListRoundTrip | rag-chatbot/rag_tools.py:30-34 | the same round trip for the split-and-strip step alone |
| RagTools.EmptyFallbackList | rag-chatbot/rag_tools.py:30-34 | an empty setting gives no fallbacks |
| RagTools.KeepEntries | rag-chatbot/rag_tools.py:31-33 | well-formed entries survive the strip-and-filter step |
| RagTools.DefaultFallbacks | rag-chatbot/rag_tools.py:32 | without a setting the fallbacks are mxbai-embed-large, then all-minilm |
| RagTools.LlmComplete | rag-chatbot/rag_tools.py:62-64 | success exactly on status 200 unless `choices` is an empty list; other statuses raise with status and body; a missing `choices` gives ""; otherwise the stripped text of the first choice, "" when it has none |
| RagTools.ServiceText | rag-chatbot/llm_service.py:36-46 | the chat service gives the stripped message content, or raises |
| RagTools.FirstAccepted | rag-chatbot/rag_tools.py:87-90 | the first candidate accepted, after rejections only, or none at all |
| RagTools.EnsureChoiceSpec | rag-chatbot/rag_tools.py:83-91 | pulls the model and then the fallbacks in order, stopping at the first 200/201; returns that model, or the requested one when every pull failed |
| RagTools.Requests | rag-chatbot/rag_tools.py:101-107 | one request per model tried, same text |
| RagTools.Replies | rag-chatbot/rag_tools.py:101-107 | the replies to those requests at consecutive call positions |
| RagTools.JsonGet | rag-chatbot/rag_tools.py:111 | `.json().get("embedding")` is None exactly when the member is missing or null |
| RagTools.ScanReplies | rag-chatbot/rag_tools.py:118-122 | the scan stops at the first 200 or exception; earlier replies declined |
| RagTools.SpecOfRecovery | rag-chatbot/rag_tools.py:112-122 | past a 404 "not found" reply, embedding is the recovery path |
| RagTools.RecoveryTried | rag-chatbot/rag_tools.py:113-122 | after "not found", the i-th model tried is the (i-1)-th candidate |
| RagTools.EmbedFirstTried | rag-chatbot/rag_tools.py:109-113 | the current model is asked first; other models are tried, or pulled, only after a "not found" reply |
| RagTools.ScanRunFromLast | rag-chatbot/rag_tools.py:114-122 | after "not found", a vector comes from the last candidate tried, whose reply was a 200 carrying it, and that candidate becomes the model |
| RagTools.EmbedResultFromLast | rag-chatbot/rag_tools.py:109-122 | a vector comes from the last model asked, whose reply was a 200 carrying it, and that model becomes the model |
| RagTools.EmbedFailureKeepsModel | rag-chatbot/rag_tools.py:99-123 | a failed call leaves EMBEDDING_MODEL alone |
| RagTools.EmbedDeclinedBefore | rag-chatbot/rag_tools.py:110-122 | every model asked before the last got a non-200 reply |
| RagTools.Attempts | rag-chatbot/rag_tools.py:132-135 | the outcomes of the attempts at consecutive call positions |
| RagTools.FirstConnection | rag-chatbot/rag_tools.py:132-136 | the first attempt that connects, after refusals only |
| RagTools.Delays | rag-chatbot/rag_tools.py:140 | each sleep is `delay` long |
| RagTools.ExtractFullText | rag-chatbot/rag_tools.py:176-184 | pages joined by blank lines and stripped; empty gives ""; the result is a prefix of at most max_chars and the whole text when it fits |
| RagTools.SingleSummaryFacts | rag-chatbot/rag_tools.py:187-243 | whitespace-only text gives the fixed note under "## title" with no request; otherwise exactly one request, and its stripped answer is the summary |
| RagTools.SummarizeNext | rag-chatbot/rag_tools.py:258-266 | an empty upload is skipped; otherwise its outcome is recorded |
| RagTools.SummarizeStep | rag-chatbot/rag_tools.py:258-266 | a summary is stored under the upload's title, and an exception ends the whole loop |
| RagTools.ErrorSticks | rag-chatbot/rag_tools.py:258-266 | once an upload raises, later uploads are not read |
| RagTools.SummariesDistinct | rag-chatbot/rag_tools.py:256-268 | the result has one entry per title |
| RagTools.AddPaperKeys | rag-chatbot/rag_tools.py:266 | a summarised paper adds its title to the keys |
| RagTools.SummarizeFirstKeys | rag-chatbot/rag_tools.py:258-266 | the keys are the titles of the non-empty uploads so far (a later duplicate overwrites) |
| RagTools.SummarizeAllKeys | rag-chatbot/rag_tools.py:246-268 | the result's keys are exactly the titles of the non-empty uploads, one entry each |
| RagTools.Services.constructor | rag-chatbot/rag_tools.py:20-38 | EMBEDDING_MODEL, EMBED_FALLBACKS and the collection come from the settings, with their defaults |
| RagTools.Services.Complete | rag-chatbot/rag_tools.py:45-64 | llm_complete makes one request and returns LlmComplete of its reply |
| RagTools.Services.ChatComplete | rag-chatbot/llm_service.py:30-49 | one chat request, whose stripped text is returned |
| RagTools.Services.Pull | rag-chatbot/rag_tools.py:71-80 | one pull; an exception becomes status 0 |
| RagTools.Services.EnsureEmbeddingModel | rag-chatbot/rag_tools.py:83-91 | the pulls made and the model returned are EnsureChoice's |
| RagTools.FirstAcceptedAt | rag-chatbot/rag_tools.py:87-90 | a candidate accepted after every earlier one was refused is the one the loop returns |
| RagTools.FirstAcceptedNone | rag-chatbot/rag_tools.py:87-91 | when every candidate is refused the loop returns nothing |
| RagTools.Services.PullFallbacks | rag-chatbot/rag_tools.py:87-90 | pulls the fallbacks up to and including the first accepted |
| RagTools.Services.EmbedText | rag-chatbot/rag_tools.py:94-123 | embed_text_ollama's result, new model, embedding requests and pulls are exactly EmbedSpec's |
| RagTools.Services.Recover | rag-chatbot/rag_tools.py:112-122 | the recovery path, exactly as Recovery states |
| RagTools.Services.TryModels | rag-chatbot/rag_tools.py:118-122 | the fallback loop asks up to and including the reply that ends the scan |
| RagTools.Services.GetChromaClient | rag-chatbot/rag_tools.py:128-140 | at most max_attempts attempts, a sleep after each failed one but the last, the final failure re-raised, the first client returned; nothing for max_attempts <= 0 |
| RagTools.Services.RetrieveKbContext | rag-chatbot/rag_tools.py:143-160 | embed (EmbedSpec), then connect with 10 attempts, each failed attempt but the last followed by a 2-second sleep; an embedding failure raises before any connection or sleep, a connection failure before any query; otherwise one query of the KB collection with that vector, whose documents and metadatas are the result, and a query exception raises |
| RagTools.Services.SummarizeSinglePaper | rag-chatbot/rag_tools.py:187-243 | the summary and requests are SingleSummary's |
| RagTools.Services.SummarizeUpload | rag-chatbot/rag_tools.py:259-266 | one upload's summary and requests |
| RagTools.Services.SummarizeUploadedPapers | rag-chatbot/rag_tools.py:246-268 | the result and chat requests are SummarizeAll's |
| RagTools.Services.SummarizeEach | rag-chatbot/rag_tools.py:256-268 | the loop computes SummarizeAll |
| Chunking.ChunksAt | rag-chatbot/scripts/chunk_texts.py:15-17 | one `" ".join(words[i:i+size])` per start, in order |
| Chunking.Chunks | rag-chatbot/scripts/chunk_texts.py:12-18 | raises exactly when chunk_size == overlap (zero step); text without words gives [] |
| Chunking.SplitIntoChunks | rag-chatbot/scripts/chunk_texts.py:12-18 | the function computes Chunks: an error for a zero step, no chunks for a negative one |
| Chunking.ChunkLoop | rag-chatbot/scripts/chunk_texts.py:15-17 | the loop appends one joined word slice per value of `range(0, len(words), step)`, in order |
| Chunking.StartAt | rag-chatbot/scripts/chunk_texts.py:15 | chunk k starts at word k*step, below n |
| Chunking.StartCount | rag-chatbot/scripts/chunk_texts.py:15 | the range has ceil(n/step) starts |
| Chunking.ChunkCount | rag-chatbot/scripts/chunk_texts.py:15 | the number of chunks c satisfies (c-1)*step < n <= c*step, and c is 0 exactly for no words |
| Chunking.ChunkStart | rag-chatbot/scripts/chunk_texts.py:15-17 | chunk k is the words from k*step on |
| Chunking.SliceShape | rag-chatbot/scripts/chunk_texts.py:16 | `words[i:i+size]` has at most size words, taken in place |
| Chunking.ChunkWords | rag-chatbot/scripts/chunk_texts.py:16-17 | every chunk has at most chunk_size words, and `chunk.split()` gives back exactly its word slice |
| Chunking.StartsCover | rag-chatbot/scripts/chunk_texts.py:15-16 | when 0 < step <= size, every index lies in some chunk's range |
| Chunking.ChunksCover | rag-chatbot/scripts/chunk_texts.py:15-16 | with 0 <= overlap < chunk_size, every word is in some chunk |
| Chunking.ConsecutiveOverlap | rag-chatbot/scripts/chunk_texts.py:15-16 | two consecutive full chunks share exactly `overlap` words |
| Chunking.TrailingChunkInsideOverlap | rag-chatbot/scripts/chunk_texts.py:6-17 | with 200/50, a 200-word text gives two chunks, the second lying inside the first |
| Chunking.ChunkFileName | rag-chatbot/scripts/chunk_texts.py:31 | chunk file names end in ".txt" |
| Chunking.ChunkNamesDistinct | rag-chatbot/scripts/chunk_texts.py:30-31 | distinct chunks of one input get distinct names |
| Chunking.Middle | rag-chatbot/scripts/chunk_texts.py:31 | equal names with the same prefix and suffix have the same middle, so the number is recovered from a name |
| Chunking.NamedChunksAt | rag-chatbot/scripts/chunk_texts.py:30-34 | chunk i is written under its numbered name, one file per chunk |
| Chunking.NameChunks | rag-chatbot/scripts/chunk_texts.py:30-34 | the enumerate loop makes exactly those writes |
| Chunking.ChunkFolder | rag-chatbot/scripts/chunk_texts.py:21-34 | the script's writes, in listing order, are ChunkFiles of the listing |
| Chunking.ChunkFilesNames | rag-chatbot/scripts/chunk_texts.py:22-31 | only `.txt` inputs produce chunk files, and every chunk name ends in ".txt" |
| Text.Decimal | rag-chatbot/scripts/chunk_texts.py:31 | `str(n)` is a non-empty digit string |
| Text.Pad3 | rag-chatbot/scripts/chunk_texts.py:31 | `{n:03d}` is at least three digits |
| Text.DecimalValue | rag-chatbot/scripts/chunk_texts.py:31 | `int(str(n)) == n` |
| Text.Pad3Value | rag-chatbot/scripts/chunk_texts.py:31 | `int(f"{n:03d}") == n` |
| Text.Pad3Injective | rag-chatbot/scripts/chunk_texts.py:31 | distinct numbers are padded to distinct strings |
| Text.LStrip | rag-chatbot/app.py:72 | `str.lstrip()`: the suffix left after only whitespace is dropped, starting with a non-space |
| Text.RStrip | rag-chatbot/app.py:72 | `str.rstrip()`: the prefix left after only whitespace is dropped, ending with a non-space |
| Text.StripIdempotent | rag-chatbot/graph_config.py:263-269 | stripping twice is stripping once, so re-stripping the capped context changes nothing more |
| Text.Lower | rag-chatbot/graph_config.py:142 | `str.lower()` keeps the length and lowers each character (ASCII, see Left out) |
| Text.FindFrom | rag-chatbot/scripts/create_embeddings_json.py:38 | `s.find(p, i)`: the first occurrence at or after i, or none at all |
| Text.RemoveAll | rag-chatbot/scripts/create_embeddings_json.py:38 | `s.replace(pat, "")` never lengthens the string |
| Text.SplitOfJoin | rag-chatbot/rag_tools.py:30-34 | splitting a join on a one-character separator, of parts free of it, gives the parts back |
| Text.Strip | rag-chatbot/app.py:72 | `str.strip()`: no whitespace at either end, empty exactly for all-whitespace input |
| Text.SplitOn | rag-chatbot/scripts/create_embeddings_json.py:38 | `split(sep)`: the parts join back to the string and none contains the separator |
| Text.Words | rag-chatbot/scripts/chunk_texts.py:13 | `str.split()` gives non-empty, whitespace-free words |
| Text.WordsOfJoin | rag-chatbot/scripts/chunk_texts.py:13-17 | splitting a space-join of words gives the words back |
| EmbeddingsJson.ParseChunkName | rag-chatbot/scripts/create_embeddings_json.py:38 | success gives two parts around a `_chunk_` that rebuild the name minus every ".txt", neither holding `_chunk_`; no `_chunk_` raises |
| EmbeddingsJson.ParseChunkNameOnly | rag-chatbot/scripts/create_embeddings_json.py:38 | with k the first `_chunk_` of the stem and none starting at or after k+7, the name parses to the parts around the one at k (occurrences may overlap) |
| EmbeddingsJson.ParseChunkNameFirst | rag-chatbot/scripts/create_embeddings_json.py:38 | conversely, a name that parses has its first `_chunk_` right after the first part and none starting in the rest; with ParseChunkNameOnly, the parse succeeds iff no `_chunk_` starts at or after k+7 |
| EmbeddingsJson.StemOfChunkName | rag-chatbot/scripts/create_embeddings_json.py:38 | for a base free of ".txt", removing every ".txt" drops just the suffix |
| EmbeddingsJson.ParseOfChunkName | rag-chatbot/scripts/create_embeddings_json.py:38 | round trip with chunk_texts.py:31: a base free of ".txt" and `_chunk_`, and not ending in `_chunk`, parses back to (base, padded i+1) |
| EmbeddingsJson.ParseBreaksOnChunkSuffix | rag-chatbot/scripts/create_embeddings_json.py:38 | a base ending in `_chunk` parses to the wrong pair (see Findings) |
| EmbeddingsJson.ParseChunkNameFixed | rag-chatbot/scripts/create_embeddings_json.py:38 | the intended parse: drop the ".txt" suffix and split at the last `_chunk_` |
| EmbeddingsJson.ParseFixedOfChunkName | rag-chatbot/scripts/create_embeddings_json.py:38 | with the intended parse, every chunk name gives back its base and number |
| EmbeddingsJson.SplitAtOnly | rag-chatbot/scripts/create_embeddings_json.py:38 | a name with a single `_chunk_` splits into exactly the two parts around it |
| EmbeddingsJson.SplitWithoutMarker | rag-chatbot/scripts/create_embeddings_json.py:38 | a name with no `_chunk_` splits into itself alone, which the unpacking rejects |
| EmbeddingsJson.LastBefore | rag-chatbot/scripts/create_embeddings_json.py:38 | the last occurrence below i, as `rsplit(..., 1)` uses it |
| EmbeddingsJson.SortFacts | rag-chatbot/scripts/create_embeddings_json.py:26 | `sorted` gives the same files in code-point name order |
| EmbeddingsJson.InsertFacts | rag-chatbot/scripts/create_embeddings_json.py:26 | insertion keeps the order and adds exactly one file |
| EmbeddingsJson.NameLeTotal | rag-chatbot/scripts/create_embeddings_json.py:26 | names are totally ordered |
| EmbeddingsJson.GetEmbedding | rag-chatbot/scripts/create_embeddings_json.py:14-23 | a non-200 reply gives None; a vector comes from a 200 reply; a raising request, or a 200 reply without the key, ends the script; a 200 reply whose `embedding` is `null` gives None |
| EmbeddingsJson.NullEmbeddingSkips | rag-chatbot/scripts/create_embeddings_json.py:20-36 | a 200 reply with a `null` embedding skips the file without ending the run |
| EmbeddingsJson.BuildRecords | rag-chatbot/scripts/create_embeddings_json.py:26-47 | the script's loop over the sorted listing gives exactly RunFirst's records and requests |
| EmbeddingsJson.EmbedFile | rag-chatbot/scripts/create_embeddings_json.py:30-47 | one request per `.txt` file; a falsy embedding is skipped; otherwise the name is parsed and one record is appended |
| EmbeddingsJson.RunStep | rag-chatbot/scripts/create_embeddings_json.py:26-47 | a `.txt` file adds one request and its record step |
| EmbeddingsJson.RunAdvance | rag-chatbot/scripts/create_embeddings_json.py:26-47 | the loop goes on with the record step's outcome and one more request |
| EmbeddingsJson.RunErrorSticks | rag-chatbot/scripts/create_embeddings_json.py:38 | after an exception no later file matters: that exception is the outcome of the whole run |
| EmbeddingsJson.RunRequests | rag-chatbot/scripts/create_embeddings_json.py:26-34 | before any exception, exactly one request per `.txt` file, with its text, in sorted order |
| EmbeddingsJson.Origins | rag-chatbot/scripts/create_embeddings_json.py:26-47 | the positions of the files that yield a record, in order |
| EmbeddingsJson.RunRecordOrigins | rag-chatbot/scripts/create_embeddings_json.py:40-47 | record k comes from file Origins[k], with its text, name, parsed quelle and chunk id, and as embedding the non-empty vector that `get_embedding` returned for that file's text, in listing order |
| EmbeddingsJson.OriginsExact | rag-chatbot/scripts/create_embeddings_json.py:27-38 | a file has a record exactly when it is a `.txt` file with a non-empty embedding whose name parses |
| EmbeddingsJson.RunSkip | rag-chatbot/scripts/create_embeddings_json.py:27-28 | a file that is not `.txt` changes neither the records nor the requests |
| EmbeddingsJson.RunHalted | rag-chatbot/scripts/create_embeddings_json.py:38 | after an exception the next file changes nothing |
| EmbeddingsJson.EmbedNext | rag-chatbot/scripts/create_embeddings_json.py:30-47 | one `.txt` file of the loop appends its one embedding request, and the records become those of the run over one more file |
| EmbeddingsJson.RunGrowth | rag-chatbot/scripts/create_embeddings_json.py:34-47 | one file adds its record, carrying the vector of the reply to that file's text, when it yields one, and nothing otherwise |
| EmbeddingsJson.OriginsStep | rag-chatbot/scripts/create_embeddings_json.py:40-47 | one more file keeps each record tied to its own file, in listing order |
| Dicts.PutGet | rag-chatbot/rag_tools.py:266 | after `d[k] = v`, k reads v and other keys are unchanged |
| Dicts.PutShape | rag-chatbot/rag_tools.py:266 | assigning an existing key keeps every key in place; a new key is appended |
| Dicts.PutKeys | rag-chatbot/rag_tools.py:266 | after `d[k] = v` the keys are those of d and k |
| Dicts.PutDistinct | rag-chatbot/rag_tools.py:266 | assignment keeps one entry per key |
| Dicts.GetByIndex | rag-chatbot/graph_config.py:201-203 | with one entry per key, iterating `.items()` gives what each key reads |
| Dicts.UpdateGet | rag-chatbot/app.py:222 | after `d.update(e)`, a key reads e's value when e has it, else d's |
| Dicts.UpdateKeys | rag-chatbot/app.py:222 | the keys of `d.update(e)` are those of d and of e |
| Dicts.UpdateDistinct | rag-chatbot/app.py:222-223 | `update` keeps one entry per key, so the count is the number of entries |
| Dicts.UpdateMerge | rag-chatbot/app.py:222-223 | `d.update(e)` of two dicts with one entry per key has one entry per key, and each key reads e's value when e has it, else d's |
| Seqs.DedupFacts | rag-chatbot/app.py:285-291 | deduplication keeps each distinct element once, in first-occurrence order |
| Seqs.FilterSnoc | rag-chatbot/graph_config.py:205-209 | one more element extends the filter by itself exactly when it qualifies |
| Seqs.FilterNone | rag-chatbot/graph_config.py:205-211 | nothing qualifying gives the empty filter, which triggers the fallback |
| Seqs.FirstIndex | rag-chatbot/app.py:285-291 | the first position holding x |
| Seqs.FilterFacts | rag-chatbot/graph_config.py:205-209 | the filter keeps exactly the satisfying elements, in order |
| Seqs.PySlice | rag-chatbot/app.py:46 | Python slicing on in-range bounds is the plain slice |
| Oracles.Oracle.Ask | rag-chatbot/rag_tools.py:51-61 | a service call logs its request and gets the reply for its position |

## Left out

- Graph.TitleChar: `\w` is ASCII letters, digits and `_`. Python's `\w` on `str` is Unicode-aware. "Über.pdf" gives "über.pdf" in the source but "ber.pdf" in Graph.PdfTitles.
- Text.Lower: lower-cases only ASCII letters. So Graph.Label, Graph.Lowered and the `filename.lower()` comparison in Graph.Scope (graph_config.py:199, 206) differ from Python for non-ASCII names: "Ü" is not lowered to "ü".
- SummaryUtils.LowerAt: IGNORECASE is modelled as ASCII case folding. Python's `re` also matches "ſ" (U+017F) for "s", the Kelvin sign (U+212A) for "k", and "İ" (U+0130) and "ı" (U+0131) for "i"; the model does not, and the self-reflection marker (app.py:57-60) contains all three letters.
- EmbeddingsJson.Record: the random `uuid4` id of each record is not modelled.
- EmbeddingsJson.BuildRecords: the closing `json.dump` into embeddings.json and the progress prints are not modelled. The result is the record list (create_embeddings_json.py:41, 49-55).
- RagTools.Services.constructor: `summaryMaxChars` is taken already parsed. The ValueError of `int(os.getenv("SUMMARY_MAX_CHARS", "25000"))` on a bad setting is not modelled (rag_tools.py:181). It is read once instead of on every call.
- RagTools.Services.constructor: the ValueError of `int(CHROMA_PORT)` is not modelled (rag_tools.py:37), nor the missing-key raise (rag_tools.py:20-22).
- RagTools.LlmComplete: the reply arrives already decoded. A body that is not JSON (`resp.json()` raising) is not modelled.
- RagTools.LlmComplete: Choices can only be missing or a list of choices. A 200 reply whose `choices` is `null`, or is not a list of objects, makes `resp.json().get("choices", [{}])[0]...` raise a TypeError (rag_tools.py:64); such a reply is not modelled.
- RagTools.LlmComplete: a `text` member that is present but null reads as "" through GetOr(""). The source raises on `None.strip()` here (rag_tools.py:64).
- RagTools.Services.EmbedText: JSON decode errors of the embedding replies are not modelled (rag_tools.py:111, 117, 122).
- EmbeddingsJson.GetEmbedding: JSON decode errors of its reply are not modelled (create_embeddings_json.py:20).
- RagTools.Services.RetrieveKbContext: `get_or_create_collection` is folded into the query, so its failure is a query exception (rag_tools.py:152).
- RagTools.Services.RetrieveKbContext: the reply is directly the first row of `documents` and `metadatas` (KbResult). The nested `result.get("documents", [[]])[0]` shape is not modelled: a missing member giving [], an empty outer list raising IndexError, and `None` rows (rag_tools.py:153-159). The query's `distances` are not modelled.
- Chunking.ChunkFolder: the input folder is a list of (name, content) files, and the writes are returned as a list. Not modelled:
  - read and UTF-8 decode errors;
  - `os.makedirs`;
  - the console print;
  - a chunk name that collides with another file's, where a later write overwrites an earlier one (chunk_texts.py:10, 21-36).
- EmbeddingsJson.BuildRecords: the chunk folder is a list of (name, content) files. Read and decode errors are not modelled (create_embeddings_json.py:26-32).
- GraphState.AppState.Run: LangGraph is modelled as explicit dispatch, the router and then the chosen pipeline's nodes in order. Langfuse callbacks and the invoke metadata are not modelled (app.py:135-147, 177-189).
- GraphState.AppState.Run: the state dict is a record whose fields are all present. Only `paper_summaries` may be absent, as an Option. The `.get` defaults of the other fields are therefore not exercised.
- App.Session: the Streamlit page is a session object whose methods are the widget actions. Not modelled:
  - rendering;
  - `st.rerun` and `st.experimental_rerun`;
  - spinners and sidebar messages;
  - the display-only "Summarize conversation" button (app.py:261-264).
- App.Session.constructor: it is the first script run. Later re-runs keep the state.
- Oracles.Oracle: the LLM completion endpoint, the chat service, embedding, pull, the Chroma connection, `time.sleep` and the KB query are oracles. A reply is any function of the call's position and request. Reply contents, and so the wording of answers, are unconstrained.
- Prompts.Prompt: prompt wording is not modelled. Each prompt is a value carrying the pieces of state it embeds, and persona temperatures are a lookup with "Helper" as the default.
- RagTools.Services: PyMuPDF's page extraction is the parameter `readPdf`. `None` stands for `fitz.open` raising (rag_tools.py:173-174).
- RagTools.Services.GetChromaClient: a client is an opaque number and the heartbeat is part of a connection attempt. `time.sleep` is modelled as a logged call only.
- The proposal graph (proposal_graph_config.py) is modelled only as its one completion request, App.ProposalRequest, and the task label `proposal_refine`.
- Floating point: temperatures are `real` constants, and embedding vectors are opaque.
- The I/O scripts (scripts/generate_answer.py, scripts/query_chroma_server.py, scripts/import_embeddings_to_chroma_server.py, scripts/extract_text.py) and visualize_graph.py are not part of this model. They are library and file plumbing.

## Findings

| source | as written | input that shows it | evidently intended | confidence | as-written member | corrected member |
|---|---|---|---|---|---|---|
| rag-chatbot/app.py:153-175 | the rag graph's initial state has no `paper_summaries` key, so graph_config.py:190 and :453 read `{}` | any stored summary, e.g. `[("a.pdf", "…")]`, and a question routed to paper_question: the fixed "couldn't find any summaries" answer with no LLM call; gap analysis gets the placeholder | hand `st.session_state.paper_summaries` to the graph, as the sidebar help text (app.py:235-239) and the paper pipeline's docstring promise | not executed | App.AsWrittenIgnoresUploads | App.InitialStateUsesUploads |
| rag-chatbot/scripts/create_embeddings_json.py:38 | `filename.replace(".txt", "").split("_chunk_")` splits at every `_chunk_` and drops every ".txt" | input "a_chunk.txt" is written as "a_chunk_chunk_001.txt" (chunk_texts.py:29-31), which parses to ("a", "chunk_001") instead of ("a_chunk", "001") | drop only the ".txt" suffix and split at the last `_chunk_`, so every name chunk_texts.py writes parses back to its base and number | not executed | EmbeddingsJson.ParseBreaksOnChunkSuffix | EmbeddingsJson.ParseFixedOfChunkName |

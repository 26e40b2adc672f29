/**
 * The service layer of the assistant: text completion, embeddings with a
 * model fallback that sticks, the vector store with connection retries, and
 * the summarisation of uploaded papers. Every external service is an
 * `Oracle`; the module-level setting that embed_text_ollama rebinds
 * (the embedding model) is a field of `Services`.
 */
module RagTools {
  import opened Common
  import opened Text
  import opened Dicts
  import opened Oracles
  import opened Prompts
  import Seqs

  newtype byte = x: int | 0 <= x < 256

  type Vector = seq<real>

  const DefaultEmbeddingModel: string := "nomic-embed-text"
  const DefaultFallbackSetting: string := "mxbai-embed-large,all-minilm"
  const DefaultSummaryMaxChars: int := 25000
  const DefaultKbCollection: string := "gesetzestexte"

  /** A metadata record of a retrieved chunk (the store's `quelle`, or a paper's `title`). */
  datatype SourceMeta = SourceMeta(quelle: Option<string>, title: Option<string>, chunkId: Option<string>)

  // ------------------------------------------------------------------
  // EMBED_FALLBACKS
  // ------------------------------------------------------------------

  /** A well-formed fallback list entry: non-empty, already stripped, free of commas. */
  predicate FallbackEntry(m: string)
  {
    m != "" && Strip(m) == m && !Contains(m, ",")
  }

  /** `[m.strip() for m in parts if m.strip()]`. */
  function StrippedNonEmpty(parts: seq<string>): seq<string>
  {
    if parts == [] then []
    else if Strip(parts[0]) == "" then StrippedNonEmpty(parts[1..])
    else [Strip(parts[0])] + StrippedNonEmpty(parts[1..])
  }

  /** EMBED_FALLBACKS parsed from the setting (absent: the default list). */
  function ParseFallbacks(setting: Option<string>): seq<string>
  {
    ParseFallbackList(setting.GetOr(DefaultFallbackSetting))
  }

  function ParseFallbackList(setting: string): seq<string>
  {
    StrippedNonEmpty(SplitOn(setting, ","))
  }

  /** Comma-free inputs give well-formed entries. */
  lemma {:induction false} StrippedNonEmptyEntries(parts: seq<string>)
    requires forall i :: 0 <= i < |parts| ==> !Contains(parts[i], ",")
    ensures forall i :: 0 <= i < |StrippedNonEmpty(parts)| ==> FallbackEntry(StrippedNonEmpty(parts)[i])
  {
    if parts != [] {
      StrippedNonEmptyEntries(parts[1..]);
      if Strip(parts[0]) != "" {
        StripIdempotent(parts[0]);
        StripKeepsAbsence(parts[0], ",");
      }
    }
  }

  /** Every parsed fallback is non-empty, stripped and comma-free. */
  lemma FallbacksWellFormed(setting: Option<string>)
    ensures forall i :: 0 <= i < |ParseFallbacks(setting)| ==> FallbackEntry(ParseFallbacks(setting)[i])
  {
    var parts := SplitOn(setting.GetOr(DefaultFallbackSetting), ",");
    StrippedNonEmptyEntries(parts);
  }

  /** A list of well-formed entries, written out comma-separated, parses back to itself. */
  lemma FallbacksRoundTrip(items: seq<string>)
    requires forall i :: 0 <= i < |items| ==> FallbackEntry(items[i])
    ensures ParseFallbacks(Some(Join(",", items))) == items
  {
    FallbackListRoundTrip(items);
  }

  lemma {:induction false} FallbackListRoundTrip(items: seq<string>)
    requires forall i :: 0 <= i < |items| ==> FallbackEntry(items[i])
    ensures ParseFallbackList(Join(",", items)) == items
  {
    if items == [] {
      EmptyFallbackList();
    } else {
      forall i | 0 <= i < |items| ensures !Contains(items[i], ",") {
        assert FallbackEntry(items[i]);
      }
      SplitOfJoin(",", items);
      KeepEntries(items);
    }
  }

  lemma EmptyFallbackList()
    ensures ParseFallbackList("") == []
  {
    assert Find("", ",").None?;
    var e: seq<string> := [""];
    assert SplitOn("", ",") == e;
    assert e[1..] == [];
    assert AllSpace(e[0]);
  }

  lemma {:induction false} KeepEntries(items: seq<string>)
    requires forall i :: 0 <= i < |items| ==> FallbackEntry(items[i])
    ensures StrippedNonEmpty(items) == items
  {
    if items != [] {
      var tail := items[1..];
      assert forall i :: 0 <= i < |tail| ==> tail[i] == items[i + 1];
      KeepEntries(tail);
      assert FallbackEntry(items[0]);
      assert Strip(items[0]) == items[0] && items[0] != "";
      assert StrippedNonEmpty(items) == [items[0]] + StrippedNonEmpty(tail);
      assert [items[0]] + tail == items;
    }
  }

  /** Without a setting the fallbacks are the two default models, in order. */
  lemma DefaultFallbacks()
    ensures ParseFallbacks(None) == ["mxbai-embed-large", "all-minilm"]
  {
    var items := ["mxbai-embed-large", "all-minilm"];
    assert Join(",", items) == DefaultFallbackSetting;
    forall i | 0 <= i < |items| ensures FallbackEntry(items[i]) {
      AbsentChar(items[i], ',');
      StripNoSpace(items[i]);
    }
    FallbackListRoundTrip(items);
  }

  // ------------------------------------------------------------------
  // Text completion (Together) and chat completion (BFH service)
  // ------------------------------------------------------------------

  /** One call of llm_complete: the prompt, `max_tokens` and `temperature`. */
  datatype LlmRequest = LlmRequest(prompt: Prompt, maxTokens: nat, temperature: real)

  /** The `choices` member of a completion reply; a choice without `text` is `None`. */
  datatype Choices = ChoicesMissing | ChoiceList(texts: seq<Option<string>>)

  datatype CompletionReply =
    | HttpReply(status: int, body: string, choices: Choices)
    | HttpRaised(reason: string)

  /** How llm_complete turns a reply into text or an exception. */
  function LlmComplete(reply: CompletionReply): (r: Result<string>)
    ensures r.Ok? <==> reply.HttpReply? && reply.status == 200 && reply.choices != ChoiceList([])
    ensures reply.HttpReply? && reply.status != 200 ==> r == Err(LlmStatus(reply.status, reply.body))
    ensures r.Ok? && reply.choices.ChoiceList? ==> r.value == Strip(reply.choices.texts[0].GetOr(""))
    ensures r.Ok? && reply.choices.ChoicesMissing? ==> r.value == ""
    ensures r.Ok? ==> Strip(r.value) == r.value
  {
    match reply
    case HttpRaised(e) => Err(Transport(e))
    case HttpReply(status, body, choices) =>
      if status != 200 then Err(LlmStatus(status, body))
      else match choices
        case ChoicesMissing => Ok("")
        case ChoiceList(texts) =>
          if |texts| == 0 then Err(NoChoices)
          else
            var t := Strip(texts[0].GetOr(""));
            StripIdempotent(texts[0].GetOr(""));
            Ok(t)
  }

  /** One call of the chat-completion client: the prompt and its temperature. */
  datatype ChatRequest = ChatRequest(prompt: Prompt, temperature: real)

  datatype ServiceReply = Answered(content: string) | ServiceRaised(reason: string)

  /** `generate_completion(...)["text"]`: the service strips the reply's content. */
  function ServiceText(reply: ServiceReply): (r: Result<string>)
    ensures r.Ok? <==> reply.Answered?
    ensures r.Ok? ==> r.value == Strip(reply.content) && Strip(r.value) == r.value
  {
    match reply
    case Answered(c) => StripIdempotent(c); Ok(Strip(c))
    case ServiceRaised(e) => Err(ServiceFailure(e))
  }

  // ------------------------------------------------------------------
  // Model pulls and the embedding fallback
  // ------------------------------------------------------------------

  datatype PullReply = PullResponse(status: int, text: string) | PullRaised(reason: string)

  /** ollama_pull's status: an exception becomes status 0. */
  function PullStatus(reply: PullReply): int
  {
    match reply
    case PullResponse(status, _) => status
    case PullRaised(_) => 0
  }

  /** ensure_embedding_model accepts a pull answered with 200 or 201. */
  predicate Pulled(reply: PullReply)
  {
    PullStatus(reply) == 200 || PullStatus(reply) == 201
  }

  /** The position of the first candidate `ok` accepts, when the first candidate is the n-th call. */
  function FirstAccepted<Q, A>(respond: (nat, Q) -> A, ok: A -> bool, n: nat, cands: seq<Q>): (r: Option<nat>)
    decreases |cands|
    ensures r.Some? ==> r.value < |cands| && ok(respond(n + r.value, cands[r.value]))
    ensures r.Some? ==> forall j :: 0 <= j < r.value ==> !ok(respond(n + j, cands[j]))
    ensures r.None? ==> forall j :: 0 <= j < |cands| ==> !ok(respond(n + j, cands[j]))
  {
    if cands == [] then None
    else if ok(respond(n, cands[0])) then Some(0)
    else match FirstAccepted(respond, ok, n + 1, cands[1..])
      case None => None
      case Some(j) => Some(j + 1)
  }

  /** A candidate that is accepted after every earlier one was refused is the first accepted. */
  lemma FirstAcceptedAt<Q, A>(respond: (nat, Q) -> A, ok: A -> bool, n: nat, cands: seq<Q>, i: nat)
    requires i < |cands| && ok(respond(n + i, cands[i]))
    requires forall j :: 0 <= j < i ==> !ok(respond(n + j, cands[j]))
    ensures FirstAccepted(respond, ok, n, cands) == Some(i)
  {
  }

  /** When every candidate is refused, none is accepted. */
  lemma FirstAcceptedNone<Q, A>(respond: (nat, Q) -> A, ok: A -> bool, n: nat, cands: seq<Q>)
    requires forall j :: 0 <= j < |cands| ==> !ok(respond(n + j, cands[j]))
    ensures FirstAccepted(respond, ok, n, cands) == None
  {
  }

  /**
   * What ensure_embedding_model returns and the models it pulls, in order,
   * when its first pull is the n-th call of the pull service.
   */
  function EnsureChoice(respond: (nat, string) -> PullReply, n: nat, model: string, fallbacks: seq<string>): (string, seq<string>)
  {
    if Pulled(respond(n, model)) then (model, [model])
    else match FirstAccepted(respond, Pulled, n + 1, fallbacks)
      case Some(j) => (fallbacks[j], [model] + fallbacks[..j + 1])
      case None => (model, [model] + fallbacks)
  }

  /**
   * ensure_embedding_model pulls the model, then the fallbacks in order, and
   * stops at the first pull that succeeds; it returns that model, or the
   * requested one when every pull failed.
   */
  lemma {:induction false} EnsureChoiceSpec(respond: (nat, string) -> PullReply, n: nat, model: string, fallbacks: seq<string>)
    ensures var (chosen, pulls) := EnsureChoice(respond, n, model, fallbacks);
      && 1 <= |pulls| <= 1 + |fallbacks| && pulls[0] == model && pulls[1..] == fallbacks[..|pulls| - 1]
      && (forall j :: 0 <= j < |pulls| - 1 ==> !Pulled(respond(n + j, pulls[j])))
      && (if Pulled(respond(n + |pulls| - 1, pulls[|pulls| - 1])) then chosen == pulls[|pulls| - 1]
          else chosen == model && pulls == [model] + fallbacks)
  {
    var (chosen, pulls) := EnsureChoice(respond, n, model, fallbacks);
    if !Pulled(respond(n, model)) {
      forall j | 1 <= j < |pulls| ensures respond(n + j, pulls[j]) == respond(n + 1 + (j - 1), fallbacks[j - 1]) {
        assert pulls[j] == fallbacks[j - 1];
      }
    }
  }

  /** One call of the embedding endpoint. */
  datatype EmbedRequest = EmbedRequest(model: string, prompt: string)

  /** The `embedding` member of a reply's JSON body: missing, `null`, or a list of numbers. */
  datatype Member = Absent | Null | Present(value: Vector)

  /** `.json().get("embedding")`: `None` both for a missing member and for `null`. */
  function JsonGet(m: Member): (r: Option<Vector>)
    ensures r.Some? <==> m.Present?
    ensures m.Present? ==> r == Some(m.value)
  {
    if m.Present? then Some(m.value) else None
  }

  /** A reply of the embedding endpoint: its status, text and `embedding` member. */
  datatype EmbedReply =
    | EmbedResponse(status: int, body: string, member: Member)
    | EmbedRaised(reason: string)

  predicate Declined(reply: EmbedReply)
  {
    reply.EmbedResponse? && reply.status != 200
  }

  /** A 404 reply whose body says "not found", in any case. */
  predicate NotFound(reply: EmbedReply)
  {
    reply.EmbedResponse? && reply.status == 404 && Contains(Lower(reply.body), "not found")
  }

  /** One embedding request per model, for the same text. */
  function Requests(models: seq<string>, text: string): (r: seq<EmbedRequest>)
    ensures |r| == |models| && forall i :: 0 <= i < |r| ==> r[i] == EmbedRequest(models[i], text)
  {
    seq(|models|, i requires 0 <= i < |models| => EmbedRequest(models[i], text))
  }

  /** The replies to one request per model, the first being the n-th call. */
  function Replies(embed: (nat, EmbedRequest) -> EmbedReply, n: nat, models: seq<string>, text: string): (r: seq<EmbedReply>)
    ensures |r| == |models| && forall i :: 0 <= i < |r| ==> r[i] == embed(n + i, EmbedRequest(models[i], text))
  {
    seq(|models|, i requires 0 <= i < |models| => embed(n + i, EmbedRequest(models[i], text)))
  }

  /** How a scan of candidate models for an embedding ends. */
  datatype Scan = Hit(index: nat, embedding: Option<Vector>) | Raised(index: nat, reason: string) | Exhausted

  /** Go through the replies in order until one answers 200 or is an exception. */
  function ScanReplies(replies: seq<EmbedReply>): (s: Scan)
    ensures s.Hit? ==> (s.index < |replies| && replies[s.index].EmbedResponse?
      && replies[s.index].status == 200 && JsonGet(replies[s.index].member) == s.embedding)
    ensures s.Raised? ==> s.index < |replies| && replies[s.index] == EmbedRaised(s.reason)
    ensures s.Hit? || s.Raised? ==> forall j :: 0 <= j < s.index ==> Declined(replies[j])
    ensures s.Exhausted? ==> forall j :: 0 <= j < |replies| ==> Declined(replies[j])
  {
    if replies == [] then Exhausted
    else match replies[0]
      case EmbedRaised(e) => Raised(0, e)
      case EmbedResponse(status, _, v) =>
        if status == 200 then Hit(0, JsonGet(v))
        else match ScanReplies(replies[1..])
          case Hit(j, w) => Hit(j + 1, w)
          case Raised(j, e) => Raised(j + 1, e)
          case Exhausted => Exhausted
  }

  /** The requests a scan sends: up to and including the one that ends it. */
  function ScanLength(s: Scan, len: nat): nat
  {
    match s
    case Hit(j, _) => j + 1
    case Raised(j, _) => j + 1
    case Exhausted => len
  }

  /** A scan's result: the vector found, the exception raised, or the first reply's error. */
  function ScanResult(s: Scan, first: EmbedReply): Result<Option<Vector>>
  {
    match s
    case Hit(_, w) => Ok(w)
    case Raised(_, e) => Err(Transport(e))
    case Exhausted =>
      if first.EmbedResponse? then Err(EmbeddingFailure(first.status, first.body)) else Err(Transport(first.reason))
  }

  /** The effect of one embed_text_ollama call: its result, the model afterwards, the models asked and pulled. */
  datatype EmbedRun = EmbedRun(result: Result<Option<Vector>>, model: string, tried: seq<string>, pulls: seq<string>)

  /**
   * embed_text_ollama when the embedding endpoint's next call is the n-th,
   * the pull service's is the p-th, and the current model is `model`: try
   * the model; on "404 ... not found" choose a model with
   * ensure_embedding_model and try it, then every fallback; the first that
   * answers 200 becomes the model from then on.
   */
  function EmbedSpec(embed: (nat, EmbedRequest) -> EmbedReply, pull: (nat, string) -> PullReply,
                     n: nat, p: nat, model: string, fallbacks: seq<string>, text: string): EmbedRun
  {
    var reply := embed(n, EmbedRequest(model, text));
    if reply.EmbedRaised? then EmbedRun(Err(Transport(reply.reason)), model, [model], [])
    else if reply.status == 200 then EmbedRun(Ok(JsonGet(reply.member)), model, [model], [])
    else if !NotFound(reply) then EmbedRun(Err(EmbeddingFailure(reply.status, reply.body)), model, [model], [])
    else Recovery(embed, pull, n, p, model, fallbacks, text)
  }

  /** The part of embed_text_ollama after a "not found" reply to the n-th call. */
  function Recovery(embed: (nat, EmbedRequest) -> EmbedReply, pull: (nat, string) -> PullReply,
                    n: nat, p: nat, model: string, fallbacks: seq<string>, text: string): EmbedRun
  {
    var choice := EnsureChoice(pull, p, model, fallbacks);
    ScanRun(embed, n, model, [choice.0] + fallbacks, choice.1, text)
  }

  /**
   * Trying the candidates in order after a "not found" reply to the n-th
   * call, which asked for `model`; `pulls` are the pulls made before.
   */
  function ScanRun(embed: (nat, EmbedRequest) -> EmbedReply, n: nat, model: string, cands: seq<string>,
                   pulls: seq<string>, text: string): EmbedRun
  {
    var s := ScanReplies(Replies(embed, n + 1, cands, text));
    EmbedRun(ScanResult(s, embed(n, EmbedRequest(model, text))), if s.Hit? then cands[s.index] else model,
             [model] + cands[..ScanLength(s, |cands|)], pulls)
  }

  /** A vector found by the scan comes from the last candidate asked, which becomes the model. */
  lemma ScanRunFromLast(embed: (nat, EmbedRequest) -> EmbedReply, n: nat, model: string, cands: seq<string>,
                        pulls: seq<string>, text: string)
    ensures var run := ScanRun(embed, n, model, cands, pulls, text);
      var last := |run.tried| - 1;
      run.result.Ok? ==> (last >= 0
        && embed(n + last, EmbedRequest(run.tried[last], text)).EmbedResponse?
        && embed(n + last, EmbedRequest(run.tried[last], text)).status == 200
        && JsonGet(embed(n + last, EmbedRequest(run.tried[last], text)).member) == run.result.value
        && run.model == run.tried[last])
  {
    var s := ScanReplies(Replies(embed, n + 1, cands, text));
    if s.Hit? {
      RecoveryTried(embed, n, model, cands, s.index + 1, text, s.index + 1);
    }
  }

  /** Past a "not found" reply, embed_text_ollama is its recovery part. */
  lemma SpecOfRecovery(embed: (nat, EmbedRequest) -> EmbedReply, pull: (nat, string) -> PullReply,
                       n: nat, p: nat, model: string, fallbacks: seq<string>, text: string)
    requires NotFound(embed(n, EmbedRequest(model, text)))
    ensures var rec := Recovery(embed, pull, n, p, model, fallbacks, text);
      && EmbedSpec(embed, pull, n, p, model, fallbacks, text) == rec
      && Requests(rec.tried, text) == [EmbedRequest(model, text)] + Requests(rec.tried[1..], text)
  {
    var rec := Recovery(embed, pull, n, p, model, fallbacks, text);
    assert rec.tried == [model] + rec.tried[1..];
    RequestsCons(model, rec.tried[1..], text);
  }

  lemma ConcatAssoc<T>(a: seq<T>, b: seq<T>, c: seq<T>)
    ensures (a + b) + c == a + (b + c)
  {
  }

  lemma RequestsCons(m: string, models: seq<string>, text: string)
    ensures Requests([m] + models, text) == [EmbedRequest(m, text)] + Requests(models, text)
  {
  }

  /** After "not found", the i-th model tried (i >= 1) is the (i-1)-th candidate, asked at call n + i. */
  lemma RecoveryTried(embed: (nat, EmbedRequest) -> EmbedReply, n: nat, model: string, cands: seq<string>, k: nat, text: string, i: nat)
    requires k <= |cands| && 1 <= i < 1 + k
    ensures ([model] + cands[..k])[i] == cands[i - 1]
    ensures embed(n + i, EmbedRequest(([model] + cands[..k])[i], text)) == Replies(embed, n + 1, cands, text)[i - 1]
  {
  }

  /**
   * embed_text_ollama always asks for the current model first; it asks for
   * another model, or pulls one, only after a "not found" reply.
   */
  lemma {:induction false} EmbedFirstTried(embed: (nat, EmbedRequest) -> EmbedReply, pull: (nat, string) -> PullReply,
                                           n: nat, p: nat, model: string, fallbacks: seq<string>, text: string)
    ensures var run := EmbedSpec(embed, pull, n, p, model, fallbacks, text);
      && |run.tried| >= 1 && run.tried[0] == model
      && (|run.tried| > 1 || run.pulls != [] ==> NotFound(embed(n, EmbedRequest(model, text))))
  {
  }

  /**
   * A vector comes from the last model asked, whose reply was a 200 carrying
   * it, and that model is the model from then on.
   */
  lemma {:induction false} EmbedResultFromLast(embed: (nat, EmbedRequest) -> EmbedReply, pull: (nat, string) -> PullReply,
                                               n: nat, p: nat, model: string, fallbacks: seq<string>, text: string)
    ensures var run := EmbedSpec(embed, pull, n, p, model, fallbacks, text);
      var last := |run.tried| - 1;
      run.result.Ok? ==> (last >= 0
        && embed(n + last, EmbedRequest(run.tried[last], text)).EmbedResponse?
        && embed(n + last, EmbedRequest(run.tried[last], text)).status == 200
        && JsonGet(embed(n + last, EmbedRequest(run.tried[last], text)).member) == run.result.value
        && run.model == run.tried[last])
  {
    var reply := embed(n, EmbedRequest(model, text));
    if NotFound(reply) {
      var choice := EnsureChoice(pull, p, model, fallbacks);
      ScanRunFromLast(embed, n, model, [choice.0] + fallbacks, choice.1, text);
    }
  }

  /** A failed call leaves the model alone. */
  lemma {:induction false} EmbedFailureKeepsModel(embed: (nat, EmbedRequest) -> EmbedReply, pull: (nat, string) -> PullReply,
                                                  n: nat, p: nat, model: string, fallbacks: seq<string>, text: string)
    ensures var run := EmbedSpec(embed, pull, n, p, model, fallbacks, text);
      run.result.Err? ==> run.model == model
  {
  }

  /** Every model asked before the last got a reply with a status other than 200. */
  lemma {:induction false} EmbedDeclinedBefore(embed: (nat, EmbedRequest) -> EmbedReply, pull: (nat, string) -> PullReply,
                                               n: nat, p: nat, model: string, fallbacks: seq<string>, text: string)
    ensures var run := EmbedSpec(embed, pull, n, p, model, fallbacks, text);
      forall i :: 0 <= i < |run.tried| - 1 ==> Declined(embed(n + i, EmbedRequest(run.tried[i], text)))
  {
    var reply := embed(n, EmbedRequest(model, text));
    if NotFound(reply) {
      var choice := EnsureChoice(pull, p, model, fallbacks);
      var cands := [choice.0] + fallbacks;
      var s := ScanReplies(Replies(embed, n + 1, cands, text));
      var k := ScanLength(s, |cands|);
      forall i | 0 <= i < k
        ensures Declined(embed(n + i, EmbedRequest(([model] + cands[..k])[i], text)))
      {
        if i > 0 {
          RecoveryTried(embed, n, model, cands, k, text, i);
        }
      }
    }
  }

  // ------------------------------------------------------------------
  // Vector store
  // ------------------------------------------------------------------

  /** One attempt to connect and heartbeat: a client handle, or the exception. */
  datatype Connection = Connected(client: nat) | Refused(reason: string)

  /** The outcomes of k connection attempts, the first being the n-th. */
  function Attempts(respond: (nat, ()) -> Connection, n: nat, k: nat): (r: seq<Connection>)
    ensures |r| == k && forall j :: 0 <= j < k ==> r[j] == respond(n + j, ())
  {
    seq(k, j requires 0 <= j < k => respond(n + j, ()))
  }

  /** The first successful attempt. */
  function FirstConnection(tries: seq<Connection>): (r: Option<nat>)
    ensures r.Some? ==> r.value < |tries| && tries[r.value].Connected?
    ensures r.Some? ==> forall j :: 0 <= j < r.value ==> tries[j].Refused?
    ensures r.None? ==> forall j :: 0 <= j < |tries| ==> tries[j].Refused?
  {
    if tries == [] then None
    else if tries[0].Connected? then Some(0)
    else match FirstConnection(tries[1..])
      case None => None
      case Some(j) => Some(j + 1)
  }

  /**
   * get_chroma_client's outcome when the first attempt is the n-th: the
   * first client that connects, or the last attempt's exception; no attempt
   * at all, and no client, when `maxAttempts` is not positive.
   */
  function Connect(respond: (nat, ()) -> Connection, n: nat, maxAttempts: int): Result<Option<nat>>
  {
    if maxAttempts <= 0 then Ok(None)
    else
      var tries := Attempts(respond, n, maxAttempts);
      match FirstConnection(tries)
      case Some(k) => Ok(Some(tries[k].client))
      case None => Err(StoreFailure(tries[maxAttempts - 1].reason))
  }

  function Units(k: nat): (r: seq<()>)
    ensures |r| == k
  {
    seq(k, _ => ())
  }

  function Delays(k: nat, delay: real): (r: seq<real>)
    ensures |r| == k && forall i :: 0 <= i < k ==> r[i] == delay
  {
    seq(k, _ => delay)
  }

  datatype KbQuery = KbQuery(collection: string, embedding: Option<Vector>, nResults: nat)

  /** The first row of a query's `documents` and `metadatas`, or the exception. */
  datatype KbReply = KbResult(documents: seq<string>, metadatas: seq<SourceMeta>) | KbRaised(reason: string)

  /** The documents and metadatas of a query result; a query that raises is a store failure. */
  function KbOutcome(reply: KbReply): Result<(seq<string>, seq<SourceMeta>)>
  {
    match reply
    case KbRaised(e) => Err(StoreFailure(e))
    case KbResult(docs, metas) => Ok((docs, metas))
  }

  // ------------------------------------------------------------------
  // Papers
  // ------------------------------------------------------------------

  /** An uploaded file: the `name` attribute if it has one, and its bytes. */
  datatype UploadedFile = UploadedFile(name: Option<string>, data: seq<byte>)

  /** `getattr(f, "name", "uploaded_paper.pdf")`. */
  function TitleOf(f: UploadedFile): string
  {
    f.name.GetOr("uploaded_paper.pdf")
  }

  /**
   * _extract_full_text_from_pdf once the pages' text has been read:
   * join with blank lines, strip, and cap at `maxChars` characters.
   */
  function ExtractFullText(pages: seq<string>, maxChars: int): (r: string)
    ensures var full := Strip(Join("\n\n", pages));
      maxChars >= 0 ==> |r| <= maxChars && |r| <= |full| && r == full[..|r|] && (|r| == |full| || |r| == maxChars)
    ensures Strip(Join("\n\n", pages)) == "" ==> r == ""
  {
    var full := Strip(Join("\n\n", pages));
    if full == "" then ""
    else if |full| > maxChars then Seqs.PySlice(full, 0, maxChars)
    else full
  }

  const NoTextNote: string := "(No readable text was extracted from this PDF.)"

  /** The summary written for a paper without readable text. */
  function NoTextSummary(title: string): string
  {
    "## " + title + "\n\n" + NoTextNote
  }

  /** What summarizing one paper gives: its summary (or the exception) and the chat calls made. */
  datatype Paper = Paper(summary: Result<string>, requests: seq<ChatRequest>)

  /** summarize_single_paper_with_bfh_llm, with the n-th chat call next. */
  function SingleSummary(chat: (nat, ChatRequest) -> ServiceReply, n: nat, title: string, fullText: string): Paper
  {
    if AllSpace(fullText) then Paper(Ok(NoTextSummary(title)), [])
    else
      var q := ChatRequest(PaperSummaryPrompt(title, fullText), 0.0);
      match ServiceText(chat(n, q))
      case Ok(t) => Paper(Ok(Strip(t)), [q])
      case Err(e) => Paper(Err(e), [q])
  }

  /**
   * A paper with readable text gets exactly one summary request, whose
   * stripped answer is the summary; one without gets the fixed note under its
   * title and no request.
   */
  lemma {:induction false} SingleSummaryFacts(chat: (nat, ChatRequest) -> ServiceReply, n: nat, title: string, fullText: string)
    ensures var p := SingleSummary(chat, n, title, fullText);
      && (AllSpace(fullText) <==> p.requests == [])
      && (p.requests == [] ==> p.summary == Ok(NoTextSummary(title)) && StartsWith(p.summary.value, "## " + title))
      && (p.requests != [] ==> (p.requests == [ChatRequest(PaperSummaryPrompt(title, fullText), 0.0)]
            && (p.summary.Ok? <==> chat(n, p.requests[0]).Answered?)
            && (p.summary.Ok? ==> p.summary.value == Strip(chat(n, p.requests[0]).content))))
  {
    var p := SingleSummary(chat, n, title, fullText);
    if p.requests == [] {
      assert NoTextSummary(title)[..|"## " + title|] == "## " + title;
    } else if chat(n, p.requests[0]).Answered? {
      StripIdempotent(chat(n, p.requests[0]).content);
    }
  }

  /** What summarize_uploaded_papers gives so far: the summaries (or the exception) and the chat calls made. */
  datatype Batch = Batch(result: Result<Dict<string>>, requests: seq<ChatRequest>)

  /** Records one paper's outcome: its summary under its title, or the exception that ends the loop. */
  function AddPaper(b: Batch, title: string, p: Paper): Batch
    requires b.result.Ok?
  {
    Batch(if p.summary.Ok? then Ok(Put(b.result.value, title, p.summary.value)) else Err(p.summary.error),
          b.requests + p.requests)
  }

  /**
   * summarize_uploaded_papers' loop over the first i of `files`, where
   * `paper(f, n)` is what one non-empty upload gives when the n-th chat call
   * is next and the first is the n0-th: an empty upload is skipped and an
   * exception ends the loop.
   */
  function SummarizeFirst(paper: (UploadedFile, nat) -> Paper, files: seq<UploadedFile>, n0: nat, i: nat): Batch
    requires i <= |files|
    decreases i
  {
    if i == 0 then Batch(Ok([]), [])
    else
      var prev := SummarizeFirst(paper, files, n0, i - 1);
      var f := files[i - 1];
      if prev.result.Err? || f.data == [] then prev
      else AddPaper(prev, TitleOf(f), paper(f, n0 + |prev.requests|))
  }

  /** summarize_uploaded_papers over all of `files`. */
  function SummarizeAll(paper: (UploadedFile, nat) -> Paper, files: seq<UploadedFile>, n0: nat): Batch
  {
    SummarizeFirst(paper, files, n0, |files|)
  }

  /** One more upload: skipped when empty, otherwise its outcome is recorded. */
  lemma SummarizeNext(paper: (UploadedFile, nat) -> Paper, files: seq<UploadedFile>, n0: nat, i: nat)
    requires i < |files| && SummarizeFirst(paper, files, n0, i).result.Ok?
    ensures var prev := SummarizeFirst(paper, files, n0, i);
      SummarizeFirst(paper, files, n0, i + 1) ==
        if files[i].data == [] then prev else AddPaper(prev, TitleOf(files[i]), paper(files[i], n0 + |prev.requests|))
  {
  }

  /**
   * The loop step for a non-empty upload whose outcome is `summary`: a
   * summary is stored under the upload's title, an exception is the outcome
   * of the whole loop, and the upload's chat calls follow the earlier ones.
   */
  lemma SummarizeStep(paper: (UploadedFile, nat) -> Paper, files: seq<UploadedFile>, n0: nat, i: nat,
                      summaries: Dict<string>, summary: Result<string>, asked: seq<ChatRequest>)
    requires i < |files| && files[i].data != []
    requires SummarizeFirst(paper, files, n0, i).result == Ok(summaries)
    requires summary == paper(files[i], n0 + |SummarizeFirst(paper, files, n0, i).requests|).summary
    ensures var prev := SummarizeFirst(paper, files, n0, i);
      asked + prev.requests + paper(files[i], n0 + |prev.requests|).requests == asked + SummarizeFirst(paper, files, n0, i + 1).requests
    ensures summary.Ok? ==> SummarizeFirst(paper, files, n0, i + 1).result == Ok(Put(summaries, TitleOf(files[i]), summary.value))
    ensures summary.Err? ==>
      SummarizeAll(paper, files, n0) == SummarizeFirst(paper, files, n0, i + 1) && SummarizeAll(paper, files, n0).result == Err(summary.error)
  {
    var prev := SummarizeFirst(paper, files, n0, i);
    ConcatAssoc(asked, prev.requests, paper(files[i], n0 + |prev.requests|).requests);
    if summary.Err? {
      ErrorSticks(paper, files, n0, i + 1, |files|);
    }
  }

  /** Once an upload raises, the later ones are not read and the outcome is that exception. */
  lemma {:induction false} ErrorSticks(paper: (UploadedFile, nat) -> Paper, files: seq<UploadedFile>, n0: nat, j: nat, k: nat)
    requires j <= k <= |files| && SummarizeFirst(paper, files, n0, j).result.Err?
    ensures SummarizeFirst(paper, files, n0, k) == SummarizeFirst(paper, files, n0, j)
    decreases k
  {
    if j < k {
      ErrorSticks(paper, files, n0, j, k - 1);
    }
  }

  /** Every result the loop produces has one entry per title. */
  lemma {:induction false} SummariesDistinct(paper: (UploadedFile, nat) -> Paper, files: seq<UploadedFile>, n0: nat, i: nat)
    requires i <= |files| && SummarizeFirst(paper, files, n0, i).result.Ok?
    ensures DistinctKeys(SummarizeFirst(paper, files, n0, i).result.value)
    decreases i
  {
    if i > 0 {
      var prev := SummarizeFirst(paper, files, n0, i - 1);
      SummariesDistinct(paper, files, n0, i - 1);
      var f := files[i - 1];
      if f.data != [] {
        PutDistinct(prev.result.value, TitleOf(f), paper(f, n0 + |prev.requests|).summary.value);
      }
    }
  }

  /** A summarized paper adds its title to the keys. */
  lemma AddPaperKeys(b: Batch, title: string, p: Paper, k: string)
    requires b.result.Ok? && AddPaper(b, title, p).result.Ok?
    ensures HasKey(AddPaper(b, title, p).result.value, k) <==> (HasKey(b.result.value, k) || title == k)
  {
    PutKeys(b.result.value, title, p.summary.value, k);
  }

  /** Some non-empty upload among the first i of `files` is titled `k`. */
  ghost predicate Titled(files: seq<UploadedFile>, i: nat, k: string)
    requires i <= |files|
  {
    exists j :: 0 <= j < i && files[j].data != [] && TitleOf(files[j]) == k
  }

  /**
   * The keys of the summaries the loop has after i uploads are the titles of
   * the non-empty ones among them (a later upload with the same title
   * overwrites the earlier summary).
   */
  lemma {:induction false} SummarizeFirstKeys(paper: (UploadedFile, nat) -> Paper, files: seq<UploadedFile>, n0: nat, i: nat, k: string)
    requires i <= |files| && SummarizeFirst(paper, files, n0, i).result.Ok?
    ensures HasKey(SummarizeFirst(paper, files, n0, i).result.value, k) <==> Titled(files, i, k)
    decreases i
  {
    if i > 0 {
      var prev := SummarizeFirst(paper, files, n0, i - 1);
      var f := files[i - 1];
      if f.data != [] {
        AddPaperKeys(prev, TitleOf(f), paper(f, n0 + |prev.requests|), k);
      }
      SummarizeFirstKeys(paper, files, n0, i - 1, k);
      assert Titled(files, i, k) <==> Titled(files, i - 1, k) || (f.data != [] && TitleOf(f) == k) by {
        if Titled(files, i, k) {
          var j :| 0 <= j < i && files[j].data != [] && TitleOf(files[j]) == k;
        }
      }
    }
  }

  /** summarize_uploaded_papers' result, if it returns, has one entry per title: those of the non-empty uploads. */
  lemma SummarizeAllKeys(paper: (UploadedFile, nat) -> Paper, files: seq<UploadedFile>, n0: nat, k: string)
    requires SummarizeAll(paper, files, n0).result.Ok?
    ensures DistinctKeys(SummarizeAll(paper, files, n0).result.value)
    ensures HasKey(SummarizeAll(paper, files, n0).result.value, k)
        <==> exists j :: 0 <= j < |files| && files[j].data != [] && TitleOf(files[j]) == k
  {
    SummariesDistinct(paper, files, n0, |files|);
    SummarizeFirstKeys(paper, files, n0, |files|, k);
  }

  // ------------------------------------------------------------------
  // The services and the operations that use them
  // ------------------------------------------------------------------

  class Services {
    /** EMBEDDING_MODEL: rebound by embed_text_ollama when a fallback answers. */
    var embeddingModel: string
    const fallbacks: seq<string>
    const summaryMaxChars: int
    const kbCollection: string
    /** The text of each page of a PDF, or `None` when PyMuPDF cannot open the bytes. */
    const readPdf: seq<byte> -> Option<seq<string>>
    /** Together's completion endpoint. */
    const llm: Oracle<LlmRequest, CompletionReply>
    /** The BFH chat-completion service. */
    const chat: Oracle<ChatRequest, ServiceReply>
    const embedder: Oracle<EmbedRequest, EmbedReply>
    const puller: Oracle<string, PullReply>
    const store: Oracle<(), Connection>
    const sleeper: Oracle<real, ()>
    const kb: Oracle<KbQuery, KbReply>

    constructor (modelSetting: Option<string>, fallbackSetting: Option<string>, summaryMaxChars: int,
                 collectionSetting: Option<string>, readPdf: seq<byte> -> Option<seq<string>>,
                 llm: Oracle<LlmRequest, CompletionReply>, chat: Oracle<ChatRequest, ServiceReply>,
                 embedder: Oracle<EmbedRequest, EmbedReply>, puller: Oracle<string, PullReply>,
                 store: Oracle<(), Connection>, sleeper: Oracle<real, ()>, kb: Oracle<KbQuery, KbReply>)
      ensures embeddingModel == modelSetting.GetOr(DefaultEmbeddingModel)
      ensures fallbacks == ParseFallbacks(fallbackSetting)
      ensures this.summaryMaxChars == summaryMaxChars && kbCollection == collectionSetting.GetOr(DefaultKbCollection)
      ensures this.readPdf == readPdf && this.llm == llm && this.chat == chat && this.embedder == embedder
      ensures this.puller == puller && this.store == store && this.sleeper == sleeper && this.kb == kb
    {
      embeddingModel := modelSetting.GetOr(DefaultEmbeddingModel);
      fallbacks := ParseFallbacks(fallbackSetting);
      this.summaryMaxChars := summaryMaxChars;
      kbCollection := collectionSetting.GetOr(DefaultKbCollection);
      this.readPdf := readPdf;
      this.llm := llm;
      this.chat := chat;
      this.embedder := embedder;
      this.puller := puller;
      this.store := store;
      this.sleeper := sleeper;
      this.kb := kb;
    }

    /** llm_complete: one request to the completion endpoint. */
    method Complete(prompt: Prompt, maxTokens: nat, temperature: real) returns (r: Result<string>)
      modifies llm
      ensures llm.asked == old(llm.asked) + [LlmRequest(prompt, maxTokens, temperature)]
      ensures r == LlmComplete(llm.respond(|old(llm.asked)|, LlmRequest(prompt, maxTokens, temperature)))
    {
      var reply := llm.Ask(LlmRequest(prompt, maxTokens, temperature));
      r := LlmComplete(reply);
    }

    /** `llm_service.generate_completion(...)["text"]`: one request to the chat service. */
    method ChatComplete(prompt: Prompt, temperature: real) returns (r: Result<string>)
      modifies chat
      ensures chat.asked == old(chat.asked) + [ChatRequest(prompt, temperature)]
      ensures r == ServiceText(chat.respond(|old(chat.asked)|, ChatRequest(prompt, temperature)))
    {
      var reply := chat.Ask(ChatRequest(prompt, temperature));
      r := ServiceText(reply);
    }

    /** ollama_pull. */
    method Pull(model: string) returns (status: int)
      modifies puller
      ensures puller.asked == old(puller.asked) + [model]
      ensures status == PullStatus(puller.respond(|old(puller.asked)|, model))
    {
      var reply := puller.Ask(model);
      status := PullStatus(reply);
    }

    /** ensure_embedding_model. */
    method EnsureEmbeddingModel(model: string) returns (chosen: string)
      modifies puller
      ensures var (c, pulls) := EnsureChoice(puller.respond, |old(puller.asked)|, model, fallbacks);
        chosen == c && puller.asked == old(puller.asked) + pulls
    {
      var status := Pull(model);
      if status == 200 || status == 201 {
        return model;
      }
      var found := PullFallbacks();
      match found
      case Some(j) => return fallbacks[j];
      case None => return model;
    }

    /** The loop of ensure_embedding_model: pull each fallback until one succeeds. */
    method PullFallbacks() returns (found: Option<nat>)
      modifies puller
      ensures found == FirstAccepted(puller.respond, Pulled, |old(puller.asked)|, fallbacks)
      ensures found.Some? ==> puller.asked == old(puller.asked) + fallbacks[..found.value + 1]
      ensures found.None? ==> puller.asked == old(puller.asked) + fallbacks
    {
      var n := |puller.asked|;
      var i := 0;
      while i < |fallbacks|
        invariant 0 <= i <= |fallbacks|
        invariant puller.asked == old(puller.asked) + fallbacks[..i]
        invariant forall j :: 0 <= j < i ==> !Pulled(puller.respond(n + j, fallbacks[j]))
      {
        var s2 := Pull(fallbacks[i]);
        assert fallbacks[..i + 1] == fallbacks[..i] + [fallbacks[i]];
        if s2 == 200 || s2 == 201 {
          FirstAcceptedAt(puller.respond, Pulled, n, fallbacks, i);
          return Some(i);
        }
        i := i + 1;
      }
      assert fallbacks[..i] == fallbacks;
      FirstAcceptedNone(puller.respond, Pulled, n, fallbacks);
      return None;
    }

    /** embed_text_ollama. */
    method EmbedText(text: string) returns (r: Result<Option<Vector>>)
      modifies this, embedder, puller
      ensures var run := EmbedSpec(embedder.respond, puller.respond, |old(embedder.asked)|, |old(puller.asked)|,
                                    old(embeddingModel), fallbacks, text);
        && r == run.result && embeddingModel == run.model
        && embedder.asked == old(embedder.asked) + Requests(run.tried, text)
        && puller.asked == old(puller.asked) + run.pulls
    {
      ghost var m, a0, p := embeddingModel, embedder.asked, |puller.asked|;
      var first := embedder.Ask(EmbedRequest(embeddingModel, text));
      match first
      case EmbedRaised(e) =>
        r := Err(Transport(e));
      case EmbedResponse(status, body, v) =>
        if status == 200 {
          r := Ok(JsonGet(v));
        } else if NotFound(first) {
          SpecOfRecovery(embedder.respond, puller.respond, |a0|, p, m, fallbacks, text);
          r := Recover(text, first);
          ghost var tried := Recovery(embedder.respond, puller.respond, |a0|, p, m, fallbacks, text).tried;
          ConcatAssoc(a0, [EmbedRequest(m, text)], Requests(tried[1..], text));
        } else {
          r := Err(EmbeddingFailure(status, body));
        }
      assert Requests([m], text) == [EmbedRequest(m, text)];
    }

    /** After a "not found" reply: choose a model, then try it and every fallback in order. */
    method Recover(text: string, first: EmbedReply) returns (r: Result<Option<Vector>>)
      requires |embedder.asked| >= 1
      requires first == embedder.respond(|embedder.asked| - 1, EmbedRequest(embeddingModel, text))
      modifies this, embedder, puller
      ensures var run := Recovery(embedder.respond, puller.respond, |old(embedder.asked)| - 1, |old(puller.asked)|,
                                   old(embeddingModel), fallbacks, text);
        && r == run.result && embeddingModel == run.model
        && embedder.asked == old(embedder.asked) + Requests(run.tried[1..], text)
        && puller.asked == old(puller.asked) + run.pulls
    {
      ghost var m := embeddingModel;
      var chosen := EnsureEmbeddingModel(embeddingModel);
      var cands := [chosen] + fallbacks;
      var scan := TryModels(cands, text);
      assert ([m] + cands[..ScanLength(scan, |cands|)])[1..] == cands[..ScanLength(scan, |cands|)];
      if scan.Hit? {
        embeddingModel := cands[scan.index];
      }
      r := ScanResult(scan, first);
    }

    /** Ask for an embedding from each model in turn until one answers 200 or a request raises. */
    method TryModels(models: seq<string>, text: string) returns (s: Scan)
      modifies embedder
      ensures s == ScanReplies(Replies(embedder.respond, |old(embedder.asked)|, models, text))
      ensures embedder.asked == old(embedder.asked) + Requests(models[..ScanLength(s, |models|)], text)
    {
      var n := |embedder.asked|;
      ghost var replies := Replies(embedder.respond, n, models, text);
      var i := 0;
      while i < |models|
        invariant 0 <= i <= |models|
        invariant embedder.asked == old(embedder.asked) + Requests(models[..i], text)
        invariant forall j :: 0 <= j < i ==> Declined(replies[j])
      {
        var reply := embedder.Ask(EmbedRequest(models[i], text));
        assert reply == replies[i];
        assert Requests(models[..i + 1], text) == Requests(models[..i], text) + [EmbedRequest(models[i], text)];
        match reply
        case EmbedRaised(e) =>
          return Raised(i, e);
        case EmbedResponse(status, _, w) =>
          if status == 200 {
            return Hit(i, JsonGet(w));
          }
        i := i + 1;
      }
      assert models[..i] == models;
      return Exhausted;
    }

    /** get_chroma_client: up to `maxAttempts` connection attempts, sleeping `delay` between them. */
    method GetChromaClient(maxAttempts: int, delay: real) returns (r: Result<Option<nat>>)
      modifies store, sleeper
      ensures r == Connect(store.respond, |old(store.asked)|, maxAttempts)
      ensures var n := |old(store.asked)|;
        if maxAttempts <= 0 then
          r == Ok(None) && store.asked == old(store.asked) && sleeper.asked == old(sleeper.asked)
        else var tries := Attempts(store.respond, n, maxAttempts);
          match FirstConnection(tries)
          case Some(k) =>
            && r == Ok(Some(tries[k].client))
            && store.asked == old(store.asked) + Units(k + 1)
            && sleeper.asked == old(sleeper.asked) + Delays(k, delay)
          case None =>
            && r == Err(StoreFailure(tries[maxAttempts - 1].reason))
            && store.asked == old(store.asked) + Units(maxAttempts)
            && sleeper.asked == old(sleeper.asked) + Delays(maxAttempts - 1, delay)
    {
      var n := |store.asked|;
      ghost var tries := Attempts(store.respond, n, if maxAttempts < 0 then 0 else maxAttempts);
      var attempt := 0;
      while attempt < maxAttempts
        invariant 0 <= attempt && (attempt < maxAttempts || attempt == 0)
        invariant store.asked == old(store.asked) + Units(attempt)
        invariant sleeper.asked == old(sleeper.asked) + Delays(attempt, delay)
        invariant forall j :: 0 <= j < attempt ==> tries[j].Refused?
      {
        var c := store.Ask(());
        assert tries[attempt] == c;
        assert Units(attempt) + [()] == Units(attempt + 1);
        match c
        case Connected(client) =>
          assert FirstConnection(tries) == Some(attempt);
          return Ok(Some(client));
        case Refused(e) =>
          if attempt == maxAttempts - 1 {
            assert FirstConnection(tries) == None;
            return Err(StoreFailure(e));
          }
          var _ := sleeper.Ask(delay);
          assert Delays(attempt, delay) + [delay] == Delays(attempt + 1, delay);
        attempt := attempt + 1;
      }
      return Ok(None);
    }

    /**
     * retrieve_kb_context: embed the question, connect (10 attempts, 2 s
     * apart), then one query of the knowledge-base collection with the
     * question's embedding; its documents and metadatas are the result. An
     * embedding or connection failure ends it before any query.
     */
    method RetrieveKbContext(question: string, nResults: nat) returns (r: Result<(seq<string>, seq<SourceMeta>)>)
      modifies this, embedder, puller, store, sleeper, kb
      ensures var run := EmbedSpec(embedder.respond, puller.respond, |old(embedder.asked)|, |old(puller.asked)|,
                                    old(embeddingModel), fallbacks, question);
        && embeddingModel == run.model
        && embedder.asked == old(embedder.asked) + Requests(run.tried, question)
        && puller.asked == old(puller.asked) + run.pulls
        && (run.result.Err? ==>
              && r == Err(run.result.error) && store.asked == old(store.asked)
              && sleeper.asked == old(sleeper.asked) && kb.asked == old(kb.asked))
        && (run.result.Ok? ==>
              var conn := Connect(store.respond, |old(store.asked)|, 10);
              var tries := Attempts(store.respond, |old(store.asked)|, 10);
              && (match FirstConnection(tries)
                  case Some(k) =>
                    store.asked == old(store.asked) + Units(k + 1) && sleeper.asked == old(sleeper.asked) + Delays(k, 2.0)
                  case None =>
                    store.asked == old(store.asked) + Units(10) && sleeper.asked == old(sleeper.asked) + Delays(9, 2.0))
              && (conn.Err? ==> r == Err(conn.error) && kb.asked == old(kb.asked))
              && (conn.Ok? ==>
                    var q := KbQuery(kbCollection, run.result.value, nResults);
                    kb.asked == old(kb.asked) + [q] && r == KbOutcome(kb.respond(|old(kb.asked)|, q))))
      ensures |embedder.asked| > |old(embedder.asked)| && embedder.asked[..|old(embedder.asked)|] == old(embedder.asked)
      ensures embedder.asked[|old(embedder.asked)|] == EmbedRequest(old(embeddingModel), question)
      ensures kb.asked == old(kb.asked) || |kb.asked| == |old(kb.asked)| + 1
      ensures r.Ok? ==>
        && |kb.asked| == |old(kb.asked)| + 1 && kb.asked[..|old(kb.asked)|] == old(kb.asked)
        && kb.asked[|old(kb.asked)|].collection == kbCollection && kb.asked[|old(kb.asked)|].nResults == nResults
        && kb.respond(|old(kb.asked)|, kb.asked[|old(kb.asked)|]) == KbResult(r.value.0, r.value.1)
    {
      var emb := EmbedText(question);
      EmbedFirstTried(embedder.respond, puller.respond, |old(embedder.asked)|, |old(puller.asked)|,
                      old(embeddingModel), fallbacks, question);
      if emb.Err? {
        return Err(emb.error);
      }
      var client := GetChromaClient(10, 2.0);
      if client.Err? {
        return Err(client.error);
      }
      var reply := kb.Ask(KbQuery(kbCollection, emb.value, nResults));
      match reply
      case KbRaised(e) => return Err(StoreFailure(e));
      case KbResult(docs, metas) => return Ok((docs, metas));
    }

    /** summarize_single_paper_with_bfh_llm. */
    method SummarizeSinglePaper(title: string, fullText: string) returns (r: Result<string>)
      modifies chat
      ensures r == SingleSummary(chat.respond, |old(chat.asked)|, title, fullText).summary
      ensures chat.asked == old(chat.asked) + SingleSummary(chat.respond, |old(chat.asked)|, title, fullText).requests
    {
      if Strip(fullText) == "" {
        return Ok(NoTextSummary(title));
      }
      var t := ChatComplete(PaperSummaryPrompt(title, fullText), 0.0);
      match t
      case Err(e) => return Err(e);
      case Ok(text) => return Ok(Strip(text));
    }

    /** The summary of one non-empty upload, with the n-th chat call next. */
    function PaperResult(f: UploadedFile, n: nat): Paper
    {
      match readPdf(f.data)
      case None => Paper(Err(PdfFailure(TitleOf(f))), [])
      case Some(pages) => SingleSummary(chat.respond, n, TitleOf(f), ExtractFullText(pages, summaryMaxChars))
    }

    /** The per-upload step of summarize_uploaded_papers, as a function of the upload and the next chat call. */
    function Summarizer(): (UploadedFile, nat) -> Paper
    {
      (f: UploadedFile, n: nat) => PaperResult(f, n)
    }

    /** The body of summarize_uploaded_papers' loop for one non-empty upload, where `paper` is PaperResult. */
    method SummarizeUpload(f: UploadedFile, ghost paper: (UploadedFile, nat) -> Paper) returns (r: Result<string>)
      requires forall f, n {:trigger PaperResult(f, n)} :: paper(f, n) == PaperResult(f, n)
      modifies chat
      ensures r == paper(f, |old(chat.asked)|).summary
      ensures chat.asked == old(chat.asked) + paper(f, |old(chat.asked)|).requests
    {
      assert paper(f, |chat.asked|) == PaperResult(f, |chat.asked|);
      var pages := readPdf(f.data);
      if pages.None? {
        return Err(PdfFailure(TitleOf(f)));
      }
      var fullText := ExtractFullText(pages.value, summaryMaxChars);
      r := SummarizeSinglePaper(TitleOf(f), fullText);
    }

    /** summarize_uploaded_papers. */
    method SummarizeUploadedPapers(files: seq<UploadedFile>) returns (r: Result<Dict<string>>)
      modifies chat
      ensures r == SummarizeAll(Summarizer(), files, |old(chat.asked)|).result
      ensures chat.asked == old(chat.asked) + SummarizeAll(Summarizer(), files, |old(chat.asked)|).requests
    {
      r := SummarizeEach(files, Summarizer());
    }

    /** The loop of summarize_uploaded_papers, where `paper` is what one upload gives. */
    method SummarizeEach(files: seq<UploadedFile>, ghost paper: (UploadedFile, nat) -> Paper) returns (r: Result<Dict<string>>)
      requires forall f, n {:trigger PaperResult(f, n)} :: paper(f, n) == PaperResult(f, n)
      modifies chat
      ensures r == SummarizeAll(paper, files, |old(chat.asked)|).result
      ensures chat.asked == old(chat.asked) + SummarizeAll(paper, files, |old(chat.asked)|).requests
    {
      ghost var n0 := |chat.asked|;
      var summaries: Dict<string> := [];
      var i := 0;
      while i < |files|
        invariant 0 <= i <= |files|
        invariant SummarizeFirst(paper, files, n0, i).result == Ok(summaries)
        invariant chat.asked == old(chat.asked) + SummarizeFirst(paper, files, n0, i).requests
      {
        var f := files[i];
        SummarizeNext(paper, files, n0, i);
        if f.data == [] {
          i := i + 1;
          continue;
        }
        ghost var before := chat.asked;
        var summary := SummarizeUpload(f, paper);
        SummarizeStep(paper, files, n0, i, summaries, summary, old(chat.asked));
        if summary.Err? {
          return Err(summary.error);
        }
        summaries := Put(summaries, TitleOf(f), summary.value);
        i := i + 1;
      }
      return Ok(summaries);
    }
  }
}

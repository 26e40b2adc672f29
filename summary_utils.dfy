/**
 * The summary utilities of app.py: `_clean_text`, with its three regular
 * expression substitutions, and `update_summary_ephemeral`, the memory
 * update that runs after every chat turn.
 *
 * Each of the three patterns is a matcher (`MatchEnd`): where it matches at a
 * position, and where that match ends. `re.sub` is one left-to-right scan
 * (`SubFrom`) that, like Python's, tries the pattern at each position,
 * replaces a match with the replacement and resumes right after it, and
 * otherwise copies one character and moves on.
 */
module SummaryUtils {
  import opened Common
  import opened Text
  import opened Seqs
  import opened Prompts
  import opened RagTools

  // ------------------------------------------------------------------
  // The three patterns of _clean_text
  // ------------------------------------------------------------------

  /**
   * SELF_REF_RE (`\[Self-Reflection Checklist\].*?(?:\Z|\n{2,})`, ignoring case, `.` matching newlines),
   * PROMPTY_RE (`\[Write (?:the )?updated summary below\]\s*`, ignoring case)
   * and the blank-line pattern `\n{3,}`.
   */
  datatype Pattern = SelfReflection | SummaryEcho | BlankRun

  /** The literal parts of the two bracketed patterns, lower-cased. */
  const Marker: string := "[self-reflection checklist]"
  const EchoLong: string := "[write the updated summary below]"
  const EchoShort: string := "[write updated summary below]"

  /** The lower-case word `w` occurs at `i`, ignoring ASCII case. */
  predicate LowerAt(s: string, i: nat, w: string)
  {
    i + |w| <= |s| && forall j :: 0 <= j < |w| ==> LowerChar(s[i + j]) == w[j]
  }

  /** Two newlines start at `k`: the places where `\n{2,}` can begin. */
  predicate BlankAt(s: string, k: nat)
  {
    k + 1 < |s| && s[k] == '\n' && s[k + 1] == '\n'
  }

  /** Either spelling of the prompt echo occurs at `i`. */
  predicate EchoAt(s: string, i: nat)
  {
    LowerAt(s, i, EchoLong) || LowerAt(s, i, EchoShort)
  }

  /** The end of the newline run that starts at `k` (a greedy `\n*`). */
  function RunEnd(s: string, k: nat): (e: nat)
    requires k <= |s|
    ensures k <= e <= |s|
    ensures forall j :: k <= j < e ==> s[j] == '\n'
    ensures e == |s| || s[e] != '\n'
    decreases |s| - k
  {
    if k < |s| && s[k] == '\n' then RunEnd(s, k + 1) else k
  }

  /** The end of the whitespace run that starts at `k` (a greedy `\s*`). */
  function SpaceEnd(s: string, k: nat): (e: nat)
    requires k <= |s|
    ensures k <= e <= |s|
    ensures forall j :: k <= j < e ==> IsSpace(s[j])
    ensures e == |s| || !IsSpace(s[e])
    decreases |s| - k
  {
    if k < |s| && IsSpace(s[k]) then SpaceEnd(s, k + 1) else k
  }

  /**
   * Where `.*?(?:\Z|\n{2,})` ends when tried at `k`: the lazy `.*?` stops at
   * the first position that is the end of the text or starts two newlines,
   * and `\n{2,}` then takes the whole newline run there.
   */
  function ReflectionEnd(s: string, k: nat): (e: nat)
    requires k <= |s|
    ensures k <= e <= |s|
    decreases |s| - k
  {
    if k == |s| then k
    else if BlankAt(s, k) then RunEnd(s, k)
    else ReflectionEnd(s, k + 1)
  }

  /** Whether pattern `p` matches at `i`, and if so where the match ends. */
  function MatchEnd(p: Pattern, s: string, i: nat): (r: Option<nat>)
    requires i <= |s|
    ensures r.Some? ==> i < r.value <= |s|
  {
    match p
    case SelfReflection =>
      if LowerAt(s, i, Marker) then Some(ReflectionEnd(s, i + |Marker|)) else None
    case SummaryEcho =>
      if LowerAt(s, i, EchoLong) then Some(SpaceEnd(s, i + |EchoLong|))
      else if LowerAt(s, i, EchoShort) then Some(SpaceEnd(s, i + |EchoShort|))
      else None
    case BlankRun =>
      if TripleAt(s, i) then Some(RunEnd(s, i)) else None
  }

  /** What `_clean_text` substitutes for a match of `p`. */
  function Replacement(p: Pattern): string
  {
    if p == BlankRun then "\n\n" else ""
  }

  /** `re.sub(p, Replacement(p), s)` from position `i` on. */
  function SubFrom(p: Pattern, s: string, i: nat): string
    requires i <= |s|
    decreases |s| - i
  {
    if i == |s| then ""
    else match MatchEnd(p, s, i)
      case Some(e) => Replacement(p) + SubFrom(p, s, e)
      case None => [s[i]] + SubFrom(p, s, i + 1)
  }

  function Sub(p: Pattern, s: string): string
  {
    SubFrom(p, s, 0)
  }

  /**
   * `_clean_text`: the empty text stays empty; otherwise checklists, then
   * prompt echoes are removed, runs of three or more newlines become one
   * blank line, and the result is stripped.
   */
  function CleanText(t: string): (r: string)
    ensures t == "" ==> r == ""
    ensures r == [] || (!IsSpace(r[0]) && !IsSpace(r[|r| - 1]))
    ensures NoTriple(r)
  {
    if t == "" then ""
    else
      var echoed := Sub(SummaryEcho, Sub(SelfReflection, t));
      var collapsed := Sub(BlankRun, echoed);
      CollapseNoTriple(echoed);
      StripKeepsNoTriple(collapsed);
      Strip(collapsed)
  }

  // ------------------------------------------------------------------
  // re.sub: what the scan keeps and what it replaces
  // ------------------------------------------------------------------

  /** Positions where the pattern does not match are copied unchanged. */
  lemma SubSkip(p: Pattern, s: string, i: nat, j: nat)
    requires i <= j <= |s|
    requires forall k :: i <= k < j ==> MatchEnd(p, s, k).None?
    ensures SubFrom(p, s, i) == s[i..j] + SubFrom(p, s, j)
  {
    var f: nat -> string := (k: nat) => if k <= |s| then SubFrom(p, s, k) else [];
    forall k | i <= k < j
      ensures f(k) == [s[k]] + f(k + 1)
    {
      SubCopy(p, s, k);
    }
    CopyRun(s, f, i, j);
  }

  /** Where the pattern matches, the scan puts the replacement and goes on after the match. */
  lemma SubReplace(p: Pattern, s: string, i: nat)
    requires i < |s| && MatchEnd(p, s, i).Some?
    ensures SubFrom(p, s, i) == Replacement(p) + SubFrom(p, s, MatchEnd(p, s, i).value)
  {
  }

  /** Where the pattern does not match, the scan copies one character. */
  lemma SubCopy(p: Pattern, s: string, i: nat)
    requires i < |s| && MatchEnd(p, s, i).None?
    ensures SubFrom(p, s, i) == [s[i]] + SubFrom(p, s, i + 1)
  {
  }

  /** Where the pattern matches nowhere, the text is left as it is. */
  lemma SubNoMatch(p: Pattern, s: string)
    requires forall k :: 0 <= k < |s| ==> MatchEnd(p, s, k).None?
    ensures Sub(p, s) == s
  {
    SubSkip(p, s, 0, |s|);
  }

  /** The first match is replaced, the text before it is kept, and the scan resumes after the match. */
  lemma SubFirstMatch(p: Pattern, s: string, i: nat)
    requires i <= |s| && MatchEnd(p, s, i).Some?
    requires forall k :: 0 <= k < i ==> MatchEnd(p, s, k).None?
    ensures Sub(p, s) == s[..i] + Replacement(p) + SubFrom(p, s, MatchEnd(p, s, i).value)
  {
    SubSkip(p, s, 0, i);
  }

  // ------------------------------------------------------------------
  // The self-reflection pass
  // ------------------------------------------------------------------

  /** With no blank line at or after `k`, the checklist runs to the end of the text. */
  lemma {:induction false} ReflectionEndNoBlank(s: string, k: nat)
    requires k <= |s|
    requires forall q :: k <= q < |s| ==> !BlankAt(s, q)
    ensures ReflectionEnd(s, k) == |s|
    decreases |s| - k
  {
    if k < |s| {
      ReflectionEndNoBlank(s, k + 1);
    }
  }

  /** Otherwise it ends after the whole newline run of the first blank line at or after `k`. */
  lemma {:induction false} ReflectionEndAtBlank(s: string, k: nat, q: nat)
    requires k <= q && BlankAt(s, q)
    requires forall j :: k <= j < q ==> !BlankAt(s, j)
    ensures ReflectionEnd(s, k) == RunEnd(s, q)
    decreases q - k
  {
    if k < q {
      ReflectionEndAtBlank(s, k + 1, q);
    }
  }

  /**
   * The first checklist marker (at `i`, in any case) is removed together with
   * everything up to and including the newline run of the first blank line
   * after it (which starts at `q`); what follows is scanned on.
   */
  lemma ReflectionRemoved(s: string, i: nat, q: nat)
    requires LowerAt(s, i, Marker) && forall k :: 0 <= k < i ==> !LowerAt(s, k, Marker)
    requires i + |Marker| <= q && BlankAt(s, q)
    requires forall j :: i + |Marker| <= j < q ==> !BlankAt(s, j)
    ensures Sub(SelfReflection, s) == s[..i] + SubFrom(SelfReflection, s, RunEnd(s, q))
  {
    ReflectionEndAtBlank(s, i + |Marker|, q);
    SubFirstMatch(SelfReflection, s, i);
  }

  /** A first checklist marker with no blank line after it removes the rest of the text. */
  lemma ReflectionToEnd(s: string, i: nat)
    requires LowerAt(s, i, Marker) && forall k :: 0 <= k < i ==> !LowerAt(s, k, Marker)
    requires forall j :: i + |Marker| <= j < |s| ==> !BlankAt(s, j)
    ensures Sub(SelfReflection, s) == s[..i]
  {
    ReflectionEndNoBlank(s, i + |Marker|);
    SubFirstMatch(SelfReflection, s, i);
  }

  /** Text without a checklist marker passes unchanged. */
  lemma NoMarkerKept(s: string)
    requires forall k :: 0 <= k < |s| ==> !LowerAt(s, k, Marker)
    ensures Sub(SelfReflection, s) == s
  {
    SubNoMatch(SelfReflection, s);
  }

  // ------------------------------------------------------------------
  // The prompt-echo pass
  // ------------------------------------------------------------------

  /** The two spellings of the echo cannot start at the same place: one has "the " where the other has "updated". */
  lemma EchoExclusive(s: string, i: nat)
    ensures LowerAt(s, i, EchoShort) ==> !LowerAt(s, i, EchoLong)
  {
    if LowerAt(s, i, EchoShort) {
      LowerAtChar(s, i, EchoShort, 7);
    }
    if LowerAt(s, i, EchoLong) {
      LowerAtChar(s, i, EchoLong, 7);
    }
  }

  lemma LowerAtChar(s: string, i: nat, w: string, j: nat)
    requires LowerAt(s, i, w) && j < |w|
    ensures LowerChar(s[i + j]) == w[j]
  {
  }

  /**
   * The first prompt echo (either spelling `w`, in any case, at `i`) is
   * removed together with the whitespace after it; what follows is scanned on.
   */
  lemma EchoRemoved(s: string, i: nat, w: string)
    requires w == EchoLong || w == EchoShort
    requires LowerAt(s, i, w) && forall k :: 0 <= k < i ==> !EchoAt(s, k)
    ensures Sub(SummaryEcho, s) == s[..i] + SubFrom(SummaryEcho, s, SpaceEnd(s, i + |w|))
  {
    EchoExclusive(s, i);
    forall k | 0 <= k < i ensures MatchEnd(SummaryEcho, s, k).None? {
      assert !EchoAt(s, k);
    }
    assert MatchEnd(SummaryEcho, s, i) == Some(SpaceEnd(s, i + |w|));
    SubFirstMatch(SummaryEcho, s, i);
  }

  /** Text without a prompt echo passes unchanged. */
  lemma NoEchoKept(s: string)
    requires forall k :: 0 <= k < |s| ==> !EchoAt(s, k)
    ensures Sub(SummaryEcho, s) == s
  {
    forall k | 0 <= k < |s| ensures MatchEnd(SummaryEcho, s, k).None? {
      assert !EchoAt(s, k);
    }
    SubNoMatch(SummaryEcho, s);
  }

  // ------------------------------------------------------------------
  // The blank-line pass
  // ------------------------------------------------------------------

  /** Three newlines start at `k`: the places where `\n{3,}` can begin. */
  predicate TripleAt(s: string, k: int)
  {
    0 <= k && k + 2 < |s| && s[k] == '\n' && s[k + 1] == '\n' && s[k + 2] == '\n'
  }

  /** No three newlines in a row. */
  predicate NoTriple(s: string)
  {
    forall k :: 0 <= k < |s| ==> !TripleAt(s, k)
  }

  /** The number of newlines the text starts with. */
  function Lead(s: string): nat
    decreases |s|
  {
    if s != [] && s[0] == '\n' then 1 + Lead(s[1..]) else 0
  }

  lemma NoTripleCons(c: char, r: string)
    requires NoTriple(r) && (c == '\n' ==> Lead(r) < 2)
    ensures NoTriple([c] + r)
  {
    var t := [c] + r;
    forall k ensures !TripleAt(t, k) {
      if k == 0 && |r| >= 2 && r[0] == '\n' && r[1] == '\n' {
        LeadTwo(r);
      } else if 0 < k && k + 2 < |t| {
        assert t[k] == r[k - 1] && t[k + 1] == r[k] && t[k + 2] == r[k + 1];
        assert !TripleAt(r, k - 1);
      }
    }
  }

  lemma LeadTwo(r: string)
    requires |r| >= 2 && r[0] == '\n' && r[1] == '\n'
    ensures Lead(r) >= 2
  {
    assert r[1..][0] == r[1];
  }

  /**
   * The blank-line scan from `i` leaves no three newlines in a row, starts
   * with at most two, with none when `s[i]` is not a newline, and with at
   * most one when `s[i + 1]` is not one.
   */
  lemma {:induction false} CollapseFrom(s: string, i: nat)
    requires i <= |s|
    ensures var o := SubFrom(BlankRun, s, i);
      && NoTriple(o)
      && Lead(o) <= 2
      && ((i == |s| || s[i] != '\n') ==> Lead(o) == 0)
      && ((i + 1 >= |s| || s[i + 1] != '\n') ==> Lead(o) <= 1)
    decreases |s| - i
  {
    if i < |s| {
      if MatchEnd(BlankRun, s, i).Some? {
        var e := MatchEnd(BlankRun, s, i).value;
        SubReplace(BlankRun, s, i);
        CollapseFrom(s, e);
        var rest := SubFrom(BlankRun, s, e);
        assert Lead(rest) == 0 by { RunEndLead(s, i); }
        NoTripleCons('\n', rest);
        LeadCons('\n', rest);
        NoTripleCons('\n', "\n" + rest);
        LeadCons('\n', "\n" + rest);
        assert SubFrom(BlankRun, s, i) == ['\n'] + ("\n" + rest);
      } else {
        SubCopy(BlankRun, s, i);
        CollapseFrom(s, i + 1);
        var rest := SubFrom(BlankRun, s, i + 1);
        NoTripleCons(s[i], rest);
        LeadCons(s[i], rest);
      }
    }
  }

  /** The blank-line pattern ends where the newline run ends, so the scan goes on at a non-newline or at the end. */
  lemma RunEndLead(s: string, i: nat)
    requires i <= |s| && MatchEnd(BlankRun, s, i).Some?
    ensures var e := MatchEnd(BlankRun, s, i).value; e == |s| || s[e] != '\n'
  {
  }

  lemma LeadCons(c: char, r: string)
    ensures Lead([c] + r) == if c == '\n' then 1 + Lead(r) else 0
  {
    assert ([c] + r)[1..] == r;
  }

  /** The blank-line pass leaves no run of three or more newlines. */
  lemma CollapseNoTriple(s: string)
    ensures NoTriple(Sub(BlankRun, s))
  {
    CollapseFrom(s, 0);
  }

  /** Text without three newlines in a row passes the blank-line pass unchanged. */
  lemma CollapseNoop(s: string)
    requires NoTriple(s)
    ensures Sub(BlankRun, s) == s
  {
    SubNoMatch(BlankRun, s);
  }

  /** A slice of a text without three newlines in a row has none either. */
  lemma NoTripleSlice(s: string, a: nat, b: nat)
    requires NoTriple(s) && a <= b <= |s|
    ensures NoTriple(s[a..b])
  {
    var t := s[a..b];
    forall k ensures !TripleAt(t, k) {
      if 0 <= k && k + 2 < |t| {
        assert t[k] == s[a + k] && t[k + 1] == s[a + k + 1] && t[k + 2] == s[a + k + 2];
        assert !TripleAt(s, a + k);
      }
    }
  }

  lemma StripKeepsNoTriple(s: string)
    requires NoTriple(s)
    ensures NoTriple(Strip(s))
  {
    var o := StripOffset(s);
    var t := Strip(s);
    StripIsSlice(s);
    NoTripleSlice(s, o, o + |t|);
    NoTripleSame(s[o..o + |t|], t);
  }

  lemma NoTripleSame(u: string, t: string)
    requires NoTriple(u) && t == u
    ensures NoTriple(t)
  {
  }

  // ------------------------------------------------------------------
  // update_summary_ephemeral
  // ------------------------------------------------------------------

  /** One history record, `{"kind", "frage", "antwort", "quellen"}`; `kind` may be missing. */
  datatype Turn = Turn(kind: Option<string>, question: string, answer: string, sources: seq<SourceMeta>)

  /** `h.get("kind", "chat") == "chat"`: a record without a kind counts as a chat turn. */
  predicate IsChat(h: Turn)
  {
    h.kind.GetOr("chat") == "chat"
  }

  function ChatTurns(history: seq<Turn>): seq<Turn>
  {
    Filter(history, IsChat)
  }

  /** A turn's question and answer after `_clean_text`. */
  function Cleaned(h: Turn): (string, string)
  {
    (CleanText(h.question), CleanText(h.answer))
  }

  function CleanedTurns(chat: seq<Turn>): (r: seq<(string, string)>)
    ensures |r| == |chat| && forall k :: 0 <= k < |r| ==> r[k] == Cleaned(chat[k])
  {
    seq(|chat|, k requires 0 <= k < |chat| => Cleaned(chat[k]))
  }

  /** A cleaned turn with neither a question nor an answer left. */
  predicate Blank(c: (string, string))
  {
    c.0 == "" && c.1 == ""
  }

  /** The pair a cleaned turn adds: nothing when it is blank. */
  function PairOf(c: (string, string)): seq<string>
  {
    if c.0 != "" || c.1 != "" then ["USER: " + c.0 + "\nASSISTANT: " + c.1] else []
  }

  /** The `pairs` list of update_summary_ephemeral, built turn by turn. */
  function Pairs(cs: seq<(string, string)>): seq<string>
    decreases |cs|
  {
    if cs == [] then [] else Pairs(cs[..|cs| - 1]) + PairOf(cs[|cs| - 1])
  }

  /** `recent_text`: the pairs separated by blank lines, or "None". */
  function RecentText(history: seq<Turn>): string
  {
    var pairs := Pairs(CleanedTurns(ChatTurns(history)));
    if pairs == [] then "None" else Join("\n\n", pairs)
  }

  /** The memory summarizer's completion request (180 tokens, temperature 0). */
  function MemoryRequest(history: seq<Turn>, current: string): LlmRequest
  {
    LlmRequest(MemoryPrompt(CleanText(current), RecentText(history)), 180, 0.0)
  }

  /**
   * What update_summary_ephemeral returns once the completion gave `c`: the
   * cleaned completion, or the current summary when the call raised or the
   * cleaned completion is empty.
   */
  function SummaryAfter(c: Result<string>, current: string): (r: string)
    ensures c.Err? ==> r == current
    ensures c.Ok? && CleanText(c.value) == "" ==> r == current
    ensures r != current ==> c.Ok? && r == CleanText(c.value) && r != ""
  {
    if c.Err? then current
    else
      var cleaned := CleanText(c.value);
      if cleaned != "" then cleaned else current
  }

  /** A turn that is not blank gives the pairs list an entry. */
  lemma {:induction false} PairsKeep(cs: seq<(string, string)>, k: nat)
    requires k < |cs|
    ensures !Blank(cs[k]) ==> Pairs(cs) != []
    decreases |cs|
  {
    var n := |cs| - 1;
    assert |Pairs(cs)| == |Pairs(cs[..n])| + |PairOf(cs[n])|;
    if k < n {
      PairsKeep(cs[..n], k);
      assert cs[..n][k] == cs[k];
    }
  }

  /** Blank turns add nothing to the pairs list. */
  lemma {:induction false} PairsAllBlank(cs: seq<(string, string)>)
    requires forall k :: 0 <= k < |cs| ==> Blank(cs[k])
    ensures Pairs(cs) == []
    decreases |cs|
  {
    if cs != [] {
      var n := |cs| - 1;
      var init := cs[..n];
      assert forall k :: 0 <= k < n ==> init[k] == cs[k];
      PairsAllBlank(init);
      assert Blank(cs[n]);
    }
  }

  /** The pairs list is empty exactly when every turn is blank after cleaning. */
  lemma PairsEmpty(cs: seq<(string, string)>)
    ensures Pairs(cs) == [] <==> forall k :: 0 <= k < |cs| ==> Blank(cs[k])
  {
    if forall k :: 0 <= k < |cs| ==> Blank(cs[k]) {
      PairsAllBlank(cs);
    }
    forall k | 0 <= k < |cs| ensures Pairs(cs) == [] ==> Blank(cs[k]) {
      PairsKeep(cs, k);
    }
  }

  /** Every pair starts with "USER: ", so the first one starts with a 'U'. */
  lemma {:induction false} PairsHead(cs: seq<(string, string)>)
    requires Pairs(cs) != []
    ensures Pairs(cs)[0] != [] && Pairs(cs)[0][0] == 'U'
    decreases |cs|
  {
    var n := |cs| - 1;
    var init := cs[..n];
    if Pairs(init) != [] {
      PairsHead(init);
      assert Pairs(cs)[0] == Pairs(init)[0];
    } else {
      assert Pairs(cs) == PairOf(cs[n]);
    }
  }

  /**
   * The memory prompt's turns read "None" exactly when every chat turn has
   * neither question nor answer left after cleaning.
   */
  lemma RecentTextNone(history: seq<Turn>)
    ensures var chat := ChatTurns(history);
      RecentText(history) == "None" <==> forall k :: 0 <= k < |chat| ==> EmptyAfterCleaning(chat[k])
  {
    var chat := ChatTurns(history);
    var cs := CleanedTurns(chat);
    var pairs := Pairs(cs);
    PairsEmpty(cs);
    if pairs != [] {
      PairsHead(cs);
      JoinStarts("\n\n", pairs);
      assert Join("\n\n", pairs)[0] == pairs[0][0];
    }
    assert forall k :: 0 <= k < |cs| ==> (Blank(cs[k]) <==> EmptyAfterCleaning(chat[k]));
  }

  /** A turn with neither a question nor an answer left once cleaned. */
  predicate EmptyAfterCleaning(h: Turn)
  {
    CleanText(h.question) == "" && CleanText(h.answer) == ""
  }

  /** A record whose kind is not "chat" leaves the memory prompt as it was. */
  lemma RecentTextIgnoresOther(history: seq<Turn>, h: Turn)
    requires !IsChat(h)
    ensures RecentText(history + [h]) == RecentText(history)
  {
    FilterSnoc(history, h, IsChat);
    assert ChatTurns(history + [h]) == ChatTurns(history);
  }

  /** A chat record adds its own pair, if any, after those of the earlier turns. */
  lemma PairsAppendChat(history: seq<Turn>, h: Turn)
    requires IsChat(h)
    ensures Pairs(CleanedTurns(ChatTurns(history + [h]))) == Pairs(CleanedTurns(ChatTurns(history))) + PairOf(Cleaned(h))
  {
    FilterSnoc(history, h, IsChat);
    var cs := CleanedTurns(ChatTurns(history + [h]));
    assert cs[..|cs| - 1] == CleanedTurns(ChatTurns(history));
  }

  /** One more turn appends its pair, if it has one. */
  lemma PairsStep(cs: seq<(string, string)>, i: nat)
    requires i < |cs|
    ensures Pairs(cs[..i + 1]) == Pairs(cs[..i]) + PairOf(cs[i])
  {
    assert cs[..i + 1][..i] == cs[..i];
  }

  /** The loop of update_summary_ephemeral that builds `pairs`. */
  method TurnPairs(chat: seq<Turn>) returns (pairs: seq<string>)
    ensures pairs == Pairs(CleanedTurns(chat))
  {
    ghost var cs := CleanedTurns(chat);
    pairs := [];
    for i := 0 to |chat|
      invariant pairs == Pairs(cs[..i])
    {
      var u := CleanText(chat[i].question);
      var a := CleanText(chat[i].answer);
      assert cs[i] == (u, a);
      PairsStep(cs, i);
      if u != "" || a != "" {
        pairs := pairs + ["USER: " + u + "\nASSISTANT: " + a];
      }
    }
    assert cs[..|chat|] == cs;
  }

  /**
   * update_summary_ephemeral: asks for one completion, and keeps the current
   * summary when that raises or cleans to nothing.
   */
  method UpdateSummary(svc: Services, history: seq<Turn>, current: string) returns (r: string)
    modifies svc.llm
    ensures svc.llm.asked == old(svc.llm.asked) + [MemoryRequest(history, current)]
    ensures r == SummaryAfter(LlmComplete(svc.llm.respond(|old(svc.llm.asked)|, MemoryRequest(history, current))), current)
  {
    var pairs := TurnPairs(ChatTurns(history));
    var recent := if pairs != [] then Join("\n\n", pairs) else "None";
    var c := svc.Complete(MemoryPrompt(CleanText(current), recent), 180, 0.0);
    if c.Err? {
      return current;
    }
    var cleaned := CleanText(c.value);
    r := if cleaned != "" then cleaned else current;
  }
}

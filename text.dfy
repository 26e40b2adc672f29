/**
 * The few operations of Python's `str` that the modelled code relies on:
 * `isspace`/`strip`/`split()`, ASCII `lower`, `startswith`/`endswith`,
 * `find`, `split(sep)`, `join`, `replace(pat, "")` and zero-padded `03d` formatting.
 */
module Text {
  import opened Common

  /** `str.isspace()` on one character; this is also what `\s` matches in a `str` pattern. */
  predicate IsSpace(c: char)
  {
    var n := c as int;
    n == 0x20 || 0x09 <= n <= 0x0D || 0x1C <= n <= 0x1F || n == 0x85 || n == 0xA0 || n == 0x1680
    || 0x2000 <= n <= 0x200A || n == 0x2028 || n == 0x2029 || n == 0x202F || n == 0x205F || n == 0x3000
  }

  predicate AllSpace(s: string)
  {
    forall k :: 0 <= k < |s| ==> IsSpace(s[k])
  }

  /** `str.lstrip()`: the suffix left after dropping leading whitespace. */
  function LStrip(s: string): (r: string)
    ensures |r| <= |s| && r == s[|s| - |r|..]
    ensures AllSpace(s[..|s| - |r|])
    ensures r == [] || !IsSpace(r[0])
  {
    if |s| > 0 && IsSpace(s[0]) then LStrip(s[1..]) else s
  }

  /** `str.rstrip()`: the prefix left after dropping trailing whitespace. */
  function RStrip(s: string): (r: string)
    ensures |r| <= |s| && r == s[..|r|]
    ensures AllSpace(s[|r|..])
    ensures r == [] || !IsSpace(r[|r| - 1])
  {
    if |s| > 0 && IsSpace(s[|s| - 1]) then RStrip(s[..|s| - 1]) else s
  }

  /** `str.strip()`. */
  function Strip(s: string): (r: string)
    ensures |r| <= |s|
    ensures r == [] || (!IsSpace(r[0]) && !IsSpace(r[|r| - 1]))
    ensures r == [] <==> AllSpace(s)
  {
    var t := RStrip(s);
    var r := LStrip(t);
    assert r == [] ==> AllSpace(s) by {
      if r == [] {
        assert s == t[..|t|] + s[|t|..];
      }
    }
    r
  }

  /** Strip removes a whitespace margin on each side: the result is the slice of `s` at this offset. */
  function StripOffset(s: string): nat
  {
    |RStrip(s)| - |Strip(s)|
  }

  lemma StripIsSlice(s: string)
    ensures StripOffset(s) + |Strip(s)| <= |s|
    ensures Strip(s) == s[StripOffset(s)..StripOffset(s) + |Strip(s)|]
  {
  }

  lemma StripNoSpace(s: string)
    requires s == [] || (!IsSpace(s[0]) && !IsSpace(s[|s| - 1]))
    ensures Strip(s) == s
  {
  }

  lemma StripIdempotent(s: string)
    ensures Strip(Strip(s)) == Strip(s)
  {
    StripNoSpace(Strip(s));
  }

  /** Stripping cannot create an occurrence of `p` that `s` does not have. */
  lemma StripKeepsAbsence(s: string, p: string)
    requires !Contains(s, p)
    ensures !Contains(Strip(s), p)
  {
    var t := Strip(s);
    var o := StripOffset(s);
    if Contains(t, p) {
      var j := Find(t, p).value;
      StripIsSlice(s);
      OccursInSlice(s, o, o + |t|, t, p, j);
    }
  }

  /** An occurrence inside a slice is an occurrence in the whole. */
  lemma OccursInSlice(s: string, a: nat, b: nat, t: string, p: string, j: nat)
    requires a <= b <= |s| && t == s[a..b] && OccursAt(t, p, j)
    ensures Contains(s, p)
  {
    forall k | 0 <= k < |p| ensures s[a + j + k] == p[k] {
      assert s[a..b][j..j + |p|][k] == p[k];
    }
    assert s[a + j..a + j + |p|] == p;
    ContainsAt(s, p, a + j);
  }

  /** Python truthiness of an optional string: present and non-empty. */
  function OrElse(o: Option<string>, default: string): string
  {
    if o.Some? && o.value != "" then o.value else default
  }

  function LowerChar(c: char): char
  {
    if 'A' <= c <= 'Z' then (c as int + 32) as char else c
  }

  /** `str.lower()`, restricted to ASCII letters. */
  function Lower(s: string): (r: string)
    ensures |r| == |s|
    ensures forall i :: 0 <= i < |s| ==> r[i] == LowerChar(s[i])
  {
    seq(|s|, i requires 0 <= i < |s| => LowerChar(s[i]))
  }

  lemma LowerConcat(a: string, b: string)
    ensures Lower(a + b) == Lower(a) + Lower(b)
  {
    assert Lower(a + b) == Lower(a) + Lower(b) by {
      forall i | 0 <= i < |a + b| ensures Lower(a + b)[i] == (Lower(a) + Lower(b))[i] {
        if i < |a| { assert (a + b)[i] == a[i]; } else { assert (a + b)[i] == b[i - |a|]; }
      }
    }
  }

  predicate StartsWith(s: string, p: string)
  {
    |p| <= |s| && s[..|p|] == p
  }

  predicate EndsWith(s: string, p: string)
  {
    |p| <= |s| && s[|s| - |p|..] == p
  }

  /** `p` occurs in `s` starting at index `k`. */
  predicate OccursAt(s: string, p: string, k: int)
  {
    0 <= k && k + |p| <= |s| && s[k..k + |p|] == p
  }

  /** `s.find(p, i)`: the first occurrence of `p` at or after `i`. */
  function FindFrom(s: string, p: string, i: nat): (r: Option<nat>)
    requires i <= |s|
    decreases |s| - i
    ensures r.Some? ==> i <= r.value && OccursAt(s, p, r.value)
    ensures r.Some? ==> forall j :: i <= j < r.value ==> !OccursAt(s, p, j)
    ensures r.None? ==> forall j :: i <= j ==> !OccursAt(s, p, j)
  {
    if i + |p| > |s| then None
    else if s[i..i + |p|] == p then Some(i)
    else FindFrom(s, p, i + 1)
  }

  function Find(s: string, p: string): Option<nat>
  {
    FindFrom(s, p, 0)
  }

  /** `p in s`. */
  predicate Contains(s: string, p: string)
  {
    Find(s, p).Some?
  }

  lemma ContainsAt(s: string, p: string, k: int)
    requires OccursAt(s, p, k)
    ensures Contains(s, p)
  {
  }

  /** A one-character pattern occurs only where that character does. */
  lemma AbsentChar(s: string, c: char)
    requires forall k :: 0 <= k < |s| ==> s[k] != c
    ensures !Contains(s, [c])
  {
    forall j | 0 <= j ensures !OccursAt(s, [c], j) {
      if j + 1 <= |s| {
        assert s[j..j + 1][0] == s[j];
      }
    }
  }

  /** `sep.join(xs)`. */
  function Join(sep: string, xs: seq<string>): string
    decreases |xs|
  {
    if |xs| == 0 then "" else if |xs| == 1 then xs[0] else xs[0] + sep + Join(sep, xs[1..])
  }

  /** `s.split(sep)` for a non-empty separator: what lies between the leftmost non-overlapping occurrences. */
  function SplitOn(s: string, sep: string): (r: seq<string>)
    requires |sep| > 0
    decreases |s|
    ensures |r| >= 1
    ensures Join(sep, r) == s
    ensures forall i :: 0 <= i < |r| ==> !Contains(r[i], sep)
  {
    match Find(s, sep)
    case None => [s]
    case Some(k) =>
      var head := s[..k];
      var rest := SplitOn(s[k + |sep|..], sep);
      assert !Contains(head, sep) by {
        if Contains(head, sep) {
          var j := Find(head, sep).value;
          assert head[j..j + |sep|] == s[j..j + |sep|];
          assert OccursAt(s, sep, j);
        }
      }
      assert s == head + sep + s[k + |sep|..];
      [head] + rest
  }

  /** Splitting a join on a one-character separator that none of the parts contains gives the parts back. */
  lemma {:induction false} SplitOfJoin(sep: string, xs: seq<string>)
    requires |sep| == 1 && |xs| >= 1
    requires forall i :: 0 <= i < |xs| ==> !Contains(xs[i], sep)
    ensures SplitOn(Join(sep, xs), sep) == xs
    decreases |xs|
  {
    var x := xs[0];
    if |xs| == 1 {
      assert Find(x, sep).None?;
    } else {
      var tail := xs[1..];
      var s := Join(sep, xs);
      assert s == x + sep + Join(sep, tail);
      assert OccursAt(s, sep, |x|);
      forall j | 0 <= j < |x| ensures !OccursAt(s, sep, j) {
        if OccursAt(s, sep, j) {
          assert x[j..j + 1] == s[j..j + 1];
          ContainsAt(x, sep, j);
        }
      }
      assert Find(s, sep) == Some(|x|);
      assert s[|x| + 1..] == Join(sep, tail);
      SplitOfJoin(sep, tail);
    }
  }

  /** `s.replace(pat, "")`: delete the leftmost non-overlapping occurrences of `pat`. */
  function RemoveAll(s: string, pat: string): (r: string)
    requires |pat| > 0
    decreases |s|
    ensures |r| <= |s|
  {
    match Find(s, pat)
    case None => s
    case Some(k) => s[..k] + RemoveAll(s[k + |pat|..], pat)
  }

  /** A token of `str.split()`: non-empty and free of whitespace. */
  predicate IsWord(w: string)
  {
    |w| > 0 && forall k :: 0 <= k < |w| ==> !IsSpace(w[k])
  }

  /** Length of the leading run of non-whitespace characters. */
  function WordLen(s: string): (n: nat)
    ensures n <= |s|
    ensures forall k :: 0 <= k < n ==> !IsSpace(s[k])
    ensures n < |s| ==> IsSpace(s[n])
  {
    if |s| == 0 || IsSpace(s[0]) then 0 else 1 + WordLen(s[1..])
  }

  /** `s.split()` with no argument: the maximal whitespace-free runs, left to right. */
  function Words(s: string): (r: seq<string>)
    decreases |s|
    ensures AllWords(r)
  {
    var t := LStrip(s);
    if t == [] then [] else
      var n := WordLen(t);
      var rest := Words(t[n..]);
      WordAtHead(t);
      AllWordsCons(t[..n], rest);
      [t[..n]] + rest
  }

  predicate AllWords(ws: seq<string>)
  {
    forall i :: 0 <= i < |ws| ==> IsWord(ws[i])
  }

  /** A string that does not start with whitespace starts with a word. */
  lemma WordAtHead(t: string)
    requires t != [] && !IsSpace(t[0])
    ensures IsWord(t[..WordLen(t)])
  {
  }

  lemma AllWordsCons(w: string, ws: seq<string>)
    requires IsWord(w) && AllWords(ws)
    ensures AllWords([w] + ws)
  {
    assert forall i :: 0 < i < |ws| + 1 ==> ([w] + ws)[i] == ws[i - 1];
  }

  lemma {:induction false} WordsOfJoin(ws: seq<string>)
    requires forall i :: 0 <= i < |ws| ==> IsWord(ws[i])
    ensures Words(Join(" ", ws)) == ws
    decreases |ws|
  {
    if |ws| == 1 {
      WordsCons(ws[0], "");
      assert ws[0] + "" == ws[0];
    } else if |ws| > 1 {
      WordsOfJoin(ws[1..]);
      WordsJoinStep(ws[0], ws[1..]);
      assert [ws[0]] + ws[1..] == ws;
    }
  }

  lemma WordsJoinStep(w: string, tail: seq<string>)
    requires IsWord(w) && |tail| >= 1
    ensures Words(Join(" ", [w] + tail)) == [w] + Words(Join(" ", tail))
  {
    var rest := Join(" ", tail);
    JoinCons(" ", w, tail);
    assert Words(w + (" " + rest)) == [w] + Words(" " + rest) by {
      WordsCons(w, " " + rest);
    }
    assert Words(" " + rest) == Words(rest) by {
      WordsAfterSpace(rest);
    }
  }

  lemma JoinCons(sep: string, x: string, xs: seq<string>)
    requires |xs| >= 1
    ensures Join(sep, [x] + xs) == x + (sep + Join(sep, xs))
  {
    assert ([x] + xs)[1..] == xs;
    assert x + sep + Join(sep, xs) == x + (sep + Join(sep, xs));
  }

  /** A word followed by whitespace (or nothing) is split off as the first token. */
  lemma WordsCons(w: string, tail: string)
    requires IsWord(w)
    requires tail == [] || IsSpace(tail[0])
    ensures Words(w + tail) == [w] + Words(tail)
  {
    var s := w + tail;
    assert LStrip(s) == s;
    WordLenPrefix(w, tail);
    assert s[..|w|] == w;
    assert s[|w|..] == tail;
  }

  lemma WordsAfterSpace(x: string)
    ensures Words(" " + x) == Words(x)
  {
    assert (" " + x)[1..] == x;
    assert LStrip(" " + x) == LStrip(x);
  }

  lemma {:induction false} WordLenPrefix(w: string, tail: string)
    requires forall k :: 0 <= k < |w| ==> !IsSpace(w[k])
    requires tail == [] || IsSpace(tail[0])
    ensures WordLen(w + tail) == |w|
    decreases |w|
  {
    if |w| > 0 {
      assert (w + tail)[1..] == w[1..] + tail;
      WordLenPrefix(w[1..], tail);
    }
  }

  function DigitChar(d: nat): char
    requires d < 10
  {
    ('0' as int + d) as char
  }

  predicate IsDigits(s: string)
  {
    forall k :: 0 <= k < |s| ==> '0' <= s[k] <= '9'
  }

  /** `str(n)` for a natural number. */
  function Decimal(n: nat): (r: string)
    ensures |r| >= 1 && IsDigits(r)
  {
    if n < 10 then [DigitChar(n)] else Decimal(n / 10) + [DigitChar(n % 10)]
  }

  /** `f"{n:03d}"` for a natural number: zero-padded to at least three digits. */
  function Pad3(n: nat): (r: string)
    ensures |r| >= 3 && IsDigits(r)
  {
    var d := Decimal(n);
    if |d| >= 3 then d else seq(3 - |d|, _ => '0') + d
  }

  /** `int(s)` for a string of digits, leading zeros allowed. */
  function DigitsValue(s: string): nat
    requires IsDigits(s)
    decreases |s|
  {
    if s == [] then 0 else DigitsValue(s[..|s| - 1]) * 10 + (s[|s| - 1] as int - '0' as int)
  }

  /** `int(str(n)) == n`. */
  lemma {:induction false} DecimalValue(n: nat)
    ensures DigitsValue(Decimal(n)) == n
    decreases n
  {
    if n >= 10 {
      DecimalValue(n / 10);
      var d := Decimal(n);
      assert d[..|d| - 1] == Decimal(n / 10);
    }
  }

  /** Leading zeros do not change the value. */
  lemma {:induction false} ZerosValue(z: string, d: string)
    requires forall k :: 0 <= k < |z| ==> z[k] == '0'
    requires IsDigits(d)
    ensures IsDigits(z + d) && DigitsValue(z + d) == DigitsValue(d)
    decreases |d|
  {
    if d == [] {
      assert z + d == z;
      ZerosOnly(z);
    } else {
      var n := |d| - 1;
      assert (z + d)[..|z + d| - 1] == z + d[..n];
      ZerosValue(z, d[..n]);
    }
  }

  lemma {:induction false} ZerosOnly(z: string)
    requires forall k :: 0 <= k < |z| ==> z[k] == '0'
    ensures IsDigits(z) && DigitsValue(z) == 0
    decreases |z|
  {
    if z != [] {
      ZerosOnly(z[..|z| - 1]);
    }
  }

  /** `int(f"{n:03d}") == n`: the padded string stands for n. */
  lemma Pad3Value(n: nat)
    ensures DigitsValue(Pad3(n)) == n
  {
    DecimalValue(n);
    var d := Decimal(n);
    if |d| < 3 {
      ZerosValue(seq(3 - |d|, _ => '0'), d);
    }
  }

  /** Distinct numbers are padded to distinct strings. */
  lemma Pad3Injective(n: nat, m: nat)
    ensures Pad3(n) == Pad3(m) ==> n == m
  {
    Pad3Value(n);
    Pad3Value(m);
  }
  /** A join begins with its first part. */
  lemma JoinStarts(sep: string, xs: seq<string>)
    requires |xs| >= 1
    ensures StartsWith(Join(sep, xs), xs[0])
  {
    if |xs| > 1 {
      var j := Join(sep, xs);
      assert j == xs[0] + (sep + Join(sep, xs[1..]));
      assert j[..|xs[0]|] == xs[0];
    }
  }

  /** Lower-casing keeps prefixes. */
  lemma LowerPrefix(s: string, t: string)
    requires StartsWith(s, t)
    ensures StartsWith(Lower(s), Lower(t))
  {
    forall i | 0 <= i < |t| ensures Lower(s)[i] == Lower(t)[i] {
      assert s[i] == t[i];
    }
    assert Lower(s)[..|t|] == Lower(t);
  }

  /** `"".join(parts[:n])`. */
  function Concat(parts: seq<string>, n: nat): string
    requires n <= |parts|
  {
    if n == 0 then "" else Concat(parts, n - 1) + parts[n - 1]
  }

  /** Joining fewer parts gives a prefix of joining more. */
  lemma {:induction false} ConcatMono(parts: seq<string>, k: nat, n: nat)
    requires k <= n <= |parts|
    ensures StartsWith(Concat(parts, n), Concat(parts, k))
    decreases n
  {
    if k == n {
      assert Concat(parts, n)[..|Concat(parts, k)|] == Concat(parts, k);
    } else {
      ConcatMono(parts, k, n - 1);
      StartsWithAppend(Concat(parts, n - 1), parts[n - 1]);
      StartsWithTrans(Concat(parts, n), Concat(parts, n - 1), Concat(parts, k));
    }
  }

  /** Appending a string that ends with `p` gives a string that ends with `p`. */
  lemma EndsWithAppend(s: string, t: string, p: string)
    requires EndsWith(t, p)
    ensures EndsWith(s + t, p)
  {
    assert (s + t)[|s + t| - |p|..] == t[|t| - |p|..];
  }

  /** A string begins every string it is a prefix of. */
  lemma StartsWithAppend(s: string, t: string)
    ensures StartsWith(s + t, s)
  {
    assert (s + t)[..|s|] == s;
  }

  lemma StartsWithTrans(s: string, t: string, u: string)
    requires StartsWith(s, t) && StartsWith(t, u)
    ensures StartsWith(s, u)
  {
    assert s[..|u|] == t[..|u|];
  }
}

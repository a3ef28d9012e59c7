/**
 * The few pieces of Python's `str` behaviour the converter relies on:
 * `in`, `split(sep)`, `split()`, `lower()`, `str(int)`, `int(...)` and
 * `float(...)`, each restricted to what the converter feeds them.
 */
module Text {
  import opened Wrappers

  // ---------------------------------------------------------------------------
  // Substring search: `pat in s` and `s.find(pat)`
  // ---------------------------------------------------------------------------

  predicate OccursAt(s: string, pat: string, j: int)
  {
    0 <= j && j + |pat| <= |s| && s[j..j + |pat|] == pat
  }

  /** Position of the leftmost occurrence of `pat` at or after `from`. */
  function IndexFrom(s: string, pat: string, from: nat): (r: Option<nat>)
    requires from <= |s|
    ensures r.Some? ==> from <= r.value && OccursAt(s, pat, r.value)
    ensures r.Some? ==> forall j :: from <= j < r.value ==> !OccursAt(s, pat, j)
    ensures r.None? ==> forall j :: from <= j <= |s| ==> !OccursAt(s, pat, j)
    decreases |s| - from
  {
    if OccursAt(s, pat, from) then Some(from)
    else if from == |s| then None
    else IndexFrom(s, pat, from + 1)
  }

  /** `s.find(pat)`: the leftmost occurrence, or None for Python's -1. */
  function IndexOf(s: string, pat: string): (r: Option<nat>)
    ensures r.Some? ==> OccursAt(s, pat, r.value)
    ensures r.Some? ==> forall j :: 0 <= j < r.value ==> !OccursAt(s, pat, j)
    ensures r.None? ==> forall j :: 0 <= j <= |s| ==> !OccursAt(s, pat, j)
  {
    IndexFrom(s, pat, 0)
  }

  /** Python's `pat in s`. */
  predicate Contains(s: string, pat: string)
  {
    IndexOf(s, pat).Some?
  }

  /** `pat in s` holds exactly when `pat` occurs somewhere in `s`. */
  lemma ContainsExactly(s: string, pat: string)
    ensures Contains(s, pat) <==> exists j :: 0 <= j <= |s| && OccursAt(s, pat, j)
  {
  }

  lemma ContainsAt(s: string, pat: string, j: int)
    requires OccursAt(s, pat, j)
    ensures Contains(s, pat)
  {
  }

  // ---------------------------------------------------------------------------
  // `s.split(sep)` with a non-empty separator, and its inverse `sep.join(parts)`
  // ---------------------------------------------------------------------------

  function Join(parts: seq<string>, sep: string): string
    requires |parts| >= 1
  {
    if |parts| == 1 then parts[0] else parts[0] + sep + Join(parts[1..], sep)
  }

  /**
   * Python's `s.split(sep)`: cut at every leftmost, non-overlapping occurrence
   * of `sep`. Joining the parts back gives `s`, and no part holds `sep`.
   */
  function Split(s: string, sep: string): (parts: seq<string>)
    requires sep != []
    ensures |parts| >= 1
    ensures Join(parts, sep) == s
    ensures forall k :: 0 <= k < |parts| ==> !Contains(parts[k], sep)
    ensures Contains(s, sep) <==> |parts| >= 2
    decreases |s|
  {
    match IndexOf(s, sep)
    case None => [s]
    case Some(i) =>
      var head, rest := s[..i], s[i + |sep|..];
      NoEarlierOccurrence(s, sep, i);
      ContainsAt(s, sep, i);
      [head] + Split(rest, sep)
  }

  /** The text before the leftmost occurrence of `sep` holds no occurrence of it. */
  lemma NoEarlierOccurrence(s: string, sep: string, i: nat)
    requires sep != [] && IndexOf(s, sep) == Some(i)
    ensures !Contains(s[..i], sep)
  {
    var head := s[..i];
    forall j | 0 <= j <= |head|
      ensures !OccursAt(head, sep, j)
    {
      if j + |sep| <= |head| {
        assert head[j..j + |sep|] == s[j..j + |sep|];
        assert j < i && !OccursAt(s, sep, j);
      }
    }
  }

  /** Splitting at a one-character separator that the head does not hold. */
  lemma SplitAtChar(head: string, sep: string, rest: string)
    requires |sep| == 1 && sep[0] !in head
    ensures Split(head + (sep + rest), sep) == [head] + Split(rest, sep)
  {
    var s := head + (sep + rest);
    assert s[|head|..|head| + 1] == sep;
    assert OccursAt(s, sep, |head|);
    forall j | 0 <= j < |head|
      ensures !OccursAt(s, sep, j)
    {
      assert s[j..j + 1] == [head[j]];
    }
    assert IndexOf(s, sep) == Some(|head|);
    assert s[..|head|] == head;
    assert s[|head| + 1..] == rest;
  }

  /** A string without the one-character separator splits into itself alone. */
  lemma SplitNoChar(s: string, sep: string)
    requires |sep| == 1 && sep[0] !in s
    ensures Split(s, sep) == [s]
  {
    forall j | 0 <= j <= |s|
      ensures !OccursAt(s, sep, j)
    {
      if j < |s| {
        assert s[j..j + 1] == [s[j]];
      }
    }
  }

  // ---------------------------------------------------------------------------
  // `s.split()[0]`: the first whitespace-delimited word
  // ---------------------------------------------------------------------------

  /** The characters Python's `str.split()` treats as whitespace. */
  predicate IsSpace(c: char)
  {
    c == ' ' || ('\t' <= c <= '\r') || ('\U{1C}' <= c <= '\U{1F}')
    || c == '\U{85}' || c == '\U{A0}' || c == '\U{1680}'
    || ('\U{2000}' <= c <= '\U{200A}') || c == '\U{2028}' || c == '\U{2029}'
    || c == '\U{202F}' || c == '\U{205F}' || c == '\U{3000}'
  }

  predicate AllSpace(s: string)
  {
    forall i :: 0 <= i < |s| ==> IsSpace(s[i])
  }

  predicate NoSpace(s: string)
  {
    forall i :: 0 <= i < |s| ==> !IsSpace(s[i])
  }

  /** The longest run of non-space characters at the head of `s`. */
  function LeadingWord(s: string): (w: string)
    ensures |w| <= |s| && w == s[..|w|] && NoSpace(w)
    ensures |w| == |s| || IsSpace(s[|w|])
  {
    if s == [] || IsSpace(s[0]) then [] else [s[0]] + LeadingWord(s[1..])
  }

  /** Number of whitespace characters at the head of `s`. */
  function LeadingSpaces(s: string): (k: nat)
    ensures k <= |s| && AllSpace(s[..k])
    ensures k == |s| || !IsSpace(s[k])
  {
    if s != [] && IsSpace(s[0]) then
      var k := 1 + LeadingSpaces(s[1..]);
      assert s[..k] == [s[0]] + s[1..][..k - 1];
      k
    else 0
  }

  /**
   * `s.split()[0]`; None stands for the IndexError raised when `s` holds only
   * whitespace.
   */
  function FirstWord(s: string): (w: Option<string>)
    ensures w.None? <==> AllSpace(s)
    ensures w.Some? ==> w.value != [] && NoSpace(w.value)
  {
    var k := LeadingSpaces(s);
    if k == |s| then
      assert s[..k] == s;
      None
    else
      Some(LeadingWord(s[k..]))
  }

  /**
   * The first word is determined by the text: whatever run of spaces, then
   * non-empty run of non-spaces ended by a space or the end, is what
   * `split()[0]` returns.
   */
  lemma {:induction false} FirstWordIs(s: string, k: nat, n: nat)
    requires k + n <= |s| && n > 0
    requires AllSpace(s[..k]) && NoSpace(s[k..k + n])
    requires k + n == |s| || IsSpace(s[k + n])
    ensures FirstWord(s) == Some(s[k..k + n])
  {
    LeadingSpacesIs(s, k);
    assert s[k..][..n] == s[k..k + n];
    LeadingWordIs(s[k..], n);
  }

  lemma {:induction false} LeadingSpacesIs(s: string, k: nat)
    requires k < |s| && AllSpace(s[..k]) && !IsSpace(s[k])
    ensures LeadingSpaces(s) == k
  {
    if k > 0 {
      assert IsSpace(s[..k][0]);
      assert s[1..][..k - 1] == s[1..k];
      LeadingSpacesIs(s[1..], k - 1);
    }
  }

  lemma {:induction false} LeadingWordIs(s: string, n: nat)
    requires n <= |s| && NoSpace(s[..n]) && (n == |s| || IsSpace(s[n]))
    ensures LeadingWord(s) == s[..n]
  {
    if n > 0 {
      assert !IsSpace(s[..n][0]);
      assert s[1..][..n - 1] == s[1..n];
      LeadingWordIs(s[1..], n - 1);
      assert s[..n] == [s[0]] + s[1..n];
    }
  }

  // ---------------------------------------------------------------------------
  // Decimal digits: `str(int)`, `int(str)` and `float(str)` on digit strings
  // ---------------------------------------------------------------------------

  predicate IsDigit(c: char)
  {
    '0' <= c <= '9'
  }

  /** A non-empty run of ASCII decimal digits. */
  predicate IsDigits(s: string)
  {
    |s| > 0 && forall i :: 0 <= i < |s| ==> IsDigit(s[i])
  }

  function DigitValue(c: char): nat
    requires IsDigit(c)
  {
    (c as int - '0' as int) as nat
  }

  function DigitChar(d: nat): (c: char)
    requires d < 10
    ensures IsDigit(c) && DigitValue(c) == d
  {
    ('0' as int + d) as char
  }

  /** The number a digit string denotes (leading zeros allowed, as `int()` does). */
  function DigitsValue(s: string): nat
    requires forall i :: 0 <= i < |s| ==> IsDigit(s[i])
  {
    if s == [] then 0 else DigitsValue(s[..|s| - 1]) * 10 + DigitValue(s[|s| - 1])
  }

  /** The value of a two-digit string. */
  lemma TwoDigitsValue(s: string)
    requires |s| == 2 && IsDigit(s[0]) && IsDigit(s[1])
    ensures DigitsValue(s) == DigitValue(s[0]) * 10 + DigitValue(s[1])
  {
    var first := s[..1];
    assert first == [s[0]] && first[..0] == [];
    assert DigitsValue(first) == DigitValue(s[0]);
    assert s[..|s| - 1] == first;
  }

  /** `str(n)` for a natural number: no leading zeros. */
  function NatToDigits(n: nat): (s: string)
    ensures IsDigits(s)
    ensures |s| > 1 ==> s[0] != '0'
  {
    if n < 10 then [DigitChar(n)] else NatToDigits(n / 10) + [DigitChar(n % 10)]
  }

  /** `str(i)` for a Python int. */
  function IntToDecimal(i: int): (s: string)
    ensures s != [] && (s[0] == '-' <==> i < 0)
  {
    if i < 0 then "-" + NatToDigits(-i) else NatToDigits(i)
  }

  /** `int(s)` on unsigned digit strings; None stands for the ValueError. */
  function ParseNat(s: string): Option<nat>
  {
    if IsDigits(s) then Some(DigitsValue(s)) else None
  }

  /** `int(s)` on an optionally negative digit string. */
  function ParseInt(s: string): Option<int>
  {
    if |s| > 0 && s[0] == '-' then
      match ParseNat(s[1..])
      case Some(n) => Some(-(n as int))
      case None => None
    else
      match ParseNat(s)
      case Some(n) => Some(n as int)
      case None => None
  }

  lemma {:induction false} NatDigitsRoundTrip(n: nat)
    ensures DigitsValue(NatToDigits(n)) == n
  {
    if n >= 10 {
      var s := NatToDigits(n);
      assert s[..|s| - 1] == NatToDigits(n / 10);
      NatDigitsRoundTrip(n / 10);
    }
  }

  /** `int(str(i)) == i`: the decimal text of an integer reads back as that integer. */
  lemma IntDecimalRoundTrip(i: int)
    ensures ParseInt(IntToDecimal(i)) == Some(i)
  {
    if i < 0 {
      assert IntToDecimal(i)[1..] == NatToDigits(-i);
      NatDigitsRoundTrip(-i);
    } else {
      NatDigitsRoundTrip(i);
    }
  }

  /**
   * `float(s)` on the seconds field: digits with an optional `.digits`
   * fraction, read as the exact decimal value.
   */
  function ParseDecimal(s: string): (v: Option<real>)
    ensures v.Some? ==> v.value >= 0.0
  {
    if IsDigits(s) then Some(DigitsValue(s) as real)
    else match IndexOf(s, ".")
    case None => None
    case Some(i) =>
      var whole, frac := s[..i], s[i + 1..];
      if IsDigits(whole) && IsDigits(frac) then
        Some(DigitsValue(whole) as real + FractionValue(frac))
      else None
  }

  /**
   * The value of the digits after the decimal point, `0.d1d2...`: "50" is one
   * half. Each digit weighs a tenth of the one before it.
   */
  function FractionValue(frac: string): (v: real)
    requires forall i :: 0 <= i < |frac| ==> IsDigit(frac[i])
    ensures 0.0 <= v < 1.0
  {
    if frac == [] then 0.0 else (DigitValue(frac[0]) as real + FractionValue(frac[1..])) / 10.0
  }

  /** In `whole.frac` with a digit string before the dot, that dot is the first one. */
  lemma FirstDot(whole: string, frac: string)
    requires IsDigits(whole)
    ensures IndexOf(whole + ("." + frac), ".") == Some(|whole|)
    ensures !IsDigits(whole + ("." + frac))
  {
    var s := whole + ("." + frac);
    assert OccursAt(s, ".", |whole|);
    forall j | 0 <= j < |whole|
      ensures !OccursAt(s, ".", j)
    {
      assert s[j..j + 1] == [whole[j]];
    }
    assert s[|whole|] == '.';
  }

  /** A string that is not all digits is read around its first dot. */
  lemma DecimalAtDot(s: string, i: nat)
    requires !IsDigits(s) && IndexOf(s, ".") == Some(i)
    requires IsDigits(s[..i]) && IsDigits(s[i + 1..])
    ensures ParseDecimal(s) == Some(DigitsValue(s[..i]) as real + FractionValue(s[i + 1..]))
  {
  }

  /** The value of `whole.frac` when both are digit strings. */
  lemma DecimalValue(whole: string, frac: string)
    requires IsDigits(whole) && IsDigits(frac)
    ensures ParseDecimal(whole + ("." + frac))
         == Some(DigitsValue(whole) as real + FractionValue(frac))
  {
    var s := whole + ("." + frac);
    FirstDot(whole, frac);
    DotParts(whole, frac);
    DecimalAtDot(s, |whole|);
  }

  /** The two sides of the dot in `whole.frac`. */
  lemma DotParts(whole: string, frac: string)
    ensures (whole + ("." + frac))[..|whole|] == whole
    ensures (whole + ("." + frac))[|whole| + 1..] == frac
  {
  }

  // ---------------------------------------------------------------------------
  // `answer.lower() != 'y'`
  // ---------------------------------------------------------------------------

  function LowerChar(c: char): char
  {
    if 'A' <= c <= 'Z' then (c as int - 'A' as int + 'a' as int) as char else c
  }

  /** `s.lower()` on ASCII letters; every other character is kept. */
  function Lower(s: string): (r: string)
    ensures |r| == |s|
    ensures forall i :: 0 <= i < |s| ==> r[i] == LowerChar(s[i])
  {
    if s == [] then [] else [LowerChar(s[0])] + Lower(s[1..])
  }

  /** The reply to a `[y/N]` prompt counts as yes only when it lower-cases to "y". */
  predicate Affirmative(answer: string)
  {
    Lower(answer) == "y"
  }

  /** Exactly two replies are taken as yes: "y" and "Y". */
  lemma AffirmativeAnswers(answer: string)
    ensures Affirmative(answer) <==> answer == "y" || answer == "Y"
  {
    if Affirmative(answer) {
      assert |answer| == 1;
      assert LowerChar(answer[0]) == 'y';
      assert answer == [answer[0]];
    }
    if answer == "Y" {
      assert Lower(answer) == [LowerChar('Y')];
    }
  }
}

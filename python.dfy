/**
 * The few Python built-ins the fan entity relies on: `int(s)` on a string,
 * `s.lower()`, subscription of a list with a possibly negative index, and
 * `list.index(x)`. Only the ASCII part of Python's character tables is modelled.
 */
module Python {
  import opened Wrappers

  /** `s.index(x)`: the position of the first occurrence of `x` in `s`. */
  function Index<T(==)>(s: seq<T>, x: T): (i: nat)
    requires x in s
    ensures i < |s| && s[i] == x
    ensures forall j :: 0 <= j < i ==> s[j] != x
  {
    if s[0] == x then 0 else 1 + Index(s[1..], x)
  }

  /**
   * `s[i]` on a Python list: a negative `i` counts from the end, and `None`
   * stands for the `IndexError` raised outside `-len(s) <= i < len(s)`.
   */
  function At<T>(s: seq<T>, i: int): (r: Option<T>)
    ensures r.Some? <==> -|s| <= i < |s|
    ensures r.Some? ==> r.value == s[i % |s|]
  {
    if 0 <= i < |s| then Some(s[i])
    else if -|s| <= i < 0 then Some(s[|s| + i])
    else None
  }

  function LowerChar(c: char): char {
    if 'A' <= c <= 'Z' then (c as int + 32) as char else c
  }

  /**
   * `s.lower()`, for ASCII letters: the result has no upper-case letter and
   * differs from `s` only where `s` has an upper-case letter, which becomes
   * its lower-case form.
   */
  function Lower(s: string): (r: string)
    ensures |r| == |s|
    ensures forall i :: 0 <= i < |r| ==> !('A' <= r[i] <= 'Z')
    ensures forall i :: 0 <= i < |r| ==>
      if 'A' <= s[i] <= 'Z' then r[i] as int == s[i] as int + 32 else r[i] == s[i]
  {
    seq(|s|, i requires 0 <= i < |s| => LowerChar(s[i]))
  }

  /** The payloads whose lower-cased form is "on" are exactly the four spellings of "on". */
  lemma LowerIsOn(s: string)
    ensures Lower(s) == "on" <==> s == "on" || s == "oN" || s == "On" || s == "ON"
  {
  }

  /**
   * The characters `int()` strips from both ends of a string that are ASCII:
   * tab, line feed, vertical tab, form feed, carriage return and space.
   */
  predicate IsSpace(c: char) {
    9 <= c as int <= 13 || c == ' '
  }

  /** The number of white-space characters in front of `s`, as `lstrip()` drops them. */
  function LeadingSpaces(s: string): (k: nat)
    ensures k <= |s|
    ensures forall i :: 0 <= i < k ==> IsSpace(s[i])
    ensures k == |s| || !IsSpace(s[k])
  {
    if |s| > 0 && IsSpace(s[0]) then
      var k := 1 + LeadingSpaces(s[1..]);
      assert forall i :: 1 <= i < k ==> s[i] == s[1..][i - 1];
      k
    else 0
  }

  /**
   * Where `s[start..end]` ends once trailing white space is dropped, as
   * `rstrip()` drops it.
   */
  function TrailingStart(s: string, start: nat, end: nat): (e: nat)
    requires start <= end <= |s|
    ensures start <= e <= end
    ensures forall i :: e <= i < end ==> IsSpace(s[i])
    ensures e == start || !IsSpace(s[e - 1])
    decreases end
  {
    if end > start && IsSpace(s[end - 1]) then TrailingStart(s, start, end - 1) else end
  }

  /** The stripping `int()` does before it reads digits. */
  function Strip(s: string): string {
    var start := LeadingSpaces(s);
    s[start..TrailingStart(s, start, |s|)]
  }

  /**
   * What stripping keeps: the contiguous part of `s` past its leading white
   * space, which neither starts nor ends with white space, and outside which
   * lies only white space.
   */
  lemma StripParts(s: string)
    ensures var r, a := Strip(s), LeadingSpaces(s);
      && (r == [] || (!IsSpace(r[0]) && !IsSpace(r[|r| - 1])))
      && a + |r| <= |s| && r == s[a..a + |r|]
      && forall i :: 0 <= i < |s| && !IsSpace(s[i]) ==> a <= i < a + |r|
  {
  }

  predicate IsDigit(c: char) {
    '0' <= c <= '9'
  }

  /**
   * The digits of a base-10 literal as `int()` accepts them: at least one
   * digit, digits and underscores only, no underscore at either end and
   * never two underscores in a row.
   */
  predicate IsDigitRun(s: string) {
    && |s| > 0
    && IsDigit(s[0])
    && IsDigit(s[|s| - 1])
    && (forall i :: 0 <= i < |s| ==> IsDigit(s[i]) || s[i] == '_')
    && (forall i :: 0 <= i < |s| - 1 ==> s[i] == '_' ==> s[i + 1] != '_')
  }

  /** The number a run of digits denotes, underscores ignored. */
  function DigitsValue(s: string): nat {
    if s == [] then 0
    else
      var c := s[|s| - 1];
      if IsDigit(c) then DigitsValue(s[..|s| - 1]) * 10 + (c as int - '0' as int)
      else DigitsValue(s[..|s| - 1])
  }

  /** The number of digits in `s`, underscores not counted. */
  function DigitCount(s: string): nat {
    if s == [] then 0
    else DigitCount(s[..|s| - 1]) + (if IsDigit(s[|s| - 1]) then 1 else 0)
  }

  /**
   * The longest literal `int()` converts: the interpreter's default for
   * `sys.get_int_max_str_digits()`.
   */
  const MAX_STR_DIGITS: nat := 4300

  /** A digit run `int()` converts: not longer than the digit limit. */
  predicate IsConvertible(s: string) {
    IsDigitRun(s) && DigitCount(s) <= MAX_STR_DIGITS
  }

  /**
   * `int(s)` for a string `s` in base 10: surrounding white space is ignored,
   * one sign is allowed, and `None` stands for the `ValueError` raised on
   * anything else and on literals longer than the digit limit. A string that
   * parses holds only white space, digits, underscores and signs, and at
   * least one digit.
   */
  function ParseInt(s: string): (r: Option<int>)
    ensures r.Some? ==> forall i :: 0 <= i < |s| ==>
      IsSpace(s[i]) || IsDigit(s[i]) || s[i] == '_' || s[i] == '+' || s[i] == '-'
    ensures r.Some? ==> exists i :: 0 <= i < |s| && IsDigit(s[i])
  {
    ParsedCharacters(s);
    ParseLiteral(Strip(s))
  }

  /** The conversion of a stripped literal: an optional sign, then a convertible digit run. */
  function ParseLiteral(t: string): Option<int> {
    if |t| > 0 && (t[0] == '+' || t[0] == '-') then
      if IsConvertible(t[1..]) then
        var magnitude: int := DigitsValue(t[1..]);
        Some(if t[0] == '-' then -magnitude else magnitude)
      else None
    else if IsConvertible(t) then Some(DigitsValue(t))
    else None
  }

  lemma ParsedCharacters(s: string)
    ensures ParseLiteral(Strip(s)).Some? ==> forall i :: 0 <= i < |s| ==>
      IsSpace(s[i]) || IsDigit(s[i]) || s[i] == '_' || s[i] == '+' || s[i] == '-'
    ensures ParseLiteral(Strip(s)).Some? ==> exists i :: 0 <= i < |s| && IsDigit(s[i])
  {
  }

  function DigitChar(d: nat): char
    requires d < 10
  {
    ('0' as int + d) as char
  }

  /** `str(n)` for a natural number. */
  function ShowNat(n: nat): string {
    if n < 10 then [DigitChar(n)] else ShowNat(n / 10) + [DigitChar(n % 10)]
  }

  /** `str(n)` for an integer. */
  function Show(n: int): string {
    if n < 0 then "-" + ShowNat(-n) else ShowNat(n)
  }

  lemma {:induction false} ShowNatDigits(n: nat)
    ensures |ShowNat(n)| > 0
    ensures forall i :: 0 <= i < |ShowNat(n)| ==> IsDigit(ShowNat(n)[i])
    ensures DigitsValue(ShowNat(n)) == n
    ensures DigitCount(ShowNat(n)) == |ShowNat(n)|
  {
    if n >= 10 {
      ShowNatDigits(n / 10);
      var s := ShowNat(n);
      assert s[..|s| - 1] == ShowNat(n / 10);
    }
  }

  /** The decimal form of an integer is a digit run, after a minus sign when negative. */
  lemma ShowShape(n: int)
    ensures var s := Show(n); |s| > 0 && !IsSpace(s[0]) && !IsSpace(s[|s| - 1])
    ensures n < 0 ==> Show(n)[0] == '-' && Show(n)[1..] == ShowNat(-n)
    ensures n >= 0 ==> Show(n) == ShowNat(n)
    ensures var m := if n < 0 then -n else n;
      IsDigitRun(ShowNat(m)) && DigitsValue(ShowNat(m)) == m && DigitCount(ShowNat(m)) == |ShowNat(m)|
  {
    var m := if n < 0 then -n else n;
    ShowNatDigits(m);
    if n < 0 {
      assert Show(n)[1..] == ShowNat(m);
    }
  }

  /**
   * `int(str(n)) == n`: the decimal form of every integer parses back to it,
   * unless it has more digits than the limit, when `int()` refuses it.
   */
  lemma ParseShow(n: int)
    ensures ParseInt(Show(n)) ==
      if |ShowNat(if n < 0 then -n else n)| <= MAX_STR_DIGITS then Some(n) else None
  {
    ShowShape(n);
    var s := Show(n);
    var m := if n < 0 then -n else n;
    var digits := ShowNat(m);
    StripUnpadded(s);
    assert ParseInt(s) == ParseLiteral(s);
    assert IsConvertible(digits) <==> |digits| <= MAX_STR_DIGITS;
    if n < 0 {
      assert s[0] == '-' && s[1..] == digits;
    } else {
      assert s == digits;
      assert IsDigit(s[0]);
    }
  }

  /** A string that neither starts nor ends with white space is its own stripped form. */
  lemma StripUnpadded(s: string)
    requires s == [] || (!IsSpace(s[0]) && !IsSpace(s[|s| - 1]))
    ensures Strip(s) == s
  {
  }

  /**
   * White space around a payload (a trailing newline, say) does not change
   * how it parses, when the payload itself neither starts nor ends with it.
   */
  lemma ParsePadded(before: string, s: string, after: string)
    requires forall i :: 0 <= i < |before| ==> IsSpace(before[i])
    requires forall i :: 0 <= i < |after| ==> IsSpace(after[i])
    requires s == [] || (!IsSpace(s[0]) && !IsSpace(s[|s| - 1]))
    ensures ParseInt(before + s + after) == ParseInt(s)
  {
    var p := before + s + after;
    var a := LeadingSpaces(p);
    var e := TrailingStart(p, a, |p|);
    if s == [] {
      assert forall i :: 0 <= i < |p| ==> IsSpace(p[i]);
      assert Strip(p) == [];
    } else {
      assert p[|before|] == s[0] && p[|before| + |s| - 1] == s[|s| - 1];
      assert a == |before|;
      assert e == |before| + |s|;
      assert p[a..e] == s;
    }
    StripUnpadded(s);
    assert Strip(p) == Strip(s);
  }
}

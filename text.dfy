/**
 * The few Python string built-ins the bot relies on, as total functions on
 * `seq<char>`: `str.isdigit`, `int`, `str` of an integer, `str.split` on one
 * character, the substring test `in`, `str.startswith`, `str.isspace`,
 * `str.lstrip` and `str.rfind` of one character.
 */
module Text {
  import opened Wrappers

  predicate IsDigit(c: char) {
    '0' <= c <= '9'
  }

  /** `s.isdigit()`: non-empty and made of decimal digits only. */
  predicate IsDigits(s: string) {
    |s| > 0 && forall i :: 0 <= i < |s| ==> IsDigit(s[i])
  }

  function DigitValue(c: char): nat
    requires IsDigit(c)
  {
    c as int - '0' as int
  }

  function DigitChar(d: nat): (c: char)
    requires d < 10
    ensures IsDigit(c) && DigitValue(c) == d
  {
    ('0' as int + d) as char
  }

  /** The value of a string of decimal digits, most significant first. */
  function DigitsValue(s: string): nat
    requires forall i :: 0 <= i < |s| ==> IsDigit(s[i])
    decreases |s|
  {
    if s == [] then 0 else 10 * DigitsValue(s[..|s| - 1]) + DigitValue(s[|s| - 1])
  }

  /** `str(n)` for a non-negative integer: the shortest decimal spelling. */
  function NatToString(n: nat): (s: string)
    ensures IsDigits(s)
    ensures n > 0 ==> s[0] != '0'
    decreases n
  {
    if n < 10 then [DigitChar(n)] else NatToString(n / 10) + [DigitChar(n % 10)]
  }

  /** `str(n)` for any integer. */
  function IntToString(n: int): string {
    if n < 0 then "-" + NatToString(-n) else NatToString(n)
  }

  /**
   * `int(s)`: an optional sign followed by decimal digits; anything else is
   * the `ValueError` that `int` raises, here `None`.
   */
  function ParseInt(s: string): (r: Option<int>)
    ensures IsDigits(s) ==> r == Some(DigitsValue(s))
    ensures r.Some? ==> |s| > 0 && IsDigit(s[|s| - 1])
    ensures r.Some? && r.value < 0 ==> s[0] == '-'
  {
    if |s| > 0 && (s[0] == '-' || s[0] == '+') then
      if IsDigits(s[1..]) then
        var magnitude: int := DigitsValue(s[1..]);
        Some(if s[0] == '-' then -magnitude else magnitude)
      else None
    else if IsDigits(s) then Some(DigitsValue(s))
    else None
  }

  lemma {:induction false} NatToStringValue(n: nat)
    ensures DigitsValue(NatToString(n)) == n
    decreases n
  {
    if n >= 10 {
      NatToStringValue(n / 10);
      var s := NatToString(n);
      assert s[..|s| - 1] == NatToString(n / 10);
    }
  }

  /** `int(str(n)) == n` for every integer. */
  lemma IntToStringRoundTrip(n: int)
    ensures ParseInt(IntToString(n)) == Some(n)
  {
    if n < 0 {
      NatToStringValue(-n);
      assert IntToString(n)[1..] == NatToString(-n);
    } else {
      NatToStringValue(n);
    }
  }

  /** The position of the first `c` in `s`. */
  function IndexOf(s: string, c: char): (i: nat)
    requires c in s
    ensures i < |s| && s[i] == c && c !in s[..i]
    decreases |s|
  {
    if s[0] == c then 0 else 1 + IndexOf(s[1..], c)
  }

  /** `sep.join(parts)` for a one-character separator. */
  function Join(parts: seq<string>, sep: char): string
    decreases |parts|
  {
    if parts == [] then ""
    else if |parts| == 1 then parts[0]
    else parts[0] + [sep] + Join(parts[1..], sep)
  }

  /** `s.split(sep)`: never empty, no part holds `sep`, and joining the parts gives `s` back. */
  function Split(s: string, sep: char): (parts: seq<string>)
    ensures |parts| >= 1
    ensures forall i :: 0 <= i < |parts| ==> sep !in parts[i]
    ensures Join(parts, sep) == s
    decreases |s|
  {
    if sep !in s then [s]
    else
      var i := IndexOf(s, sep);
      assert s == s[..i] + [sep] + s[i + 1..];
      [s[..i]] + Split(s[i + 1..], sep)
  }

  /** `split` yields one more part than there are separators. */
  lemma {:induction false} SplitCount(s: string, sep: char)
    ensures |Split(s, sep)| == multiset(s)[sep] + 1
    decreases |s|
  {
    if sep in s {
      var i := IndexOf(s, sep);
      assert s == s[..i] + [sep] + s[i + 1..];
      assert multiset(s) == multiset(s[..i]) + multiset{sep} + multiset(s[i + 1..]);
      assert sep !in multiset(s[..i]);
      SplitCount(s[i + 1..], sep);
    } else {
      assert sep !in multiset(s);
    }
  }

  /** With exactly one `sep`, `split` cuts at it into the part before and the part after. */
  lemma SplitAtSoleSeparator(s: string, sep: char)
    ensures multiset(s)[sep] == 1 ==>
      sep in s && Split(s, sep) == [s[..IndexOf(s, sep)], s[IndexOf(s, sep) + 1..]]
  {
    if multiset(s)[sep] == 1 {
      assert sep in multiset(s);
      var i := IndexOf(s, sep);
      assert s == s[..i] + [sep] + s[i + 1..];
      assert multiset(s) == multiset(s[..i]) + multiset{sep} + multiset(s[i + 1..]);
      assert sep !in multiset(s[i + 1..]);
      assert sep !in s[i + 1..];
      assert Split(s[i + 1..], sep) == [s[i + 1..]];
      assert Split(s, sep) == [s[..i]] + Split(s[i + 1..], sep);
    }
  }

  lemma {:induction false} IndexOfJoined(a: string, sep: char, b: string)
    requires sep !in a
    ensures sep in a + [sep] + b && IndexOf(a + [sep] + b, sep) == |a|
    decreases |a|
  {
    var s := a + [sep] + b;
    assert s[|a|] == sep;
    if a != [] {
      assert s[1..] == a[1..] + [sep] + b;
      IndexOfJoined(a[1..], sep, b);
    }
  }

  /** Splitting undoes joining, as long as no part holds the separator. */
  lemma {:induction false} SplitJoin(parts: seq<string>, sep: char)
    requires |parts| >= 1
    requires forall i :: 0 <= i < |parts| ==> sep !in parts[i]
    ensures Split(Join(parts, sep), sep) == parts
    decreases |parts|
  {
    if |parts| > 1 {
      var head := parts[0];
      var rest := Join(parts[1..], sep);
      var s := head + [sep] + rest;
      assert Join(parts, sep) == s;
      IndexOfJoined(head, sep, rest);
      assert s[..|head|] == head;
      assert s[|head| + 1..] == rest;
      assert Split(s, sep) == [head] + Split(rest, sep);
      SplitJoin(parts[1..], sep);
      assert parts == [head] + parts[1..];
    }
  }

  /** `sub in s`. */
  predicate Contains(s: string, sub: string)
    decreases |s|
  {
    |sub| <= |s| && (s[..|sub|] == sub || (|s| > 0 && Contains(s[1..], sub)))
  }

  /** `s.startswith(prefix)`. */
  predicate StartsWith(s: string, prefix: string) {
    |prefix| <= |s| && s[..|prefix|] == prefix
  }

  /** `c.isspace()`: the characters Python classes as whitespace. */
  predicate IsSpace(c: char) {
    || c == ' ' || c == '\t' || c == '\n' || c == '\r'
    || c == '\U{000B}' || c == '\U{000C}'
    || ('\U{001C}' <= c <= '\U{001F}')
    || c == '\U{0085}' || c == '\U{00A0}' || c == '\U{1680}'
    || ('\U{2000}' <= c <= '\U{200A}')
    || c == '\U{2028}' || c == '\U{2029}' || c == '\U{202F}' || c == '\U{205F}' || c == '\U{3000}'
  }

  /** How many whitespace characters `s` starts with. */
  function LeadingSpace(s: string): (n: nat)
    ensures n <= |s|
    decreases |s|
  {
    if s != [] && IsSpace(s[0]) then 1 + LeadingSpace(s[1..]) else 0
  }

  /** `lstrip` cuts after exactly the leading whitespace: all of it, and nothing more. */
  lemma {:induction false} LeadingSpaceSpan(s: string)
    ensures var n := LeadingSpace(s);
      && (forall i :: 0 <= i < n ==> IsSpace(s[i]))
      && (n < |s| ==> !IsSpace(s[n]))
    decreases |s|
  {
    if s != [] && IsSpace(s[0]) {
      LeadingSpaceSpan(s[1..]);
      var n := LeadingSpace(s);
      assert forall i :: 1 <= i < n ==> s[i] == s[1..][i - 1];
    }
  }

  /** `s.lstrip()`. */
  function LStrip(s: string): string {
    s[LeadingSpace(s)..]
  }

  /** `s.rfind(c, 0, end)`: the position of `c` before `end`, or -1. */
  function RFind(s: string, c: char, end: nat): (r: int)
    requires end <= |s|
    ensures -1 <= r < end
    ensures r >= 0 ==> s[r] == c
    decreases end
  {
    if end == 0 then -1
    else if s[end - 1] == c then end - 1
    else RFind(s, c, end - 1)
  }

  /** `rfind` finds the last occurrence: none lies between its answer and `end`. */
  lemma {:induction false} RFindLast(s: string, c: char, end: nat)
    requires end <= |s|
    ensures forall i :: RFind(s, c, end) < i < end ==> s[i] != c
    decreases end
  {
    if end > 0 && s[end - 1] != c {
      RFindLast(s, c, end - 1);
    }
  }
}

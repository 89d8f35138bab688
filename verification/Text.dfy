/** The string operations that the Go and TypeScript sources share: trimming,
    lower-casing, splitting and joining, and decimal notation. */
module Text {

  datatype Option<+T> = None | Some(value: T)

  /** The white space of Go's `unicode.IsSpace`. */
  predicate IsSpace(c: char) {
    || '\t' <= c <= '\r'
    || c == ' '
    || c == '\U{85}' || c == '\U{A0}' || c == '\U{1680}'
    || '\U{2000}' <= c <= '\U{200A}'
    || c == '\U{2028}' || c == '\U{2029}' || c == '\U{202F}' || c == '\U{205F}' || c == '\U{3000}'
  }

  /** Lower case. Two letters outside ASCII (the dotted capital I and the Kelvin
      sign) have an ASCII lower case; every other one keeps out of ASCII. */
  function LowerChar(c: char): char {
    if 'A' <= c <= 'Z' then (c as int + 32) as char
    else if c == '\U{130}' then 'i'
    else if c == '\U{212A}' then 'k'
    else c
  }

  function ToLower(s: string): (r: string)
    ensures |r| == |s|
    ensures forall i :: 0 <= i < |s| ==> r[i] == LowerChar(s[i])
  {
    if s == [] then [] else [LowerChar(s[0])] + ToLower(s[1..])
  }

  predicate IsLowerText(s: string) {
    forall i :: 0 <= i < |s| ==> LowerChar(s[i]) == s[i]
  }

  lemma LowerTextIsFixed(s: string)
    requires IsLowerText(s)
    ensures ToLower(s) == s
  {
  }

  // Trimming -----------------------------------------------------------------

  function TrimLeft(s: string, cut: char -> bool): (r: string)
    ensures r == [] || !cut(r[0])
    ensures |r| <= |s| && r == s[|s| - |r|..]
    decreases |s|
  {
    if s != [] && cut(s[0]) then TrimLeft(s[1..], cut) else s
  }

  function TrimRight(s: string, cut: char -> bool): (r: string)
    ensures r == [] || !cut(r[|r| - 1])
    ensures |r| <= |s| && r == s[..|r|]
    decreases |s|
  {
    if s != [] && cut(s[|s| - 1]) then TrimRight(s[..|s| - 1], cut) else s
  }

  /** What is left starts and ends outside the cut set, and is made of characters of `s`. */
  function Trim(s: string, cut: char -> bool): (r: string)
    ensures r == [] || (!cut(r[0]) && !cut(r[|r| - 1]))
    ensures forall c :: c in r ==> c in s
  {
    TrimRight(TrimLeft(s, cut), cut)
  }

  predicate AllIn(s: string, cut: char -> bool) {
    forall i :: 0 <= i < |s| ==> cut(s[i])
  }

  lemma {:induction false} TrimLeftSkips(pad: string, s: string, cut: char -> bool)
    requires AllIn(pad, cut)
    ensures TrimLeft(pad + s, cut) == TrimLeft(s, cut)
  {
    if pad == [] {
      assert pad + s == s;
    } else {
      assert (pad + s)[1..] == pad[1..] + s;
      TrimLeftSkips(pad[1..], s, cut);
    }
  }

  lemma {:induction false} TrimRightSkips(s: string, pad: string, cut: char -> bool)
    requires AllIn(pad, cut)
    ensures TrimRight(s + pad, cut) == TrimRight(s, cut)
    decreases |pad|
  {
    if pad == [] {
      assert s + pad == s;
    } else {
      var n := |pad| - 1;
      assert (s + pad)[..|s + pad| - 1] == s + pad[..n];
      assert (s + pad)[|s + pad| - 1] == pad[n];
      TrimRightSkips(s, pad[..n], cut);
    }
  }

  /** Trimming takes exactly the padding off a text with other characters at both ends. */
  lemma TrimPadded(before: string, s: string, after: string, cut: char -> bool)
    requires AllIn(before, cut) && AllIn(after, cut)
    requires s != [] && !cut(s[0]) && !cut(s[|s| - 1])
    ensures Trim(before + s + after, cut) == s
  {
    assert before + s + after == before + (s + after);
    TrimLeftSkips(before, s + after, cut);
    assert (s + after)[0] == s[0];
    assert TrimLeft(s + after, cut) == s + after;
    TrimRightSkips(s, after, cut);
    assert TrimRight(s, cut) == s;
  }

  lemma {:induction false} TrimBlank(s: string, cut: char -> bool)
    requires AllIn(s, cut)
    ensures Trim(s, cut) == ""
  {
    TrimLeftSkips(s, "", cut);
    assert s + "" == s;
  }

  function TrimSpace(s: string): string {
    Trim(s, IsSpace)
  }

  /** Nothing is trimmed exactly when neither end is in the cut set. */
  lemma TrimFixed(s: string, cut: char -> bool)
    ensures Trim(s, cut) == s <==> s == [] || (!cut(s[0]) && !cut(s[|s| - 1]))
  {
  }

  /** Lower-case text without outer white space is its own normal form. */
  lemma PlainText(s: string)
    requires s != [] && !IsSpace(s[0]) && !IsSpace(s[|s| - 1]) && IsLowerText(s)
    ensures TrimSpace(s) == s && ToLower(s) == s
  {
    TrimFixed(s, IsSpace);
    LowerTextIsFixed(s);
  }

  /** The white space of JavaScript's `trim`. */
  predicate IsJsSpace(c: char) {
    (IsSpace(c) && c != '\U{85}') || c == '\U{FEFF}'
  }

  function JsTrim(s: string): string {
    Trim(s, IsJsSpace)
  }

  predicate StartsWith(s: string, prefix: string) {
    |prefix| <= |s| && s[..|prefix|] == prefix
  }

  predicate OccursAt(s: string, part: string, i: nat) {
    i + |part| <= |s| && s[i..i + |part|] == part
  }

  predicate Contains(s: string, part: string) {
    exists i: nat :: i <= |s| && OccursAt(s, part, i)
  }

  // Splitting and joining ------------------------------------------------------

  function Split(s: string, sep: char): (parts: seq<string>)
    ensures |parts| >= 1
    decreases |s|
  {
    if s == [] then [[]]
    else
      var rest := Split(s[1..], sep);
      if s[0] == sep then [[]] + rest else [[s[0]] + rest[0]] + rest[1..]
  }

  function Join(parts: seq<string>, sep: char): string
    requires parts != []
  {
    if |parts| == 1 then parts[0] else parts[0] + [sep] + Join(parts[1..], sep)
  }

  lemma {:induction false} SplitAtSeparator(head: string, sep: char, tail: string)
    requires sep !in head
    ensures Split(head + [sep] + tail, sep) == [head] + Split(tail, sep)
    decreases |head|
  {
    var s := head + [sep] + tail;
    if head == [] {
      assert s[1..] == tail;
    } else {
      SplitAtSeparator(head[1..], sep, tail);
      assert s[1..] == head[1..] + [sep] + tail;
      assert [head[0]] + head[1..] == head;
    }
  }

  lemma {:induction false} SplitWithoutSeparator(s: string, sep: char)
    requires sep !in s
    ensures Split(s, sep) == [s]
    decreases |s|
  {
    if s != [] {
      SplitWithoutSeparator(s[1..], sep);
      assert [s[0]] + s[1..] == s;
    }
  }

  /** Splitting takes a joined list apart again. */
  lemma {:induction false} SplitInvertsJoin(parts: seq<string>, sep: char)
    requires parts != []
    requires forall i :: 0 <= i < |parts| ==> sep !in parts[i]
    ensures Split(Join(parts, sep), sep) == parts
    decreases |parts|
  {
    if |parts| == 1 {
      SplitWithoutSeparator(parts[0], sep);
    } else {
      SplitAtSeparator(parts[0], sep, Join(parts[1..], sep));
      SplitInvertsJoin(parts[1..], sep);
      assert [parts[0]] + parts[1..] == parts;
    }
  }

  /** The parts of a text hold no separator and make up the text. */
  lemma {:induction false} JoinInvertsSplit(s: string, sep: char)
    ensures Join(Split(s, sep), sep) == s
    ensures forall i :: 0 <= i < |Split(s, sep)| ==> sep !in Split(s, sep)[i]
    decreases |s|
  {
    if s != [] {
      var rest := Split(s[1..], sep);
      JoinInvertsSplit(s[1..], sep);
      assert s == [s[0]] + s[1..];
      if s[0] == sep {
        assert ([[]] + rest)[1..] == rest;
      } else {
        assert ([[s[0]] + rest[0]] + rest[1..])[1..] == rest[1..];
      }
    }
  }

  function Count(s: string, c: char): nat {
    if s == [] then 0 else (if s[0] == c then 1 else 0) + Count(s[1..], c)
  }

  lemma {:induction false} SplitLength(s: string, sep: char)
    ensures |Split(s, sep)| == Count(s, sep) + 1
    decreases |s|
  {
    if s != [] {
      SplitLength(s[1..], sep);
    }
  }

  // Decimal notation -----------------------------------------------------------

  predicate IsDigit(c: char) {
    '0' <= c <= '9'
  }

  predicate AllDigits(s: string) {
    forall i :: 0 <= i < |s| ==> IsDigit(s[i])
  }

  function Decimal(n: nat): (s: string)
    ensures s != [] && AllDigits(s)
  {
    if n < 10 then [('0' as int + n) as char]
    else Decimal(n / 10) + [('0' as int + n % 10) as char]
  }

  function DigitsValue(s: string): nat
    requires AllDigits(s)
  {
    if s == [] then 0
    else 10 * DigitsValue(s[..|s| - 1]) + (s[|s| - 1] as int - '0' as int)
  }

  /** Reading the decimal notation of a number gives the number. */
  lemma {:induction false} DecimalRoundTrip(n: nat)
    ensures DigitsValue(Decimal(n)) == n
  {
    if n >= 10 {
      DecimalRoundTrip(n / 10);
      var s := Decimal(n);
      assert s[..|s| - 1] == Decimal(n / 10);
    }
  }
}

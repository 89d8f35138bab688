/** The port field of the firewall editor: the printed form of a rule's ports and the
    parser for lists such as "80,88" or "90-99". */
module PortExpression {
  import opened Text
  import opened FirewallRules

  datatype Range = Range(portMin: int, portMax: int)

  predicate Valid(range: Range) {
    1 <= range.portMin <= range.portMax <= 65535
  }

  /** A number field: empty counts as zero, anything but decimal digits as no number. */
  function Number(s: string): Option<int> {
    if AllDigits(s) then Some(DigitsValue(s)) else None
  }

  /** One item, split at its dashes; everything after the second part is ignored. */
  function ParsePart(part: string): Option<Range> {
    var items := Split(part, '-');
    var portMin := Number(JsTrim(items[0]));
    var rawMax := if |items| > 1 then JsTrim(items[1]) else "";
    var portMax := if rawMax == "" then portMin else Number(rawMax);
    if portMin.Some? && portMax.Some? && Valid(Range(portMin.value, portMax.value)) then Some(Range(portMin.value, portMax.value))
    else None
  }

  /** All non-blank items must parse; `None` is the thrown error. */
  function ParseItems(parts: seq<string>): Option<seq<Range>> {
    if parts == [] then Some([])
    else
      var n := |parts| - 1;
      var before := ParseItems(parts[..n]);
      var part := JsTrim(parts[n]);
      if before.None? then None
      else if part == "" then before
      else
        var range := ParsePart(part);
        if range.None? then None else Some(before.value + [range.value])
  }

  function Parsed(text: string): Option<seq<Range>> {
    var ranges := ParseItems(Split(text, ','));
    if ranges.None? || ranges.value == [] then None else ranges
  }

  method ParseFirewallPorts(text: string) returns (ranges: Option<seq<Range>>)
    ensures ranges == Parsed(text)
    ensures ranges.Some? ==>
      && ranges.value != []
      && forall i :: 0 <= i < |ranges.value| ==> PortsAccepted(ranges.value[i].portMin, ranges.value[i].portMax)
  {
    hide ParsePart, JsTrim, Split;
    var parts := Split(text, ',');
    var found: seq<Range> := [];
    for i := 0 to |parts|
      invariant ParseItems(parts[..i]) == Some(found)
      invariant forall j :: 0 <= j < |found| ==> Valid(found[j])
    {
      assert parts[..i + 1][..i] == parts[..i];
      var part := JsTrim(parts[i]);
      if part != "" {
        var range := ParsePart(part);
        if range.None? {
          RejectedItem(parts, i);
          return None;
        }
        ParsedPartIsValid(part);
        found := found + [range.value];
      }
    }
    assert parts[..|parts|] == parts;
    ranges := if found == [] then None else Some(found);
  }

  lemma ParsedPartIsValid(part: string)
    ensures ParsePart(part).Some? ==> Valid(ParsePart(part).value)
  {
  }

  lemma {:induction false} RejectedFromThenOn(parts: seq<string>, n: nat)
    requires n <= |parts| && ParseItems(parts[..n]).None?
    ensures ParseItems(parts).None?
    decreases |parts| - n
  {
    hide ParsePart, JsTrim;
    if n < |parts| {
      assert parts[..n + 1][..n] == parts[..n];
      RejectedFromThenOn(parts, n + 1);
    } else {
      assert parts[..n] == parts;
    }
  }

  lemma RejectedItem(parts: seq<string>, i: nat)
    requires i < |parts| && JsTrim(parts[i]) != "" && ParsePart(JsTrim(parts[i])).None?
    ensures ParseItems(parts).None?
  {
    hide ParsePart, JsTrim;
    assert parts[..i + 1][..i] == parts[..i];
    RejectedFromThenOn(parts, i + 1);
  }

  // Printing ---------------------------------------------------------------------------

  function Printed(range: Range): string
    requires Valid(range)
  {
    if range.portMin == range.portMax then Decimal(range.portMin)
    else Decimal(range.portMin) + ['-'] + Decimal(range.portMax)
  }

  predicate AllValid(ranges: seq<Range>) {
    forall i :: 0 <= i < |ranges| ==> Valid(ranges[i])
  }

  function PrintedAll(ranges: seq<Range>): (parts: seq<string>)
    requires AllValid(ranges)
    ensures |parts| == |ranges|
  {
    if ranges == [] then [] else PrintedAll(ranges[..|ranges| - 1]) + [Printed(ranges[|ranges| - 1])]
  }

  function Expression(ranges: seq<Range>): string
    requires AllValid(ranges) && ranges != []
  {
    Join(PrintedAll(ranges), ',')
  }

  predicate IsPortText(s: string) {
    s != [] && forall i :: 0 <= i < |s| ==> IsDigit(s[i]) || s[i] == '-'
  }

  lemma PortTextIsPlain(s: string)
    requires IsPortText(s)
    ensures JsTrim(s) == s && ',' !in s
  {
    hide Trim, DigitsValue;
    TrimFixed(s, IsJsSpace);
  }

  lemma DigitsArePlain(s: string)
    requires s != [] && AllDigits(s)
    ensures JsTrim(s) == s && '-' !in s && Number(s) == Some(DigitsValue(s))
  {
    hide Trim, DigitsValue;
    TrimFixed(s, IsJsSpace);
  }

  lemma PrintedIsPortText(range: Range)
    requires Valid(range)
    ensures IsPortText(Printed(range))
  {
    var lo, hi := Decimal(range.portMin), Decimal(range.portMax);
    assert forall i :: 0 <= i < |lo| ==> IsDigit(lo[i]);
    assert forall i :: 0 <= i < |hi| ==> IsDigit(hi[i]);
  }

  /** One printed range parses to itself. */
  lemma PartRoundTrip(range: Range)
    requires Valid(range)
    ensures ParsePart(Printed(range)) == Some(range)
  {
    hide Decimal, DigitsValue, Split, JsTrim, Number, AllDigits;
    var lo, hi := Decimal(range.portMin), Decimal(range.portMax);
    DecimalRoundTrip(range.portMin);
    DecimalRoundTrip(range.portMax);
    DigitsArePlain(lo);
    DigitsArePlain(hi);
    SplitWithoutSeparator(lo, '-');
    SplitWithoutSeparator(hi, '-');
    SplitAtSeparator(lo, '-', hi);
  }

  lemma {:induction false} ItemsRoundTrip(ranges: seq<Range>)
    requires AllValid(ranges)
    ensures ParseItems(PrintedAll(ranges)) == Some(ranges)
    ensures forall i :: 0 <= i < |ranges| ==> ',' !in PrintedAll(ranges)[i]
  {
    hide ParsePart, Printed, JsTrim, IsPortText;
    if ranges != [] {
      var n := |ranges| - 1;
      ItemsRoundTrip(ranges[..n]);
      PrintedIsPortText(ranges[n]);
      PortTextIsPlain(Printed(ranges[n]));
      PartRoundTrip(ranges[n]);
      PrintedIsNotEmpty(ranges[n]);
      assert PrintedAll(ranges)[..n] == PrintedAll(ranges[..n]);
      assert ranges == ranges[..n] + [ranges[n]];
    }
  }

  lemma PrintedIsNotEmpty(range: Range)
    requires Valid(range)
    ensures Printed(range) != ""
  {
  }

  /** Every non-empty list of valid ranges survives printing and parsing. */
  lemma ExpressionRoundTrip(ranges: seq<Range>)
    requires AllValid(ranges) && ranges != []
    ensures Parsed(Expression(ranges)) == Some(ranges)
  {
    hide ParseItems, Split, Join, Printed;
    ItemsRoundTrip(ranges);
    SplitInvertsJoin(PrintedAll(ranges), ',');
  }

  lemma {:induction false} ParsedItemsAreValid(parts: seq<string>)
    ensures ParseItems(parts).Some? ==> AllValid(ParseItems(parts).value)
  {
    hide ParsePart, JsTrim;
    if parts != [] {
      var n := |parts| - 1;
      ParsedItemsAreValid(parts[..n]);
      ParsedPartIsValid(JsTrim(parts[n]));
    }
  }

  /** Whatever the user typed, what the parser made of it can be shown again and read
      back unchanged, and every range of it passes the executor's port check. */
  lemma AcceptedTextHasNormalForm(text: string)
    requires Parsed(text).Some?
    ensures AllValid(Parsed(text).value)
    ensures Parsed(Expression(Parsed(text).value)) == Parsed(text)
    ensures forall i :: 0 <= i < |Parsed(text).value| ==>
      PortsAccepted(Parsed(text).value[i].portMin, Parsed(text).value[i].portMax)
  {
    hide ParseItems, Split, Expression;
    ParsedItemsAreValid(Split(text, ','));
    ExpressionRoundTrip(Parsed(text).value);
  }

  // Spaces and blank items ---------------------------------------------------------------

  /** Two numbers with white space around each. */
  function TypedPair(a: string, lo: string, b: string, c: string, hi: string, d: string): string {
    a + PairText(lo + b, c + hi) + d
  }

  function PairText(left: string, right: string): string {
    left + ['-'] + right
  }

  predicate Spaces(s: string) {
    AllIn(s, IsJsSpace)
  }

  ghost predicate IsTypedPair(item: string, range: Range) {
    range.portMin >= 0 && range.portMax >= 0 && exists a, b, c, d ::
      && Spaces(a) && Spaces(b) && Spaces(c) && Spaces(d)
      && item == TypedPair(a, Decimal(range.portMin), b, c, Decimal(range.portMax), d)
  }

  ghost predicate IsTypedSingle(item: string, port: nat) {
    exists a, d :: Spaces(a) && Spaces(d) && item == a + Decimal(port) + d
  }

  /** A range as somebody may type it. */
  ghost predicate IsTyped(item: string, range: Range) {
    && Valid(range)
    && (IsTypedPair(item, range) || (range.portMin == range.portMax && IsTypedSingle(item, range.portMin)))
  }

  lemma SpacesHaveNoDash(s: string)
    requires Spaces(s)
    ensures '-' !in s
  {
    assert forall i :: 0 <= i < |s| ==> IsJsSpace(s[i]) && s[i] != '-';
  }

  lemma TrimmedNumber(a: string, n: nat, b: string)
    requires Spaces(a) && Spaces(b)
    ensures JsTrim(a + Decimal(n) + b) == Decimal(n) && '-' !in a + Decimal(n) + b
    ensures Number(Decimal(n)) == Some(n) && Decimal(n) != ""
  {
    hide Trim;
    var digits := Decimal(n);
    assert IsDigit(digits[0]) && IsDigit(digits[|digits| - 1]);
    TrimPadded(a, digits, b, IsJsSpace);
    DecimalRoundTrip(n);
    DigitsArePlain(digits);
    SpacesHaveNoDash(a);
    SpacesHaveNoDash(b);
  }

  lemma NumberThenSpaces(n: nat, b: string)
    requires Spaces(b)
    ensures JsTrim(Decimal(n) + b) == Decimal(n) && '-' !in Decimal(n) + b
  {
    assert Spaces("") && "" + Decimal(n) + b == Decimal(n) + b;
    TrimmedNumber("", n, b);
  }

  lemma SpacesThenNumber(c: string, n: nat)
    requires Spaces(c)
    ensures JsTrim(c + Decimal(n)) == Decimal(n) && '-' !in c + Decimal(n)
  {
    assert Spaces("") && c + Decimal(n) + "" == c + Decimal(n);
    TrimmedNumber(c, n, "");
  }

  /** Trimming takes the outer white space off a pair. */
  lemma TrimmedPair(a: string, left: string, right: string, d: string)
    requires Spaces(a) && Spaces(d)
    requires left != "" && right != "" && IsDigit(left[0]) && IsDigit(right[|right| - 1])
    ensures JsTrim(a + PairText(left, right) + d) == PairText(left, right)
  {
    hide Trim;
    var core := PairText(left, right);
    assert core[0] == left[0] && core[|core| - 1] == right[|right| - 1];
    TrimPadded(a, core, d, IsJsSpace);
  }

  lemma PairTextParses(left: string, right: string, m: nat, n: nat)
    requires '-' !in left && '-' !in right && JsTrim(left) == Decimal(m) && JsTrim(right) == Decimal(n)
    requires Valid(Range(m, n))
    ensures ParsePart(PairText(left, right)) == Some(Range(m, n))
  {
    hide Decimal, Split, JsTrim, Number, AllDigits;
    SplitAtSeparator(left, '-', right);
    SplitWithoutSeparator(right, '-');
    NumberOfDecimal(m);
    NumberOfDecimal(n);
  }

  lemma NumberOfDecimal(n: nat)
    ensures Number(Decimal(n)) == Some(n) && Decimal(n) != ""
  {
    DecimalRoundTrip(n);
  }

  lemma EndsAreDigits(n: nat, b: string)
    ensures Decimal(n) + b != "" && IsDigit((Decimal(n) + b)[0])
    ensures b + Decimal(n) != "" && IsDigit((b + Decimal(n))[|b + Decimal(n)| - 1])
  {
    assert AllDigits(Decimal(n));
  }

  lemma TypedPairParses(range: Range, a: string, b: string, c: string, d: string)
    requires Valid(range) && Spaces(a) && Spaces(b) && Spaces(c) && Spaces(d)
    ensures var item := TypedPair(a, Decimal(range.portMin), b, c, Decimal(range.portMax), d);
      JsTrim(item) != "" && ParsePart(JsTrim(item)) == Some(range)
  {
    NumberThenSpaces(range.portMin, b);
    SpacesThenNumber(c, range.portMax);
    EndsAreDigits(range.portMin, b);
    EndsAreDigits(range.portMax, c);
    var left, right := Decimal(range.portMin) + b, c + Decimal(range.portMax);
    hide Decimal, JsTrim, ParsePart, Spaces;
    TrimmedPair(a, left, right, d);
    PairTextParses(left, right, range.portMin, range.portMax);
    assert PairText(left, right) != "";
  }

  lemma TypedSingleParses(port: nat, a: string, d: string)
    requires 1 <= port <= 65535 && Spaces(a) && Spaces(d)
    ensures var item := a + Decimal(port) + d;
      JsTrim(item) != "" && ParsePart(JsTrim(item)) == Some(Range(port, port))
  {
    TrimmedNumber(a, port, d);
    PartRoundTrip(Range(port, port));
    hide Decimal, JsTrim, ParsePart;
  }

  lemma TypedItemParses(item: string, range: Range)
    requires IsTyped(item, range)
    ensures JsTrim(item) != "" && ParsePart(JsTrim(item)) == Some(range)
  {
    hide Decimal, JsTrim, ParsePart, Spaces, TypedPair;
    if IsTypedPair(item, range) {
      var a, b, c, d :|
        && Spaces(a) && Spaces(b) && Spaces(c) && Spaces(d)
        && item == TypedPair(a, Decimal(range.portMin), b, c, Decimal(range.portMax), d);
      TypedPairParses(range, a, b, c, d);
    } else {
      var a, d :| Spaces(a) && Spaces(d) && item == a + Decimal(range.portMin) + d;
      TypedSingleParses(range.portMin, a, d);
    }
  }

  /** The list that items as typed stand for, blank ones left out. */
  ghost predicate AreTyped(items: seq<string>, ranges: seq<Range>)
    decreases |items|
  {
    if items == [] then ranges == []
    else
      var n := |items| - 1;
      || (Spaces(items[n]) && AreTyped(items[..n], ranges))
      || (ranges != [] && IsTyped(items[n], ranges[|ranges| - 1]) && AreTyped(items[..n], ranges[..|ranges| - 1]))
  }

  /** Every list of valid ranges is read however it is spaced and with any blank items. */
  lemma {:induction false} SpacesAndBlanksDoNotMatter(items: seq<string>, ranges: seq<Range>)
    requires AreTyped(items, ranges)
    ensures ParseItems(items) == Some(ranges)
    decreases |items|
  {
    hide ParsePart, JsTrim, IsTyped, Spaces;
    if items != [] {
      var n := |items| - 1;
      if Spaces(items[n]) && AreTyped(items[..n], ranges) {
        SpacesAndBlanksDoNotMatter(items[..n], ranges);
        BlankIsEmpty(items[n]);
      } else {
        var m := |ranges| - 1;
        SpacesAndBlanksDoNotMatter(items[..n], ranges[..m]);
        TypedItemParses(items[n], ranges[m]);
        assert ranges == ranges[..m] + [ranges[m]];
      }
    }
  }

  lemma BlankIsEmpty(item: string)
    requires Spaces(item)
    ensures JsTrim(item) == ""
  {
    TrimBlank(item, IsJsSpace);
  }

  /** The whole field: items as typed, separated by commas. */
  lemma TypedTextIsRead(items: seq<string>, ranges: seq<Range>)
    requires AreTyped(items, ranges) && ranges != []
    requires forall i :: 0 <= i < |items| ==> ',' !in items[i]
    ensures items != [] && Parsed(Join(items, ',')) == Some(ranges)
  {
    hide ParseItems, Split, Join, IsTyped;
    assert items != [];
    SplitInvertsJoin(items, ',');
    SpacesAndBlanksDoNotMatter(items, ranges);
  }

  /** A dash without a second number is not an error: "80-" reads as port 80. */
  lemma TrailingDashIsIgnored(port: nat)
    requires 1 <= port <= 65535
    ensures ParsePart(Decimal(port) + ['-']) == Some(Range(port, port))
  {
    hide Decimal, DigitsValue, Split, JsTrim, Number, AllDigits;
    var lo := Decimal(port);
    DecimalRoundTrip(port);
    DigitsArePlain(lo);
    SplitAtSeparator(lo, '-', []);
    SplitWithoutSeparator([], '-');
    assert lo + ['-'] + [] == lo + ['-'];
    TrimEmpty();
  }

  lemma TrimEmpty()
    ensures JsTrim("") == ""
  {
  }
}

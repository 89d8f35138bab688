/** The audit search twice: as a parameterised SQL query, and as the filter over the log
    kept in memory when there is no database. */
module AuditSearch {
  import opened Text

  datatype Column =
    | Actor | Action | ResourceType | ResourceId | ProfileId | Region | CompartmentId | OciRequestId | OciWorkRequestId

  const COLUMNS: seq<Column> :=
    [Actor, Action, ResourceType, ResourceId, ProfileId, Region, CompartmentId, OciRequestId, OciWorkRequestId]

  /** A log entry; the error columns of the table may be null. */
  datatype Row = Row(texts: Column -> string, errorCode: Option<string>, errorMessage: Option<string>)

  datatype Filter = Filter(wants: Column -> string, status: string, limit: int)

  function Want(filter: Filter, column: Column): string {
    TrimSpace(filter.wants(column))
  }

  function OrEmpty(value: Option<string>): string {
    if value.Some? then value.value else ""
  }

  function Limit(filter: Filter): (limit: int)
    ensures limit == if 1 <= filter.limit <= 500 then filter.limit else 100
  {
    if filter.limit <= 0 || filter.limit > 500 then 100 else filter.limit
  }

  datatype Outcome = AnyOutcome | Failed | Success

  function StatusWanted(filter: Filter): Outcome {
    var status := ToLower(TrimSpace(filter.status));
    if status == "failed" then Failed else if status == "success" then Success else AnyOutcome
  }

  predicate HasError(row: Row) {
    OrEmpty(row.errorCode) != "" || OrEmpty(row.errorMessage) != ""
  }

  predicate OutcomeMatches(outcome: Outcome, row: Row) {
    match outcome
    case AnyOutcome => true
    case Failed => HasError(row)
    case Success => !HasError(row)
  }

  // The query --------------------------------------------------------------------------

  datatype Clause = ILike(column: Column, placeholder: nat) | ErrorSet | ErrorUnset

  datatype Argument = Pattern(pattern: string) | RowLimit(limit: int)

  datatype Query = Query(where: seq<Clause>, args: seq<Argument>, limitPlaceholder: nat)

  function PatternFor(want: string): string {
    ['%'] + want + ['%']
  }

  /** The argument and the condition that one wanted value adds, if it is not blank. */
  function LikeArgument(want: string): seq<Argument> {
    if want == "" then [] else [Pattern(PatternFor(want))]
  }

  function LikeClause(column: Column, want: string, placeholder: nat): seq<Clause> {
    if want == "" then [] else [ILike(column, placeholder)]
  }

  function Arguments(filter: Filter, columns: seq<Column>): seq<Argument> {
    if columns == [] then []
    else
      var n := |columns| - 1;
      Arguments(filter, columns[..n]) + LikeArgument(Want(filter, columns[n]))
  }

  function Clauses(filter: Filter, columns: seq<Column>): seq<Clause> {
    if columns == [] then []
    else
      var n := |columns| - 1;
      Clauses(filter, columns[..n]) + LikeClause(columns[n], Want(filter, columns[n]), |Arguments(filter, columns[..n])| + 1)
  }

  class QueryBuilder {
    var where: seq<Clause>
    var args: seq<Argument>

    constructor ()
      ensures where == [] && args == []
    {
      where, args := [], [];
    }

    /** A blank value adds nothing; any other adds one condition and its argument. */
    method AddLike(column: Column, value: string)
      modifies this
      ensures args == old(args) + LikeArgument(TrimSpace(value))
      ensures where == old(where) + LikeClause(column, TrimSpace(value), |old(args)| + 1)
    {
      hide TrimSpace;
      var want := TrimSpace(value);
      if want == "" {
        return;
      }
      args := args + [Pattern(['%'] + want + ['%'])];
      where := where + [ILike(column, |args|)];
    }
  }

  function StatusClauses(outcome: Outcome): seq<Clause> {
    match outcome
    case AnyOutcome => []
    case Failed => [ErrorSet]
    case Success => [ErrorUnset]
  }

  /** The k-th column of the search form. */
  method AddColumn(b: QueryBuilder, filter: Filter, column: Column, ghost k: nat)
    requires k < 9 && IsColumn(k, column)
    requires b.where == ClausesTo(filter, k) && b.args == ArgumentsTo(filter, k)
    modifies b
    ensures b.where == ClausesTo(filter, k + 1) && b.args == ArgumentsTo(filter, k + 1)
  {
    hide TrimSpace, LikeArgument, LikeClause, ClausesTo, ArgumentsTo;
    b.AddLike(column, filter.wants(column));
    OneMoreColumn(filter, k, column);
  }

  method BuildAuditQuery(filter: Filter) returns (q: Query)
    ensures q.where == Clauses(filter, COLUMNS) + StatusClauses(StatusWanted(filter))
    ensures q.args == Arguments(filter, COLUMNS) + [RowLimit(Limit(filter))]
    ensures q.limitPlaceholder == |q.args| && 1 <= Limit(filter) <= 500
  {
    hide Clauses, Arguments, ClausesTo, ArgumentsTo, IsColumn, StatusWanted;
    ColumnsInOrder();
    NothingYet(filter);
    AllColumns(filter);
    var b := new QueryBuilder();
    AddColumn(b, filter, Actor, 0);
    AddColumn(b, filter, Action, 1);
    AddColumn(b, filter, ResourceType, 2);
    AddColumn(b, filter, ResourceId, 3);
    AddColumn(b, filter, ProfileId, 4);
    AddColumn(b, filter, Region, 5);
    AddColumn(b, filter, CompartmentId, 6);
    AddColumn(b, filter, OciRequestId, 7);
    AddColumn(b, filter, OciWorkRequestId, 8);
    var outcome := StatusWanted(filter);
    if outcome == Failed {
      b.where := b.where + [ErrorSet];
    } else if outcome == Success {
      b.where := b.where + [ErrorUnset];
    }
    b.args := b.args + [RowLimit(Limit(filter))];
    q := Query(b.where, b.args, |b.args|);
  }

  function ArgumentsTo(filter: Filter, k: nat): seq<Argument>
    requires k <= |COLUMNS|
  {
    Arguments(filter, COLUMNS[..k])
  }

  function ClausesTo(filter: Filter, k: nat): seq<Clause>
    requires k <= |COLUMNS|
  {
    Clauses(filter, COLUMNS[..k])
  }

  predicate IsColumn(k: nat, column: Column) {
    k < |COLUMNS| && COLUMNS[k] == column
  }

  lemma ColumnsInOrder()
    ensures IsColumn(0, Actor) && IsColumn(1, Action) && IsColumn(2, ResourceType) && IsColumn(3, ResourceId)
    ensures IsColumn(4, ProfileId) && IsColumn(5, Region) && IsColumn(6, CompartmentId)
    ensures IsColumn(7, OciRequestId) && IsColumn(8, OciWorkRequestId)
  {
  }

  lemma OneMoreColumn(filter: Filter, k: nat, column: Column)
    requires k < 9 && IsColumn(k, column)
    ensures ArgumentsTo(filter, k + 1) == ArgumentsTo(filter, k) + LikeArgument(Want(filter, column))
    ensures ClausesTo(filter, k + 1)
         == ClausesTo(filter, k) + LikeClause(column, Want(filter, column), |ArgumentsTo(filter, k)| + 1)
  {
    hide LikeArgument, LikeClause, TrimSpace;
    assert COLUMNS[..k + 1][..k] == COLUMNS[..k];
  }

  lemma NothingYet(filter: Filter)
    ensures ClausesTo(filter, 0) == [] && ArgumentsTo(filter, 0) == []
  {
  }

  lemma AllColumns(filter: Filter)
    ensures ClausesTo(filter, 9) == Clauses(filter, COLUMNS) && ArgumentsTo(filter, 9) == Arguments(filter, COLUMNS)
  {
    assert COLUMNS[..9] == COLUMNS;
  }

  // What the query means -----------------------------------------------------------------

  /** SQL LIKE: percent for any text, underscore for any character, backslash to escape. */
  predicate Like(pattern: string, text: string)
    decreases |pattern| + |text|
  {
    if pattern == [] then text == []
    else if pattern[0] == '%' then Like(pattern[1..], text) || (text != [] && Like(pattern, text[1..]))
    else if pattern[0] == '_' then text != [] && Like(pattern[1..], text[1..])
    else if pattern[0] == '\\' then |pattern| >= 2 && text != [] && text[0] == pattern[1] && Like(pattern[2..], text[1..])
    else text != [] && text[0] == pattern[0] && Like(pattern[1..], text[1..])
  }

  predicate ILikeMatches(pattern: string, text: string) {
    Like(ToLower(pattern), ToLower(text))
  }

  predicate Holds(clause: Clause, args: seq<Argument>, row: Row) {
    match clause
    case ILike(column, p) => 1 <= p <= |args| && args[p - 1].Pattern? && ILikeMatches(args[p - 1].pattern, row.texts(column))
    case ErrorSet => OrEmpty(row.errorCode) != "" || OrEmpty(row.errorMessage) != ""
    case ErrorUnset => OrEmpty(row.errorCode) == "" && OrEmpty(row.errorMessage) == ""
  }

  predicate AllHold(where: seq<Clause>, args: seq<Argument>, row: Row) {
    forall i :: 0 <= i < |where| ==> Holds(where[i], args, row)
  }

  /** One column of the search as the database sees it. */
  predicate SqlColumnMatches(want: string, text: string) {
    want == "" || ILikeMatches(PatternFor(want), text)
  }

  ghost predicate SqlAccepts(filter: Filter, row: Row) {
    && (forall c: Column :: SqlColumnMatches(Want(filter, c), row.texts(c)))
    && OutcomeMatches(StatusWanted(filter), row)
  }

  lemma OneMoreClause(where: seq<Clause>, clause: Clause, args: seq<Argument>, row: Row)
    ensures AllHold(where + [clause], args, row) <==> AllHold(where, args, row) && Holds(clause, args, row)
  {
    hide Holds;
    assert forall i :: 0 <= i < |where| ==> (where + [clause])[i] == where[i];
    assert (where + [clause])[|where|] == clause;
  }

  lemma ColumnHolds(where: seq<Clause>, column: Column, want: string, args: seq<Argument>, k: nat, row: Row)
    requires want != "" ==> k < |args| && args[k] == Pattern(PatternFor(want))
    ensures AllHold(where + LikeClause(column, want, k + 1), args, row)
       <==> AllHold(where, args, row) && SqlColumnMatches(want, row.texts(column))
  {
    hide ILikeMatches, PatternFor;
    if want != "" {
      OneMoreClause(where, ILike(column, k + 1), args, row);
    } else {
      assert where + LikeClause(column, want, k + 1) == where;
    }
  }

  lemma {:induction false} ClausesMean(filter: Filter, columns: seq<Column>, more: seq<Argument>, row: Row)
    ensures AllHold(Clauses(filter, columns), Arguments(filter, columns) + more, row)
       <==> forall i :: 0 <= i < |columns| ==> SqlColumnMatches(Want(filter, columns[i]), row.texts(columns[i]))
  {
    hide Want, SqlColumnMatches, AllHold, LikeClause;
    if columns == [] {
      NoClauses(Arguments(filter, columns) + more, row);
    } else {
      var n := |columns| - 1;
      var want := Want(filter, columns[n]);
      var before, args := Arguments(filter, columns[..n]), Arguments(filter, columns) + more;
      ClausesMean(filter, columns[..n], LikeArgument(want) + more, row);
      assert args == before + (LikeArgument(want) + more);
      ColumnHolds(Clauses(filter, columns[..n]), columns[n], want, args, |before|, row);
      assert columns == columns[..n] + [columns[n]];
    }
  }

  lemma NoClauses(args: seq<Argument>, row: Row)
    ensures AllHold([], args, row)
  {
  }

  function Position(c: Column): (i: nat)
    ensures i < |COLUMNS| && COLUMNS[i] == c
  {
    match c
    case Actor => 0
    case Action => 1
    case ResourceType => 2
    case ResourceId => 3
    case ProfileId => 4
    case Region => 5
    case CompartmentId => 6
    case OciRequestId => 7
    case OciWorkRequestId => 8
  }

  lemma ColumnsAreAll(filter: Filter, row: Row)
    ensures (forall i :: 0 <= i < |COLUMNS| ==> SqlColumnMatches(Want(filter, COLUMNS[i]), row.texts(COLUMNS[i])))
       <==> forall c: Column :: SqlColumnMatches(Want(filter, c), row.texts(c))
    ensures (forall i :: 0 <= i < |COLUMNS| ==> MemoryColumnMatches(Want(filter, COLUMNS[i]), row.texts(COLUMNS[i])))
       <==> forall c: Column :: MemoryColumnMatches(Want(filter, c), row.texts(c))
  {
    hide Want, SqlColumnMatches, MemoryColumnMatches;
    if forall i :: 0 <= i < |COLUMNS| ==> SqlColumnMatches(Want(filter, COLUMNS[i]), row.texts(COLUMNS[i])) {
      forall c: Column
        ensures SqlColumnMatches(Want(filter, c), row.texts(c))
      {
        var i := Position(c);
        assert SqlColumnMatches(Want(filter, COLUMNS[i]), row.texts(COLUMNS[i]));
      }
    }
    if forall i :: 0 <= i < |COLUMNS| ==> MemoryColumnMatches(Want(filter, COLUMNS[i]), row.texts(COLUMNS[i])) {
      forall c: Column
        ensures MemoryColumnMatches(Want(filter, c), row.texts(c))
      {
        var i := Position(c);
        assert MemoryColumnMatches(Want(filter, COLUMNS[i]), row.texts(COLUMNS[i]));
      }
    }
  }

  /** Whether a row failed, that is has an error code or message, as the form asks. */
  predicate HasStatusAsked(filter: Filter, row: Row) {
    var status := ToLower(TrimSpace(filter.status));
    var failed := !(row.errorCode in {None, Some("")} && row.errorMessage in {None, Some("")});
    (status == "failed" ==> failed) && (status == "success" ==> !failed)
  }

  lemma OutcomeIsAsAsked(filter: Filter, row: Row)
    ensures OutcomeMatches(StatusWanted(filter), row) <==> HasStatusAsked(filter, row)
  {
    hide ToLower, TrimSpace;
  }

  /** What both searches ask of a row, in terms of the form: every column whose field is not
      blank has the text, and the row has the status. */
  lemma AcceptanceInTermsOfTheForm(filter: Filter, row: Row)
    ensures SqlAccepts(filter, row)
       <==> && HasStatusAsked(filter, row)
            && forall c: Column :: TrimSpace(filter.wants(c)) == ""
                 || Like(ToLower(['%'] + TrimSpace(filter.wants(c)) + ['%']), ToLower(row.texts(c)))
    ensures MemoryAccepts(filter, row)
       <==> && HasStatusAsked(filter, row)
            && forall c: Column :: TrimSpace(filter.wants(c)) == ""
                 || Contains(ToLower(row.texts(c)), ToLower(TrimSpace(filter.wants(c))))
  {
    OutcomeIsAsAsked(filter, row);
    hide ToLower, TrimSpace, Like, Contains, OutcomeMatches, StatusWanted, HasStatusAsked;
    ColumnsAreAll(filter, row);
    forall c: Column
      ensures SqlColumnMatches(Want(filter, c), row.texts(c))
         <==> TrimSpace(filter.wants(c)) == "" || Like(ToLower(['%'] + TrimSpace(filter.wants(c)) + ['%']), ToLower(row.texts(c)))
    {
    }
  }

  /** The query with its arguments accepts exactly the rows that meet every non-blank
      condition and the status condition. */
  lemma QueryAcceptsExactly(filter: Filter, row: Row)
    ensures AllHold(Clauses(filter, COLUMNS) + StatusClauses(StatusWanted(filter)),
                    Arguments(filter, COLUMNS) + [RowLimit(Limit(filter))], row)
       <==> SqlAccepts(filter, row)
  {
    hide Want, SqlColumnMatches, Clauses, Arguments, StatusWanted, ILikeMatches, AllHold;
    var where, args := Clauses(filter, COLUMNS), Arguments(filter, COLUMNS) + [RowLimit(Limit(filter))];
    var status := StatusClauses(StatusWanted(filter));
    ClausesMean(filter, COLUMNS, [RowLimit(Limit(filter))], row);
    ColumnsAreAll(filter, row);
    match StatusWanted(filter)
    case AnyOutcome => assert where + status == where;
    case Failed => OneMoreClause(where, ErrorSet, args, row);
    case Success => OneMoreClause(where, ErrorUnset, args, row);
  }

  /** The i-th condition refers to the i-th argument, a pattern; every pattern has one. */
  lemma {:induction false} PlaceholdersInOrder(filter: Filter, columns: seq<Column>)
    ensures |Clauses(filter, columns)| == |Arguments(filter, columns)|
    ensures forall i :: 0 <= i < |Clauses(filter, columns)| ==>
      Clauses(filter, columns)[i].ILike? && Clauses(filter, columns)[i].placeholder == i + 1 && Arguments(filter, columns)[i].Pattern?
  {
    hide Want, PatternFor;
    if columns != [] {
      PlaceholdersInOrder(filter, columns[..|columns| - 1]);
    }
  }

  // The search in memory -----------------------------------------------------------------

  predicate MemoryColumnMatches(want: string, text: string) {
    want == "" || Contains(ToLower(text), ToLower(want))
  }

  predicate MemoryAccepts(filter: Filter, row: Row) {
    && (forall i :: 0 <= i < |COLUMNS| ==> MemoryColumnMatches(Want(filter, COLUMNS[i]), row.texts(COLUMNS[i])))
    && OutcomeMatches(StatusWanted(filter), row)
  }

  function Selected(rows: seq<Row>, filter: Filter): seq<Row> {
    if rows == [] then []
    else
      var n := |rows| - 1;
      Selected(rows[..n], filter) + if MemoryAccepts(filter, rows[n]) then [rows[n]] else []
  }

  /** The loop over the entries, newest first, which stops at the limit. */
  method FilterAuditLogs(rows: seq<Row>, filter: Filter) returns (out: seq<Row>)
    ensures out == if |Selected(rows, filter)| <= Limit(filter) then Selected(rows, filter) else Selected(rows, filter)[..Limit(filter)]
  {
    hide MemoryAccepts;
    out := [];
    for i := 0 to |rows|
      invariant out == Selected(rows[..i], filter) && |out| < Limit(filter)
    {
      assert rows[..i + 1][..i] == rows[..i];
      if MemoryAccepts(filter, rows[i]) {
        out := out + [rows[i]];
        if |out| >= Limit(filter) {
          SelectedIsPrefix(rows, i + 1, filter);
          return;
        }
      }
    }
    assert rows[..|rows|] == rows;
  }

  lemma {:induction false} SelectedIsPrefix(rows: seq<Row>, n: nat, filter: Filter)
    requires n <= |rows|
    ensures |Selected(rows[..n], filter)| <= |Selected(rows, filter)|
    ensures Selected(rows, filter)[..|Selected(rows[..n], filter)|] == Selected(rows[..n], filter)
    decreases |rows| - n
  {
    hide MemoryAccepts;
    if n == |rows| {
      assert rows[..n] == rows;
    } else {
      assert rows[..n + 1][..n] == rows[..n];
      SelectedIsPrefix(rows, n + 1, filter);
    }
  }

  // The two compared -----------------------------------------------------------------------

  predicate IsSpecial(c: char) {
    c == '%' || c == '_' || c == '\\'
  }

  /** No character with a meaning in a pattern. */
  predicate Plain(s: string) {
    forall i :: 0 <= i < |s| ==> !IsSpecial(s[i])
  }

  lemma {:induction false} PercentMatchesAll(text: string)
    ensures Like("%", text)
  {
    if text != [] {
      PercentMatchesAll(text[1..]);
    }
  }

  /** A leading percent skips any number of characters. */
  lemma {:induction false} PercentSkips(pattern: string, text: string)
    ensures Like(['%'] + pattern, text) <==> exists i: nat :: i <= |text| && Like(pattern, text[i..])
    decreases |text|
  {
    assert (['%'] + pattern)[1..] == pattern;
    assert text[0..] == text;
    if text != [] {
      PercentSkips(pattern, text[1..]);
      assert forall i: nat :: i < |text| ==> text[1..][i..] == text[i + 1..];
      if j: nat :| j <= |text[1..]| && Like(pattern, text[1..][j..]) {
        assert Like(pattern, text[j + 1..]);
      }
      if i: nat :| 0 < i <= |text| && Like(pattern, text[i..]) {
        assert text[1..][i - 1..] == text[i..];
      }
    }
  }

  /** Plain text followed by percent matches the texts that start with it. */
  lemma {:induction false} PlainPrefixMatches(want: string, text: string)
    requires Plain(want)
    ensures Like(want + ['%'], text) <==> OccursAt(text, want, 0)
    decreases |want|
  {
    var pattern := want + ['%'];
    if want == [] {
      assert pattern == "%";
      PercentMatchesAll(text);
    } else {
      assert pattern[1..] == want[1..] + ['%'];
      assert !IsSpecial(pattern[0]);
      if text != [] {
        PlainPrefixMatches(want[1..], text[1..]);
        if |want| <= |text| {
          assert text[0..|want|] == [text[0]] + text[1..][0..|want| - 1];
          assert want == [want[0]] + want[1..];
        }
      }
    }
  }

  lemma PlainMatchesWhereContained(want: string, text: string)
    requires Plain(want)
    ensures Like(PatternFor(want), text) <==> Contains(text, want)
  {
    hide Like;
    assert PatternFor(want) == ['%'] + (want + ['%']);
    PercentSkips(want + ['%'], text);
    forall i: nat | i <= |text|
      ensures Like(want + ['%'], text[i..]) <==> OccursAt(text, want, i)
    {
      PlainPrefixMatches(want, text[i..]);
      if i + |want| <= |text| {
        assert text[i..][0..|want|] == text[i..i + |want|];
      }
    }
  }

  /** A text that a pattern matches; percent stands for nothing, underscore for an x. */
  function Sample(pattern: string): (text: string)
    ensures |text| <= |pattern|
  {
    if pattern == [] then []
    else if pattern[0] == '%' then Sample(pattern[1..])
    else if pattern[0] == '_' then ['x'] + Sample(pattern[1..])
    else if pattern[0] == '\\' then if |pattern| < 2 then [] else [pattern[1]] + Sample(pattern[2..])
    else [pattern[0]] + Sample(pattern[1..])
  }

  /** No escape character is left without a character to escape. */
  predicate WellFormed(pattern: string) {
    if pattern == [] then true
    else if pattern[0] == '\\' then |pattern| >= 2 && WellFormed(pattern[2..])
    else WellFormed(pattern[1..])
  }

  lemma {:induction false} SampleMatches(pattern: string)
    requires WellFormed(pattern)
    ensures Like(pattern, Sample(pattern))
    decreases |pattern|
  {
    if pattern != [] {
      if pattern[0] == '\\' {
        SampleMatches(pattern[2..]);
        assert Sample(pattern)[1..] == Sample(pattern[2..]);
      } else {
        SampleMatches(pattern[1..]);
        if pattern[0] != '%' {
          assert Sample(pattern)[1..] == Sample(pattern[1..]);
        }
      }
    }
  }

  /** The sample of a pattern with a special character is not the pattern itself. */
  lemma {:induction false} SampleDiffers(pattern: string)
    ensures Sample(pattern) == pattern ==> Plain(pattern)
    decreases |pattern|
  {
    if pattern != [] && !IsSpecial(pattern[0]) {
      assert Sample(pattern)[1..] == Sample(pattern[1..]);
      SampleDiffers(pattern[1..]);
      assert pattern == [pattern[0]] + pattern[1..];
    }
  }

  /** Appending a percent completes any pattern; a dangling escape takes it as a literal. */
  lemma {:induction false} AppendedPercent(pattern: string)
    ensures WellFormed(pattern + ['%'])
    ensures WellFormed(pattern) ==> Sample(pattern + ['%']) == Sample(pattern)
    decreases |pattern|
  {
    var more := pattern + ['%'];
    if pattern != [] {
      if pattern[0] == '\\' {
        if |pattern| >= 2 {
          assert more[2..] == pattern[2..] + ['%'];
          AppendedPercent(pattern[2..]);
        } else {
          assert more[2..] == [];
        }
      } else {
        assert more[1..] == pattern[1..] + ['%'];
        AppendedPercent(pattern[1..]);
      }
    } else {
      assert more[1..] == [];
    }
  }

  lemma {:induction false} DanglingEscapeWantsPercent(pattern: string, text: string)
    requires !WellFormed(pattern) && Like(pattern + ['%'], text)
    ensures text != [] && text[|text| - 1] == '%'
    decreases |pattern| + |text|
  {
    var more := pattern + ['%'];
    if pattern[0] == '\\' {
      if |pattern| >= 2 {
        assert more[2..] == pattern[2..] + ['%'];
        DanglingEscapeWantsPercent(pattern[2..], text[1..]);
      } else {
        assert more[2..] == [];
      }
    } else {
      assert more[1..] == pattern[1..] + ['%'];
      if pattern[0] == '%' {
        if Like(more[1..], text) {
          DanglingEscapeWantsPercent(pattern[1..], text);
        } else {
          DanglingEscapeWantsPercent(pattern, text[1..]);
        }
      } else {
        DanglingEscapeWantsPercent(pattern[1..], text[1..]);
      }
    }
  }

  lemma {:induction false} DanglingEscapeIsLast(pattern: string)
    requires !WellFormed(pattern)
    ensures pattern != [] && pattern[|pattern| - 1] == '\\'
    decreases |pattern|
  {
    if pattern[0] == '\\' {
      if |pattern| >= 2 {
        DanglingEscapeIsLast(pattern[2..]);
      }
    } else {
      DanglingEscapeIsLast(pattern[1..]);
    }
  }

  /** A text on which the two searches differ. */
  function Divider(want: string): string {
    if WellFormed(want) then Sample(want) else want
  }

  /** A text that both searches find. */
  function Common(want: string): string {
    want + Sample(want + ['%'])
  }

  lemma PatternFindsSuffix(want: string, head: string, tail: string)
    requires Like(want + ['%'], tail)
    ensures Like(PatternFor(want), head + tail)
  {
    hide Like;
    assert PatternFor(want) == ['%'] + (want + ['%']);
    assert (head + tail)[|head|..] == tail;
    PercentSkips(want + ['%'], head + tail);
  }

  lemma ContainsItself(want: string, tail: string)
    ensures Contains(want + tail, want)
  {
    assert OccursAt(want + tail, want, 0);
  }

  lemma BothFindCommon(want: string)
    ensures Like(PatternFor(want), Common(want)) && Contains(Common(want), want)
  {
    hide Like, Sample, WellFormed;
    AppendedPercent(want);
    SampleMatches(want + ['%']);
    PatternFindsSuffix(want, want, Sample(want + ['%']));
    ContainsItself(want, Sample(want + ['%']));
  }

  lemma ShortTextContains(text: string, want: string)
    requires |text| <= |want|
    ensures Contains(text, want) ==> text == want
  {
    if i: nat :| i <= |text| && OccursAt(text, want, i) {
      assert text == text[i..i + |want|];
    }
  }

  lemma SearchesDivide(want: string)
    requires !Plain(want)
    ensures Like(PatternFor(want), Divider(want)) <==> !Contains(Divider(want), want)
  {
    hide Like, Sample, WellFormed, Plain;
    var text := Divider(want);
    if WellFormed(want) {
      AppendedPercent(want);
      SampleMatches(want + ['%']);
      PatternFindsSuffix(want, [], text);
      assert [] + text == text;
      SampleDiffers(want);
      ShortTextContains(text, want);
    } else {
      ContainsItself(want, []);
      assert want + [] == want;
      DanglingEscapeIsLast(want);
      assert PatternFor(want) == ['%'] + (want + ['%']);
      PercentSkips(want + ['%'], text);
      if i: nat :| i <= |text| && Like(want + ['%'], text[i..]) {
        DanglingEscapeWantsPercent(want, text[i..]);
      }
    }
  }

  // Case is ignored by both ------------------------------------------------------------------

  lemma LowerIsIdempotent(s: string)
    ensures ToLower(ToLower(s)) == ToLower(s)
  {
    LowerTextIsFixed(ToLower(s));
  }

  lemma LowerKeepsSpecials(s: string)
    ensures Plain(ToLower(s)) <==> Plain(s)
    ensures ToLower(PatternFor(s)) == PatternFor(ToLower(s))
  {
    assert forall i :: 0 <= i < |s| ==> ToLower(s)[i] == LowerChar(s[i]) && (IsSpecial(LowerChar(s[i])) <==> IsSpecial(s[i]));
    var a, b := ToLower(PatternFor(s)), PatternFor(ToLower(s));
    assert |a| == |b| && forall i :: 0 <= i < |a| ==> a[i] == b[i];
  }

  lemma {:induction false} SampleIsLower(pattern: string)
    requires IsLowerText(pattern)
    ensures IsLowerText(Sample(pattern))
    decreases |pattern|
  {
    if pattern != [] {
      if pattern[0] == '\\' {
        if |pattern| >= 2 {
          SampleIsLower(pattern[2..]);
        }
      } else {
        SampleIsLower(pattern[1..]);
      }
    }
  }

  lemma WitnessesAreLower(want: string)
    requires ToLower(want) == want
    ensures ToLower(Divider(want)) == Divider(want) && ToLower(Common(want)) == Common(want)
  {
    hide Sample, WellFormed, ToLower;
    assert IsLowerText(want);
    assert IsLowerText(want + ['%']);
    SampleIsLower(want);
    SampleIsLower(want + ['%']);
    LowerTextIsFixed(Divider(want));
    LowerTextIsFixed(Common(want));
  }

  predicate ColumnAgrees(want: string, text: string) {
    SqlColumnMatches(want, text) <==> MemoryColumnMatches(want, text)
  }

  lemma PlainColumnAgrees(want: string, text: string)
    requires Plain(want)
    ensures ColumnAgrees(want, text)
  {
    hide ToLower, Like, Contains, PatternFor, Plain;
    LowerKeepsSpecials(want);
    PlainMatchesWhereContained(ToLower(want), ToLower(text));
  }

  /** A value with a special character has a text that divides the two searches. */
  lemma SpecialColumnDivides(want: string)
    requires !Plain(want)
    ensures !ColumnAgrees(want, Divider(ToLower(want)))
  {
    hide ToLower, Like, Contains, PatternFor, Divider;
    LowerKeepsSpecials(want);
    LowerIsIdempotent(want);
    WitnessesAreLower(ToLower(want));
    SearchesDivide(ToLower(want));
    assert Plain("");
  }

  lemma CommonColumnMatches(want: string)
    ensures SqlColumnMatches(want, Common(ToLower(want))) && MemoryColumnMatches(want, Common(ToLower(want)))
  {
    hide ToLower, Like, Contains, PatternFor, Common;
    LowerKeepsSpecials(want);
    LowerIsIdempotent(want);
    WitnessesAreLower(ToLower(want));
    BothFindCommon(ToLower(want));
  }

  ghost predicate SearchesAgree(filter: Filter) {
    forall row :: SqlAccepts(filter, row) <==> MemoryAccepts(filter, row)
  }

  /** A row with the dividing text in one column and a common text in every other. */
  function DividingRow(filter: Filter, column: Column): Row {
    Row(c => if c == column then Divider(ToLower(Want(filter, c))) else Common(ToLower(Want(filter, c))),
        if StatusWanted(filter) == Failed then Some("x") else None, None)
  }

  lemma DividingRowDivides(filter: Filter, column: Column)
    requires !Plain(Want(filter, column))
    ensures SqlAccepts(filter, DividingRow(filter, column)) <==> !MemoryAccepts(filter, DividingRow(filter, column))
  {
    hide Want, SqlColumnMatches, MemoryColumnMatches, StatusWanted, Divider, Common, ToLower, Plain;
    var row := DividingRow(filter, column);
    ColumnsAreAll(filter, row);
    SpecialColumnDivides(Want(filter, column));
    forall c: Column | c != column
      ensures SqlColumnMatches(Want(filter, c), row.texts(c)) && MemoryColumnMatches(Want(filter, c), row.texts(c))
    {
      CommonColumnMatches(Want(filter, c));
    }
    assert OutcomeMatches(StatusWanted(filter), row);
  }

  /** The database and the memory accept the same rows exactly when no search value
      contains a percent sign, an underscore or a backslash. */
  lemma SearchesAgreeOnPlainValues(filter: Filter)
    ensures SearchesAgree(filter) <==> forall c: Column :: Plain(Want(filter, c))
  {
    hide Want, SqlColumnMatches, MemoryColumnMatches, StatusWanted, Plain, DividingRow, SqlAccepts, MemoryAccepts;
    if c: Column :| !Plain(Want(filter, c)) {
      DividingRowDivides(filter, c);
    } else {
      forall row
        ensures SqlAccepts(filter, row) <==> MemoryAccepts(filter, row)
      {
        PlainRowAgrees(filter, row);
      }
    }
  }

  lemma PlainRowAgrees(filter: Filter, row: Row)
    requires forall c: Column :: Plain(Want(filter, c))
    ensures SqlAccepts(filter, row) <==> MemoryAccepts(filter, row)
  {
    hide Want, SqlColumnMatches, MemoryColumnMatches, StatusWanted, Plain;
    ColumnsAreAll(filter, row);
    forall c: Column
      ensures ColumnAgrees(Want(filter, c), row.texts(c))
    {
      PlainColumnAgrees(Want(filter, c), row.texts(c));
    }
  }
}

/** The create page's option refresh: overlapping requests carry sequence numbers, and
    only the response to the latest one may touch the page. */
module OptionsRefresh {
  import opened Text

  /** Where the options that were put on the page came from. */
  datatype Source = InitialLoad | Refresh(sequence: nat)

  /** `pending` are the refreshes whose response is still out; `history` are the responses
      applied so far, the last one being what the page shows. */
  datatype Page = Page(latest: nat, refreshing: bool, failed: bool, pending: set<nat>, loading: bool, history: seq<Source>)

  datatype Event = Begin | Succeed(sequence: nat) | Fail(sequence: nat) | LoadSucceeds | LoadFails

  const OPENED := Page(0, false, false, {}, true, [])

  /** One event; responses that nobody waits for do not happen. The initial load is not
      guarded by the sequence number. */
  function Step(p: Page, e: Event): Page {
    match e
    case Begin =>
      p.(latest := p.latest + 1, refreshing := true, failed := false, pending := p.pending + {p.latest + 1})
    case Succeed(n) =>
      if n !in p.pending then p
      else
        var q := p.(pending := p.pending - {n});
        if n == p.latest then q.(refreshing := false, history := p.history + [Refresh(n)]) else q
    case Fail(n) =>
      if n !in p.pending then p
      else
        var q := p.(pending := p.pending - {n});
        if n == p.latest then q.(refreshing := false, failed := true) else q
    case LoadSucceeds =>
      if p.loading then p.(loading := false, history := p.history + [InitialLoad]) else p
    case LoadFails =>
      if p.loading then p.(loading := false, failed := true) else p
  }

  function Run(events: seq<Event>): Page {
    if events == [] then OPENED else Step(Run(events[..|events| - 1]), events[|events| - 1])
  }

  /** The page itself: a counter and component state changed by the handlers. */
  class OptionsPage {
    var optionsRefreshSeq: nat
    var isRefreshingOptions: bool
    var loadFailed: bool
    var isLoading: bool
    ghost var pending: set<nat>
    var applied: seq<Source>

    ghost function View(): Page
      reads this
    {
      Page(optionsRefreshSeq, isRefreshingOptions, loadFailed, pending, isLoading, applied)
    }

    constructor ()
      ensures View() == OPENED
    {
      optionsRefreshSeq, isRefreshingOptions, loadFailed, isLoading, pending, applied := 0, false, false, true, {}, [];
    }

    /** The part of a refresh before it waits. */
    method BeginRefresh() returns (sequence: nat)
      modifies this
      ensures View() == Step(old(View()), Begin) && sequence == optionsRefreshSeq
    {
      sequence := optionsRefreshSeq + 1;
      optionsRefreshSeq := sequence;
      isRefreshingOptions := true;
      loadFailed := false;
      pending := pending + {sequence};
    }

    /** The part after it: stale responses return early, and the cleanup checks again. */
    method FinishRefresh(sequence: nat, ok: bool)
      requires sequence in pending
      modifies this
      ensures View() == Step(old(View()), if ok then Succeed(sequence) else Fail(sequence))
    {
      pending := pending - {sequence};
      if ok {
        if sequence == optionsRefreshSeq {
          applied := applied + [Refresh(sequence)];
        }
      } else {
        if sequence == optionsRefreshSeq {
          loadFailed := true;
        }
      }
      if sequence == optionsRefreshSeq {
        isRefreshingOptions := false;
      }
    }

    method FinishLoad(ok: bool)
      requires isLoading
      modifies this
      ensures View() == Step(old(View()), if ok then LoadSucceeds else LoadFails)
    {
      if ok {
        applied := applied + [InitialLoad];
      } else {
        loadFailed := true;
      }
      isLoading := false;
    }
  }

  predicate Increasing(history: seq<Source>) {
    forall i, j :: 0 <= i < j < |history| && history[i].Refresh? && history[j].Refresh? ==>
      history[i].sequence < history[j].sequence
  }

  /** What every event keeps. */
  predicate Inv(p: Page) {
    && (forall n :: n in p.pending ==> 1 <= n <= p.latest)
    && (p.refreshing <==> p.latest in p.pending)
    && Increasing(p.history)
    && (forall i :: 0 <= i < |p.history| && p.history[i].Refresh? ==>
          p.history[i].sequence <= p.latest && p.history[i].sequence !in p.pending)
  }

  lemma StepKeepsInv(p: Page, e: Event)
    requires Inv(p)
    ensures Inv(Step(p, e))
  {
  }

  lemma {:induction false} RunKeepsInv(events: seq<Event>)
    ensures Inv(Run(events))
  {
    if events != [] {
      RunKeepsInv(events[..|events| - 1]);
      StepKeepsInv(Run(events[..|events| - 1]), events[|events| - 1]);
    }
  }

  /** Under every interleaving: applied refreshes have strictly increasing numbers, and the
      refreshing flag is on exactly while the latest refresh is pending. */
  lemma RefreshesAreOrdered(events: seq<Event>)
    ensures Increasing(Run(events).history)
    ensures Run(events).refreshing <==> Run(events).latest in Run(events).pending
  {
    RunKeepsInv(events);
  }

  /** The number of refreshes begun in a run. */
  function Begun(events: seq<Event>): nat {
    if events == [] then 0
    else Begun(events[..|events| - 1]) + if events[|events| - 1] == Begin then 1 else 0
  }

  lemma {:induction false} LatestIsBegun(events: seq<Event>)
    ensures Run(events).latest == Begun(events)
  {
    if events != [] {
      LatestIsBegun(events[..|events| - 1]);
    }
  }

  /** A response that reaches the page answers the last refresh begun before it: nothing
      newer was under way at that moment. */
  lemma AppliedResponseWasTheLatest(events: seq<Event>, e: Event)
    requires Run(events + [e]).history != Run(events).history && e.Succeed?
    ensures e.sequence == Begun(events)
    ensures Run(events + [e]).history == Run(events).history + [Refresh(Begun(events))]
    ensures !Run(events + [e]).refreshing
  {
    assert (events + [e])[..|events|] == events;
    LatestIsBegun(events);
  }

  /** Once the latest refresh has succeeded, stale responses leave the page alone until a
      new refresh begins or the initial load ends. */
  lemma {:induction false} StaleResponsesChangeNothing(p: Page, events: seq<Event>)
    requires !p.refreshing && Inv(p)
    requires forall i :: 0 <= i < |events| ==> events[i].Succeed? || events[i].Fail?
    ensures RunFrom(p, events).history == p.history && RunFrom(p, events).failed == p.failed && !RunFrom(p, events).refreshing
    decreases |events|
  {
    if events != [] {
      StepKeepsInv(p, events[0]);
      StaleResponsesChangeNothing(Step(p, events[0]), events[1..]);
    }
  }

  function RunFrom(p: Page, events: seq<Event>): Page
    decreases |events|
  {
    if events == [] then p else RunFrom(Step(p, events[0]), events[1..])
  }

  // The initial load has no such guard ------------------------------------------------------

  function Shown(p: Page): Option<Source> {
    if p.history == [] then None else Some(p.history[|p.history| - 1])
  }

  predicate HasRefresh(history: seq<Source>) {
    exists i :: 0 <= i < |history| && history[i].Refresh?
  }

  /** The i-th event is the first answer to the latest refresh, and a good one. */
  predicate AppliesRefreshAt(events: seq<Event>, i: nat)
    requires i < |events|
  {
    && events[i].Succeed?
    && events[i].sequence == Begun(events[..i])
    && events[i].sequence in Run(events[..i]).pending
  }

  /** The i-th event ends the initial load well. */
  predicate AppliesLoadAt(events: seq<Event>, i: nat)
    requires i < |events|
  {
    events[i] == LoadSucceeds && Run(events[..i]).loading
  }

  predicate NoRefreshAppliedAfter(events: seq<Event>, i: nat) {
    forall k :: i < k < |events| ==> !AppliesRefreshAt(events, k)
  }

  /** The initial load ended well after some refresh was applied, and none was applied since. */
  predicate LoadCameLast(events: seq<Event>) {
    exists i, j :: 0 <= i < j < |events|
      && AppliesRefreshAt(events, i) && AppliesLoadAt(events, j) && NoRefreshAppliedAfter(events, j)
  }

  /** One more event changes nothing about those before it. */
  lemma EarlierEvents(events: seq<Event>, e: Event, i: nat)
    requires i < |events|
    ensures AppliesRefreshAt(events + [e], i) == AppliesRefreshAt(events, i)
    ensures AppliesLoadAt(events + [e], i) == AppliesLoadAt(events, i)
  {
    assert (events + [e])[..i] == events[..i];
  }

  lemma LastEvent(events: seq<Event>, e: Event)
    ensures Run(events + [e]) == Step(Run(events), e)
    ensures AppliesRefreshAt(events + [e], |events|)
       <==> e.Succeed? && Run(events + [e]).history == Run(events).history + [Refresh(e.sequence)]
    ensures AppliesLoadAt(events + [e], |events|) <==> Run(events + [e]).history == Run(events).history + [InitialLoad]
    ensures Run(events + [e]).history == Run(events).history
       <==> !AppliesRefreshAt(events + [e], |events|) && !AppliesLoadAt(events + [e], |events|)
  {
    assert (events + [e])[..|events|] == events;
    assert Run(events + [e]) == Step(Run(events), e);
    LatestIsBegun(events);
    hide Run, Begun;
    StepHistory(Run(events), e);
    hide Step;
  }

  /** How one event adds to the history. */
  lemma StepHistory(p: Page, e: Event)
    ensures var h := Step(p, e).history;
      if e.Succeed? && e.sequence == p.latest && e.sequence in p.pending then h == p.history + [Refresh(e.sequence)]
      else if e == LoadSucceeds && p.loading then h == p.history + [InitialLoad]
      else h == p.history
    ensures forall source :: p.history != p.history + [source]
    ensures forall n :: p.history + [Refresh(n)] != p.history + [InitialLoad]
  {
    forall source
      ensures p.history != p.history + [source]
    {
      assert |p.history + [source]| == |p.history| + 1;
    }
    forall n
      ensures p.history + [Refresh(n)] != p.history + [InitialLoad]
    {
      assert (p.history + [Refresh(n)])[|p.history|] != (p.history + [InitialLoad])[|p.history|];
    }
  }

  lemma {:induction false} HistoryTellsEvents(events: seq<Event>)
    ensures HasRefresh(Run(events).history) <==> exists i :: 0 <= i < |events| && AppliesRefreshAt(events, i)
    ensures Shown(Run(events)) == Some(InitialLoad)
       <==> exists j :: 0 <= j < |events| && AppliesLoadAt(events, j) && NoRefreshAppliedAfter(events, j)
  {
    hide Run, AppliesRefreshAt, AppliesLoadAt;
    if events == [] {
      assert Run([]) == OPENED by { RunOfNothing(); }
    } else {
      var n := |events| - 1;
      var before, e := events[..n], events[n];
      assert events == before + [e];
      HistoryTellsEvents(before);
      LastEvent(before, e);
      forall i | 0 <= i < n
        ensures AppliesRefreshAt(events, i) == AppliesRefreshAt(before, i) && AppliesLoadAt(events, i) == AppliesLoadAt(before, i)
      {
        EarlierEvents(before, e, i);
      }
      HistoryGrows(Run(before), Run(events));
      QuietAfterOneMore(before, e);
    }
  }

  lemma RunOfNothing()
    ensures Run([]) == OPENED
  {
  }

  lemma HistoryGrows(p: Page, q: Page)
    ensures q.history == p.history ==> Shown(q) == Shown(p) && HasRefresh(q.history) == HasRefresh(p.history)
    ensures q.history == p.history + [InitialLoad] ==>
      Shown(q) == Some(InitialLoad) && HasRefresh(q.history) == HasRefresh(p.history)
    ensures forall n :: q.history == p.history + [Refresh(n)] ==> Shown(q) == Some(Refresh(n)) && HasRefresh(q.history)
  {
    forall n | q.history == p.history + [Refresh(n)]
      ensures HasRefresh(q.history)
    {
      assert q.history[|p.history|].Refresh?;
    }
    if q.history == p.history + [InitialLoad] && HasRefresh(p.history) {
      var i :| 0 <= i < |p.history| && p.history[i].Refresh?;
      assert q.history[i].Refresh?;
    }
  }

  lemma QuietAfterOneMore(events: seq<Event>, e: Event)
    ensures forall j :: 0 <= j < |events| ==>
      (NoRefreshAppliedAfter(events + [e], j)
       <==> NoRefreshAppliedAfter(events, j) && !AppliesRefreshAt(events + [e], |events|))
    ensures NoRefreshAppliedAfter(events + [e], |events|)
  {
    hide Run, AppliesRefreshAt;
    forall i | 0 <= i < |events|
      ensures AppliesRefreshAt(events + [e], i) == AppliesRefreshAt(events, i)
    {
      EarlierEvents(events, e, i);
    }
  }

  /** Over every run: once a refresh has been applied the page shows the newest one applied,
      unless the initial load ended well after it; then, and only then, the page shows what
      was loaded first. */
  lemma PageShowsNewestUnlessLoadCameLast(events: seq<Event>)
    ensures HasRefresh(Run(events).history) ==>
      && (Shown(Run(events)) == Some(InitialLoad) <==> LoadCameLast(events))
      && (Shown(Run(events)).value.Refresh? <==> !LoadCameLast(events))
      && (Shown(Run(events)).value.Refresh? ==>
            forall i :: 0 <= i < |Run(events).history| && Run(events).history[i].Refresh? ==>
              Run(events).history[i].sequence <= Shown(Run(events)).value.sequence)
  {
    hide Run, AppliesRefreshAt, AppliesLoadAt;
    HistoryTellsEvents(events);
    RunKeepsInv(events);
    if HasRefresh(Run(events).history) && Shown(Run(events)) == Some(InitialLoad) {
      var i :| 0 <= i < |events| && AppliesRefreshAt(events, i);
      var j :| 0 <= j < |events| && AppliesLoadAt(events, j) && NoRefreshAppliedAfter(events, j);
      assert i != j by { LoadIsNoRefresh(events, i, j); }
    }
  }

  lemma LoadIsNoRefresh(events: seq<Event>, i: nat, j: nat)
    requires i < |events| && j < |events| && AppliesRefreshAt(events, i) && AppliesLoadAt(events, j)
    ensures i != j
  {
  }

  /** At the moment it ends well, the initial load replaces a refresh exactly when it was
      still out and a refresh was shown. */
  lemma LoadReplacesRefreshExactlyWhen(p: Page)
    ensures Shown(p).Some? && Shown(p).value.Refresh? && Shown(Step(p, LoadSucceeds)) != Shown(p)
       <==> p.loading && Shown(p).Some? && Shown(p).value.Refresh?
  {
  }

  /** The initial load ended badly and no refresh has begun since. */
  predicate LoadFailedSinceBegin(events: seq<Event>) {
    exists i :: 0 <= i < |events| && events[i] == LoadFails && Run(events[..i]).loading
      && forall k :: i < k < |events| ==> events[k] != Begin
  }

  lemma LoadFailedSinceBeginOfMore(events: seq<Event>, e: Event)
    ensures LoadFailedSinceBegin(events + [e])
       <==> e != Begin && ((e == LoadFails && Run(events).loading) || LoadFailedSinceBegin(events))
  {
    hide Run;
    var more := events + [e];
    assert more[..|events|] == events;
    assert forall i :: 0 <= i < |events| ==> more[..i] == events[..i];
    if LoadFailedSinceBegin(events) && e != Begin {
      var i :| 0 <= i < |events| && events[i] == LoadFails && Run(events[..i]).loading
        && forall k :: i < k < |events| ==> events[k] != Begin;
      assert more[i] == LoadFails && Run(more[..i]).loading;
    }
    if e == LoadFails && Run(events).loading {
      assert more[|events|] == LoadFails && Run(more[..|events|]).loading;
    }
    if LoadFailedSinceBegin(more) {
      var i :| 0 <= i < |more| && more[i] == LoadFails && Run(more[..i]).loading
        && forall k :: i < k < |more| ==> more[k] != Begin;
      if i < |events| {
        assert events[i] == LoadFails && Run(events[..i]).loading;
        assert more[|events|] != Begin;
        assert forall k :: i < k < |events| ==> events[k] == more[k];
      }
    }
  }

  /** A failure is reported against the latest refresh while it is out, or although it was
      applied, exactly when the initial load failed after that refresh had begun. */
  lemma {:induction false} LoadFailureIsShownOverRefresh(events: seq<Event>)
    ensures Run(events).refreshing || Refresh(Run(events).latest) in Run(events).history ==>
      (Run(events).failed <==> LoadFailedSinceBegin(events))
  {
    if events != [] {
      hide Run;
      var n := |events| - 1;
      var before, e := events[..n], events[n];
      assert events == before + [e];
      LoadFailureIsShownOverRefresh(before);
      RunKeepsInv(before);
      LastEvent(before, e);
      LoadFailedSinceBeginOfMore(before, e);
    } else {
      RunOfNothing();
    }
  }

  /** The i-th event is the answer with which the latest refresh fails, or fails the initial load. */
  predicate FailsAt(events: seq<Event>, i: nat)
    requires i < |events|
  {
    var p := Run(events[..i]);
    || (events[i].Fail? && events[i].sequence == Begun(events[..i]) && events[i].sequence in p.pending)
    || (events[i] == LoadFails && p.loading)
  }

  predicate NoBeginAfter(events: seq<Event>, i: nat) {
    forall k :: i < k < |events| ==> events[k] != Begin
  }

  /** Over every run: a failure is shown exactly when the latest refresh or the initial load
      has failed and no refresh has begun since. */
  lemma {:induction false} FailureIsShownExactlyWhen(events: seq<Event>)
    ensures Run(events).failed <==> exists i :: 0 <= i < |events| && FailsAt(events, i) && NoBeginAfter(events, i)
  {
    hide Run, FailsAt;
    if events == [] {
      RunOfNothing();
    } else {
      var n := |events| - 1;
      var before, e := events[..n], events[n];
      assert events == before + [e];
      FailureIsShownExactlyWhen(before);
      LastFailure(before, e);
      forall i | 0 <= i < n
        ensures FailsAt(events, i) == FailsAt(before, i)
        ensures NoBeginAfter(events, i) <==> NoBeginAfter(before, i) && e != Begin
      {
        EarlierFailure(before, e, i);
        BeginsAfterOneMore(before, e, i);
      }
      assert NoBeginAfter(events, n);
    }
  }

  lemma EarlierFailure(events: seq<Event>, e: Event, i: nat)
    requires i < |events|
    ensures FailsAt(events + [e], i) == FailsAt(events, i)
  {
    assert (events + [e])[..i] == events[..i];
  }

  lemma BeginsAfterOneMore(events: seq<Event>, e: Event, i: nat)
    requires i < |events|
    ensures NoBeginAfter(events + [e], i) <==> NoBeginAfter(events, i) && e != Begin
  {
    var more := events + [e];
    assert more[|events|] == e;
    assert forall k :: i < k < |events| ==> more[k] == events[k];
  }

  lemma LastFailure(events: seq<Event>, e: Event)
    ensures Run(events + [e]).failed <==> FailsAt(events + [e], |events|) || (Run(events).failed && e != Begin)
  {
    assert (events + [e])[..|events|] == events;
    assert Run(events + [e]) == Step(Run(events), e);
    LatestIsBegun(events);
    hide Run, Begun;
  }

  /** The i-th event begins this refresh. */
  predicate BeginsAt(events: seq<Event>, i: nat, n: nat)
    requires i < |events|
  {
    events[i] == Begin && n == Begun(events[..i]) + 1
  }

  predicate UnansweredAfter(events: seq<Event>, i: nat, n: nat) {
    forall k :: i < k < |events| ==> events[k] != Succeed(n) && events[k] != Fail(n)
  }

  /** Over every run: a refresh is waited for exactly when it has begun and not been answered. */
  lemma {:induction false} PendingMeansUnanswered(events: seq<Event>, n: nat)
    ensures n in Run(events).pending
       <==> exists i :: 0 <= i < |events| && BeginsAt(events, i, n) && UnansweredAfter(events, i, n)
  {
    hide Run, BeginsAt;
    if events == [] {
      RunOfNothing();
    } else {
      var m := |events| - 1;
      var before, e := events[..m], events[m];
      assert events == before + [e];
      PendingMeansUnanswered(before, n);
      LastPending(before, e, n);
      forall i | 0 <= i < m
        ensures BeginsAt(events, i, n) == BeginsAt(before, i, n)
        ensures UnansweredAfter(events, i, n) <==> UnansweredAfter(before, i, n) && e != Succeed(n) && e != Fail(n)
      {
        EarlierBegin(before, e, i, n);
      }
      assert UnansweredAfter(events, m, n);
    }
  }

  lemma EarlierBegin(events: seq<Event>, e: Event, i: nat, n: nat)
    requires i < |events|
    ensures BeginsAt(events + [e], i, n) == BeginsAt(events, i, n)
    ensures UnansweredAfter(events + [e], i, n) <==> UnansweredAfter(events, i, n) && e != Succeed(n) && e != Fail(n)
  {
    var more := events + [e];
    assert more[..i] == events[..i];
    assert more[|events|] == e;
    assert forall k :: i < k < |events| ==> more[k] == events[k];
  }

  lemma LastPending(events: seq<Event>, e: Event, n: nat)
    ensures n in Run(events + [e]).pending
       <==> BeginsAt(events + [e], |events|, n) || (n in Run(events).pending && e != Succeed(n) && e != Fail(n))
  {
    assert (events + [e])[..|events|] == events;
    assert Run(events + [e]) == Step(Run(events), e);
    LatestIsBegun(events);
    hide Run, Begun;
    StepPending(Run(events), e, n);
    hide Step;
  }

  lemma StepPending(p: Page, e: Event, n: nat)
    ensures n in Step(p, e).pending <==> (e == Begin && n == p.latest + 1) || (n in p.pending && e != Succeed(n) && e != Fail(n))
  {
  }

  /** Both cases occur; here a late answer replaces a newer refresh. */
  lemma LateInitialLoadReplacesRefresh()
    ensures Run([Begin, Succeed(1), LoadSucceeds]).history == [Refresh(1), InitialLoad]
  {
    var events := [Begin, Succeed(1), LoadSucceeds];
    assert events[..2] == [Begin, Succeed(1)] && events[..2][..1] == [Begin] && events[..2][..1][..0] == [];
    assert Run([Begin]) == Step(OPENED, Begin);
    assert Run([Begin, Succeed(1)]) == Step(Step(OPENED, Begin), Succeed(1));
  }
}

/** Any number of firewall tasks at work on shared security lists. A task handles its
    lists one at a time: read a list with its entity tag, compute the new rules from
    what was read, and write them back under `If-Match` (section 13.1.1 of RFC 9110).
    Between any two of these requests other tasks and other writers may act. */
module FirewallRuns {
  import opened FirewallRules

  datatype Phase = Reading | Writing(read: Stored) | Succeeded | Failed

  /** `done` lists are finished; `added` and `removed` are the counters of the result. */
  datatype Run = Run(change: Change, targets: seq<string>, done: nat, phase: Phase, added: nat, removed: nat)

  datatype Effect = ByTask(run: nat, change: Change) | Overwritten(list: SecurityList)

  /** One effective request: a committed write, or a read that found nothing to do. */
  datatype Entry = Entry(list: string, effect: Effect)

  datatype State = State(lists: map<string, Stored>, runs: map<nat, Run>, log: seq<Entry>)

  /** What can happen next. A lost write is one whose sender sees an error, whether or
      not the request took effect; an edit is any other client replacing a list. */
  datatype Step =
    | Begin(run: nat, change: Change, targets: seq<string>)
    | Read(run: nat)
    | ReadError(run: nat)
    | Write(run: nat)
    | LostWrite(run: nat, applied: bool)
    | Edit(id: string, list: SecurityList)

  /** An open or close raises its counters as soon as it has computed the new rules, a
      forced delete only when its write has been acknowledged. */
  predicate CountsEarly(change: Change) {
    !change.DeleteBroad?
  }

  function Counted(r: Run, rules: seq<IngressRule>): Run {
    r.(added := r.added + AddedBy(rules, r.change), removed := r.removed + RemovedBy(rules, r.change))
  }

  function Acknowledged(r: Run): Run
    requires r.phase.Writing?
  {
    Advanced(if CountsEarly(r.change) then r else Counted(r, r.phase.read.list.ingress))
  }

  function Advanced(r: Run): Run {
    r.(done := r.done + 1, phase := if r.done + 1 >= |r.targets| then Succeeded else Reading)
  }

  function ReadStep(s: State, id: nat, r: Run): State
    requires r.phase == Reading && r.done < |r.targets|
  {
    var target := r.targets[r.done];
    if target !in s.lists then
      s.(runs := s.runs[id := r.(phase := Failed)])
    else
      var read := s.lists[target];
      if NeedsUpdate(read.list, r.change) then
        var counted := if CountsEarly(r.change) then Counted(r, read.list.ingress) else r;
        s.(runs := s.runs[id := counted.(phase := Writing(read))])
      else
        State(s.lists, s.runs[id := Advanced(r)], s.log + [Entry(target, ByTask(id, r.change))])
  }

  /** The server stores the request body if the tag still matches. */
  function WriteStep(s: State, id: nat, r: Run, applied: bool, next: Run): State
    requires r.phase.Writing? && r.done < |r.targets| && r.targets[r.done] in s.lists
  {
    var target := r.targets[r.done];
    if applied && s.lists[target].etag == r.phase.read.etag then
      State(s.lists[target := Stored(Revised(r.phase.read.list, r.change), s.lists[target].etag + 1)],
            s.runs[id := next], s.log + [Entry(target, ByTask(id, r.change))])
    else
      s.(runs := s.runs[id := r.(phase := Failed)])
  }

  predicate CanWrite(s: State, id: nat) {
    && id in s.runs && s.runs[id].phase.Writing?
    && s.runs[id].done < |s.runs[id].targets| && s.runs[id].targets[s.runs[id].done] in s.lists
  }

  /** Steps that are not possible leave the state alone. A forced delete names one list. */
  function Next(s: State, step: Step): State {
    match step
    case Begin(id, change, targets) =>
      if id in s.runs || (change.DeleteBroad? && |targets| != 1) then s
      else s.(runs := s.runs[id := Run(change, targets, 0, if targets == [] then Succeeded else Reading, 0, 0)])
    case Read(id) =>
      if id in s.runs && s.runs[id].phase == Reading && s.runs[id].done < |s.runs[id].targets| then ReadStep(s, id, s.runs[id]) else s
    case ReadError(id) =>
      if id in s.runs && s.runs[id].phase == Reading then s.(runs := s.runs[id := s.runs[id].(phase := Failed)]) else s
    case Write(id) =>
      if CanWrite(s, id) then WriteStep(s, id, s.runs[id], true, Acknowledged(s.runs[id])) else s
    case LostWrite(id, applied) =>
      if CanWrite(s, id) then WriteStep(s, id, s.runs[id], applied, s.runs[id].(phase := Failed)) else s
    case Edit(id, list) =>
      if id in s.lists then
        State(s.lists[id := Stored(list, s.lists[id].etag + 1)], s.runs, s.log + [Entry(id, Overwritten(list))])
      else s
  }

  function Execute(s: State, steps: seq<Step>): State {
    if steps == [] then s else Next(Execute(s, steps[..|steps| - 1]), steps[|steps| - 1])
  }

  function Start(lists: map<string, Stored>): State {
    State(lists, map[], [])
  }

  // The serial reading of a log -----------------------------------------------------

  function Effected(list: SecurityList, effect: Effect): SecurityList {
    match effect
    case ByTask(_, change) => Revised(list, change)
    case Overwritten(replacement) => replacement
  }

  /** One list after the log's requests, one after another. */
  function Replay(log: seq<Entry>, id: string, start: SecurityList): SecurityList {
    if log == [] then start
    else
      var n := |log| - 1;
      var before := Replay(log[..n], id, start);
      if log[n].list == id then Effected(before, log[n].effect) else before
  }

  predicate IsBy(entry: Entry, run: nat) {
    entry.effect.ByTask? && entry.effect.run == run
  }

  /** The lists a run worked on, in order. */
  function WorkOf(log: seq<Entry>, run: nat): seq<string> {
    if log == [] then []
    else
      var n := |log| - 1;
      WorkOf(log[..n], run) + if IsBy(log[n], run) then [log[n].list] else []
  }

  /** The counts a run would report if the log were executed serially. */
  function SerialAdded(log: seq<Entry>, run: nat, start: map<string, Stored>): nat {
    if log == [] then 0
    else
      var n := |log| - 1;
      SerialAdded(log[..n], run, start)
      + if IsBy(log[n], run) && log[n].list in start
        then AddedBy(Replay(log[..n], log[n].list, start[log[n].list].list).ingress, log[n].effect.change) else 0
  }

  function SerialRemoved(log: seq<Entry>, run: nat, start: map<string, Stored>): nat {
    if log == [] then 0
    else
      var n := |log| - 1;
      SerialRemoved(log[..n], run, start)
      + if IsBy(log[n], run) && log[n].list in start
        then RemovedBy(Replay(log[..n], log[n].list, start[log[n].list].list).ingress, log[n].effect.change) else 0
  }

  // What every step keeps -------------------------------------------------------------

  ghost predicate ListsReplay(s: State, start: map<string, Stored>) {
    && s.lists.Keys == start.Keys
    && forall id :: id in s.lists ==> s.lists[id].list == Replay(s.log, id, start[id].list)
  }

  /** A tag that is still current stands for the list that was read under it. */
  predicate ReadIsHonest(lists: map<string, Stored>, r: Run) {
    r.phase.Writing? ==>
      && r.done < |r.targets| && r.targets[r.done] in lists
      && r.phase.read.etag <= lists[r.targets[r.done]].etag
      && (r.phase.read.etag == lists[r.targets[r.done]].etag ==> r.phase.read == lists[r.targets[r.done]])
      && NeedsUpdate(r.phase.read.list, r.change)
  }

  /** A run's log entries are its first targets; a failed run may have one more than it knows of. */
  predicate WorkIsPrefix(log: seq<Entry>, id: nat, r: Run) {
    var work := WorkOf(log, id);
    && r.done <= |work| <= |r.targets| && work == r.targets[..|work|]
    && (r.phase != Failed ==> |work| == r.done)
    && |work| <= r.done + 1
    && (r.phase == Succeeded ==> r.done == |r.targets|)
  }

  predicate CountsAreSerial(log: seq<Entry>, id: nat, r: Run, start: map<string, Stored>) {
    match r.phase
    case Writing(read) =>
      && r.added == SerialAdded(log, id, start) + (if CountsEarly(r.change) then AddedBy(read.list.ingress, r.change) else 0)
      && r.removed == SerialRemoved(log, id, start) + (if CountsEarly(r.change) then RemovedBy(read.list.ingress, r.change) else 0)
    case Failed =>
      if CountsEarly(r.change) then r.added >= SerialAdded(log, id, start) && r.removed >= SerialRemoved(log, id, start)
      else r.added <= SerialAdded(log, id, start) && r.removed <= SerialRemoved(log, id, start)
    case _ =>
      r.added == SerialAdded(log, id, start) && r.removed == SerialRemoved(log, id, start)
  }

  /** Until it has succeeded a forced delete reports nothing. */
  predicate ForcedDeleteCountsLast(r: Run) {
    r.change.DeleteBroad? ==>
      && |r.targets| == 1
      && (r.phase != Succeeded ==> r.added == r.removed == 0)
  }

  ghost predicate RunsAreSound(s: State, start: map<string, Stored>) {
    forall id :: id in s.runs ==>
      && ReadIsHonest(s.lists, s.runs[id])
      && WorkIsPrefix(s.log, id, s.runs[id])
      && CountsAreSerial(s.log, id, s.runs[id], start)
      && ForcedDeleteCountsLast(s.runs[id])
  }

  /** Every task entry is by a run that has begun and carries that run's change. */
  ghost predicate EntriesAreOwned(s: State) {
    forall i :: 0 <= i < |s.log| && s.log[i].effect.ByTask? ==>
      s.log[i].effect.run in s.runs && s.log[i].effect.change == s.runs[s.log[i].effect.run].change
  }

  ghost predicate Inv(s: State, start: map<string, Stored>) {
    ListsReplay(s, start) && RunsAreSound(s, start) && EntriesAreOwned(s)
  }

  // Proof: the log grows by one entry at a time -----------------------------------------

  lemma AppendedReplay(log: seq<Entry>, e: Entry, id: string, start: SecurityList)
    ensures Replay(log + [e], id, start)
         == if e.list == id then Effected(Replay(log, id, start), e.effect) else Replay(log, id, start)
  {
    assert (log + [e])[..|log|] == log;
  }

  lemma AppendedWork(log: seq<Entry>, e: Entry, run: nat, start: map<string, Stored>)
    requires e.list in start
    ensures WorkOf(log + [e], run) == WorkOf(log, run) + if IsBy(e, run) then [e.list] else []
    ensures SerialAdded(log + [e], run, start)
         == SerialAdded(log, run, start) + if IsBy(e, run)
            then AddedBy(Replay(log, e.list, start[e.list].list).ingress, e.effect.change) else 0
    ensures SerialRemoved(log + [e], run, start)
         == SerialRemoved(log, run, start) + if IsBy(e, run)
            then RemovedBy(Replay(log, e.list, start[e.list].list).ingress, e.effect.change) else 0
  {
    assert (log + [e])[..|log|] == log;
  }

  /** An entry by one run leaves the account of every other run as it was. */
  lemma OthersUnaffected(s: State, e: Entry, other: nat, start: map<string, Stored>)
    requires e.list in start && other in s.runs && !IsBy(e, other)
    requires WorkIsPrefix(s.log, other, s.runs[other]) && CountsAreSerial(s.log, other, s.runs[other], start)
    ensures WorkIsPrefix(s.log + [e], other, s.runs[other]) && CountsAreSerial(s.log + [e], other, s.runs[other], start)
  {
    AppendedWork(s.log, e, other, start);
  }

  /** An unread list stays unread when its tag moves on. */
  lemma TagMovesOn(lists: map<string, Stored>, id: string, list: SecurityList, r: Run)
    requires id in lists && ReadIsHonest(lists, r)
    ensures ReadIsHonest(lists[id := Stored(list, lists[id].etag + 1)], r)
  {
  }

  lemma NothingToDo(list: SecurityList, change: Change)
    requires !NeedsUpdate(list, change)
    ensures Revised(list, change) == list
  {
    ChangeConservesCount(list.ingress, change);
  }

  /** A logged request that leaves every list as the log says it should be keeps `ListsReplay`. */
  lemma LoggedListsReplay(s: State, lists: map<string, Stored>, e: Entry, start: map<string, Stored>)
    requires ListsReplay(s, start) && e.list in s.lists && lists.Keys == s.lists.Keys
    requires lists[e.list].list == Effected(s.lists[e.list].list, e.effect)
    requires forall id :: id in lists && id != e.list ==> lists[id] == s.lists[id]
    ensures ListsReplay(State(lists, s.runs, s.log + [e]), start)
  {
    forall id | id in lists
      ensures lists[id].list == Replay(s.log + [e], id, start[id].list)
    {
      AppendedReplay(s.log, e, id, start[id].list);
    }
  }

  /** How a run can go on from a request that took effect. */
  predicate IsOutcome(r: Run, next: Run) {
    || next == (if r.phase.Writing? then Acknowledged(r) else Advanced(r))
    || next == r.(phase := Failed)
  }

  /** A run that finishes one more request, with its entry logged. */
  lemma LoggedRuns(s: State, lists: map<string, Stored>, id: nat, next: Run, start: map<string, Stored>)
    requires Inv(s, start) && id in s.runs
    requires s.runs[id].done < |s.runs[id].targets| && s.runs[id].targets[s.runs[id].done] in s.lists
    requires s.runs[id].phase == Reading || s.runs[id].phase.Writing?
    requires IsOutcome(s.runs[id], next)
    requires var r := s.runs[id]; var before := s.lists[r.targets[r.done]].list;
      if r.phase.Writing? then r.phase.read.list == before else !NeedsUpdate(before, r.change)
    requires forall other :: other in s.runs && other != id ==> ReadIsHonest(lists, s.runs[other])
    ensures var r := s.runs[id];
      var e := Entry(r.targets[r.done], ByTask(id, r.change));
      var t := State(lists, s.runs[id := next], s.log + [e]);
      RunsAreSound(t, start) && EntriesAreOwned(t)
  {
    hide NeedsUpdate, AddedBy, RemovedBy, Replay, WorkOf, SerialAdded, SerialRemoved;
    var r := s.runs[id];
    var e := Entry(r.targets[r.done], ByTask(id, r.change));
    AppendedWork(s.log, e, id, start);
    UncountedWhenIdle(s.lists[e.list].list, r.change);
    assert WorkOf(s.log + [e], id) == r.targets[..r.done + 1];
    forall other | other in s.runs && other != id
      ensures WorkIsPrefix(s.log + [e], other, s.runs[other]) && CountsAreSerial(s.log + [e], other, s.runs[other], start)
    {
      OthersUnaffected(s, e, other, start);
    }
  }

  lemma UncountedWhenIdle(list: SecurityList, change: Change)
    ensures !NeedsUpdate(list, change) ==> AddedBy(list.ingress, change) == RemovedBy(list.ingress, change) == 0
  {
  }

  /** An edit by somebody else belongs to no run. */
  lemma LoggedEdit(s: State, id: string, list: SecurityList, start: map<string, Stored>)
    requires Inv(s, start) && id in s.lists
    ensures Inv(Next(s, Edit(id, list)), start)
  {
    hide NeedsUpdate, AddedBy, RemovedBy, Replay, WorkOf, SerialAdded, SerialRemoved;
    var e := Entry(id, Overwritten(list));
    var lists := s.lists[id := Stored(list, s.lists[id].etag + 1)];
    LoggedListsReplay(s, lists, e, start);
    forall other | other in s.runs
      ensures WorkIsPrefix(s.log + [e], other, s.runs[other]) && CountsAreSerial(s.log + [e], other, s.runs[other], start)
      ensures ReadIsHonest(lists, s.runs[other])
    {
      OthersUnaffected(s, e, other, start);
      TagMovesOn(s.lists, id, list, s.runs[other]);
    }
  }

  lemma ReadKeepsInv(s: State, id: nat, start: map<string, Stored>)
    requires Inv(s, start) && id in s.runs && s.runs[id].phase == Reading && s.runs[id].done < |s.runs[id].targets|
    ensures Inv(ReadStep(s, id, s.runs[id]), start)
  {
    hide Replay, WorkOf, SerialAdded, SerialRemoved, Changed, Kept, AddedBy, RemovedBy;
    var r := s.runs[id];
    var target := r.targets[r.done];
    if target in s.lists && !NeedsUpdate(s.lists[target].list, r.change) {
      var e := Entry(target, ByTask(id, r.change));
      NothingToDo(s.lists[target].list, r.change);
      LoggedListsReplay(s, s.lists, e, start);
      LoggedRuns(s, s.lists, id, Advanced(r), start);
    }
  }

  lemma CommitKeepsInv(s: State, id: nat, next: Run, start: map<string, Stored>)
    requires Inv(s, start) && CanWrite(s, id)
    requires s.lists[s.runs[id].targets[s.runs[id].done]].etag == s.runs[id].phase.read.etag
    requires IsOutcome(s.runs[id], next)
    ensures Inv(WriteStep(s, id, s.runs[id], true, next), start)
  {
    hide Replay, WorkOf, SerialAdded, SerialRemoved, AddedBy, RemovedBy, NeedsUpdate, Revised;
    hide CountsAreSerial, WorkIsPrefix;
    var r := s.runs[id];
    var target := r.targets[r.done];
    var revised := Revised(r.phase.read.list, r.change);
    var lists := s.lists[target := Stored(revised, s.lists[target].etag + 1)];
    LoggedListsReplay(s, lists, Entry(target, ByTask(id, r.change)), start);
    forall other | other in s.runs
      ensures ReadIsHonest(lists, s.runs[other])
    {
      TagMovesOn(s.lists, target, revised, s.runs[other]);
    }
    LoggedRuns(s, lists, id, next, start);
  }

  lemma FailureKeepsInv(s: State, id: nat, start: map<string, Stored>)
    requires Inv(s, start) && id in s.runs && (s.runs[id].phase == Reading || s.runs[id].phase.Writing?)
    ensures Inv(s.(runs := s.runs[id := s.runs[id].(phase := Failed)]), start)
  {
    hide Replay, WorkOf, SerialAdded, SerialRemoved, AddedBy, RemovedBy, NeedsUpdate;
  }

  lemma WriteKeepsInv(s: State, id: nat, applied: bool, next: Run, start: map<string, Stored>)
    requires Inv(s, start) && CanWrite(s, id)
    requires IsOutcome(s.runs[id], next)
    ensures Inv(WriteStep(s, id, s.runs[id], applied, next), start)
  {
    if applied && s.lists[s.runs[id].targets[s.runs[id].done]].etag == s.runs[id].phase.read.etag {
      CommitKeepsInv(s, id, next, start);
    } else {
      hide Inv, Advanced, Revised;
      FailureKeepsInv(s, id, start);
    }
  }

  lemma NoWorkYet(log: seq<Entry>, run: nat, start: map<string, Stored>)
    requires forall i :: 0 <= i < |log| ==> !IsBy(log[i], run)
    ensures WorkOf(log, run) == [] && SerialAdded(log, run, start) == SerialRemoved(log, run, start) == 0
  {
  }

  lemma NextKeepsInv(s: State, step: Step, start: map<string, Stored>)
    requires Inv(s, start)
    ensures Inv(Next(s, step), start)
  {
    hide Replay, WorkOf, SerialAdded, SerialRemoved, Changed, Kept, AddedBy, RemovedBy, NeedsUpdate;
    hide ReadStep, WriteStep, Advanced, Revised;
    match step
    case Begin(id, _, _) =>
      if id !in s.runs {
        NoWorkYet(s.log, id, start);
      }
    case Read(id) =>
      if id in s.runs && s.runs[id].phase == Reading && s.runs[id].done < |s.runs[id].targets| {
        ReadKeepsInv(s, id, start);
      }
    case ReadError(id) =>
      if id in s.runs && s.runs[id].phase == Reading {
        FailureKeepsInv(s, id, start);
      }
    case Write(id) =>
      if CanWrite(s, id) {
        WriteKeepsInv(s, id, true, Acknowledged(s.runs[id]), start);
      }
    case LostWrite(id, applied) =>
      if CanWrite(s, id) {
        WriteKeepsInv(s, id, applied, s.runs[id].(phase := Failed), start);
      }
    case Edit(id, list) =>
      if id in s.lists {
        LoggedEdit(s, id, list, start);
      }
  }

  lemma {:induction false} ExecutionKeepsInv(start: map<string, Stored>, steps: seq<Step>)
    ensures Inv(Execute(Start(start), steps), start)
  {
    if steps == [] {
      assert forall id :: id in start ==> Replay([], id, start[id].list) == start[id].list;
    } else {
      ExecutionKeepsInv(start, steps[..|steps| - 1]);
      NextKeepsInv(Execute(Start(start), steps[..|steps| - 1]), steps[|steps| - 1], start);
    }
  }

  // Main results --------------------------------------------------------------------------

  /** No update is lost: whatever the interleaving, every stored list is the initial one
      with the effective requests applied one after another in the order they took effect. */
  lemma NoLostUpdates(start: map<string, Stored>, steps: seq<Step>)
    ensures var s := Execute(Start(start), steps);
      && s.lists.Keys == start.Keys
      && (forall id :: id in s.lists ==> s.lists[id].list == Replay(s.log, id, start[id].list))
      && EntriesAreOwned(s)
  {
    ExecutionKeepsInv(start, steps);
  }

  /** A conditional write either revises the list as it is at that moment, whatever
      happened since the read, or it changes nothing and the task fails. */
  lemma WriteRevisesCurrentListOrFails(start: map<string, Stored>, steps: seq<Step>, s: State, id: nat)
    requires s == Execute(Start(start), steps) && CanWrite(s, id)
    ensures var r := s.runs[id];
      var target := r.targets[r.done];
      var t := Next(s, Write(id));
      if r.phase.read.etag == s.lists[target].etag then
        && t.lists == s.lists[target := Stored(Revised(s.lists[target].list, r.change), s.lists[target].etag + 1)]
        && t.log == s.log + [Entry(target, ByTask(id, r.change))]
      else
        t.lists == s.lists && t.log == s.log && t.runs == s.runs[id := r.(phase := Failed)]
  {
    hide Execute, Revised, CountsAreSerial, WorkIsPrefix, ListsReplay, EntriesAreOwned, NeedsUpdate;
    ExecutionKeepsInv(start, steps);
  }

  /** The k-th step begins this run. */
  predicate BeginsAt(steps: seq<Step>, k: nat, id: nat, r: Run)
    requires k < |steps|
  {
    steps[k] == Begin(id, r.change, r.targets)
  }

  lemma StepsKeepAssignments(s: State, step: Step, id: nat)
    requires id in Next(s, step).runs
    ensures var r := Next(s, step).runs[id];
      if id in s.runs then r.change == s.runs[id].change && r.targets == s.runs[id].targets
      else step == Begin(id, r.change, r.targets)
  {
    hide AddedBy, RemovedBy, NeedsUpdate, Revised;
  }

  /** Every run carries the change and all the lists that it was begun with. */
  lemma {:induction false} RunsAreAsBegun(start: map<string, Stored>, steps: seq<Step>, id: nat)
    requires id in Execute(Start(start), steps).runs
    ensures exists k :: 0 <= k < |steps| && BeginsAt(steps, k, id, Execute(Start(start), steps).runs[id])
  {
    hide Next, Execute;
    if steps == [] {
      ExecuteOneMore(Start(start), [], Begin(0, DeleteBroad, []));
    } else {
      var n := |steps| - 1;
      assert steps == steps[..n] + [steps[n]];
      var before := Execute(Start(start), steps[..n]);
      ExecuteOneMore(Start(start), steps[..n], steps[n]);
      StepsKeepAssignments(before, steps[n], id);
      if id in before.runs {
        RunsAreAsBegun(start, steps[..n], id);
        var k :| 0 <= k < n && BeginsAt(steps[..n], k, id, before.runs[id]);
        assert BeginsAt(steps, k, id, Execute(Start(start), steps).runs[id]);
      } else {
        assert BeginsAt(steps, n, id, Execute(Start(start), steps).runs[id]);
      }
    }
  }

  /** A run that is not disturbed between its read and its write has dealt with its next list:
      the list is as the change asks, its result counts what was done, and the run moves on. */
  lemma UndisturbedVisitSucceeds(s: State, id: nat)
    requires id in s.runs && s.runs[id].phase == Reading && s.runs[id].done < |s.runs[id].targets|
    requires s.runs[id].targets[s.runs[id].done] in s.lists
    ensures var r := s.runs[id];
      var target := r.targets[r.done];
      var stored := s.lists[target];
      var t := if NeedsUpdate(stored.list, r.change) then Next(Next(s, Read(id)), Write(id)) else Next(s, Read(id));
      && t.lists == s.lists[target := After(stored, r.change)]
      && t.log == s.log + [Entry(target, ByTask(id, r.change))]
      && t.runs == s.runs[id := Run(r.change, r.targets, r.done + 1, if r.done + 1 < |r.targets| then Reading else Succeeded,
                                    r.added + AddedBy(stored.list.ingress, r.change),
                                    r.removed + RemovedBy(stored.list.ingress, r.change))]
  {
    hide AddedBy, RemovedBy, Revised;
    var r := s.runs[id];
    var stored := s.lists[r.targets[r.done]];
    if NeedsUpdate(stored.list, r.change) {
      var reading := Next(s, Read(id));
      var counted := if CountsEarly(r.change) then Counted(r, stored.list.ingress) else r;
      assert reading == s.(runs := s.runs[id := counted.(phase := Writing(stored))]);
      assert CanWrite(reading, id);
      var t := Next(reading, Write(id));
      assert t.runs[id] == Acknowledged(reading.runs[id]);
      assert t.runs == s.runs[id := t.runs[id]];
    } else {
      assert s.lists[r.targets[r.done] := stored] == s.lists;
    }
  }

  /** Anybody's edit replaces the list and moves its tag. */
  lemma EditsReplace(s: State, id: string, list: SecurityList)
    requires id in s.lists
    ensures Next(s, Edit(id, list)).lists == s.lists[id := Stored(list, s.lists[id].etag + 1)]
  {
  }

  /** A task that succeeds has worked on all its lists, once each and in order, and reports
      the counts of the serial execution. One that fails has worked on a prefix: an open or
      close reports at least what it did, a forced delete nothing. */
  lemma ResultsAreSerial(start: map<string, Stored>, steps: seq<Step>, s: State, id: nat)
    requires s == Execute(Start(start), steps) && id in s.runs
    ensures var r := s.runs[id];
      var work := WorkOf(s.log, id);
      && |work| <= |r.targets| && work == r.targets[..|work|]
      && (r.phase == Succeeded ==>
            && work == r.targets
            && r.added == SerialAdded(s.log, id, start) && r.removed == SerialRemoved(s.log, id, start))
      && (CountsEarly(r.change) ==> r.added >= SerialAdded(s.log, id, start) && r.removed >= SerialRemoved(s.log, id, start))
      && (r.change.DeleteBroad? && r.phase == Failed ==> r.added == r.removed == 0)
  {
    ExecutionKeepsInv(start, steps);
  }

  /** The result is what the log says the run did. */
  predicate ReportsItsWork(s: State, id: nat, start: map<string, Stored>)
    requires id in s.runs
  {
    s.runs[id].added == SerialAdded(s.log, id, start) && s.runs[id].removed == SerialRemoved(s.log, id, start)
  }

  predicate TakesEffect(s: State, id: nat)
    requires CanWrite(s, id)
  {
    s.lists[s.runs[id].targets[s.runs[id].done]].etag == s.runs[id].phase.read.etag
  }

  /** Which failures make a result wrong. A task that fails while reading reports its work.
      An open or close that fails at a write reports it exactly when the write took effect
      and only the answer was lost, and a forced delete exactly when it did not. */
  lemma FailureReportsItsWork(start: map<string, Stored>, steps: seq<Step>, s: State, id: nat, applied: bool)
    requires s == Execute(Start(start), steps) && id in s.runs
    ensures s.runs[id].phase == Reading ==>
      && ReportsItsWork(Next(s, ReadError(id)), id, start)
      && (s.runs[id].done < |s.runs[id].targets| && s.runs[id].targets[s.runs[id].done] !in s.lists ==>
            ReportsItsWork(Next(s, Read(id)), id, start))
    ensures CanWrite(s, id) ==>
      && Next(s, LostWrite(id, applied)).runs[id].phase == Failed
      && (ReportsItsWork(Next(s, LostWrite(id, applied)), id, start)
          <==> CountsEarly(s.runs[id].change) == (applied && TakesEffect(s, id)))
    ensures CanWrite(s, id) && !TakesEffect(s, id) ==>
      && Next(s, Write(id)).runs[id].phase == Failed
      && (ReportsItsWork(Next(s, Write(id)), id, start) <==> s.runs[id].change.DeleteBroad?)
  {
    hide Execute, Replay, WorkOf, SerialAdded, SerialRemoved, AddedBy, RemovedBy, Revised, WorkIsPrefix, EntriesAreOwned;
    ExecutionKeepsInv(start, steps);
    if CanWrite(s, id) {
      var r := s.runs[id];
      var target := r.targets[r.done];
      AppendedWork(s.log, Entry(target, ByTask(id, r.change)), id, start);
      WorkToDo(r.phase.read.list, r.change);
    }
  }

  lemma WorkToDo(list: SecurityList, change: Change)
    requires NeedsUpdate(list, change)
    ensures AddedBy(list.ingress, change) + RemovedBy(list.ingress, change) > 0
  {
  }

  /** A run that is over reports the same for ever, and nothing more is done in its name. */
  lemma FinishedRunsStayFinished(start: map<string, Stored>, steps: seq<Step>, s: State, id: nat, step: Step)
    requires s == Execute(Start(start), steps) && id in s.runs && (s.runs[id].phase == Failed || s.runs[id].phase == Succeeded)
    ensures id in Next(s, step).runs && Next(s, step).runs[id] == s.runs[id]
    ensures WorkOf(Next(s, step).log, id) == WorkOf(s.log, id)
    ensures ReportsItsWork(Next(s, step), id, start) <==> ReportsItsWork(s, id, start)
  {
    hide Execute, Replay, WorkOf, SerialAdded, SerialRemoved, AddedBy, RemovedBy, Revised, NeedsUpdate;
    hide WorkIsPrefix, EntriesAreOwned, CountsAreSerial;
    ExecutionKeepsInv(start, steps);
    var t := Next(s, step);
    if t.log != s.log {
      var e := t.log[|s.log|];
      assert t.log == s.log + [e] && e.list in s.lists && !IsBy(e, id);
      AppendedWork(s.log, e, id, start);
    }
  }

  predicate OnlyTasksTouch(log: seq<Entry>, id: string) {
    forall i :: 0 <= i < |log| && log[i].list == id ==> log[i].effect.ByTask?
  }

  /** Rules added to a list less rules removed from it, over a serial log. */
  function NetCount(log: seq<Entry>, id: string, start: SecurityList): int {
    if log == [] then 0
    else
      var n := |log| - 1;
      var rules := Replay(log[..n], id, start).ingress;
      NetCount(log[..n], id, start)
      + if log[n].list == id && log[n].effect.ByTask?
        then AddedBy(rules, log[n].effect.change) - RemovedBy(rules, log[n].effect.change) else 0
  }

  /** Tasks leave everything but the ingress rules alone, and the rules are accounted for. */
  lemma {:induction false} TasksKeepTheRest(log: seq<Entry>, id: string, start: SecurityList)
    requires OnlyTasksTouch(log, id)
    ensures var end := Replay(log, id, start);
      && end.(ingress := start.ingress) == start
      && |end.ingress| == |start.ingress| + NetCount(log, id, start)
  {
    if log != [] {
      var n := |log| - 1;
      TasksKeepTheRest(log[..n], id, start);
      if log[n].list == id {
        ChangeConservesCount(Replay(log[..n], id, start).ingress, log[n].effect.change);
      }
    }
  }

  /** Neither an edit of the list nor an open that would create a match. */
  predicate NeverReopens(log: seq<Entry>, id: string, key: RuleKey) {
    forall i :: 0 <= i < |log| && log[i].list == id ==>
      && log[i].effect.ByTask?
      && (log[i].effect.change.Open? ==> !Matches(NewRule(log[i].effect.change.key, log[i].effect.change.description), key))
  }

  /** A port that some task closed stays closed until somebody opens it again. */
  lemma {:induction false} ClosedStaysClosed(
    log: seq<Entry>, run: nat, later: seq<Entry>, id: string, key: RuleKey, start: SecurityList)
    requires NeverReopens(later, id, key)
    ensures !HasMatch(Replay(log + [Entry(id, ByTask(run, Close(key)))] + later, id, start).ingress, key)
    decreases |later|
  {
    var closed := log + [Entry(id, ByTask(run, Close(key)))];
    if later == [] {
      assert closed + later == closed;
      AppendedReplay(log, Entry(id, ByTask(run, Close(key))), id, start);
      CloseLeavesNoMatch(Replay(log, id, start).ingress, key);
    } else {
      var n := |later| - 1;
      ClosedStaysClosed(log, run, later[..n], id, key, start);
      assert closed + later == closed + later[..n] + [later[n]];
      AppendedReplay(closed + later[..n], later[n], id, start);
      if later[n].list == id {
        ChangeKeepsClosed(Replay(closed + later[..n], id, start).ingress, later[n].effect.change, key);
      }
    }
  }

  lemma ChangeKeepsClosed(rules: seq<IngressRule>, change: Change, key: RuleKey)
    requires !HasMatch(rules, key)
    requires change.Open? ==> !Matches(NewRule(change.key, change.description), key)
    ensures !HasMatch(Changed(rules, change), key)
  {
    KeptIsPartOf(rules, change);
  }

  lemma {:induction false} KeptIsPartOf(rules: seq<IngressRule>, change: Change)
    ensures forall i :: 0 <= i < |Kept(rules, change)| ==> Kept(rules, change)[i] in rules
  {
    if rules != [] {
      KeptIsPartOf(rules[..|rules| - 1], change);
    }
  }

  /** The counters of an open are raised before the write, so a failed one can report a
      rule that it never added. */
  lemma FailedRunCanOverReport()
    ensures exists start, steps ::
      var s := Execute(Start(start), steps);
      && 0 in s.runs && s.runs[0].phase == Failed && s.runs[0].added == 1
      && WorkOf(s.log, 0) == [] && SerialAdded(s.log, 0, start) == 0
  {
    var key := RuleKey("tcp", 22, 22, "0.0.0.0/0");
    var list := SecurityList("", [], [], map[]);
    var id := "list";
    var start := map[id := Stored(list, 0)];
    var s, steps := OverReportingRun(key, list, id, start);
    NoWorkYet(s.log, 0, start);
  }

  lemma OverReportingRun(key: RuleKey, list: SecurityList, id: string, start: map<string, Stored>) returns (s: State, steps: seq<Step>)
    requires list.ingress == [] && start == map[id := Stored(list, 0)]
    ensures s == Execute(Start(start), steps)
    ensures 0 in s.runs && s.runs[0].phase == Failed && s.runs[0].added == 1
    ensures forall i :: 0 <= i < |s.log| ==> !IsBy(s.log[i], 0)
  {
    hide Execute, Changed, Kept, Matches;
    var a, b, c, d := Begin(0, Open(key, ""), [id]), Read(0), Edit(id, list), Write(0);
    ExecuteOneMore(Start(start), [], a);
    ExecuteOneMore(Start(start), [] + [a], b);
    ExecuteOneMore(Start(start), [] + [a] + [b], c);
    ExecuteOneMore(Start(start), [] + [a] + [b] + [c], d);
    steps := [] + [a] + [b] + [c] + [d];
    s := Execute(Start(start), steps);
    assert Adds(list.ingress, Open(key, ""));
  }

  lemma ExecuteOneMore(s: State, steps: seq<Step>, step: Step)
    ensures Execute(s, []) == s
    ensures Execute(s, steps + [step]) == Next(Execute(s, steps), step)
  {
    assert (steps + [step])[..|steps|] == steps;
  }
}

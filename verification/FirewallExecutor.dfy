/** One firewall task running alone against the cloud: the containers it visits, the
    counters of its result, and what it leaves behind. */
module FirewallExecutor {
  import opened Text
  import opened FirewallRules
  import opened NsgRules

  datatype Vnic = Vnic(subnetId: string, nsgIds: seq<string>)

  /** The error codes of a result; the source spells them with an `OCI_` prefix. */
  datatype ErrorCode =
    | NoError | GetSecurityListFailed | UpdateSecurityListFailed | ListNsgRulesFailed | AddNsgRuleFailed
    | RemoveNsgRuleFailed | ResolveVnicFailed | FirewallNsgMissing | FirewallSubnetMissing | GetSubnetFailed
    | FirewallContainerRequired | FirewallRuleIdRequired | RemoveBroadNsgRuleFailed
    | FirewallContainerTypeInvalid | NotReady | InstanceIdRequired | FirewallActionInvalid | ClientInitFailed
    | FirewallProtocolInvalid | FirewallPortInvalid

  datatype Request = Request(
    instanceId: string, action: string, ports: TaskRequest, targetScope: string,
    containerId: string, containerType: string, ruleId: string, snapshotBefore: bool, description: string)

  // Many security lists ---------------------------------------------------------------

  /** The containers that a list of identifiers names: trimmed, blanks skipped. */
  function Targets(ids: seq<string>): (targets: seq<string>)
    ensures "" !in targets
  {
    if ids == [] then []
    else
      var n := |ids| - 1;
      var id := TrimSpace(ids[n]);
      Targets(ids[..n]) + if id == "" then [] else [id]
  }

  ghost predicate Distinct(targets: seq<string>) {
    forall i, j :: 0 <= i < j < |targets| ==> targets[i] != targets[j]
  }

  function AfterAll(lists: map<string, Stored>, change: Change, targets: seq<string>): map<string, Stored> {
    map id | id in lists :: if id in targets then After(lists[id], change) else lists[id]
  }

  /** A run that stopped half way: some targets changed, nothing else touched. */
  ghost predicate Between(lists: map<string, Stored>, change: Change, targets: seq<string>, later: map<string, Stored>) {
    && later.Keys == lists.Keys
    && forall id :: id in lists ==> later[id] == lists[id] || (id in targets && later[id] == After(lists[id], change))
  }

  /** One list as an undisturbed read and write leave it. */
  ghost predicate ListStep(lists: map<string, Stored>, change: Change, id: string, later: map<string, Stored>) {
    id in lists && later == lists[id := After(lists[id], change)]
  }

  function TotalRules(lists: map<string, Stored>, targets: seq<string>): nat {
    if targets == [] then 0
    else
      var n := |targets| - 1;
      TotalRules(lists, targets[..n]) + if targets[n] in lists then |lists[targets[n]].list.ingress| else 0
  }

  function TotalNsgRules(nsgs: map<string, seq<NsgRule>>, targets: seq<string>): nat {
    if targets == [] then 0
    else
      var n := |targets| - 1;
      TotalNsgRules(nsgs, targets[..n]) + if targets[n] in nsgs then |nsgs[targets[n]]| else 0
  }

  lemma AfterTwice(stored: Stored, change: Change)
    ensures After(After(stored, change), change) == After(stored, change)
  {
    hide Changed, AddedBy, RemovedBy;
    ChangeIsIdempotent(stored.list.ingress, change);
  }

  /** A repeated run finds nothing to do, however often a list is named. */
  lemma AfterAllTwice(lists: map<string, Stored>, change: Change, targets: seq<string>)
    ensures AfterAll(AfterAll(lists, change, targets), change, targets) == AfterAll(lists, change, targets)
    ensures forall id :: id in lists && id in targets ==> !NeedsUpdate(AfterAll(lists, change, targets)[id].list, change)
  {
    hide NeedsUpdate, After;
    forall id | id in lists
      ensures After(After(lists[id], change), change) == After(lists[id], change) && !NeedsUpdate(After(lists[id], change).list, change)
    {
      AfterTwice(lists[id], change);
      AfterNeedsNothing(lists[id], change);
    }
  }

  lemma AfterNeedsNothing(stored: Stored, change: Change)
    ensures !NeedsUpdate(After(stored, change).list, change)
  {
    hide Changed, AddedBy, RemovedBy;
    ChangeIsIdempotent(stored.list.ingress, change);
  }

  /** A close that follows an open of the same key gives back every target that had no
      match at first, and no other target. */
  lemma CloseRestoresUnmatchedTargets(lists: map<string, Stored>, key: RuleKey, description: string, targets: seq<string>, id: string)
    requires id in lists && id in targets
    ensures AfterAll(AfterAll(lists, Open(key, description), targets), Close(key), targets)[id].list == lists[id].list
       <==> !HasMatch(lists[id].list.ingress, key)
  {
    hide AddedBy, RemovedBy, Changed, HasMatch;
    var rules := lists[id].list.ingress;
    CloseUndoesOpen(rules, key, description);
    ChangeConservesCount(rules, Open(key, description));
    ChangeConservesCount(Changed(rules, Open(key, description)), Close(key));
  }

  lemma {:induction false} TotalUnaffected(lists: map<string, Stored>, id: string, stored: Stored, targets: seq<string>)
    requires id !in targets
    ensures TotalRules(lists[id := stored], targets) == TotalRules(lists, targets)
  {
    if targets != [] {
      assert targets == targets[..|targets| - 1] + [targets[|targets| - 1]];
      TotalUnaffected(lists, id, stored, targets[..|targets| - 1]);
    }
  }

  lemma {:induction false} NsgTotalUnaffected(nsgs: map<string, seq<NsgRule>>, id: string, rules: seq<NsgRule>, targets: seq<string>)
    requires id !in targets
    ensures TotalNsgRules(nsgs[id := rules], targets) == TotalNsgRules(nsgs, targets)
  {
    if targets != [] {
      assert targets == targets[..|targets| - 1] + [targets[|targets| - 1]];
      NsgTotalUnaffected(nsgs, id, rules, targets[..|targets| - 1]);
    }
  }

  // One more container ------------------------------------------------------------------

  lemma TargetsOfMore(ids: seq<string>, i: nat)
    requires i < |ids|
    ensures Targets(ids[..i + 1])
         == if TrimSpace(ids[i]) == "" then Targets(ids[..i]) else Targets(ids[..i]) + [TrimSpace(ids[i])]
  {
    assert ids[..i + 1][..i] == ids[..i];
  }

  /** What is known after some targets of a run on security lists. */
  ghost predicate ListsDone(
    lists: map<string, Stored>, change: Change, targets: seq<string>, later: map<string, Stored>,
    snapshot: bool, before: nat, added: nat, removed: nat)
  {
    && (forall t :: t in targets ==> t in lists)
    && later == AfterAll(lists, change, targets)
    && (added + removed == 0 <==> forall t :: t in targets ==> !NeedsUpdate(lists[t].list, change))
    && (Distinct(targets) ==>
          && TotalRules(later, targets) == TotalRules(lists, targets) + added - removed
          && before == if snapshot then TotalRules(lists, targets) else 0)
  }

  lemma OneMoreList(
    lists: map<string, Stored>, change: Change, targets: seq<string>, now: map<string, Stored>,
    snapshot: bool, before: nat, added: nat, removed: nat, id: string, next: map<string, Stored>)
    requires ListsDone(lists, change, targets, now, snapshot, before, added, removed)
    requires ListStep(now, change, id, next)
    ensures var rules := now[id].list.ingress;
      ListsDone(lists, change, targets + [id], next, snapshot, before + if snapshot then |rules| else 0,
                added + AddedBy(rules, change), removed + RemovedBy(rules, change))
  {
    hide Changed, AddedBy, RemovedBy;
    var more := targets + [id];
    assert next == AfterAll(lists, change, more) by {
      AfterTwice(lists[id], change);
    }
    AfterNeedsNothing(lists[id], change);
    OneMoreListCounts(lists, change, targets, now, id);
    assert more[..|more| - 1] == targets;
    assert forall t :: t in more <==> t in targets || t == id;
    if Distinct(more) {
      DistinctPrefix(targets, id);
    }
  }

  lemma DistinctPrefix(targets: seq<string>, id: string)
    requires Distinct(targets + [id])
    ensures Distinct(targets) && id !in targets
  {
    var more := targets + [id];
    assert forall i :: 0 <= i < |targets| ==> more[i] == targets[i];
    assert more[|targets|] == id;
  }

  lemma OneMoreListCounts(lists: map<string, Stored>, change: Change, targets: seq<string>, now: map<string, Stored>, id: string)
    requires now == AfterAll(lists, change, targets) && id in lists
    ensures id !in targets ==>
      TotalRules(now[id := After(now[id], change)], targets + [id])
      == TotalRules(now, targets) + |lists[id].list.ingress|
         + AddedBy(lists[id].list.ingress, change) - RemovedBy(lists[id].list.ingress, change)
    ensures TotalRules(lists, targets + [id]) == TotalRules(lists, targets) + |lists[id].list.ingress|
  {
    hide Changed, AddedBy, RemovedBy;
    assert (targets + [id])[..|targets|] == targets;
    ChangeConservesCount(lists[id].list.ingress, change);
    if id !in targets {
      TotalUnaffected(now, id, After(now[id], change), targets);
    }
  }

  /** What is known after some groups of a run: untouched groups, and, when no group is
      named twice, the step taken by each. */
  ghost predicate NsgsStepped(nsgs: map<string, seq<NsgRule>>, change: Change, targets: seq<string>, later: map<string, seq<NsgRule>>) {
    && later.Keys == nsgs.Keys
    && (forall t :: t in targets ==> t in nsgs)
    && (forall id :: id in nsgs && id !in targets ==> later[id] == nsgs[id])
    && (Distinct(targets) ==> forall t :: t in targets ==> NsgStep(nsgs[t], change, later[t]))
  }

  /** An identified group that one page holds. */
  ghost predicate FitsPage(rules: seq<NsgRule>) {
    Identified(rules) && |rules| <= PAGE_LIMIT
  }

  ghost predicate AllFit(nsgs: map<string, seq<NsgRule>>, targets: seq<string>) {
    forall t :: t in targets ==> t in nsgs && FitsPage(nsgs[t])
  }

  datatype Counts = Counts(listed: nat, added: nat, removed: nat)

  /** What the groups ask for as they were at first. */
  function NsgCounts(nsgs: map<string, seq<NsgRule>>, change: Change, targets: seq<string>): Counts {
    if targets == [] then Counts(0, 0, 0)
    else
      var n := |targets| - 1;
      var c := NsgCounts(nsgs, change, targets[..n]);
      if targets[n] !in nsgs then c
      else
        var rules := nsgs[targets[n]];
        Counts(c.listed + |Page(rules)|, c.added + NsgAdded(rules, change), c.removed + NsgRemoved(rules, change))
  }

  /** The counters: an open only adds and a close only removes, both are zero exactly when
      every group was idle, and when no group is named twice they are what the groups ask
      for, and account for the change of length where each fits the page. */
  ghost predicate NsgsCounted(
    nsgs: map<string, seq<NsgRule>>, change: Change, targets: seq<string>, later: map<string, seq<NsgRule>>,
    snapshot: bool, before: nat, added: nat, removed: nat)
  {
    && (change.Open? ==> removed == 0) && (change.Close? ==> added == 0)
    && (added + removed == 0 <==> forall t :: t in targets && t in nsgs ==> NsgIdle(nsgs[t], change))
    && (added + removed == 0 ==> later == nsgs)
    && (Distinct(targets) ==>
          && Counts(if snapshot then NsgCounts(nsgs, change, targets).listed else 0, added, removed)
             == NsgCounts(nsgs, change, targets).(listed := before))
    && (Distinct(targets) && AllFit(nsgs, targets) ==>
          && TotalNsgRules(later, targets) == TotalNsgRules(nsgs, targets) + added - removed
          && before == if snapshot then TotalNsgRules(nsgs, targets) else 0)
  }

  lemma OneMoreNsg(
    nsgs: map<string, seq<NsgRule>>, change: Change, targets: seq<string>, now: map<string, seq<NsgRule>>, id: string, after: seq<NsgRule>)
    requires NsgsStepped(nsgs, change, targets, now) && id in now && NsgStep(now[id], change, after)
    ensures NsgsStepped(nsgs, change, targets + [id], now[id := after])
  {
    hide NsgStep;
    var more := targets + [id];
    assert forall t :: t in more <==> t in targets || t == id;
    if Distinct(more) {
      DistinctPrefix(targets, id);
    }
  }

  lemma OneMoreNsgCounted(
    nsgs: map<string, seq<NsgRule>>, change: Change, targets: seq<string>, now: map<string, seq<NsgRule>>,
    snapshot: bool, before: nat, added: nat, removed: nat, id: string, after: seq<NsgRule>)
    requires NsgsStepped(nsgs, change, targets, now) && NsgsCounted(nsgs, change, targets, now, snapshot, before, added, removed)
    requires id in now && NsgStep(now[id], change, after)
    ensures NsgsCounted(nsgs, change, targets + [id], now[id := after], snapshot, before + if snapshot then |Page(now[id])| else 0,
                        added + NsgAdded(now[id], change), removed + NsgRemoved(now[id], change))
  {
    hide NsgStep, NsgAdded, NsgRemoved, AllFit, Page, Distinct, TotalNsgRules, NsgsStepped, NsgCounts;
    NsgIdleStep(now[id], change, after);
    NsgCountsByKind(now[id], change);
    SameUpdate(now, id, after);
    assert id in nsgs by { SteppedKeys(nsgs, change, targets, now); }
    assert forall t :: t in targets + [id] <==> t in targets || t == id;
    if Distinct(targets + [id]) {
      NsgNotYetVisited(nsgs, change, targets, now, id);
      NsgCountsOfMore(nsgs, change, targets, id);
      if AllFit(nsgs, targets + [id]) {
        AllFitPrefix(nsgs, targets, id);
        NsgTotalStep(nsgs, change, targets, now, id, after);
      }
    }
    NsgFirstVisit(nsgs, change, targets, now, id);
  }

  lemma SteppedKeys(nsgs: map<string, seq<NsgRule>>, change: Change, targets: seq<string>, now: map<string, seq<NsgRule>>)
    requires NsgsStepped(nsgs, change, targets, now)
    ensures now.Keys == nsgs.Keys
  {
  }

  lemma NsgFirstVisit(nsgs: map<string, seq<NsgRule>>, change: Change, targets: seq<string>, now: map<string, seq<NsgRule>>, id: string)
    requires NsgsStepped(nsgs, change, targets, now) && id in now
    ensures id in nsgs && (id !in targets ==> now[id] == nsgs[id])
  {
  }

  lemma NsgCountsByKind(before: seq<NsgRule>, change: Change)
    ensures change.Open? ==> NsgRemoved(before, change) == 0
    ensures change.Close? ==> NsgAdded(before, change) == 0
  {
  }

  lemma NsgCountsOfMore(nsgs: map<string, seq<NsgRule>>, change: Change, targets: seq<string>, id: string)
    requires id in nsgs
    ensures var c := NsgCounts(nsgs, change, targets);
      NsgCounts(nsgs, change, targets + [id])
      == Counts(c.listed + |Page(nsgs[id])|, c.added + NsgAdded(nsgs[id], change), c.removed + NsgRemoved(nsgs[id], change))
  {
    assert (targets + [id])[..|targets|] == targets;
  }

  lemma SameUpdate(nsgs: map<string, seq<NsgRule>>, id: string, rules: seq<NsgRule>)
    requires id in nsgs
    ensures rules == nsgs[id] ==> nsgs[id := rules] == nsgs
  {
  }

  lemma NsgNotYetVisited(nsgs: map<string, seq<NsgRule>>, change: Change, targets: seq<string>, now: map<string, seq<NsgRule>>, id: string)
    requires NsgsStepped(nsgs, change, targets, now) && id in now && Distinct(targets + [id])
    ensures Distinct(targets) && id !in targets && id in nsgs && now[id] == nsgs[id]
  {
    DistinctPrefix(targets, id);
  }

  lemma NsgTotalStep(
    nsgs: map<string, seq<NsgRule>>, change: Change, targets: seq<string>, now: map<string, seq<NsgRule>>, id: string, after: seq<NsgRule>)
    requires id in now && id in nsgs && now[id] == nsgs[id] && id !in targets
    requires FitsPage(now[id]) && NsgStep(now[id], change, after)
    ensures TotalNsgRules(now[id := after], targets + [id])
         == TotalNsgRules(now, targets) + |now[id]| + NsgAdded(now[id], change) - NsgRemoved(now[id], change)
    ensures TotalNsgRules(nsgs, targets + [id]) == TotalNsgRules(nsgs, targets) + |now[id]|
    ensures Page(now[id]) == now[id]
  {
    hide NsgStep, NsgAdded, NsgRemoved, Page, TotalNsgRules, FitsPage;
    NsgTotalUnaffected(now, id, after, targets);
    NsgTotalOfMore(now[id := after], targets, id);
    NsgTotalOfMore(nsgs, targets, id);
    NsgFittingStep(now[id], change, after);
  }

  lemma AllFitPrefix(nsgs: map<string, seq<NsgRule>>, targets: seq<string>, id: string)
    requires AllFit(nsgs, targets + [id])
    ensures AllFit(nsgs, targets) && id in nsgs && FitsPage(nsgs[id])
  {
    assert id in targets + [id];
    assert forall t :: t in targets ==> t in targets + [id];
  }

  lemma NsgTotalOfMore(nsgs: map<string, seq<NsgRule>>, targets: seq<string>, id: string)
    requires id in nsgs
    ensures TotalNsgRules(nsgs, targets + [id]) == TotalNsgRules(nsgs, targets) + |nsgs[id]|
  {
    assert (targets + [id])[..|targets|] == targets;
  }

  lemma NsgFittingStep(before: seq<NsgRule>, change: Change, after: seq<NsgRule>)
    requires FitsPage(before) && NsgStep(before, change, after)
    ensures |after| == |before| + NsgAdded(before, change) - NsgRemoved(before, change) && Page(before) == before
  {
    NsgStepConservesCount(before, change, after);
  }

  lemma NsgIdleStep(before: seq<NsgRule>, change: Change, after: seq<NsgRule>)
    requires NsgStep(before, change, after)
    ensures NsgAdded(before, change) + NsgRemoved(before, change) == 0 ==> after == before
  {
    if change.Close? && NsgRemoved(before, change) == 0 {
      assert DoomedIds(Page(before), change.key) == [];
      WithoutNoIds(before);
    }
  }

  // The cloud ---------------------------------------------------------------------------

  /** The cloud's containers. Any request may fail; a failed write may still have taken effect.
      `failures` counts the requests that were answered with an error. */
  class Cloud {
    ghost var failures: nat
    var lists: map<string, Stored>
    var nsgs: map<string, seq<NsgRule>>
    const vnic: Vnic
    const subnets: map<string, seq<string>>

    constructor (lists: map<string, Stored>, nsgs: map<string, seq<NsgRule>>, vnic: Vnic, subnets: map<string, seq<string>>)
      ensures this.lists == lists && this.nsgs == nsgs && this.vnic == vnic && this.subnets == subnets && failures == 0
    {
      failures := 0;
      this.lists, this.nsgs, this.vnic, this.subnets := lists, nsgs, vnic, subnets;
    }

    method ResolveVnic() returns (answer: Option<Vnic>)
      modifies this`failures
      ensures failures == old(failures) + if answer.None? then 1 else 0
      ensures answer.Some? ==> answer.value == vnic
    {
      var ok: bool := *;
      answer := if ok then Some(vnic) else None;
      failures := failures + if answer.None? then 1 else 0;
    }

    method GetSubnet(id: string) returns (answer: Option<seq<string>>)
      modifies this`failures
      ensures failures == old(failures) + if answer.None? then 1 else 0
      ensures answer.Some? ==> id in subnets && answer.value == subnets[id]
    {
      var ok: bool := *;
      answer := if ok && id in subnets then Some(subnets[id]) else None;
      failures := failures + if answer.None? then 1 else 0;
    }

    method GetSecurityList(id: string) returns (answer: Option<Stored>)
      modifies this`failures
      ensures failures == old(failures) + if answer.None? then 1 else 0
      ensures answer.Some? ==> id in lists && answer.value == lists[id]
    {
      var ok: bool := *;
      answer := if ok && id in lists then Some(lists[id]) else None;
      failures := failures + if answer.None? then 1 else 0;
    }

    method UpdateSecurityList(id: string, list: SecurityList, ifMatch: nat) returns (ok: bool)
      requires id in lists
      modifies this`lists, this`failures
      ensures failures == old(failures) + if ok then 0 else 1
      ensures ok ==> old(lists)[id].etag == ifMatch
      ensures ok ==> lists == old(lists)[id := Stored(list, ifMatch + 1)]
      ensures !ok ==> lists == old(lists) || (old(lists)[id].etag == ifMatch && lists == old(lists)[id := Stored(list, ifMatch + 1)])
    {
      var reached, acknowledged: bool := *, *;
      ok := reached && acknowledged && lists[id].etag == ifMatch;
      failures := failures + if ok then 0 else 1;
      if reached && lists[id].etag == ifMatch {
        lists := lists[id := Stored(list, ifMatch + 1)];
      }
    }

    method ListNsgRules(id: string) returns (answer: Option<seq<NsgRule>>)
      modifies this`failures
      ensures failures == old(failures) + if answer.None? then 1 else 0
      ensures answer.Some? ==> id in nsgs && answer.value == Page(nsgs[id])
    {
      var ok: bool := *;
      answer := if ok && id in nsgs then Some(Page(nsgs[id])) else None;
      failures := failures + if answer.None? then 1 else 0;
    }

    /** The cloud chooses the identifier of a new rule. */
    method AddNsgRule(id: string, rule: IngressRule) returns (ok: bool, name: string)
      requires id in nsgs
      modifies this`nsgs, this`failures
      ensures failures == old(failures) + if ok then 0 else 1
      ensures ok ==> nsgs == old(nsgs)[id := old(nsgs)[id] + [NsgRule(Some(name), true, rule)]]
      ensures !ok ==> nsgs == old(nsgs) || nsgs == old(nsgs)[id := old(nsgs)[id] + [NsgRule(Some(name), true, rule)]]
    {
      var reached, acknowledged: bool := *, *;
      name := *;
      ok := reached && acknowledged;
      failures := failures + if ok then 0 else 1;
      if reached {
        nsgs := nsgs[id := nsgs[id] + [NsgRule(Some(name), true, rule)]];
      }
    }

    method RemoveNsgRules(id: string, ids: seq<string>) returns (ok: bool)
      modifies this`nsgs, this`failures
      ensures failures == old(failures) + if ok then 0 else 1
      ensures ok ==> id in old(nsgs) && nsgs == old(nsgs)[id := WithoutIds(old(nsgs)[id], ids)]
      ensures !ok ==> nsgs == old(nsgs) || (id in old(nsgs) && nsgs == old(nsgs)[id := WithoutIds(old(nsgs)[id], ids)])
    {
      var reached, acknowledged: bool := *, *;
      ok := reached && acknowledged && id in nsgs;
      failures := failures + if ok then 0 else 1;
      if reached && id in nsgs {
        nsgs := nsgs[id := WithoutIds(nsgs[id], ids)];
      }
    }
  }

  // The task ----------------------------------------------------------------------------

  function Action(request: Request): string {
    ToLower(TrimSpace(request.action))
  }

  function TaskChange(request: Request): Change {
    var seen := Normalized(request.ports);
    var key := RuleKey(seen.protocol, seen.portMin, seen.portMax, seen.source);
    if Action(request) == "open" then Open(key, request.description)
    else if Action(request) == "close" then Close(key)
    else DeleteBroad
  }

  function Scope(request: Request): string {
    DefaultString(ToLower(TrimSpace(request.targetScope)), "auto")
  }

  /** Security groups are used when the scope allows it and the VNIC has some. */
  predicate UsesNsgs(request: Request, vnic: Vnic) {
    (Scope(request) == "auto" || Scope(request) == "nsg") && vnic.nsgIds != []
  }

  class TaskResult {
    const snapshotBefore: bool
    var verified: bool
    var rulesBefore: nat
    var addedRules: nat
    var removedRules: nat
    var noop: bool
    var errorCode: ErrorCode
    var usedSecurityList: bool
    var usedNetworkSecurity: bool

    constructor (snapshotBefore: bool)
      ensures this.snapshotBefore == snapshotBefore
      ensures !verified && rulesBefore == addedRules == removedRules == 0 && !noop && errorCode == NoError
      ensures !usedSecurityList && !usedNetworkSecurity
    {
      this.snapshotBefore := snapshotBefore;
      verified, rulesBefore, addedRules, removedRules, noop, errorCode := false, 0, 0, 0, false, NoError;
      usedSecurityList, usedNetworkSecurity := false, false;
    }
  }

  method HasMatchingIngressRule(rules: seq<IngressRule>, key: RuleKey) returns (found: bool)
    ensures found <==> HasMatch(rules, key)
  {
    for i := 0 to |rules|
      invariant !HasMatch(rules[..i], key)
    {
      if Matches(rules[i], key) {
        return true;
      }
    }
    assert rules[..|rules|] == rules;
    return false;
  }

  /** The loop that rebuilds a rule list without the rules a change removes. */
  method RebuildRules(rules: seq<IngressRule>, change: Change) returns (next: seq<IngressRule>, removed: nat)
    ensures next == Kept(rules, change) && removed == RemovedBy(rules, change)
  {
    next, removed := [], 0;
    for i := 0 to |rules|
      invariant next == Kept(rules[..i], change) && removed == i - |next|
    {
      assert rules[..i + 1][..i] == rules[..i];
      if Removes(change, rules[i]) {
        removed := removed + 1;
      } else {
        next := next + [rules[i]];
      }
    }
    assert rules[..|rules|] == rules;
  }

  method HasMatchingNsgRule(rules: seq<NsgRule>, key: RuleKey) returns (found: bool)
    ensures found <==> NsgHasMatch(rules, key)
  {
    for i := 0 to |rules|
      invariant !NsgHasMatch(rules[..i], key)
    {
      if NsgMatches(rules[i], key) {
        return true;
      }
    }
    assert rules[..|rules|] == rules;
    return false;
  }

  method CollectNsgIds(rules: seq<NsgRule>, key: RuleKey) returns (ids: seq<string>)
    ensures ids == DoomedIds(rules, key)
  {
    ids := [];
    for i := 0 to |rules|
      invariant ids == DoomedIds(rules[..i], key)
    {
      assert rules[..i + 1][..i] == rules[..i];
      if NsgMatches(rules[i], key) && StringValue(rules[i].id) != "" {
        ids := ids + [StringValue(rules[i].id)];
      }
    }
    assert rules[..|rules|] == rules;
  }

  /** One security list: read, compute, write back unless nothing changed. The counters
      are raised before the write is known to have succeeded. */
  method ApplyToSecurityList(cloud: Cloud, result: TaskResult, change: Change, id: string) returns (ok: bool)
    requires id != "" && !change.DeleteBroad?
    modifies cloud`lists, cloud`failures, result`rulesBefore, result`addedRules, result`removedRules, result`errorCode
    ensures cloud.failures == old(cloud.failures) + if ok then 0 else 1
    ensures ok ==>
      && ListStep(old(cloud.lists), change, id, cloud.lists)
      && result.errorCode == old(result.errorCode)
      && result.addedRules == old(result.addedRules) + AddedBy(old(cloud.lists)[id].list.ingress, change)
      && result.removedRules == old(result.removedRules) + RemovedBy(old(cloud.lists)[id].list.ingress, change)
      && result.rulesBefore == old(result.rulesBefore) + if result.snapshotBefore then |old(cloud.lists)[id].list.ingress| else 0
    ensures !ok ==>
      && result.errorCode != NoError
      && (cloud.lists == old(cloud.lists) || ListStep(old(cloud.lists), change, id, cloud.lists))
  {
    hide Kept, Removes, Matches;
    var response := cloud.GetSecurityList(id);
    if response.None? {
      result.errorCode := GetSecurityListFailed;
      return false;
    }
    var stored := response.value;
    var rules := stored.list.ingress;
    if result.snapshotBefore {
      result.rulesBefore := result.rulesBefore + |rules|;
    }
    var changed := false;
    if change.Open? {
      OpenRemovesNothing(rules, change);
      var found := HasMatchingIngressRule(rules, change.key);
      if !found {
        rules := rules + [NewRule(change.key, change.description)];
        result.addedRules := result.addedRules + 1;
        changed := true;
      }
    } else {
      var next, removed := RebuildRules(rules, change);
      result.removedRules := result.removedRules + removed;
      changed := removed > 0;
      rules := next;
    }
    assert changed <==> NeedsUpdate(stored.list, change);
    if !changed {
      return true;
    }
    assert stored.list.(ingress := rules) == Revised(stored.list, change);
    ok := cloud.UpdateSecurityList(id, stored.list.(ingress := rules), stored.etag);
    if !ok {
      result.errorCode := UpdateSecurityListFailed;
    }
  }

  /** A forced delete on one security list; here the counter waits for the write. */
  method DeleteBroadFromSecurityList(cloud: Cloud, result: TaskResult, id: string) returns (ok: bool)
    modifies cloud`lists, cloud`failures, result`rulesBefore, result`removedRules, result`errorCode, result`usedSecurityList
    ensures cloud.failures == old(cloud.failures) + if ok then 0 else 1
    ensures ok ==>
      && ListStep(old(cloud.lists), DeleteBroad, id, cloud.lists)
      && result.errorCode == old(result.errorCode)
      && result.removedRules ==
           (var removed := RemovedBy(old(cloud.lists)[id].list.ingress, DeleteBroad);
            if removed == 0 then old(result.removedRules) else removed)
      && result.rulesBefore == old(result.rulesBefore) + if result.snapshotBefore then |old(cloud.lists)[id].list.ingress| else 0
    ensures !ok ==>
      && result.errorCode != NoError && result.removedRules == old(result.removedRules)
      && (cloud.lists == old(cloud.lists) || ListStep(old(cloud.lists), DeleteBroad, id, cloud.lists))
  {
    hide Kept, Removes;
    var response := cloud.GetSecurityList(id);
    if response.None? {
      result.errorCode := GetSecurityListFailed;
      return false;
    }
    var stored := response.value;
    if result.snapshotBefore {
      result.rulesBefore := result.rulesBefore + |stored.list.ingress|;
    }
    var next, removed := RebuildRules(stored.list.ingress, DeleteBroad);
    if removed == 0 {
      return true;
    }
    ok := cloud.UpdateSecurityList(id, stored.list.(ingress := next), stored.etag);
    if !ok {
      result.errorCode := UpdateSecurityListFailed;
      return;
    }
    result.removedRules := removed;
    result.usedSecurityList := true;
  }

  /** One security group; rules are added and removed by requests of their own. */
  method ApplyToNsg(cloud: Cloud, result: TaskResult, change: Change, id: string) returns (ok: bool)
    requires id != "" && !change.DeleteBroad?
    modifies cloud`nsgs, cloud`failures, result`rulesBefore, result`addedRules, result`removedRules, result`errorCode
    ensures cloud.failures == old(cloud.failures) + if ok then 0 else 1
    ensures cloud.nsgs.Keys == old(cloud.nsgs).Keys
    ensures forall other :: other in cloud.nsgs && other != id ==> cloud.nsgs[other] == old(cloud.nsgs)[other]
    ensures ok ==>
      && id in old(cloud.nsgs)
      && NsgStep(old(cloud.nsgs)[id], change, cloud.nsgs[id])
      && result.errorCode == old(result.errorCode)
      && result.addedRules == old(result.addedRules) + NsgAdded(old(cloud.nsgs)[id], change)
      && result.removedRules == old(result.removedRules) + NsgRemoved(old(cloud.nsgs)[id], change)
      && result.rulesBefore == old(result.rulesBefore) + if result.snapshotBefore then |Page(old(cloud.nsgs)[id])| else 0
    ensures !ok ==>
      && result.errorCode != NoError
      && (cloud.nsgs == old(cloud.nsgs) || (id in old(cloud.nsgs) && NsgStep(old(cloud.nsgs)[id], change, cloud.nsgs[id])))
  {
    hide NsgMatches, DoomedIds, WithoutIds, NewRule, Page;
    var response := cloud.ListNsgRules(id);
    if response.None? {
      result.errorCode := ListNsgRulesFailed;
      return false;
    }
    var page := response.value;
    if result.snapshotBefore {
      result.rulesBefore := result.rulesBefore + |page|;
    }
    if change.Open? {
      var found := HasMatchingNsgRule(page, change.key);
      if found {
        return true;
      }
      var name;
      ok, name := cloud.AddNsgRule(id, NewRule(change.key, change.description));
      if !ok {
        result.errorCode := AddNsgRuleFailed;
        return;
      }
      result.addedRules := result.addedRules + 1;
      return;
    }
    var ids := CollectNsgIds(page, change.key);
    if ids == [] {
      WithoutNoIds(cloud.nsgs[id]);
      return true;
    }
    ok := cloud.RemoveNsgRules(id, ids);
    if !ok {
      result.errorCode := RemoveNsgRuleFailed;
      return;
    }
    result.removedRules := result.removedRules + |ids|;
  }

  lemma {:induction false} WithoutNoIds(rules: seq<NsgRule>)
    ensures WithoutIds(rules, []) == rules
  {
    if rules != [] {
      WithoutNoIds(rules[..|rules| - 1]);
      assert rules == rules[..|rules| - 1] + [rules[|rules| - 1]];
    }
  }

  /** The security lists of a subnet, one after another; an error stops the run. */
  method ApplyToSecurityLists(cloud: Cloud, result: TaskResult, change: Change, ids: seq<string>) returns (ok: bool)
    requires !change.DeleteBroad?
    requires result.rulesBefore == result.addedRules == result.removedRules == 0
    modifies cloud`lists, cloud`failures, result`rulesBefore, result`addedRules, result`removedRules, result`errorCode
    ensures cloud.failures == old(cloud.failures) + if ok then 0 else 1
    ensures ok ==>
      && ListsDone(old(cloud.lists), change, Targets(ids), cloud.lists,
                   result.snapshotBefore, result.rulesBefore, result.addedRules, result.removedRules)
      && result.errorCode == old(result.errorCode)
    ensures !ok ==>
      && result.errorCode != NoError
      && Between(old(cloud.lists), change, Targets(ids), cloud.lists)
  {
    hide ListsDone, NeedsUpdate, TrimSpace, Targets, ListStep, Between, AddedBy, RemovedBy;
    ghost var start := cloud.lists;
    NoTargets(start, change, result.snapshotBefore);
    for i := 0 to |ids|
      invariant ListsDone(start, change, Targets(ids[..i]), cloud.lists,
                          result.snapshotBefore, result.rulesBefore, result.addedRules, result.removedRules)
      invariant result.errorCode == old(result.errorCode) && cloud.failures == old(cloud.failures)
    {
      TargetsOfMore(ids, i);
      var id := TrimSpace(ids[i]);
      if id != "" {
        ghost var now := cloud.lists;
        ghost var before, added, removed := result.rulesBefore, result.addedRules, result.removedRules;
        ok := ApplyToSecurityList(cloud, result, change, id);
        if ok {
          OneMoreList(start, change, Targets(ids[..i]), now, result.snapshotBefore, before, added, removed, id, cloud.lists);
        } else {
          StoppedBetween(start, change, ids, i, now, result.snapshotBefore, before, added, removed, id, cloud.lists);
          return false;
        }
      }
    }
    assert ids[..|ids|] == ids;
    ok := true;
  }

  lemma NoNsgsDone(nsgs: map<string, seq<NsgRule>>, change: Change, snapshot: bool)
    ensures Targets([]) == []
    ensures NsgsStepped(nsgs, change, [], nsgs) && NsgsCounted(nsgs, change, [], nsgs, snapshot, 0, 0, 0)
  {
  }

  lemma NoTargets(lists: map<string, Stored>, change: Change, snapshot: bool)
    ensures Targets([]) == []
    ensures ListsDone(lists, change, [], lists, snapshot, 0, 0, 0)
  {
  }

  lemma StoppedBetween(
    lists: map<string, Stored>, change: Change, ids: seq<string>, i: nat, now: map<string, Stored>,
    snapshot: bool, before: nat, added: nat, removed: nat, id: string, later: map<string, Stored>)
    requires i < |ids| && id == TrimSpace(ids[i]) && id != ""
    requires ListsDone(lists, change, Targets(ids[..i]), now, snapshot, before, added, removed)
    requires later == now || ListStep(now, change, id, later)
    ensures Between(lists, change, Targets(ids), later)
  {
    hide NeedsUpdate, TrimSpace, After;
    TargetsOfMore(ids, i);
    TargetsGrow(ids, i + 1);
    if id in lists {
      AfterTwice(lists[id], change);
    }
  }

  lemma {:induction false} TargetsGrow(ids: seq<string>, i: nat)
    requires i <= |ids|
    ensures forall t :: t in Targets(ids[..i]) ==> t in Targets(ids)
    decreases |ids| - i
  {
    hide Targets, TrimSpace;
    if i < |ids| {
      TargetsOfMore(ids, i);
      TargetsGrow(ids, i + 1);
    } else {
      assert ids[..i] == ids;
    }
  }

  /** A run on groups that stopped half way: when no group is named twice, each target is as
      it was or has taken its step. */
  ghost predicate NsgsBetween(nsgs: map<string, seq<NsgRule>>, change: Change, targets: seq<string>, later: map<string, seq<NsgRule>>) {
    && later.Keys == nsgs.Keys
    && (forall id :: id in nsgs && id !in targets ==> later[id] == nsgs[id])
    && (Distinct(targets) ==> forall id :: id in nsgs && id in targets ==> later[id] == nsgs[id] || NsgStep(nsgs[id], change, later[id]))
  }

  lemma NsgsStopped(
    nsgs: map<string, seq<NsgRule>>, change: Change, ids: seq<string>, i: nat, now: map<string, seq<NsgRule>>,
    id: string, later: map<string, seq<NsgRule>>)
    requires i < |ids| && id == TrimSpace(ids[i]) && id != ""
    requires NsgsStepped(nsgs, change, Targets(ids[..i]), now)
    requires later.Keys == now.Keys && forall other :: other in now && other != id ==> later[other] == now[other]
    requires later == now || (id in now && NsgStep(now[id], change, later[id]))
    ensures NsgsBetween(nsgs, change, Targets(ids), later)
  {
    hide TrimSpace, NsgStep, Targets, Distinct;
    TargetsOfMore(ids, i);
    TargetsGrow(ids, i);
    TargetsGrow(ids, i + 1);
    if Distinct(Targets(ids)) {
      DistinctTargets(ids, i + 1);
      DistinctPrefix(Targets(ids[..i]), id);
    }
  }

  lemma {:induction false} DistinctTargets(ids: seq<string>, i: nat)
    requires i <= |ids| && Distinct(Targets(ids))
    ensures Distinct(Targets(ids[..i]))
    decreases |ids| - i
  {
    hide Targets, TrimSpace, Distinct;
    if i < |ids| {
      DistinctTargets(ids, i + 1);
      TargetsOfMore(ids, i);
      if TrimSpace(ids[i]) != "" {
        DistinctPrefix(Targets(ids[..i]), TrimSpace(ids[i]));
      }
    } else {
      assert ids[..i] == ids;
    }
  }

  /** The security groups of a VNIC, one after another. */
  method ApplyToNsgs(cloud: Cloud, result: TaskResult, change: Change, ids: seq<string>) returns (ok: bool)
    requires !change.DeleteBroad?
    requires result.rulesBefore == result.addedRules == result.removedRules == 0
    modifies cloud`nsgs, cloud`failures, result`rulesBefore, result`addedRules, result`removedRules, result`errorCode
    ensures cloud.failures == old(cloud.failures) + if ok then 0 else 1
    ensures ok ==>
      && NsgsStepped(old(cloud.nsgs), change, Targets(ids), cloud.nsgs)
      && NsgsCounted(old(cloud.nsgs), change, Targets(ids), cloud.nsgs,
                     result.snapshotBefore, result.rulesBefore, result.addedRules, result.removedRules)
      && result.errorCode == old(result.errorCode)
    ensures !ok ==>
      && result.errorCode != NoError
      && NsgsBetween(old(cloud.nsgs), change, Targets(ids), cloud.nsgs)
  {
    hide TrimSpace, NsgStep, NsgAdded, NsgRemoved, NsgsStepped, NsgsCounted, Targets, Distinct, Page;
    ghost var start := cloud.nsgs;
    NoNsgsDone(start, change, result.snapshotBefore);
    for i := 0 to |ids|
      invariant NsgsStepped(start, change, Targets(ids[..i]), cloud.nsgs)
      invariant NsgsCounted(start, change, Targets(ids[..i]), cloud.nsgs,
                            result.snapshotBefore, result.rulesBefore, result.addedRules, result.removedRules)
      invariant result.errorCode == old(result.errorCode) && cloud.failures == old(cloud.failures)
    {
      TargetsOfMore(ids, i);
      var id := TrimSpace(ids[i]);
      if id != "" {
        ghost var now := cloud.nsgs;
        ghost var before, added, removed := result.rulesBefore, result.addedRules, result.removedRules;
        ok := ApplyToNsg(cloud, result, change, id);
        if !ok {
          NsgsStopped(start, change, ids, i, now, id, cloud.nsgs);
          return;
        }
        assert cloud.nsgs == now[id := cloud.nsgs[id]];
        OneMoreNsg(start, change, Targets(ids[..i]), now, id, cloud.nsgs[id]);
        OneMoreNsgCounted(start, change, Targets(ids[..i]), now, result.snapshotBefore, before, added, removed, id, cloud.nsgs[id]);
      }
    }
    assert ids[..|ids|] == ids;
    ok := true;
  }

  // The whole task ------------------------------------------------------------------------

  predicate IsPortTask(request: Request) {
    Action(request) == "open" || Action(request) == "close"
  }

  /** The request checks of the executor. */
  predicate Accepted(request: Request) {
    && TrimSpace(request.instanceId) != ""
    && if IsPortTask(request) then
         var seen := Normalized(request.ports);
         (seen.protocol == "tcp" || seen.protocol == "udp") && PortsAccepted(seen.portMin, seen.portMax)
       else
         Action(request) == "delete_broad" && NamesContainer(request)
  }

  /** A forced delete names a list, or a group and a rule in it. */
  predicate NamesContainer(request: Request) {
    && TrimSpace(request.containerId) != ""
    && (ContainerType(request) == "security_list" || (ContainerType(request) == "nsg" && TrimSpace(request.ruleId) != ""))
  }

  function ContainerType(request: Request): string {
    ToLower(TrimSpace(request.containerType))
  }

  /** The security lists of the subnet that the VNIC is in. */
  function SubnetLists(cloud: Cloud): seq<string> {
    if cloud.vnic.subnetId in cloud.subnets then cloud.subnets[cloud.vnic.subnetId] else []
  }

  lemma NothingChanged(
    lists: map<string, Stored>, nsgs: map<string, seq<NsgRule>>, change: Change, listTargets: seq<string>, nsgTargets: seq<string>)
    ensures Between(lists, change, listTargets, lists) && NsgsBetween(nsgs, change, nsgTargets, nsgs)
  {
  }

  /** There is something to work on: groups, or a subnet unless only groups were asked for. */
  predicate HasContainers(request: Request, vnic: Vnic) {
    UsesNsgs(request, vnic) || (Scope(request) != "nsg" && vnic.subnetId != "")
  }

  /** An open or close: groups when the VNIC has some and the scope allows, else the subnet's lists. */
  method RunPortTask(cloud: Cloud, result: TaskResult, request: Request, change: Change) returns (ok: bool)
    requires !change.DeleteBroad?
    requires result.rulesBefore == result.addedRules == result.removedRules == 0
    requires !result.usedSecurityList && !result.usedNetworkSecurity && result.errorCode == NoError
    modifies cloud`lists, cloud`nsgs, cloud`failures, result`rulesBefore, result`addedRules, result`removedRules, result`errorCode,
             result`usedSecurityList, result`usedNetworkSecurity
    ensures ok <==> cloud.failures == old(cloud.failures) && HasContainers(request, cloud.vnic)
    ensures cloud.failures >= old(cloud.failures)
    ensures ok <==> result.errorCode == NoError
    ensures ok && UsesNsgs(request, cloud.vnic) ==>
      && result.usedNetworkSecurity && !result.usedSecurityList && cloud.lists == old(cloud.lists)
      && NsgsStepped(old(cloud.nsgs), change, Targets(cloud.vnic.nsgIds), cloud.nsgs)
      && NsgsCounted(old(cloud.nsgs), change, Targets(cloud.vnic.nsgIds), cloud.nsgs,
                     result.snapshotBefore, result.rulesBefore, result.addedRules, result.removedRules)
    ensures ok && !UsesNsgs(request, cloud.vnic) ==>
      && result.usedSecurityList && !result.usedNetworkSecurity && cloud.nsgs == old(cloud.nsgs)
      && ListsDone(old(cloud.lists), change, Targets(SubnetLists(cloud)), cloud.lists,
                   result.snapshotBefore, result.rulesBefore, result.addedRules, result.removedRules)
    ensures !ok ==>
      && Between(old(cloud.lists), change, Targets(SubnetLists(cloud)), cloud.lists)
      && NsgsBetween(old(cloud.nsgs), change, Targets(cloud.vnic.nsgIds), cloud.nsgs)
  {
    hide ListsDone, NsgsStepped, NsgsCounted, NsgStep, Targets, TrimSpace, ToLower, Between, NsgsBetween;
    NothingChanged(cloud.lists, cloud.nsgs, change, Targets(SubnetLists(cloud)), Targets(cloud.vnic.nsgIds));
    var vnic := cloud.ResolveVnic();
    if vnic.None? {
      result.errorCode := ResolveVnicFailed;
      return false;
    }
    if UsesNsgs(request, vnic.value) {
      ok := ApplyToNsgs(cloud, result, change, vnic.value.nsgIds);
      if ok {
        result.usedNetworkSecurity := true;
      }
      return;
    }
    if Scope(request) == "nsg" {
      result.errorCode := FirewallNsgMissing;
      return false;
    }
    if vnic.value.subnetId == "" {
      result.errorCode := FirewallSubnetMissing;
      return false;
    }
    var ids := cloud.GetSubnet(vnic.value.subnetId);
    if ids.None? {
      result.errorCode := GetSubnetFailed;
      return false;
    }
    ok := ApplyToSecurityLists(cloud, result, change, ids.value);
    if ok {
      result.usedSecurityList := true;
    }
  }

  /** The group that a forced delete names has lost the rule it names. */
  ghost predicate RuleDeleted(nsgs: map<string, seq<NsgRule>>, request: Request, later: map<string, seq<NsgRule>>) {
    var id := TrimSpace(request.containerId);
    id in nsgs && later == nsgs[id := WithoutIds(nsgs[id], [TrimSpace(request.ruleId)])]
  }

  /** A forced delete names one container. A group loses the named rule; a security list
      loses all its broad rules. */
  method RunForcedDelete(cloud: Cloud, result: TaskResult, request: Request) returns (ok: bool)
    requires result.rulesBefore == result.removedRules == 0 && result.errorCode == NoError
    modifies cloud`lists, cloud`nsgs, cloud`failures, result`rulesBefore, result`removedRules, result`errorCode,
             result`usedSecurityList, result`usedNetworkSecurity
    ensures ok <==> cloud.failures == old(cloud.failures) && NamesContainer(request)
    ensures cloud.failures >= old(cloud.failures)
    ensures ok <==> result.errorCode == NoError
    ensures ok ==> TrimSpace(request.containerId) != ""
    ensures ok ==> ContainerType(request) == "security_list" || (ContainerType(request) == "nsg" && TrimSpace(request.ruleId) != "")
    ensures ok && ContainerType(request) == "security_list" ==>
      && cloud.nsgs == old(cloud.nsgs)
      && ListStep(old(cloud.lists), DeleteBroad, TrimSpace(request.containerId), cloud.lists)
      && result.removedRules == RemovedBy(old(cloud.lists)[TrimSpace(request.containerId)].list.ingress, DeleteBroad)
      && result.rulesBefore == if result.snapshotBefore then |old(cloud.lists)[TrimSpace(request.containerId)].list.ingress| else 0
    ensures ok && ContainerType(request) == "nsg" ==>
      && cloud.lists == old(cloud.lists) && RuleDeleted(old(cloud.nsgs), request, cloud.nsgs)
      && result.removedRules == 1 && result.rulesBefore == 0
    ensures !ok ==>
      && (cloud.lists == old(cloud.lists) || ListStep(old(cloud.lists), DeleteBroad, TrimSpace(request.containerId), cloud.lists))
      && (cloud.nsgs == old(cloud.nsgs) || RuleDeleted(old(cloud.nsgs), request, cloud.nsgs))
    ensures !Accepted(request) && TrimSpace(request.instanceId) != "" && Action(request) == "delete_broad" ==>
      cloud.lists == old(cloud.lists) && cloud.nsgs == old(cloud.nsgs)
  {
    hide TrimSpace, ToLower, Normalized, Kept, WithoutIds;
    var containerId := TrimSpace(request.containerId);
    if containerId == "" {
      result.errorCode := FirewallContainerRequired;
      return false;
    }
    if ContainerType(request) == "nsg" {
      var ruleId := TrimSpace(request.ruleId);
      if ruleId == "" {
        result.errorCode := FirewallRuleIdRequired;
        return false;
      }
      ok := cloud.RemoveNsgRules(containerId, [ruleId]);
      if !ok {
        result.errorCode := RemoveBroadNsgRuleFailed;
        return;
      }
      result.removedRules := 1;
      result.usedNetworkSecurity := true;
    } else if ContainerType(request) == "security_list" {
      ok := DeleteBroadFromSecurityList(cloud, result, containerId);
    } else {
      result.errorCode := FirewallContainerTypeInvalid;
      return false;
    }
  }

  /** What a verified task has done to the cloud, and what its counters mean. */
  ghost predicate Performed(
    cloud: Cloud, request: Request, lists: map<string, Stored>, nsgs: map<string, seq<NsgRule>>, result: TaskResult)
    reads cloud, result
  {
    if !IsPortTask(request) then
      var id := TrimSpace(request.containerId);
      if ContainerType(request) == "nsg" then
        && cloud.lists == lists && RuleDeleted(nsgs, request, cloud.nsgs)
        && result.removedRules == 1 && result.rulesBefore == 0
      else
        && cloud.nsgs == nsgs && ListStep(lists, DeleteBroad, id, cloud.lists)
        && result.removedRules == RemovedBy(lists[id].list.ingress, DeleteBroad)
        && result.rulesBefore == if result.snapshotBefore then |lists[id].list.ingress| else 0
    else if UsesNsgs(request, cloud.vnic) then
      && cloud.lists == lists && result.usedNetworkSecurity && !result.usedSecurityList
      && NsgsStepped(nsgs, TaskChange(request), Targets(cloud.vnic.nsgIds), cloud.nsgs)
      && NsgsCounted(nsgs, TaskChange(request), Targets(cloud.vnic.nsgIds), cloud.nsgs,
                     result.snapshotBefore, result.rulesBefore, result.addedRules, result.removedRules)
    else
      && cloud.nsgs == nsgs && result.usedSecurityList && !result.usedNetworkSecurity
      && ListsDone(lists, TaskChange(request), Targets(SubnetLists(cloud)), cloud.lists,
                   result.snapshotBefore, result.rulesBefore, result.addedRules, result.removedRules)
  }

  /** What a task that ended in an error can have done. */
  ghost predicate Interrupted(cloud: Cloud, request: Request, lists: map<string, Stored>, nsgs: map<string, seq<NsgRule>>)
    reads cloud
  {
    if IsPortTask(request) then
      && Between(lists, TaskChange(request), Targets(SubnetLists(cloud)), cloud.lists)
      && NsgsBetween(nsgs, TaskChange(request), Targets(cloud.vnic.nsgIds), cloud.nsgs)
    else
      && (cloud.lists == lists || ListStep(lists, DeleteBroad, TrimSpace(request.containerId), cloud.lists))
      && (cloud.nsgs == nsgs || RuleDeleted(nsgs, request, cloud.nsgs))
  }

  // The outcome, from the request's own fields

  /** A rule for exactly the protocol, destination ports and source that a request names. */
  predicate IsRuleFor(rule: IngressRule, ports: TaskRequest) {
    var udp := ToLower(TrimSpace(ports.protocol)) == "udp";
    var options := if udp then rule.udp else rule.tcp;
    && StringValue(rule.protocol) == (if udp then "17" else "6")
    && StringValue(rule.source) == (if ports.source == "" then "0.0.0.0/0" else ports.source)
    && options.Some? && options.value.destination.Some?
    && options.value.destination.value == PortRange(Some(ports.portMin), Some(if ports.portMax <= 0 then ports.portMin else ports.portMax))
  }

  predicate HasRuleFor(rules: seq<IngressRule>, ports: TaskRequest) {
    exists i :: 0 <= i < |rules| && IsRuleFor(rules[i], ports)
  }

  /** The rules for anything else, in their order. */
  function OtherRules(rules: seq<IngressRule>, ports: TaskRequest): seq<IngressRule> {
    if rules == [] then []
    else
      var n := |rules| - 1;
      OtherRules(rules[..n], ports) + if IsRuleFor(rules[n], ports) then [] else [rules[n]]
  }

  /** An open leaves a list with such a rule, one more only if it had none; a close leaves it
      with none. All its other rules and fields are as they were. */
  ghost predicate ListIsAsAsked(before: SecurityList, ports: TaskRequest, open: bool, after: SecurityList) {
    && (HasRuleFor(after.ingress, ports) <==> open)
    && OtherRules(after.ingress, ports) == OtherRules(before.ingress, ports)
    && (open ==> |after.ingress| == |before.ingress| + if HasRuleFor(before.ingress, ports) then 0 else 1)
    && after.(ingress := before.ingress) == before
  }

  predicate NsgIsRuleFor(rule: NsgRule, ports: TaskRequest) {
    rule.ingress && IsRuleFor(rule.rule, ports)
  }

  /** The same for an identified group, in which a close cannot see past the page. */
  ghost predicate GroupIsAsAsked(before: seq<NsgRule>, ports: TaskRequest, open: bool, after: seq<NsgRule>) {
    Identified(before) ==>
      ((exists i :: 0 <= i < |after| && NsgIsRuleFor(after[i], ports))
       <==> open || exists i :: 200 <= i < |before| && NsgIsRuleFor(before[i], ports))
  }

  /** The VNIC has groups, and the scope is left open or asks for them. */
  predicate GroupsAreMeant(request: Request, vnic: Vnic) {
    vnic.nsgIds != [] && ToLower(TrimSpace(request.targetScope)) in {"", "auto", "nsg"}
  }

  /** Which containers a verified open or close has worked on, and how it leaves them. */
  ghost predicate PortIsAsAsked(cloud: Cloud, request: Request, lists: map<string, Stored>, nsgs: map<string, seq<NsgRule>>)
    reads cloud
  {
    var open := ToLower(TrimSpace(request.action)) == "open";
    if GroupsAreMeant(request, cloud.vnic) then
      && cloud.lists == lists && cloud.nsgs.Keys == nsgs.Keys
      && (Distinct(Targets(cloud.vnic.nsgIds)) ==> forall id :: id in Targets(cloud.vnic.nsgIds) ==>
            id in nsgs && GroupIsAsAsked(nsgs[id], request.ports, open, cloud.nsgs[id]))
    else
      && cloud.nsgs == nsgs && cloud.lists.Keys == lists.Keys
      && forall id :: id in Targets(SubnetLists(cloud)) ==>
           id in lists && ListIsAsAsked(lists[id].list, request.ports, open, cloud.lists[id].list)
  }

  /** The key that the executor makes of a request stands for exactly those rules. */
  lemma KeyStandsForRule(request: Request)
    requires Accepted(request) && IsPortTask(request)
    ensures TaskChange(request).Open? <==> ToLower(TrimSpace(request.action)) == "open"
    ensures TaskChange(request).Close? <==> ToLower(TrimSpace(request.action)) != "open"
    ensures !TaskChange(request).DeleteBroad?
    ensures forall rule :: Matches(rule, TaskChange(request).key) <==> IsRuleFor(rule, request.ports)
  {
    hide TrimSpace;
    assert ToLower("udp") == "udp" && ToLower("tcp") == "tcp" by { KnownProtocols(); }
    hide ToLower;
    forall rule
      ensures Matches(rule, TaskChange(request).key) <==> IsRuleFor(rule, request.ports)
    {
    }
  }

  lemma {:induction false} OtherRulesAreKept(rules: seq<IngressRule>, ports: TaskRequest, key: RuleKey)
    requires forall rule :: Matches(rule, key) <==> IsRuleFor(rule, ports)
    ensures OtherRules(rules, ports) == Kept(rules, Close(key))
    ensures HasRuleFor(rules, ports) <==> HasMatch(rules, key)
  {
    hide Matches, IsRuleFor;
    if rules != [] {
      OtherRulesAreKept(rules[..|rules| - 1], ports, key);
    }
  }

  lemma ListChangedAsAsked(stored: Stored, change: Change, ports: TaskRequest)
    requires !change.DeleteBroad? && forall rule :: Matches(rule, change.key) <==> IsRuleFor(rule, ports)
    ensures ListIsAsAsked(stored.list, ports, change.Open?, After(stored, change).list)
  {
    hide Matches, IsRuleFor, HasMatch, Kept, OtherRules, HasRuleFor;
    var rules := stored.list.ingress;
    OtherRulesAreKept(rules, ports, change.key);
    OtherRulesAreKept(Changed(rules, change), ports, change.key);
    ChangedAsAsked(rules, change);
    ChangeConservesCount(rules, change);
    if change.Open? {
      OpenRemovesNothing(rules, change);
    }
    hide Changed;
  }

  lemma GroupChangedAsAsked(before: seq<NsgRule>, change: Change, ports: TaskRequest, after: seq<NsgRule>)
    requires !change.DeleteBroad? && forall rule :: Matches(rule, change.key) <==> IsRuleFor(rule, ports)
    requires NsgStep(before, change, after)
    ensures GroupIsAsAsked(before, ports, change.Open?, after)
  {
    hide Matches, IsRuleFor, NsgStep, Identified, NsgOthers;
    if Identified(before) {
      NsgStepIsAsAsked(before, change, after);
      assert forall rule :: NsgMatches(rule, change.key) <==> NsgIsRuleFor(rule, ports);
      hide NsgMatches, NsgIsRuleFor;
    }
  }

  ghost predicate KeyIsFor(key: RuleKey, ports: TaskRequest) {
    forall rule :: Matches(rule, key) <==> IsRuleFor(rule, ports)
  }

  lemma ListsAreAsAsked(
    lists: map<string, Stored>, change: Change, targets: seq<string>, later: map<string, Stored>,
    snapshot: bool, before: nat, added: nat, removed: nat, ports: TaskRequest)
    requires ListsDone(lists, change, targets, later, snapshot, before, added, removed)
    requires !change.DeleteBroad? && KeyIsFor(change.key, ports)
    ensures later.Keys == lists.Keys
    ensures forall id :: id in targets ==> id in lists && ListIsAsAsked(lists[id].list, ports, change.Open?, later[id].list)
  {
    hide ListIsAsAsked, IsRuleFor, Matches, After, NeedsUpdate, TotalRules;
    forall id | id in targets
      ensures id in lists && ListIsAsAsked(lists[id].list, ports, change.Open?, later[id].list)
    {
      ListChangedAsAsked(lists[id], change, ports);
    }
  }

  lemma GroupsAreAsAsked(
    nsgs: map<string, seq<NsgRule>>, change: Change, targets: seq<string>, later: map<string, seq<NsgRule>>, ports: TaskRequest)
    requires NsgsStepped(nsgs, change, targets, later)
    requires !change.DeleteBroad? && KeyIsFor(change.key, ports)
    ensures later.Keys == nsgs.Keys
    ensures Distinct(targets) ==> forall id :: id in targets ==> id in nsgs && GroupIsAsAsked(nsgs[id], ports, change.Open?, later[id])
  {
    hide GroupIsAsAsked, IsRuleFor, Matches, NsgStep, Distinct;
    if Distinct(targets) {
      forall id | id in targets
        ensures id in nsgs && GroupIsAsAsked(nsgs[id], ports, change.Open?, later[id])
      {
        GroupChangedAsAsked(nsgs[id], change, ports, later[id]);
      }
    }
  }

  lemma VerifiedPortTask(
    cloud: Cloud, request: Request, lists: map<string, Stored>, nsgs: map<string, seq<NsgRule>>, result: TaskResult)
    requires Accepted(request) && IsPortTask(request) && Performed(cloud, request, lists, nsgs, result)
    ensures PortIsAsAsked(cloud, request, lists, nsgs)
  {
    hide ListIsAsAsked, GroupIsAsAsked, IsRuleFor, Matches, Targets, Distinct, NsgsCounted, ListsDone, NsgsStepped;
    hide Accepted, TaskChange, TrimSpace, ToLower, UsesNsgs, GroupsAreMeant, IsPortTask, SubnetLists;
    KeyStandsForRule(request);
    ScopeMeansGroups(request, cloud.vnic);
    var change := TaskChange(request);
    assert KeyIsFor(change.key, request.ports);
    hide KeyIsFor;
    if UsesNsgs(request, cloud.vnic) {
      GroupsAreAsAsked(nsgs, change, Targets(cloud.vnic.nsgIds), cloud.nsgs, request.ports);
    } else {
      ListsAreAsAsked(lists, change, Targets(SubnetLists(cloud)), cloud.lists,
                      result.snapshotBefore, result.rulesBefore, result.addedRules, result.removedRules, request.ports);
    }
  }

  lemma ScopeMeansGroups(request: Request, vnic: Vnic)
    ensures UsesNsgs(request, vnic) <==> GroupsAreMeant(request, vnic)
  {
    hide ToLower, TrimSpace;
  }

  lemma NothingInterrupted(cloud: Cloud, request: Request)
    ensures Interrupted(cloud, request, cloud.lists, cloud.nsgs)
  {
  }

  method ExecuteFirewallTask(cloud: Cloud, request: Request, ready: bool, clientsReady: bool) returns (result: TaskResult)
    modifies cloud`lists, cloud`nsgs, cloud`failures
    ensures fresh(result) && result.snapshotBefore == request.snapshotBefore
    ensures result.verified <==> result.errorCode == NoError
    ensures result.verified <==>
      && ready && clientsReady && Accepted(request) && cloud.failures == old(cloud.failures)
      && (IsPortTask(request) ==> HasContainers(request, cloud.vnic))
    ensures result.verified && ToLower(TrimSpace(request.action)) in {"open", "close"} ==>
      PortIsAsAsked(cloud, request, old(cloud.lists), old(cloud.nsgs))
    ensures result.verified ==> Performed(cloud, request, old(cloud.lists), old(cloud.nsgs), result)
    ensures result.verified ==> (result.noop <==> result.addedRules == 0 && result.removedRules == 0)
    ensures !result.verified ==> !result.noop && Interrupted(cloud, request, old(cloud.lists), old(cloud.nsgs))
    ensures !Accepted(request) ==> cloud.lists == old(cloud.lists) && cloud.nsgs == old(cloud.nsgs)
  {
    hide TrimSpace, ToLower, ListsDone, NsgsStepped, NsgsCounted, Between, NsgsBetween, RuleDeleted, Targets, WithoutIds, Kept, ListStep;
    hide PortIsAsAsked, HasContainers;
    result := new TaskResult(request.snapshotBefore);
    NothingInterrupted(cloud, request);
    if !ready {
      result.errorCode := NotReady;
      return;
    }
    if TrimSpace(request.instanceId) == "" {
      result.errorCode := InstanceIdRequired;
      return;
    }
    if !IsPortTask(request) && Action(request) != "delete_broad" {
      result.errorCode := FirewallActionInvalid;
      return;
    }
    if !clientsReady {
      result.errorCode := ClientInitFailed;
      return;
    }
    var ok;
    if Action(request) == "delete_broad" {
      ok := RunForcedDelete(cloud, result, request);
      if ok {
        result.noop := result.removedRules == 0;
        result.verified := true;
      }
      return;
    }
    var seen := Normalized(request.ports);
    if seen.protocol != "tcp" && seen.protocol != "udp" {
      result.errorCode := FirewallProtocolInvalid;
      return;
    }
    if !PortsAccepted(seen.portMin, seen.portMax) {
      result.errorCode := FirewallPortInvalid;
      return;
    }
    ok := RunPortTask(cloud, result, request, TaskChange(request));
    if ok {
      result.noop := result.addedRules == 0 && result.removedRules == 0;
      result.verified := true;
      VerifiedPortTask(cloud, request, old(cloud.lists), old(cloud.nsgs), result);
    }
  }

  // What a verified run means ---------------------------------------------------------------

  /** After a verified open or close of security lists every target has the port open or
      closed as asked, its other rules are all there in their order, nothing but ingress
      rules differs, and no other list was touched. */
  lemma VerifiedListsAreAsAsked(
    lists: map<string, Stored>, change: Change, targets: seq<string>, later: map<string, Stored>,
    snapshot: bool, before: nat, added: nat, removed: nat, id: string)
    requires ListsDone(lists, change, targets, later, snapshot, before, added, removed) && !change.DeleteBroad? && id in lists
    ensures id !in targets ==> later[id] == lists[id]
    ensures id in targets ==>
      && (HasMatch(later[id].list.ingress, change.key) <==> change.Open?)
      && Kept(later[id].list.ingress, Close(change.key)) == Kept(lists[id].list.ingress, Close(change.key))
      && later[id].list.(ingress := lists[id].list.ingress) == lists[id].list
  {
    if id in targets {
      hide ListsDone, TotalRules, Kept, Matches, HasMatch;
      assert later[id] == After(lists[id], change) by {
        ListsDoneIsAfterAll(lists, change, targets, later, snapshot, before, added, removed);
      }
      ChangedAsAsked(lists[id].list.ingress, change);
    }
  }

  lemma ListsDoneIsAfterAll(
    lists: map<string, Stored>, change: Change, targets: seq<string>, later: map<string, Stored>,
    snapshot: bool, before: nat, added: nat, removed: nat)
    requires ListsDone(lists, change, targets, later, snapshot, before, added, removed)
    ensures later == AfterAll(lists, change, targets)
  {
  }

  lemma ChangedAsAsked(rules: seq<IngressRule>, change: Change)
    requires !change.DeleteBroad?
    ensures HasMatch(Changed(rules, change), change.key) <==> change.Open?
    ensures Kept(Changed(rules, change), Close(change.key)) == Kept(rules, Close(change.key))
    ensures AddedBy(rules, change) + RemovedBy(rules, change) == 0 ==> Changed(rules, change) == rules
  {
    hide Kept, HasMatch, Changed, AddedBy, RemovedBy;
    ChangeConservesCount(rules, change);
    match change
    case Open(key, description) =>
      OpenProvidesMatch(rules, key, description);
      OtherRulesKeepOrder(rules, key, description);
    case Close(key) =>
      CloseLeavesNoMatch(rules, key);
      OtherRulesKeepOrder(rules, key, "");
  }

  /** After a verified open or close of groups, none of them named twice: every identified
      target has its other rules in their order, and the port is open or closed as asked
      except for matches that were past the page; other groups are untouched. */
  lemma VerifiedNsgsAreAsAsked(
    nsgs: map<string, seq<NsgRule>>, change: Change, targets: seq<string>, later: map<string, seq<NsgRule>>, id: string)
    requires NsgsStepped(nsgs, change, targets, later) && Distinct(targets) && !change.DeleteBroad? && id in nsgs
    ensures id !in targets ==> later[id] == nsgs[id]
    ensures id in targets && Identified(nsgs[id]) ==>
      && NsgOthers(later[id], change.key) == NsgOthers(nsgs[id], change.key)
      && (NsgHasMatch(later[id], change.key)
          <==> change.Open? || exists i :: PAGE_LIMIT <= i < |nsgs[id]| && NsgMatches(nsgs[id][i], change.key))
  {
    hide NsgStep, NsgMatches, NsgHasMatch, NsgOthers, Identified;
    if id in targets && Identified(nsgs[id]) {
      NsgStepIsAsAsked(nsgs[id], change, later[id]);
    }
  }

  /** Groups visited once each: the next run is idle exactly where the first was enough. */
  lemma NsgsRepeatIsIdle(
    nsgs: map<string, seq<NsgRule>>, change: Change, targets: seq<string>, now: map<string, seq<NsgRule>>,
    later: map<string, seq<NsgRule>>, snapshot: bool, before: nat, added: nat, removed: nat)
    requires NsgsStepped(nsgs, change, targets, now) && Distinct(targets)
    requires change.Close? ==> forall t :: t in targets && t in nsgs ==> Identified(nsgs[t])
    requires NsgsCounted(now, change, targets, later, snapshot, before, added, removed)
    ensures added + removed == 0 <==> forall t :: t in targets && t in nsgs ==> SettlesAtOnce(nsgs[t], change)
  {
    hide NsgStep, NsgIdle, SettlesAtOnce, Identified, Distinct, TotalNsgRules, NsgCounts, AllFit;
    forall t | t in targets && t in nsgs
      ensures NsgIdle(now[t], change) <==> SettlesAtOnce(nsgs[t], change)
    {
      NsgRepeatIsIdle(nsgs[t], change, now[t]);
    }
  }

  /** The same task twice in a row. On security lists the second run is a no-op and leaves
      them alone. On groups, none of them named twice, it is one exactly when a single run
      was enough for each of them. */
  method RepeatTask(cloud: Cloud, request: Request) returns (first: TaskResult, second: TaskResult)
    requires IsPortTask(request)
    modifies cloud`lists, cloud`nsgs, cloud`failures
    ensures first.verified && second.verified && !UsesNsgs(request, cloud.vnic) ==>
      && second.noop && second.addedRules == second.removedRules == 0
      && cloud.nsgs == old(cloud.nsgs)
      && cloud.lists == AfterAll(old(cloud.lists), TaskChange(request), Targets(SubnetLists(cloud)))
    ensures first.verified && second.verified && UsesNsgs(request, cloud.vnic) ==>
      var change, targets := TaskChange(request), Targets(cloud.vnic.nsgIds);
      && cloud.lists == old(cloud.lists)
      && (Distinct(targets) && (change.Close? ==> forall t :: t in targets && t in old(cloud.nsgs) ==> Identified(old(cloud.nsgs)[t])) ==>
            (second.noop <==> forall t :: t in targets && t in old(cloud.nsgs) ==> SettlesAtOnce(old(cloud.nsgs)[t], change)))
      && (second.noop ==> NsgsStepped(old(cloud.nsgs), change, targets, cloud.nsgs))
  {
    hide Accepted, Targets, After, NeedsUpdate, TotalRules, Distinct, Normalized, ToLower, TrimSpace, WithoutIds, Kept, Interrupted;
    hide NsgsStepped, NsgIdle, NsgCounts, AllFit, TotalNsgRules, SettlesAtOnce, Identified;
    first := ExecuteFirewallTask(cloud, request, true, true);
    ghost var lists, nsgs := cloud.lists, cloud.nsgs;
    second := ExecuteFirewallTask(cloud, request, true, true);
    if first.verified && second.verified {
      ghost var change, targets := TaskChange(request), Targets(cloud.vnic.nsgIds);
      if UsesNsgs(request, cloud.vnic) {
        if Distinct(targets) && (change.Close? ==> forall t :: t in targets && t in old(cloud.nsgs) ==> Identified(old(cloud.nsgs)[t])) {
          NsgsRepeatIsIdle(old(cloud.nsgs), change, targets, nsgs, cloud.nsgs,
                           second.snapshotBefore, second.rulesBefore, second.addedRules, second.removedRules);
        }
      } else {
        AfterAllTwice(old(cloud.lists), change, Targets(SubnetLists(cloud)));
        assert lists == AfterAll(old(cloud.lists), change, Targets(SubnetLists(cloud)));
        assert cloud.lists == AfterAll(lists, change, Targets(SubnetLists(cloud)));
      }
    }
  }
}

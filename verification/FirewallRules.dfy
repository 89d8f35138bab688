/** Security rules of one container: exact matching, the three changes a firewall
    task can make to a rule list, and the inventory shown to the user. */
module FirewallRules {
  import opened Text

  // Cloud records; an absent pointer is None ------------------------------------

  datatype PortRange = PortRange(min: Option<int>, max: Option<int>)

  datatype PortOptions = PortOptions(destination: Option<PortRange>, source: Option<PortRange>)

  datatype IngressRule = IngressRule(
    source: Option<string>,
    protocol: Option<string>,
    tcp: Option<PortOptions>,
    udp: Option<PortOptions>,
    stateless: bool,
    description: Option<string>)

  function StringValue(value: Option<string>): string {
    if value.Some? then value.value else ""
  }

  function IntValue(value: Option<int>): int {
    if value.Some? then value.value else 0
  }

  function DefaultString(value: string, fallback: string): string {
    if value == "" then fallback else value
  }

  // Exact matching ----------------------------------------------------------------

  /** What a firewall task names: a protocol, a destination port range and a source. */
  datatype RuleKey = RuleKey(protocol: string, portMin: int, portMax: int, source: string)

  function ProtocolNumber(protocol: string): string {
    if ToLower(protocol) == "udp" then "17" else "6"
  }

  function ProtocolName(protocol: string): string {
    var name := ToLower(TrimSpace(protocol));
    if name == "6" then "tcp" else if name == "17" then "udp" else name
  }

  predicate RangeIs(options: Option<PortOptions>, portMin: int, portMax: int) {
    && options.Some?
    && options.value.destination.Some?
    && IntValue(options.value.destination.value.min) == portMin
    && IntValue(options.value.destination.value.max) == portMax
  }

  predicate Matches(rule: IngressRule, key: RuleKey) {
    && StringValue(rule.source) == key.source
    && StringValue(rule.protocol) == ProtocolNumber(key.protocol)
    && RangeIs(if key.protocol == "udp" then rule.udp else rule.tcp, key.portMin, key.portMax)
  }

  predicate HasMatch(rules: seq<IngressRule>, key: RuleKey) {
    exists i :: 0 <= i < |rules| && Matches(rules[i], key)
  }

  predicate IsAnySource(source: string) {
    source == "0.0.0.0/0" || source == "::/0"
  }

  /** The rules that a forced delete takes out of a security list. */
  predicate IsBroadIngressRule(rule: IngressRule) {
    && ToLower(TrimSpace(StringValue(rule.protocol))) == "all"
    && IsAnySource(TrimSpace(StringValue(rule.source)))
  }

  function ExactOptions(portMin: int, portMax: int): Option<PortOptions> {
    Some(PortOptions(Some(PortRange(Some(portMin), Some(portMax))), None))
  }

  function NewRule(key: RuleKey, description: string): IngressRule {
    IngressRule(
      Some(key.source), Some(ProtocolNumber(key.protocol)),
      if key.protocol == "udp" then None else ExactOptions(key.portMin, key.portMax),
      if key.protocol == "udp" then ExactOptions(key.portMin, key.portMax) else None,
      false, Some(description))
  }

  // Changes to a rule list --------------------------------------------------------

  datatype Change =
    | Open(key: RuleKey, description: string)
    | Close(key: RuleKey)
    | DeleteBroad

  predicate Removes(change: Change, rule: IngressRule) {
    match change
    case Open(_, _) => false
    case Close(key) => Matches(rule, key)
    case DeleteBroad => IsBroadIngressRule(rule)
  }

  /** The rules that a change leaves in place, in their order. */
  function Kept(rules: seq<IngressRule>, change: Change): (kept: seq<IngressRule>)
    ensures |kept| <= |rules|
  {
    if rules == [] then []
    else
      var n := |rules| - 1;
      Kept(rules[..n], change) + if Removes(change, rules[n]) then [] else [rules[n]]
  }

  predicate Adds(rules: seq<IngressRule>, change: Change) {
    change.Open? && !HasMatch(rules, change.key)
  }

  function Changed(rules: seq<IngressRule>, change: Change): seq<IngressRule> {
    if Adds(rules, change) then rules + [NewRule(change.key, change.description)] else Kept(rules, change)
  }

  function AddedBy(rules: seq<IngressRule>, change: Change): nat {
    if Adds(rules, change) then 1 else 0
  }

  function RemovedBy(rules: seq<IngressRule>, change: Change): nat {
    |rules| - |Kept(rules, change)|
  }

  lemma {:induction false} KeptSurvives(rules: seq<IngressRule>, change: Change)
    ensures forall i :: 0 <= i < |Kept(rules, change)| ==> !Removes(change, Kept(rules, change)[i])
  {
    if rules != [] {
      KeptSurvives(rules[..|rules| - 1], change);
    }
  }

  /** Nothing is lost exactly when no rule is removed. */
  lemma {:induction false} KeptAll(rules: seq<IngressRule>, change: Change)
    ensures Kept(rules, change) == rules <==> forall i :: 0 <= i < |rules| ==> !Removes(change, rules[i])
    ensures Kept(rules, change) == rules <==> |Kept(rules, change)| == |rules|
  {
    hide Removes;
    if rules != [] {
      var n := |rules| - 1;
      KeptAll(rules[..n], change);
      assert rules == rules[..n] + [rules[n]];
    }
  }

  lemma OpenRemovesNothing(rules: seq<IngressRule>, change: Change)
    requires change.Open?
    ensures Kept(rules, change) == rules
  {
    KeptAll(rules, change);
  }

  /** `Kept` picks rule by rule: it sends a concatenation to the concatenation of
      what it keeps of either part, so the rules kept stay in order. */
  lemma {:induction false} KeptOfConcatenation(a: seq<IngressRule>, b: seq<IngressRule>, change: Change)
    ensures Kept(a + b, change) == Kept(a, change) + Kept(b, change)
    decreases |b|
  {
    hide Removes;
    if b == [] {
      assert a + b == a;
    } else {
      var n := |b| - 1;
      assert (a + b)[..|a + b| - 1] == a + b[..n];
      KeptOfConcatenation(a, b[..n], change);
    }
  }

  lemma NewRuleMatches(key: RuleKey, description: string)
    ensures Matches(NewRule(key, description), key)
  {
  }

  /** An open leaves a match behind. */
  lemma OpenProvidesMatch(rules: seq<IngressRule>, key: RuleKey, description: string)
    ensures HasMatch(Changed(rules, Open(key, description)), key)
  {
    var after := Changed(rules, Open(key, description));
    if HasMatch(rules, key) {
      KeptAll(rules, Open(key, description));
    } else {
      assert Matches(after[|rules|], key);
    }
  }

  /** The port options of a rule that matter for a protocol. */
  function OptionsFor(rule: IngressRule, protocol: string): Option<PortOptions> {
    if protocol == "udp" then rule.udp else rule.tcp
  }

  /** The rule lets traffic in that comes from this port. */
  predicate AdmitsFromPort(rule: IngressRule, protocol: string, port: int) {
    var options := OptionsFor(rule, protocol);
    && options.Some?
    && (options.value.source.None? || IntValue(options.value.source.value.min) <= port <= IntValue(options.value.source.value.max))
  }

  predicate SomeMatchAdmits(rules: seq<IngressRule>, key: RuleKey, port: int) {
    exists i :: 0 <= i < |rules| && Matches(rules[i], key) && AdmitsFromPort(rules[i], key.protocol, port)
  }

  /** Matching does not look at source ports, a new rule has none. So after an open the key is
      open to traffic from a given port exactly when the list had no match at all, or had one
      that lets that port in. */
  lemma OpenAdmitsUnlessMatchIsNarrow(rules: seq<IngressRule>, key: RuleKey, description: string, port: int)
    ensures SomeMatchAdmits(Changed(rules, Open(key, description)), key, port)
       <==> !HasMatch(rules, key) || SomeMatchAdmits(rules, key, port)
  {
    var after := Changed(rules, Open(key, description));
    OpenRemovesNothing(rules, Open(key, description));
    if HasMatch(rules, key) {
      assert after == rules;
    } else {
      NewRuleMatches(key, description);
      assert Matches(after[|rules|], key) && AdmitsFromPort(after[|rules|], key.protocol, port);
    }
  }

  /** It does happen that an open leaves a port shut. */
  lemma OpenCanLeavePortShut()
    ensures exists rules, key, port :: HasMatch(rules, key) && !SomeMatchAdmits(Changed(rules, Open(key, "")), key, port)
  {
    var key := RuleKey("tcp", 22, 22, "0.0.0.0/0");
    var rule := NewRule(key, "");
    var narrow := rule.(tcp := Some(rule.tcp.value.(source := Some(PortRange(Some(1), Some(1))))));
    NewRuleMatches(key, "");
    assert Matches([narrow][0], key);
    OpenAdmitsUnlessMatchIsNarrow([narrow], key, "", 2);
    assert !SomeMatchAdmits([narrow], key, 2);
    assert HasMatch([narrow], key);
  }

  /** A close leaves none. */
  lemma CloseLeavesNoMatch(rules: seq<IngressRule>, key: RuleKey)
    ensures !HasMatch(Changed(rules, Close(key)), key)
  {
    KeptSurvives(rules, Close(key));
    var kept := Kept(rules, Close(key));
    assert forall i :: 0 <= i < |kept| ==> Removes(Close(key), kept[i]) == Matches(kept[i], key);
  }

  /** Rules with another key are neither dropped, added nor reordered. */
  lemma OtherRulesKeepOrder(rules: seq<IngressRule>, key: RuleKey, description: string)
    ensures Kept(Changed(rules, Open(key, description)), Close(key)) == Kept(rules, Close(key))
    ensures Kept(Changed(rules, Close(key)), Close(key)) == Kept(rules, Close(key))
  {
    KeptSurvives(rules, Close(key));
    KeptAll(Kept(rules, Close(key)), Close(key));
    KeptAll(rules, Open(key, description));
    if !HasMatch(rules, key) {
      KeptOfConcatenation(rules, [NewRule(key, description)], Close(key));
      assert Kept([], Close(key)) == [];
      assert Kept([NewRule(key, description)], Close(key)) == [];
    }
  }

  /** Repeating a change has no further effect: nothing is added or removed. */
  lemma ChangeIsIdempotent(rules: seq<IngressRule>, change: Change)
    ensures Changed(Changed(rules, change), change) == Changed(rules, change)
    ensures AddedBy(Changed(rules, change), change) == RemovedBy(Changed(rules, change), change) == 0
  {
    if change.Open? {
      OpenProvidesMatch(rules, change.key, change.description);
    }
    KeptSurvives(rules, change);
    KeptAll(Changed(rules, change), change);
  }

  /** A close takes an open back exactly when the list had no match before. */
  lemma CloseUndoesOpen(rules: seq<IngressRule>, key: RuleKey, description: string)
    ensures Changed(Changed(rules, Open(key, description)), Close(key)) == rules <==> !HasMatch(rules, key)
  {
    OtherRulesKeepOrder(rules, key, description);
    KeptAll(rules, Close(key));
    assert (forall i :: 0 <= i < |rules| ==> !Removes(Close(key), rules[i])) <==> !HasMatch(rules, key);
  }

  /** Counters and list lengths agree; and a change that counts nothing changes nothing. */
  lemma ChangeConservesCount(rules: seq<IngressRule>, change: Change)
    ensures |Changed(rules, change)| == |rules| + AddedBy(rules, change) - RemovedBy(rules, change)
    ensures AddedBy(rules, change) + RemovedBy(rules, change) == 0 <==> Changed(rules, change) == rules
  {
    KeptAll(rules, change);
  }

  // Security lists ----------------------------------------------------------------

  /** A security list; its egress rules and tags are opaque to a firewall task. */
  datatype SecurityList = SecurityList(
    displayName: string, egress: seq<string>, ingress: seq<IngressRule>, tags: map<string, string>)

  /** A stored list and the entity tag of the stored version. */
  datatype Stored = Stored(list: SecurityList, etag: nat)

  predicate NeedsUpdate(list: SecurityList, change: Change) {
    AddedBy(list.ingress, change) + RemovedBy(list.ingress, change) != 0
  }

  /** The list that an update request carries. */
  function Revised(list: SecurityList, change: Change): SecurityList {
    list.(ingress := Changed(list.ingress, change))
  }

  /** What an undisturbed read and conditional write make of a stored list. */
  function After(stored: Stored, change: Change): Stored {
    if NeedsUpdate(stored.list, change) then Stored(Revised(stored.list, change), stored.etag + 1) else stored
  }

  // Inventory -------------------------------------------------------------------

  /** The fields of a listed rule that a later delete sends back. */
  datatype ListedRule = ListedRule(
    protocol: string, portMin: int, portMax: int, source: string, isBroad: bool, editable: bool)

  function RulePorts(rule: IngressRule, protocol: string): (int, int) {
    var options := if protocol == "udp" then rule.udp else if protocol == "tcp" then rule.tcp else None;
    if options.Some? && options.value.destination.Some? then
      (IntValue(options.value.destination.value.min), IntValue(options.value.destination.value.max))
    else
      (0, 0)
  }

  predicate IsBroadListing(protocol: string, portMin: int, portMax: int, source: string) {
    protocol == "all" || (IsAnySource(source) && portMin == 0 && portMax == 0)
  }

  function Listed(rule: IngressRule): ListedRule {
    var protocol := ProtocolName(StringValue(rule.protocol));
    var (portMin, portMax) := RulePorts(rule, protocol);
    var broad := IsBroadListing(protocol, portMin, portMax, StringValue(rule.source));
    ListedRule(protocol, portMin, portMax, DefaultString(StringValue(rule.source), "-"), broad,
               !broad && (protocol == "tcp" || protocol == "udp"))
  }

  /** A task request as the page sends it. */
  datatype TaskRequest = TaskRequest(protocol: string, portMin: int, portMax: int, source: string)

  /** The page deletes an editable rule by closing what it displays; broad rules and
      rules of other protocols take another way. */
  function DeletePayload(rule: ListedRule): Option<TaskRequest> {
    if rule.isBroad || !rule.editable || (rule.protocol != "tcp" && rule.protocol != "udp") then None
    else Some(TaskRequest(rule.protocol, rule.portMin, if rule.portMax != 0 then rule.portMax else rule.portMin, rule.source))
  }

  /** How the executor reads a request from a job. */
  function Normalized(request: TaskRequest): TaskRequest {
    TaskRequest(
      ToLower(TrimSpace(request.protocol)), request.portMin,
      if request.portMax <= 0 then request.portMin else request.portMax,
      DefaultString(request.source, ANY_SOURCE))
  }

  const ANY_SOURCE := "0.0.0.0/0"

  /** How the job store writes a request into a job, or None when it rejects it. A blank
      source counts as absent; `isPrefix` tells what is an address prefix. */
  function JobRequest(request: TaskRequest, isPrefix: string -> bool): Option<TaskRequest> {
    var protocol := ToLower(TrimSpace(request.protocol));
    var portMax := if request.portMax <= 0 then request.portMin else request.portMax;
    var source := if TrimSpace(request.source) == "" then ANY_SOURCE else request.source;
    if (protocol != "tcp" && protocol != "udp") || !PortsAccepted(request.portMin, portMax) || !isPrefix(source) then None
    else Some(TaskRequest(protocol, request.portMin, portMax, source))
  }

  /** The key that a request from the page ends up closing, if the store accepts it. */
  function TaskKey(request: TaskRequest, isPrefix: string -> bool): Option<RuleKey> {
    var job := JobRequest(request, isPrefix);
    if job.None? then None
    else
      var seen := Normalized(job.value);
      Some(RuleKey(seen.protocol, seen.portMin, seen.portMax, seen.source))
  }

  predicate PortsAccepted(portMin: int, portMax: int): (ok: bool)
    ensures ok <==> 1 <= portMin <= portMax <= 65535
  {
    !(portMin <= 0 || portMin > 65535 || portMax < portMin || portMax > 65535)
  }

  /** The identity of a port rule, read off the record itself: raw protocol number,
      destination ports of the matching option block, and source. */
  function KeyOf(rule: IngressRule): Option<RuleKey> {
    var protocol := StringValue(rule.protocol);
    var options := if protocol == "17" then rule.udp else rule.tcp;
    if protocol !in {"6", "17"} || options.None? || options.value.destination.None? then None
    else
      var ports := options.value.destination.value;
      Some(RuleKey(if protocol == "17" then "udp" else "tcp", IntValue(ports.min), IntValue(ports.max), StringValue(rule.source)))
  }

  lemma KnownProtocols()
    ensures TrimSpace("6") == "6" && TrimSpace("17") == "17" && TrimSpace("tcp") == "tcp" && TrimSpace("udp") == "udp"
    ensures ToLower("6") == "6" && ToLower("17") == "17" && ToLower("tcp") == "tcp" && ToLower("udp") == "udp"
  {
    hide ToLower, TrimSpace, Trim, TrimLeft, TrimRight;
    PlainText("6");
    PlainText("17");
    PlainText("tcp");
    PlainText("udp");
  }

  /** Exact matching compares keys. */
  lemma MatchesComparesKeys(rule: IngressRule, key: RuleKey)
    requires key.protocol == "tcp" || key.protocol == "udp"
    ensures Matches(rule, key) <==> KeyOf(rule) == Some(key)
  {
    hide ToLower, TrimSpace, Trim, TrimLeft, TrimRight;
    KnownProtocols();
  }

  /** The key that deleting an editable rule, listed with a valid port range, leads to: what
      is displayed, unless the source is not a prefix, which the store rejects, or is blank,
      which it replaces. */
  lemma DeletedKey(rule: IngressRule, listed: ListedRule, isPrefix: string -> bool)
    requires listed == Listed(rule)
    requires listed.editable && 1 <= listed.portMin <= listed.portMax <= 65535
    ensures DeletePayload(listed).Some?
    ensures var source := if TrimSpace(listed.source) == "" then ANY_SOURCE else listed.source;
      TaskKey(DeletePayload(listed).value, isPrefix)
      == if isPrefix(source) then Some(RuleKey(listed.protocol, listed.portMin, listed.portMax, source)) else None
  {
    hide ToLower, TrimSpace, Trim, TrimLeft, TrimRight;
    KnownProtocols();
    assert listed.source != "";
  }

  lemma BlankOrAny()
    ensures TrimSpace("") == "" && TrimSpace(ANY_SOURCE) != ""
  {
    PlainText(ANY_SOURCE);
  }

  /** An editable rule listed with a valid port range is hit by its own delete exactly when
      its stored protocol is the plain number and its source is a prefix and not blank. */
  lemma DeleteHitsListedRule(rule: IngressRule, listed: ListedRule, isPrefix: string -> bool)
    requires listed == Listed(rule)
    requires listed.editable && 1 <= listed.portMin <= listed.portMax <= 65535
    ensures DeletePayload(listed).Some?
    ensures var key := TaskKey(DeletePayload(listed).value, isPrefix);
      var source := StringValue(rule.source);
      key.Some? && Matches(rule, key.value)
      <==> StringValue(rule.protocol) in {"6", "17"} && TrimSpace(source) != "" && isPrefix(source)
  {
    hide ToLower, TrimSpace, Trim, TrimLeft, TrimRight, TaskKey, DeletePayload;
    DeletedKey(rule, listed, isPrefix);
    KnownProtocols();
    BlankOrAny();
    var key := TaskKey(DeletePayload(listed).value, isPrefix);
    if key.Some? {
      MatchesComparesKeys(rule, key.value);
    }
    var raw := StringValue(rule.protocol);
    assert raw == "6" ==> ProtocolName(raw) == "tcp";
    assert raw == "17" ==> ProtocolName(raw) == "udp";
  }

  /** List, then delete as displayed. The store accepts the delete exactly when the source is
      a prefix; then the rule goes, and of the others exactly those with the same key. */
  lemma ListedRuleDeletesItself(rule: IngressRule, rules: seq<IngressRule>, isPrefix: string -> bool)
    requires StringValue(rule.protocol) in {"6", "17"} && TrimSpace(StringValue(rule.source)) != ""
    requires var (lo, hi) := RulePorts(rule, ProtocolName(StringValue(rule.protocol))); 1 <= lo <= hi <= 65535
    ensures DeletePayload(Listed(rule)).Some?
    ensures var key := TaskKey(DeletePayload(Listed(rule)).value, isPrefix);
      && (key.Some? <==> isPrefix(StringValue(rule.source)))
      && (key.Some? ==>
            && PortsAccepted(key.value.portMin, key.value.portMax)
            && KeyOf(rule) == key
            && (forall other :: Removes(Close(key.value), other) <==> KeyOf(other) == KeyOf(rule))
            && rule !in Changed(rules, Close(key.value)))
  {
    hide ToLower, TrimSpace, Trim, TrimLeft, TrimRight, TaskKey;
    KnownProtocols();
    BlankOrAny();
    var listed := Listed(rule);
    var key := TaskKey(DeletePayload(listed).value, isPrefix);
    DeletedKey(rule, listed, isPrefix);
    DeleteHitsListedRule(rule, listed, isPrefix);
    if key.Some? {
      forall other
        ensures Matches(other, key.value) <==> KeyOf(other) == key
      {
        MatchesComparesKeys(other, key.value);
      }
      KeptSurvives(rules, Close(key.value));
    }
  }

  /** The rules that the inventory flags as broad: those for all protocols, and those from
      anywhere without any destination ports. */
  lemma InventoryFlags(rule: IngressRule)
    ensures var protocol := ProtocolName(StringValue(rule.protocol));
      var (portMin, portMax) := RulePorts(rule, protocol);
      Listed(rule).isBroad
      <==> protocol == "all" || (StringValue(rule.source) in {"0.0.0.0/0", "::/0"} && portMin == portMax == 0)
    ensures Listed(rule).editable <==> !Listed(rule).isBroad && Listed(rule).protocol in {"tcp", "udp"}
  {
    hide ProtocolName, RulePorts;
  }

  /** Whatever a forced delete removes had been flagged as broad, and a flagged rule is
      removed exactly when it is for all protocols and from any source. */
  lemma ForcedDeleteRemovesFlaggedRules(rule: IngressRule)
    ensures Removes(DeleteBroad, rule) ==> Listed(rule).isBroad && DeletePayload(Listed(rule)).None?
    ensures Removes(DeleteBroad, rule)
       <==> Listed(rule).isBroad && Listed(rule).protocol == "all" && TrimSpace(StringValue(rule.source)) in {"0.0.0.0/0", "::/0"}
  {
    hide ToLower, TrimSpace, Trim, TrimLeft, TrimRight;
  }

  /** A rule flagged as broad that a forced delete leaves in place: all TCP ports from anywhere. */
  lemma FlaggedRuleSurvivesForcedDelete()
    ensures exists rule :: Listed(rule).isBroad && Changed([rule], DeleteBroad) == [rule]
  {
    hide ToLower, TrimSpace, Trim, TrimLeft, TrimRight;
    KnownProtocols();
    var rule := IngressRule(Some("0.0.0.0/0"), Some("6"), None, None, false, None);
    assert Listed(rule).isBroad;
    assert !Removes(DeleteBroad, rule);
    assert Changed([rule], DeleteBroad) == [rule];
  }
}

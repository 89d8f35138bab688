/** The rules of one network security group: what an open or close, working on the first
    page of the listing, does to them. */
module NsgRules {
  import opened Text
  import opened FirewallRules

  /** The listing request asks for one page of this many rules and reads no further page. */
  const PAGE_LIMIT: nat := 200

  datatype NsgRule = NsgRule(id: Option<string>, ingress: bool, rule: IngressRule)

  function Page(rules: seq<NsgRule>): seq<NsgRule> {
    if |rules| <= PAGE_LIMIT then rules else rules[..PAGE_LIMIT]
  }

  predicate NsgMatches(rule: NsgRule, key: RuleKey) {
    rule.ingress && Matches(rule.rule, key)
  }

  predicate NsgHasMatch(rules: seq<NsgRule>, key: RuleKey) {
    exists i :: 0 <= i < |rules| && NsgMatches(rules[i], key)
  }

  /** Identifiers of the matching rules; a rule without one cannot be removed. */
  function DoomedIds(rules: seq<NsgRule>, key: RuleKey): (ids: seq<string>)
    ensures |ids| <= |rules|
  {
    if rules == [] then []
    else
      var n := |rules| - 1;
      DoomedIds(rules[..n], key)
      + if NsgMatches(rules[n], key) && StringValue(rules[n].id) != "" then [StringValue(rules[n].id)] else []
  }

  /** The cloud's removal of rules by identifier. */
  function WithoutIds(rules: seq<NsgRule>, ids: seq<string>): seq<NsgRule> {
    if rules == [] then []
    else
      var n := |rules| - 1;
      WithoutIds(rules[..n], ids) + if StringValue(rules[n].id) in ids then [] else [rules[n]]
  }

  /** What one open or close does to one group. */
  predicate NsgStep(before: seq<NsgRule>, change: Change, after: seq<NsgRule>) {
    match change
    case Open(key, description) =>
      if NsgHasMatch(Page(before), key) then after == before
      else
        && |after| == |before| + 1 && after[..|before|] == before
        && after[|before|].ingress && after[|before|].rule == NewRule(key, description)
    case Close(key) => after == WithoutIds(before, DoomedIds(Page(before), key))
    case DeleteBroad => after == before
  }

  function NsgAdded(before: seq<NsgRule>, change: Change): nat {
    if change.Open? && !NsgHasMatch(Page(before), change.key) then 1 else 0
  }

  function NsgRemoved(before: seq<NsgRule>, change: Change): nat {
    if change.Close? then |DoomedIds(Page(before), change.key)| else 0
  }

  /** Nothing to add or remove. */
  predicate NsgIdle(before: seq<NsgRule>, change: Change) {
    NsgAdded(before, change) + NsgRemoved(before, change) == 0
  }

  /** The rules that do not match, in their order. */
  function NsgOthers(rules: seq<NsgRule>, key: RuleKey): seq<NsgRule> {
    if rules == [] then []
    else
      var n := |rules| - 1;
      NsgOthers(rules[..n], key) + if NsgMatches(rules[n], key) then [] else [rules[n]]
  }

  /** Every rule carries an identifier of its own. */
  ghost predicate Identified(rules: seq<NsgRule>) {
    && (forall i :: 0 <= i < |rules| ==> StringValue(rules[i].id) != "")
    && (forall i, j :: 0 <= i < j < |rules| ==> StringValue(rules[i].id) != StringValue(rules[j].id))
  }

  lemma NsgOpenProvidesMatch(before: seq<NsgRule>, key: RuleKey, description: string, after: seq<NsgRule>)
    requires NsgStep(before, Open(key, description), after)
    ensures NsgHasMatch(after, key)
  {
    if NsgHasMatch(Page(before), key) {
      var i :| 0 <= i < |Page(before)| && NsgMatches(Page(before)[i], key);
      assert NsgMatches(after[i], key);
    } else {
      assert NsgMatches(after[|before|], key);
    }
  }

  /** A second open finds the first one's rule, except when that rule fell off the page. */
  lemma NsgReopenAddsNothingUnlessPageIsFull(before: seq<NsgRule>, key: RuleKey, description: string, after: seq<NsgRule>)
    requires NsgStep(before, Open(key, description), after)
    ensures NsgAdded(after, Open(key, description)) == 0 <==> NsgHasMatch(Page(before), key) || |before| < PAGE_LIMIT
  {
    hide Matches;
    if !NsgHasMatch(Page(before), key) {
      NewRuleMatches(key, description);
      if |before| < PAGE_LIMIT {
        assert NsgMatches(Page(after)[|before|], key);
      } else {
        assert Page(after) == Page(before);
      }
    }
  }

  lemma {:induction false} DoomedIdsAre(rules: seq<NsgRule>, key: RuleKey, id: string)
    ensures id in DoomedIds(rules, key)
       <==> id != "" && exists i :: 0 <= i < |rules| && NsgMatches(rules[i], key) && StringValue(rules[i].id) == id
  {
    hide NsgMatches;
    if rules != [] {
      var n := |rules| - 1;
      DoomedIdsAre(rules[..n], key, id);
      assert rules == rules[..n] + [rules[n]];
    }
  }

  /** In an identified group exactly the matches on the first page go. */
  lemma IsDoomed(rules: seq<NsgRule>, key: RuleKey, i: nat)
    requires Identified(rules) && i < |rules|
    ensures StringValue(rules[i].id) in DoomedIds(Page(rules), key) <==> i < PAGE_LIMIT && NsgMatches(rules[i], key)
  {
    hide NsgMatches, DoomedIds;
    DoomedIdsAre(Page(rules), key, StringValue(rules[i].id));
    if i < PAGE_LIMIT {
      assert Page(rules)[i] == rules[i];
    }
  }

  lemma {:induction false} WithoutIdsKeeps(rules: seq<NsgRule>, ids: seq<string>, rule: NsgRule)
    ensures rule in WithoutIds(rules, ids) <==> rule in rules && StringValue(rule.id) !in ids
  {
    if rules != [] {
      var n := |rules| - 1;
      WithoutIdsKeeps(rules[..n], ids, rule);
      assert rules == rules[..n] + [rules[n]];
    }
  }

  /** After a close of an identified group no match is left exactly when there was none
      past the first page. */
  lemma NsgCloseIsCompleteOnFirstPage(before: seq<NsgRule>, key: RuleKey)
    requires Identified(before)
    ensures var after := WithoutIds(before, DoomedIds(Page(before), key));
      !NsgHasMatch(after, key) <==> forall i :: PAGE_LIMIT <= i < |before| ==> !NsgMatches(before[i], key)
  {
    hide NsgMatches, DoomedIds, WithoutIds, Identified, Page;
    var ids := DoomedIds(Page(before), key);
    var after := WithoutIds(before, ids);
    if i :| PAGE_LIMIT <= i < |before| && NsgMatches(before[i], key) {
      IsDoomed(before, key, i);
      WithoutIdsKeeps(before, ids, before[i]);
      var j :| 0 <= j < |after| && after[j] == before[i];
      assert NsgMatches(after[j], key);
    }
    if j :| 0 <= j < |after| && NsgMatches(after[j], key) {
      WithoutIdsKeeps(before, ids, after[j]);
      var i :| 0 <= i < |before| && before[i] == after[j];
      IsDoomed(before, key, i);
    }
  }

  lemma {:induction false} WithoutDoomedCount(rules: seq<NsgRule>, key: RuleKey, k: nat)
    requires Identified(rules) && k <= |rules|
    ensures |WithoutIds(rules[..k], DoomedIds(Page(rules), key))|
         == k - |DoomedIds(rules[..if k <= PAGE_LIMIT then k else PAGE_LIMIT], key)|
  {
    hide NsgMatches, Identified, Page;
    if k > 0 {
      WithoutDoomedCount(rules, key, k - 1);
      IsDoomed(rules, key, k - 1);
      assert rules[..k][..k - 1] == rules[..k - 1];
      IdentifiedHasIds(rules, k - 1);
    }
  }

  lemma IdentifiedHasIds(rules: seq<NsgRule>, i: nat)
    requires Identified(rules) && i < |rules|
    ensures StringValue(rules[i].id) != ""
  {
  }

  /** The counters of an identified group add up. */
  lemma NsgStepConservesCount(before: seq<NsgRule>, change: Change, after: seq<NsgRule>)
    requires Identified(before) && NsgStep(before, change, after)
    ensures |after| == |before| + NsgAdded(before, change) - NsgRemoved(before, change)
  {
    if change.Close? {
      WithoutDoomedCount(before, change.key, |before|);
      assert before[..|before|] == before;
    }
  }

  lemma {:induction false} NsgOthersOfConcatenation(a: seq<NsgRule>, b: seq<NsgRule>, key: RuleKey)
    ensures NsgOthers(a + b, key) == NsgOthers(a, key) + NsgOthers(b, key)
    decreases |b|
  {
    hide NsgMatches;
    if b == [] {
      assert a + b == a;
    } else {
      var n := |b| - 1;
      assert (a + b)[..|a + b| - 1] == a + b[..n];
      NsgOthersOfConcatenation(a, b[..n], key);
    }
  }

  lemma {:induction false} NsgOthersDoNotMatch(rules: seq<NsgRule>, key: RuleKey)
    ensures NsgOthers(rules, key) == rules <==> !NsgHasMatch(rules, key)
    ensures |NsgOthers(rules, key)| == |rules| <==> !NsgHasMatch(rules, key)
    ensures |NsgOthers(rules, key)| <= |rules| && !NsgHasMatch(NsgOthers(rules, key), key)
  {
    hide NsgMatches;
    if rules != [] {
      var n := |rules| - 1;
      NsgOthersDoNotMatch(rules[..n], key);
      assert rules == rules[..n] + [rules[n]];
      if i :| 0 <= i < n && NsgMatches(rules[..n][i], key) {
        assert NsgMatches(rules[i], key);
      }
    }
  }

  lemma {:induction false} WithoutDoomedPrefix(rules: seq<NsgRule>, key: RuleKey, k: nat)
    requires Identified(rules) && k <= |rules|
    ensures var page := if k <= PAGE_LIMIT then k else PAGE_LIMIT;
      WithoutIds(rules[..k], DoomedIds(Page(rules), key)) == NsgOthers(rules[..page], key) + rules[page..k]
  {
    hide NsgMatches, Identified, Page, DoomedIds;
    if k > 0 {
      WithoutDoomedPrefix(rules, key, k - 1);
      IsDoomed(rules, key, k - 1);
      assert rules[..k][..k - 1] == rules[..k - 1];
      if k <= PAGE_LIMIT {
        assert rules[k..k] == [] == rules[k - 1..k - 1];
      } else {
        assert rules[PAGE_LIMIT..k] == rules[PAGE_LIMIT..k - 1] + [rules[k - 1]];
      }
    } else {
      assert rules[..0] == [];
    }
  }

  /** A close of an identified group takes exactly the matches on the first page; everything
      else stays, in its order. */
  lemma NsgCloseTakesMatchesOnPage(before: seq<NsgRule>, key: RuleKey)
    requires Identified(before)
    ensures WithoutIds(before, DoomedIds(Page(before), key)) == NsgOthers(Page(before), key) + before[|Page(before)|..]
  {
    hide NsgMatches, Identified, DoomedIds, WithoutIds, NsgOthers;
    WithoutDoomedPrefix(before, key, |before|);
    assert before[..|before|] == before;
    assert before[..|Page(before)|] == Page(before);
  }

  ghost predicate HaveIds(rules: seq<NsgRule>) {
    forall rule :: rule in rules ==> StringValue(rule.id) != ""
  }

  /** When an open or close finds nothing to do. */
  lemma NsgIdleMeans(before: seq<NsgRule>, change: Change)
    ensures change.Open? ==> (NsgIdle(before, change) <==> NsgHasMatch(Page(before), change.key))
    ensures change.Close? && HaveIds(before) ==> (NsgIdle(before, change) <==> !NsgHasMatch(Page(before), change.key))
  {
    if change.Close? && HaveIds(before) {
      hide NsgMatches;
      NoneDoomed(Page(before), change.key);
    }
  }

  lemma {:induction false} NoneDoomed(rules: seq<NsgRule>, key: RuleKey)
    requires HaveIds(rules)
    ensures |DoomedIds(rules, key)| == |rules| - |NsgOthers(rules, key)|
    ensures DoomedIds(rules, key) == [] <==> !NsgHasMatch(rules, key)
  {
    hide NsgMatches, NsgHasMatch;
    NsgOthersDoNotMatch(rules, key);
    if rules != [] {
      var n := |rules| - 1;
      assert rules[n] in rules && forall rule :: rule in rules[..n] ==> rule in rules;
      NoneDoomed(rules[..n], key);
    }
  }

  /** An open or close leaves the other rules of an identified group in place and in order;
      an open provides a match, a close leaves none but those past the first page. */
  lemma NsgStepIsAsAsked(before: seq<NsgRule>, change: Change, after: seq<NsgRule>)
    requires Identified(before) && NsgStep(before, change, after) && !change.DeleteBroad?
    ensures NsgOthers(after, change.key) == NsgOthers(before, change.key)
    ensures NsgHasMatch(after, change.key)
       <==> change.Open? || exists i :: PAGE_LIMIT <= i < |before| && NsgMatches(before[i], change.key)
  {
    hide NsgMatches, NsgHasMatch, DoomedIds, WithoutIds, Identified, Page, NsgOthers;
    match change
    case Open(key, description) =>
      NsgOpenProvidesMatch(before, key, description, after);
      if after != before {
        NsgOthersAfterAdding(before, key, description, after);
      }
    case Close(key) =>
      NsgCloseIsCompleteOnFirstPage(before, key);
      NsgCloseTakesMatchesOnPage(before, key);
      PageIsPrefix(before);
      var page, rest := Page(before), before[|Page(before)|..];
      NsgOthersDoNotMatch(page, key);
      NsgOthersDoNotMatch(NsgOthers(page, key), key);
      NsgOthersOfConcatenation(page, rest, key);
      NsgOthersOfConcatenation(NsgOthers(page, key), rest, key);
  }

  lemma PageIsPrefix(rules: seq<NsgRule>)
    ensures |Page(rules)| <= |rules| && rules == Page(rules) + rules[|Page(rules)|..]
  {
  }

  lemma NsgOthersAfterAdding(before: seq<NsgRule>, key: RuleKey, description: string, after: seq<NsgRule>)
    requires NsgStep(before, Open(key, description), after) && after != before
    ensures NsgOthers(after, key) == NsgOthers(before, key)
  {
    hide Matches;
    NewRuleMatches(key, description);
    assert NsgMatches(after[|before|], key);
  }

  /** One open or close is enough: for an open, the group has a match or room on the page;
      for a close, no match moves up onto the page when others go. */
  predicate SettlesAtOnce(before: seq<NsgRule>, change: Change) {
    match change
    case Open(key, _) => NsgHasMatch(Page(before), key) || |before| < PAGE_LIMIT
    case Close(key) =>
      forall i :: PAGE_LIMIT <= i < |before| && i < PAGE_LIMIT + NsgRemoved(before, change) ==> !NsgMatches(before[i], key)
    case DeleteBroad => true
  }

  /** A repeated open or close of a group finds nothing to do exactly when the first was enough. */
  lemma NsgRepeatIsIdle(before: seq<NsgRule>, change: Change, after: seq<NsgRule>)
    requires NsgStep(before, change, after) && (change.Close? ==> Identified(before))
    ensures NsgIdle(after, change) <==> SettlesAtOnce(before, change)
  {
    match change
    case Open(key, description) =>
      NsgReopenAddsNothingUnlessPageIsFull(before, key, description, after);
    case Close(key) =>
      NsgRepeatedClose(before, key, after);
    case DeleteBroad =>
  }

  lemma PageOfShorter(kept: seq<NsgRule>, rules: seq<NsgRule>, end: nat)
    requires |kept| <= PAGE_LIMIT < |rules|
    requires end == if |rules| <= PAGE_LIMIT + PAGE_LIMIT - |kept| then |rules| else PAGE_LIMIT + PAGE_LIMIT - |kept|
    ensures Page(kept + rules[PAGE_LIMIT..]) == kept + rules[PAGE_LIMIT..end]
  {
  }

  lemma NsgRepeatedClose(before: seq<NsgRule>, key: RuleKey, after: seq<NsgRule>)
    requires Identified(before) && NsgStep(before, Close(key), after)
    ensures NsgIdle(after, Close(key)) <==> SettlesAtOnce(before, Close(key))
  {
    hide NsgMatches, NsgHasMatch, DoomedIds, WithoutIds, NsgOthers, NsgIdle, Identified, HaveIds;
    var page := Page(before);
    var others, rest := NsgOthers(page, key), before[|page|..];
    NsgCloseTakesMatchesOnPage(before, key);
    NsgOthersDoNotMatch(page, key);
    IdentifiedHaveIds(before, DoomedIds(page, key));
    NsgIdleMeans(after, Close(key));
    RemovedOnPage(before, key);
    if |before| > PAGE_LIMIT {
      var n := PAGE_LIMIT + PAGE_LIMIT - |others|;
      var end := if |before| <= n then |before| else n;
      PageOfShorter(others, before, end);
      MatchInConcatenation(others, before[PAGE_LIMIT..end], key);
      MatchInSlice(before, PAGE_LIMIT, end, key);
    } else {
      assert rest == [] && Page(after) == others;
    }
  }

  lemma RemovedOnPage(rules: seq<NsgRule>, key: RuleKey)
    requires HaveIds(rules)
    ensures NsgRemoved(rules, Close(key)) == |Page(rules)| - |NsgOthers(Page(rules), key)|
  {
    hide NsgMatches, DoomedIds, NsgOthers;
    assert forall rule :: rule in Page(rules) ==> rule in rules;
    NoneDoomed(Page(rules), key);
  }

  lemma IdentifiedHaveIds(rules: seq<NsgRule>, ids: seq<string>)
    requires Identified(rules)
    ensures HaveIds(rules) && HaveIds(WithoutIds(rules, ids))
  {
    forall rule | rule in WithoutIds(rules, ids)
      ensures StringValue(rule.id) != ""
    {
      WithoutIdsKeeps(rules, ids, rule);
    }
  }

  lemma MatchInConcatenation(a: seq<NsgRule>, b: seq<NsgRule>, key: RuleKey)
    ensures NsgHasMatch(a + b, key) <==> NsgHasMatch(a, key) || NsgHasMatch(b, key)
  {
    hide NsgMatches;
    if i :| 0 <= i < |a| && NsgMatches(a[i], key) {
      assert NsgMatches((a + b)[i], key);
    }
    if i :| 0 <= i < |b| && NsgMatches(b[i], key) {
      assert NsgMatches((a + b)[|a| + i], key);
    }
  }

  lemma MatchInSlice(rules: seq<NsgRule>, lo: nat, hi: nat, key: RuleKey)
    requires lo <= hi <= |rules|
    ensures NsgHasMatch(rules[lo..hi], key) <==> exists i :: lo <= i < hi && NsgMatches(rules[i], key)
  {
    hide NsgMatches;
    if i :| lo <= i < hi && NsgMatches(rules[i], key) {
      assert NsgMatches(rules[lo..hi][i - lo], key);
    }
  }

  /** A close takes an open of a group back exactly when the group had no match and the new
      rule is on the page. */
  lemma NsgCloseUndoesOpen(before: seq<NsgRule>, key: RuleKey, description: string, open: seq<NsgRule>, closed: seq<NsgRule>)
    requires NsgStep(before, Open(key, description), open) && Identified(open) && NsgStep(open, Close(key), closed)
    ensures closed == before <==> !NsgHasMatch(before, key) && |before| < PAGE_LIMIT
  {
    hide Matches, NsgMatches, DoomedIds, WithoutIds, Identified, NsgOthers;
    NsgCloseTakesMatchesOnPage(open, key);
    NsgOthersDoNotMatch(Page(open), key);
    PageIsPrefix(open);
    PageIsPrefix(before);
    if NsgHasMatch(Page(before), key) {
      MatchInConcatenation(Page(before), before[|Page(before)|..], key);
    } else if |before| >= PAGE_LIMIT {
      assert Page(open) == Page(before);
    } else {
      NsgOthersAfterAdding(before, key, description, open);
      NsgOthersDoNotMatch(before, key);
      assert open[|open|..] == [];
    }
  }
}

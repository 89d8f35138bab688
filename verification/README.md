# OCI lifecycle platform: verified model

The platform is a control panel for Oracle Cloud. This project models the parts of it
that decide something, and proves what they promise for every input, every run and
every interleaving. `dafny verify dfyconfig.toml` checks it.

| file | what it models |
|---|---|
| `FirewallRules.dfy` | one rule list: exact matching, open, close, forced delete, inventory and the page's delete payload |
| `FirewallRuns.dfy` | any number of firewall tasks and other writers interleaved on shared security lists under `If-Match` (section 13.1.1 of RFC 9110) |
| `NsgRules.dfy` | the rules of one security group, of which only the first page is read |
| `FirewallExecutor.dfy` | one whole firewall task against security lists and security groups, with failing and half-failing requests |
| `FleetTariff.dfy` | the free-tier storage tariff computed twice: a greedy walk (budget page) and a proportional split (instances page) |
| `LaunchEstimate.dfy` | the create page's marginal quote against the change of the account price |
| `ResizeEstimate.dfy` | the price change shown for a resize, against the create page's quotes |
| `BudgetForecast.dfy` | money rounding, forecast and the budget trigger, and the budget page's price against the account price |
| `InstanceActions.dfy` | lifecycle actions, resize, boot-volume expansion, reinstall and their polling loops against a cloud that answers anything |
| `PortExpression.dfy` | printing and parsing of port lists |
| `Session.dfy` | the session cookie and the user-name sanitizer |
| `AuditSearch.dfy` | the audit search as parameterised SQL and as a filter in memory |
| `ProfileSinks.dfy` | the file store and the Postgres store for profile secrets, both as refinements of one plain store |
| `OptionsRefresh.dfy` | the guard against stale option responses |
| `JobLifecycle.dfy` | job statuses, the bounded queue, workers and users in any interleaving |
| `Text.dfy` | trimming, splitting, decimal notation |

Money and sizes are `real`. Code that updates state in place is a class or a method with
loops, tied by its contract to functions; the lemmas are about those functions.
Environment answers (cloud errors, lost responses, identifiers, clock steps, nonces) are
arbitrary.

## What the proofs found

These promises do not hold of the code as it is; the project states where they stop.

- A user name that still has a dot after sanitizing gets a cookie that the reader always
  rejects, so such a user can never stay signed in (`Session.CookieRoundTrip`).
- A resize or reinstall that asks for a volume performance but no size is reported as
  verified although no volume request is made: the expansion returns early when the target
  size is not positive (`InstanceActions.ExecuteResize`, `InstanceActions.ExecuteReinstall`).
- The database search and the in-memory search differ on some row as soon as a search value
  contains `%`, `_` or a backslash (`AuditSearch.SearchesAgreeOnPlainValues`).
- An existing rule that only lets certain source ports in counts as a match, so an open changes
  nothing and the port stays shut to other traffic (`FirewallRules.OpenAdmitsUnlessMatchIsNarrow`).
- Forced delete leaves some rules in place that the inventory flags as broad
  (`FirewallRules.FlaggedRuleSurvivesForcedDelete`).
- An open or close that fails at its conditional write reports rules it did not change unless
  the write took effect and only its answer was lost; a forced delete whose answer was lost
  reports nothing (`FirewallRuns.FailureReportsItsWork`).
- A listed rule whose source is not an address prefix cannot be deleted from the page: the job
  store rejects the request (`FirewallRules.ListedRuleDeletesItself`).
- On security groups with more rules than one page, close can leave matches and open can add
  duplicates (`NsgRules.NsgCloseIsCompleteOnFirstPage`,
  `NsgRules.NsgRepeatIsIdle`).
- A cancelled job can still end as failed, because failing a job does not look at its status
  (`JobLifecycle.FinalStatusChanges`, `JobLifecycle.CancelledJobCanEndFailed`).
- The budget page and the instances page show different hourly prices for the same storage in
  every month, since one divides by the hours of the month and the other by 730
  (`BudgetForecast.PagesAgreeInNoMonthUnlessStorageIsFree`).
- For instances of a known family without reported processors or memory the budget page assumes
  one of each and is dearer; unknown families it leaves out (`BudgetForecast.PagesAgreeOnCompute`).
- Sanitizing a user name twice can change it: exactly when dropped characters leave two dots
  adjacent (`Session.SanitizerIsIdempotentUnlessDotPair`).
- The create page charges a new A1 instance for the overage the account already pays
  (`LaunchEstimate.A1QuoteIncludesEarlierOverage`).
- The initial load of the create page is not guarded: its late answer replaces a newer refresh,
  and its late failure is shown over one (`OptionsRefresh.PageShowsNewestUnlessLoadCameLast`,
  `OptionsRefresh.LoadFailureIsShownOverRefresh`).

## Model

| member | source | states |
|---|---|---|
| FirewallRules.KeptOfConcatenation | backend/internal/oci/firewall.go:589-598 | the rebuilt list is a filter: it treats a concatenation part by part, so surviving rules keep their order |
| FirewallRules.OpenProvidesMatch | backend/internal/oci/firewall.go:582-587 | after an open the list has an exact match |
| FirewallRules.CloseLeavesNoMatch | backend/internal/oci/firewall.go:588-598 | after a close it has none |
| FirewallRules.OtherRulesKeepOrder | backend/internal/oci/firewall.go:580-599 | open and close leave the sequence of all other rules exactly as it was |
| FirewallRules.OpenAdmitsUnlessMatchIsNarrow | backend/internal/oci/firewall.go:644-659 | after an open the key is open to traffic from a given source port iff the list had no match, or one that lets that port in |
| FirewallRules.OpenCanLeavePortShut | backend/internal/oci/firewall.go:699-737 | there is a list and a key for which an open changes nothing and leaves a source port shut |
| FirewallRules.ChangeIsIdempotent | backend/internal/oci/firewall.go:580-602 | repeating any change adds and removes nothing |
| FirewallRules.CloseUndoesOpen | backend/internal/oci/firewall.go:580-599 | close after open restores the list if and only if there was no match before |
| FirewallRules.ChangeConservesCount | backend/internal/oci/firewall.go:582-602 | the counters account for the change of length, and are both zero exactly when nothing changed |
| FirewallRules.MatchesComparesKeys | backend/internal/oci/firewall.go:699-717 | exact matching is equality of the key read off the record |
| FirewallRules.DeleteHitsListedRule | backend/internal/store/store.go:3923-3985 | an editable rule listed with valid ports is hit by its own displayed values, sent through the job store, iff its stored protocol is the bare number and its source is an address prefix and not blank |
| FirewallRules.DeletedKey | src/pages/InstancesPage.tsx:1048-1058 | which key deleting a listed rule leads to: what is displayed, unless the store rejects the source or, being blank, replaces it by any source |
| FirewallRules.ListedRuleDeletesItself | backend/internal/oci/firewall.go:429-455 | list a TCP or UDP rule, send back what is shown: the store accepts it iff the source is a prefix, and then the rule goes, with exactly the rules of the same key |
| FirewallRules.InventoryFlags | backend/internal/oci/firewall.go:473-478 | which rules the inventory flags as broad, and which it lets the page edit |
| FirewallRules.ForcedDeleteRemovesFlaggedRules | backend/internal/oci/firewall.go:480-491 | a forced delete removes exactly the flagged rules for all protocols whose trimmed source is anywhere |
| FirewallRules.FlaggedRuleSurvivesForcedDelete | backend/internal/oci/firewall.go:480-491 | a flagged rule that a forced delete keeps |
| FirewallRuns.ExecutionKeepsInv | backend/internal/oci/firewall.go:562-623 | what every step of every interleaving keeps: lists replay the log, current tags stand for what was read, counters are serial, those of a forced delete only once it has succeeded |
| FirewallRuns.NoLostUpdates | backend/internal/oci/firewall.go:562-623 | every stored list equals the initial one with the effective requests applied in the order they took effect, including edits by other clients and writes whose answer was lost |
| FirewallRuns.WriteRevisesCurrentListOrFails | backend/internal/oci/firewall.go:603-620 | a conditional write revises the list as it then is, or changes nothing and the task fails |
| FirewallRuns.UndisturbedVisitSucceeds | backend/internal/oci/firewall.go:562-623 | a task left alone between read and write has its next list as asked, counts what it did and moves on |
| FirewallRuns.RunsAreAsBegun | backend/internal/oci/firewall.go:265-300 | over every run each task keeps the change and all the lists it was begun with |
| FirewallRuns.ResultsAreSerial | backend/internal/oci/firewall.go:350-399 | a succeeding task worked on all its lists in order and reports the counts of the serial execution; a failing one worked on a prefix, and an open or close reports at least what it did, a forced delete nothing |
| FirewallRuns.FailureReportsItsWork | backend/internal/oci/firewall.go:582-620 | at every reachable state: a task failing at a read reports its work; one failing at a write does iff, for an open or close, the write took effect, for a forced delete, it did not |
| FirewallRuns.FinishedRunsStayFinished | backend/internal/oci/firewall.go:603-620 | whatever happens next, a finished task keeps its result and its work |
| FirewallRuns.TasksKeepTheRest | backend/internal/oci/firewall.go:605-611 | tasks leave egress rules, name and tags alone, and rule counts are conserved over any run |
| FirewallRuns.ClosedStaysClosed | backend/internal/oci/firewall.go:588-598 | after a close took effect no later task, short of a reopening one, brings a match back |
| FirewallRuns.FailedRunCanOverReport | backend/internal/oci/firewall.go:582-620 | a run in which a failed open reports one added rule and did nothing |
| FirewallExecutor.HasMatchingIngressRule | backend/internal/oci/firewall.go:690-697 | the loop finds a match iff there is one |
| FirewallExecutor.RebuildRules | backend/internal/oci/firewall.go:589-598 | the loop's list and count are those of the filter |
| FirewallExecutor.HasMatchingNsgRule | backend/internal/oci/firewall.go:674-681 | the same for security groups |
| FirewallExecutor.CollectNsgIds | backend/internal/oci/firewall.go:536-541 | the identifiers of matching rules that have one, in order |
| FirewallExecutor.Cloud.UpdateSecurityList | backend/internal/oci/firewall.go:603-614 | the server's side of a conditional write, with lost answers |
| FirewallExecutor.ApplyToSecurityList | backend/internal/oci/firewall.go:562-623 | the new state of all lists and counters after one list; on error nothing or the same change |
| FirewallExecutor.DeleteBroadFromSecurityList | backend/internal/oci/firewall.go:350-399 | the same for a forced delete, whose removal counter waits for the write and whose snapshot counter does not |
| FirewallExecutor.ApplyToNsg | backend/internal/oci/firewall.go:497-560 | the step taken by one security group and its counters; on error nothing or the same step |
| FirewallExecutor.ApplyToSecurityLists | backend/internal/oci/firewall.go:296-300 | over all lists: final state, no-op condition and conservation of rule counts; after an error a prefix of it |
| FirewallExecutor.ApplyToNsgs | backend/internal/oci/firewall.go:269-274 | over all groups: each step, exact no-op condition, counters equal to what the groups ask for, conservation on full pages; after an error each group is as it was or has taken its step |
| FirewallExecutor.RunPortTask | backend/internal/oci/firewall.go:246-302 | which containers an open or close works on, and what it has done |
| FirewallExecutor.RunForcedDelete | backend/internal/oci/firewall.go:308-348 | the container checks of a forced delete, its effect and its counters |
| FirewallExecutor.ExecuteFirewallTask | backend/internal/oci/firewall.go:190-306 | verified iff ready, the request is valid, it names containers that exist for it, and no request to the cloud failed; what a verified, an interrupted and a rejected task leave behind; when it is a no-op |
| FirewallExecutor.VerifiedPortTask | backend/internal/oci/firewall.go:190-306 | from the request's own fields: a verified open leaves every target with a rule for exactly that protocol, ports and source, added only where missing, a verified close leaves none (in groups, past-page ones aside); all else as it was; and which containers are targets |
| FirewallExecutor.KeyStandsForRule | backend/internal/oci/firewall.go:516-582 | the action text decides between open and close, and the key made of a request matches exactly the rules for its protocol, ports and source |
| FirewallExecutor.RepeatTask | backend/internal/oci/firewall.go:265-305 | two verified runs in a row: on lists the second is a no-op; on groups it is one iff for each group one run was enough |
| FirewallExecutor.VerifiedListsAreAsAsked | backend/internal/oci/firewall.go:562-623 | after a verified run each target is open or closed as asked, other rules in order, other fields and lists untouched |
| FirewallExecutor.AfterAllTwice | backend/internal/oci/firewall.go:296-303 | a repeated run finds no list in need of an update, even when a list is named twice |
| FirewallExecutor.CloseRestoresUnmatchedTargets | backend/internal/oci/firewall.go:580-599 | a close run after an open run restores a target iff it had no match |
| NsgRules.NsgOpenProvidesMatch | backend/internal/oci/firewall.go:516-534 | after an open a group has a match |
| NsgRules.NsgCloseIsCompleteOnFirstPage | backend/internal/oci/firewall.go:501-541 | after a close a group has no match iff none lay beyond the listed page |
| NsgRules.NsgReopenAddsNothingUnlessPageIsFull | backend/internal/oci/firewall.go:501-519 | a second open adds nothing iff the rule is visible on the page |
| NsgRules.NsgStepConservesCount | backend/internal/oci/firewall.go:533-558 | group counters account for the change of length |
| NsgRules.NsgCloseTakesMatchesOnPage | backend/internal/oci/firewall.go:536-558 | a close of a group takes exactly the matches on the listed page and leaves everything else in order |
| NsgRules.NsgIdleMeans | backend/internal/oci/firewall.go:517-541 | an open finds nothing to do iff the page has a match, a close iff it has none |
| NsgRules.NsgStepIsAsAsked | backend/internal/oci/firewall.go:497-560 | open and close keep the other rules of a group in order; after it there is a match iff it was an open or one lay past the page |
| NsgRules.NsgRepeatIsIdle | backend/internal/oci/firewall.go:497-560 | a repeated open or close of a group finds nothing to do iff it had a match or room on the page, or no match moved up onto it |
| NsgRules.NsgCloseUndoesOpen | backend/internal/oci/firewall.go:497-560 | a close restores a group after an open iff it had no match and the new rule is on the page |
| FirewallExecutor.VerifiedNsgsAreAsAsked | backend/internal/oci/firewall.go:265-275 | after a verified run on groups each is as asked, other rules in order, other groups untouched |
| FleetTariff.NormalizedVpusIsNearest | src/pages/BudgetManagementPage.tsx:846-849 | performance is brought to the nearest whole number within 10 to 120 |
| FleetTariff.WalkFleet | src/pages/BudgetManagementPage.tsx:818-832 | the greedy walk bills ten times the gigabytes over 200 and the uplift of every volume |
| FleetTariff.EstimateStorageFleet | src/pages/BudgetManagementPage.tsx:814-840 | the page's storage price in closed form |
| FleetTariff.WalkIgnoresOrder | src/pages/BudgetManagementPage.tsx:822-832 | any rearrangement of the fleet is billed the same |
| FleetTariff.ProportionalSplitInClosedForm | src/pages/InstancesPage.tsx:1805-1813 | the proportional split comes to ten times the billable gigabytes |
| FleetTariff.PagesAgreeOnStorage | src/pages/InstancesPage.tsx:1805-1818 | the two pages bill the same quantities iff all volumes have 50 GB, or the rounded fleet is free and its small volumes are not fast |
| FleetTariff.FreeAccountHasNoBlockers | src/pages/InstancesPage.tsx:1821-1841 | the account is free iff it lists no blocker, or only standard shapes of size zero |
| FleetTariff.FreeExactlyWithinTheAllowance | src/pages/InstancesPage.tsx:1798-1825 | the account is free iff within two E2.1.Micro, 4 OCPU and 24 GB of A1, 200 GB of volumes none faster than 10, and no other shape of any size |
| LaunchEstimate.SummarizeUsage | src/pages/CreateInstancePage.tsx:1469-1483 | the accumulated usage is the counts and sums over active instances |
| LaunchEstimate.OnlyTerminatedOnesAreFree | src/pages/InstancesPage.tsx:1798-1803 | instances that are gone or going cost nothing; any other, also a stopped one, costs something once the free gigabytes are used up |
| LaunchEstimate.E2QuoteIsTheDifference | src/pages/CreateInstancePage.tsx:1387-1396 | for every count a new E2.1.Micro is quoted at what it adds to the account |
| LaunchEstimate.A1QuoteIncludesEarlierOverage | src/pages/CreateInstancePage.tsx:1397-1427 | an A1 quote is the difference plus the overage already charged; equal to it iff the account is within the allowance |
| LaunchEstimate.FlexQuoteIsTheDifference | src/pages/CreateInstancePage.tsx:1428-1442 | a priced flexible shape is quoted at what it adds |
| LaunchEstimate.RoughQuoteMissesByInference | src/pages/CreateInstancePage.tsx:1443-1454 | a roughly priced shape is quoted at what it adds plus the price of what it is taken to have less the price of what it has |
| LaunchEstimate.RoughQuoteIsForListedSize | src/pages/CreateInstancePage.tsx:1443-1447 | without a listing a rough quote is what the instance adds, with one what the smallest listed size would add |
| LaunchEstimate.NamesWithExactPrice | src/pages/CreateInstancePage.tsx:1428-1442 | every other shape name that contains one of five names is priced exactly |
| LaunchEstimate.VolumeQuantitiesAreMarginal | src/pages/CreateInstancePage.tsx:1326-1331 | for every fleet and used figure each billable quantity of a new volume is account after minus before plus the free gigabytes that the used figure misses |
| LaunchEstimate.VolumeQuoteIsTheDifference | src/pages/CreateInstancePage.tsx:1332-1335 | the quoted price is the account difference iff no free gigabytes are missed, in particular over volumes of at least 50 GB whose sum is the used figure; otherwise off by exactly their price |
| LaunchEstimate.QuoteIsTheAccountDifference | src/pages/CreateInstancePage.tsx:1313-1336 | for every fleet, used figure and shape: the whole quote is the change of the account's hourly price plus the A1 overage already charged, the error of a rough price and the price of missed free gigabytes; none for unknown shapes |
| LaunchEstimate.LabelFollowsStatus | src/pages/CreateInstancePage.tsx:1344-1355 | the label says free iff the status does |
| LaunchEstimate.StatusTellsWhatIsKnown | src/pages/CreateInstancePage.tsx:1337-1360 | when a quote misses its price, waits for usage, is rough, or is exact |
| LaunchEstimate.FreeQuoteHasNoBlockers | src/pages/CreateInstancePage.tsx:1337-1353 | free iff no blocker, except for a priced flexible shape of size zero on free storage |
| ResizeEstimate.AccountIgnoresOrder | src/pages/InstancesPage.tsx:1798-1825 | the account's hourly price is the same for every rearrangement of the list |
| ResizeEstimate.ResizePricesWhatIsAskedFor | src/pages/InstancesPage.tsx:1774-1796 | current price, target price, change and blockers are those of the fleet before, and of the fleet in which just that instance has the target's shape and sizes, at least 50 GB and the nearest allowed performance |
| ResizeEstimate.ShapeChangeByClass | src/pages/InstancesPage.tsx:1774-1796 | a change of shape and sizes alone costs what the new shape adds to the others less what the old one adds, each in dollars by its class |
| ResizeEstimate.ResizeIsRelaunch | src/pages/InstancesPage.tsx:1763-1796 | the change shown for a resize is what launching the new instance adds to the others minus what the old one adds |
| ResizeEstimate.ResizeIsDifferenceOfQuotes | src/pages/InstancesPage.tsx:1763-1796 | for priced shapes it is the create page's quote for the new size minus that for the old iff both quotes have the same surplus over the account difference |
| ResizeEstimate.UnchangedCostsNothing | src/pages/InstancesPage.tsx:1775-1786 | asking for the present shape and sizes is shown as no change, although the page corrects size and performance |
| BudgetForecast.PagesAgreeOnCompute | src/pages/BudgetManagementPage.tsx:787-812 | over running instances the budget page exceeds the instances page by what it assumes for known families that report no processors or memory, and falls short by the price of unknown families; when each of the two is zero |
| BudgetForecast.StandardPricesCompare | src/pages/BudgetManagementPage.tsx:805-812 | for one standard instance reporting any amounts: which page is dearer, and when they agree |
| BudgetForecast.PagesAgree | src/pages/BudgetManagementPage.tsx:814-834 | storage times hours of the month equals the instances page's storage times 730; a running fleet with equal quantities has one hourly price on both pages iff its storage is free or the month has 730 hours |
| BudgetForecast.PagesAgreeInNoMonthUnlessStorageIsFree | src/pages/BudgetManagementPage.tsx:779-785 | so in every calendar month the two prices are equal iff storage is free |
| BudgetForecast.ProgressAt | src/pages/BudgetManagementPage.tsx:779-785 | elapsed hours lie within the month for every clock |
| BudgetForecast.ProgressIsTimePassed | src/pages/BudgetManagementPage.tsx:779-785 | within the month the elapsed hours are the time since its start |
| BudgetForecast.RoundMoneyError | src/pages/BudgetManagementPage.tsx:855-857 | rounding gives the nearest whole number of ten-thousandths, upwards from a half |
| BudgetForecast.RoundingKeepsClose | src/pages/BudgetManagementPage.tsx:855-857 | amounts a unit apart round to amounts at most a unit apart |
| BudgetForecast.SpendIsNearTheRate | src/pages/BudgetManagementPage.tsx:733-744 | hourly, monthly and actual figure are the rate times one, the month's and the elapsed hours, within the rounding of rate and product |
| BudgetForecast.ForecastIsTheMonthlyFigure | src/pages/BudgetManagementPage.tsx:734-744 | for every rate and moment forecast and monthly figure differ by at most 0.0001 |
| BudgetForecast.ForecastCanBeOneUnitOff | src/pages/BudgetManagementPage.tsx:734-744 | the bound is reached |
| BudgetForecast.SpentIsWithinForecast | src/pages/BudgetManagementPage.tsx:735-736 | the spend so far never exceeds the forecast |
| BudgetForecast.RateIsNonNegative | src/pages/BudgetManagementPage.tsx:787-812 | no fleet has a negative rate |
| BudgetForecast.OnlyRunningOnesCompute | src/pages/BudgetManagementPage.tsx:787-803 | only running instances have a compute price on the budget page |
| BudgetForecast.TriggerIsTheForecastTest | src/pages/BudgetManagementPage.tsx:126-128 | the trigger is the forecast test alone: hundred times the forecast reaches threshold times budget, or without a budget the threshold is not positive |
| InstanceActions.WaitBootVolumeReady | backend/internal/oci/actions.go:515-543 | success means the volume last seen is ready; at most timeout / 15 s + 2 polls whatever is answered |
| InstanceActions.FirstAttachedBootVolume | backend/internal/oci/actions.go:545-555 | the volume of the first attachment in place, or none when there is none |
| InstanceActions.WaitBootVolumeAttachment | backend/internal/oci/actions.go:557-582 | the volume of the first attachment in place of the last listing; at most timeout / 10 s + 2 polls |
| InstanceActions.WaitBootVolumeTarget | backend/internal/oci/actions.go:588-616 | success means the volume last seen is ready, large enough and at the target performance; bounded polls |
| InstanceActions.WaitInstanceState | backend/internal/oci/smoke.go:622-643 | success means an accepted state; bounded polls |
| InstanceActions.UpdateReadyVolume | backend/internal/oci/actions.go:421-486 | at most one update, which sets something, never shrinks and keeps 10 to 120; a verified result has the volume as asked |
| InstanceActions.ExpandBootVolume | backend/internal/oci/actions.go:373-486 | the same for the whole expansion, and why it refuses or fails; without a target size nothing happens at all; at most 207 polls |
| InstanceActions.WaitForActionState | backend/internal/oci/actions.go:618-629 | verified iff no error code, in an accepted state |
| InstanceActions.ExecuteResize | backend/internal/oci/actions.go:310-367 | verified iff no error code; a verified resize has sent one update with shape and sizes, or none iff the instance as read already had them; volume as asked iff a target size was given; why it fails otherwise |
| InstanceActions.ResizeRequiredExactlyWhen | backend/internal/oci/actions.go:488-500 | a resize is required iff the trimmed shape differs or, if sizes are chosen, their whole parts do |
| InstanceActions.ExecutePowerAction | backend/internal/oci/actions.go:292-308 | one request, then the state it leads to, or a failed request, an interruption or the time limit |
| InstanceActions.ExecuteLifecycleAction | backend/internal/oci/actions.go:87-166 | verified iff no error code on every path; what each action has sent and the state it ends in; why it fails; only a resize touches the volume |
| InstanceActions.ExecuteReinstall | backend/internal/oci/actions.go:168-290 | verified iff no error code, also after demotion by the volume step; what it has sent and why it fails; volume as asked iff size and performance were given |
| PortExpression.ParseFirewallPorts | src/pages/InstancesPage.tsx:855-871 | the loop computes the specified parse; every accepted range passes the executor's check |
| PortExpression.PartRoundTrip | src/pages/InstancesPage.tsx:990 | one printed range parses to itself |
| PortExpression.ExpressionRoundTrip | src/pages/InstancesPage.tsx:855-871 | every non-empty list of valid ranges survives printing and parsing |
| PortExpression.TypedTextIsRead | src/pages/InstancesPage.tsx:855-871 | every non-empty list of valid ranges is read from a text with any white space around numbers and any blank items |
| PortExpression.AcceptedTextHasNormalForm | src/pages/InstancesPage.tsx:855-871 | whatever was accepted can be printed and parsed again unchanged, and passes the executor's port check |
| PortExpression.TrailingDashIsIgnored | src/pages/InstancesPage.tsx:859-861 | a trailing dash is accepted as a single port |
| Session.SanitizeSubject | backend/internal/auth/auth.go:214-226 | the loop computes the specified sanitizer |
| Session.SanitizedIsClean | backend/internal/auth/auth.go:219-225 | only allowed characters, no mark at either end |
| Session.CleanIsFixed | backend/internal/auth/auth.go:214-226 | clean text without a dot is unchanged, so the sanitizer is idempotent there |
| Session.CleanIsFixedUnlessDotPair | backend/internal/auth/auth.go:214-226 | clean text is unchanged iff no two dots are adjacent |
| Session.SanitizerIsIdempotentUnlessDotPair | backend/internal/auth/auth.go:214-226 | for every name a second sanitizing changes nothing iff the first left no two adjacent dots |
| Session.NothingDroppedIsIdempotent | backend/internal/auth/auth.go:218-225 | so for every name from which no character is dropped |
| Session.SanitizerIsNotIdempotent | backend/internal/auth/auth.go:218-225 | there is a name that a second sanitizing changes |
| Session.DotsBreakTheCookie | backend/internal/auth/auth.go:169-183 | a dot in the name gives the cookie more than three parts |
| Session.CookieRoundTrip | backend/internal/auth/auth.go:118-198 | read before expiry a cookie names exactly the sanitized user (or admin) if that name has no dot, and nobody if it has |
| Session.SubjectIsExactlyTheSigned | backend/internal/auth/auth.go:161-198 | every text, time and signature: it names a user iff it is an unexpired number, a name that sanitizes to that user, and the signature of both, or for admin an unexpired number and its signature |
| Session.ForgedCookieNamesNobody | backend/internal/auth/auth.go:188-192 | a text that does not end in the signature of what precedes it names nobody |
| Session.ParsedIntegers | backend/internal/auth/auth.go:170-184 | an expiry is an optional sign and decimal digits within 64 bits |
| Session.ExpiredCookieNamesNobody | backend/internal/auth/auth.go:184-187 | after expiry it names nobody |
| AuditSearch.QueryBuilder.AddLike | backend/internal/db/persistence.go:757-764 | conditions and arguments grow by one each for a non-blank value, by none for a blank one |
| AuditSearch.BuildAuditQuery | backend/internal/db/persistence.go:755-788 | conditions, arguments, and a limit in 1..500 as the last argument |
| AuditSearch.PlaceholdersInOrder | backend/internal/db/persistence.go:757-764 | each pattern argument is referenced once, in order |
| AuditSearch.QueryAcceptsExactly | backend/internal/db/persistence.go:765-782 | the query accepts exactly the rows meeting all non-blank conditions and the status condition |
| AuditSearch.AcceptanceInTermsOfTheForm | backend/internal/db/persistence.go:744-782 | what both searches ask of a row, in terms of the form: each non-blank field, and an error code or message for failed, none for success |
| AuditSearch.FilterAuditLogs | backend/internal/store/store.go:3429-3461 | the in-memory loop returns the first accepted rows up to the limit |
| AuditSearch.PlainMatchesWhereContained | backend/internal/store/store.go:3463-3469 | for plain text a LIKE pattern between percent signs is containment |
| AuditSearch.SpecialColumnDivides | backend/internal/db/persistence.go:762 | a value with a special character has a text on which database and memory differ |
| AuditSearch.SearchesAgreeOnPlainValues | backend/internal/store/store.go:832-842 | the two searches accept the same rows iff no value has a special character |
| ProfileSinks.FileSink.SaveProfile | backend/internal/fileprofile/sink.go:71-99 | the map and reply after a save to the file |
| ProfileSinks.FileSink.DeleteProfile | backend/internal/fileprofile/sink.go:148-157 | after a delete |
| ProfileSinks.FileSink.GetProfileSecret | backend/internal/fileprofile/sink.go:119-146 | what is read |
| ProfileSinks.PostgresSink.SaveProfile | backend/internal/db/persistence.go:38-88 | the table and reply after an upsert with a unique name |
| ProfileSinks.PostgresSink.DeleteProfile | backend/internal/db/persistence.go:167-176 | after a delete |
| ProfileSinks.PostgresSink.GetProfileSecret | backend/internal/db/persistence.go:133-165 | what is read |
| ProfileSinks.FileRefinesStore | backend/internal/fileprofile/sink.go:71-157 | over every sequence with non-blank identifiers the file gives the plain store's replies |
| ProfileSinks.TableRefinesStore | backend/internal/db/persistence.go:38-176 | over every clean sequence the table does |
| ProfileSinks.SinksAgree | backend/internal/fileprofile/sink.go:71-157 | so both sinks give the same replies |
| ProfileSinks.NewProfileAgreesExactlyWhenClean | backend/internal/db/persistence.go:57-86 | for a new identifier, saving and reading back agree iff the identifier is not blank, the path has no outer spaces and the name is free |
| OptionsRefresh.OptionsPage.BeginRefresh | src/pages/CreateInstancePage.tsx:186-189 | the page after a refresh begins |
| OptionsRefresh.OptionsPage.FinishRefresh | src/pages/CreateInstancePage.tsx:212-224 | the page after its response |
| OptionsRefresh.OptionsPage.FinishLoad | src/pages/CreateInstancePage.tsx:102-119 | the page after the initial load, which is not guarded |
| OptionsRefresh.RefreshesAreOrdered | src/pages/CreateInstancePage.tsx:178-225 | applied refreshes have strictly increasing numbers; the flag is on exactly while the latest is pending |
| OptionsRefresh.AppliedResponseWasTheLatest | src/pages/CreateInstancePage.tsx:212-216 | a response that is applied answers the last refresh begun so far |
| OptionsRefresh.StaleResponsesChangeNothing | src/pages/CreateInstancePage.tsx:212-224 | once the latest is in, any number of stale responses changes nothing |
| OptionsRefresh.PageShowsNewestUnlessLoadCameLast | src/pages/CreateInstancePage.tsx:93-119 | over every run: once a refresh was applied the page shows the newest one applied, unless, and only unless, the initial load ended well after it |
| OptionsRefresh.LoadFailureIsShownOverRefresh | src/pages/CreateInstancePage.tsx:115-119 | over every run: while the latest refresh is out or applied, a failure is shown iff the initial load failed after it had begun |
| OptionsRefresh.FailureIsShownExactlyWhen | src/pages/CreateInstancePage.tsx:186-221 | over every run a failure is shown iff the latest refresh or the initial load failed and no refresh has begun since |
| OptionsRefresh.PendingMeansUnanswered | src/pages/CreateInstancePage.tsx:186-224 | over every run a refresh is waited for iff it has begun and not been answered |
| OptionsRefresh.LateInitialLoadReplacesRefresh | src/pages/CreateInstancePage.tsx:93-119 | a run in which it does |
| JobLifecycle.JobStore.StartJob | backend/internal/store/store.go:1461-1479 | only a pending or retrying job starts |
| JobLifecycle.JobStore.MarkIfActive | backend/internal/store/store.go:2577-2591 | only an active job moves on or completes |
| JobLifecycle.JobStore.FailJob | backend/internal/store/store.go:1593-1609 | any job can be failed |
| JobLifecycle.JobStore.CancelJob | backend/internal/store/store.go:1611-1630 | only an unfinished job can be cancelled |
| JobLifecycle.Runner.Enqueue | backend/internal/jobs/runner.go:51-59 | queued in order, or failed when 128 are waiting |
| JobLifecycle.Runner.Take | backend/internal/jobs/runner.go:38-46 | first in, first out |
| JobLifecycle.Execute | backend/internal/jobs/oci_executor.go:41-382 | an undisturbed execution of a startable job succeeds iff it was prepared and the result was verified, writes exactly the statuses given and touches no other job; of any other job it writes nothing |
| JobLifecycle.VerdictFollowsResult | backend/internal/jobs/oci_executor.go:127-136 | an unprepared or unverified execution fails its job whatever its status, a verified one makes an active job successful and leaves any other |
| JobLifecycle.UndisturbedWorker | backend/internal/jobs/oci_executor.go:104-136 | the statuses a worker left alone takes a waiting job through, with one cloud call |
| JobLifecycle.SuccessWasVerified | backend/internal/jobs/oci_executor.go:127-136 | over every run a job is successful only if a worker finished it with a verified result |
| JobLifecycle.UsersStepByStatus | backend/internal/store/store.go:1611-1663 | what cancel, retry and clear do to a job in each status |
| JobLifecycle.RetriesAreBounded | backend/internal/store/store.go:1632-1663 | over every run no job exceeds its retry limit |
| JobLifecycle.NextKeepsInv | backend/internal/jobs/oci_executor.go:41-382 | what every step of workers and users keeps |
| JobLifecycle.NoJobRunsTwice | backend/internal/jobs/oci_executor.go:41-100 | in every interleaving at most one cloud call and one executor verdict per job, however often it is enqueued; success only after both |
| JobLifecycle.QueueIsBoundedAndFair | backend/internal/jobs/runner.go:28-59 | bound 128, first in first out, nothing lost |
| JobLifecycle.FinalStatusChanges | backend/internal/store/store.go:1593-1609 | exactly which steps change a final status, and that they change it to failed |
| JobLifecycle.FinishedJobsStayFinished | backend/internal/store/store.go:1461-1630 | a finished job is never active again, and only a successful one is ever successful |
| JobLifecycle.CancelledInTimeIsNeverCalled | backend/internal/jobs/oci_executor.go:42-44 | a job cancelled before it starts never reaches the cloud |
| JobLifecycle.CancelledJobCanEndFailed | backend/internal/store/store.go:1593-1609 | a run in which a cancelled job ends as failed |

## Left out

- Cloud SDK calls, HTTP handlers, mail, webhooks, SQL and file writes: only their answers, errors and versions are modelled, as arbitrary choices.
- Cryptography: signing is any function without dots in its output; sealing and opening are inverse functions.
- FirewallRules.ListedRuleDeletesItself: what an address prefix is, is a parameter.
- FirewallExecutor.VerifiedNsgsAreAsAsked: for groups that a VNIC names once and whose rules have identifiers of their own; what a group named twice ends as is stated only by its counters.
- Rule descriptions: the text put into a new rule is a parameter; its clean-up from the note is not modelled.
- Other writers during `FirewallExecutor.ExecuteFirewallTask`: that method runs alone; interleavings are the subject of `FirewallRuns`.
- BudgetForecast.PagesAgreeOnCompute: compares the prices of running instances, whose amounts the inventory never makes negative; the instances page also charges stopped ones, which the budget page leaves out.
- BudgetForecast.PagesAgree: for fleets of which all that counts is running and on which the pages agree in everything but hours; the budget page's scope filter is not part of this model.
- LaunchEstimate.VolumeQuoteIsTheDifference: the new volume has at least 50 GB, the smallest size of the cloud; existing ones may have any size.
- Floating-point rounding in prices, and values that are not finite numbers.
- PortExpression.ParseFirewallPorts: JavaScript number syntax other than decimal digits, such as hexadecimal, exponents or a sign, counts as no number.
- Lower case of letters outside ASCII, other than the two whose lower case is ASCII: they are left as they are.
- AuditSearch.FilterAuditLogs: the sort by time is taken as done, and the cap of 1000 entries in memory is not modelled.
- InstanceActions.ExecuteLifecycleAction: retry tokens and request identifiers; requests carry no instance identifier, since a run deals with one instance and one volume.
- Restart: recovery of jobs and profiles from storage, and failing writes of the stores.
- ProfileSinks.TableRefinesStore: for identifiers already stored the conditions are shown sufficient; that they are necessary is shown for new identifiers.
- Guardrails, templates, notifications, settings and inventory listings: mostly field copies.
- Address, IPv6 and launch jobs: their cloud work is not part of this model; as jobs they follow the same path through `JobLifecycle`.

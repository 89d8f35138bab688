/** The price change that the instances page shows for a resize. The page prices the whole
    account twice, with the instance as it is and as it would be; the result is the same as
    taking the instance away and launching it anew in its new size. */
module ResizeEstimate {
  import opened Text
  import opened FleetTariff
  import opened LaunchEstimate

  datatype Target = Target(shape: string, ocpus: real, memoryGb: real, bootVolumeGb: real, bootVolumeVpusPerGb: real)

  datatype Change = Change(currentHourly: real, targetHourly: real, deltaHourly: real, blockers: seq<Blocker>)

  function ResizedInstance(i: Instance, target: Target): Instance {
    i.(shape := target.shape, ocpus := target.ocpus, memoryGb := target.memoryGb,
       bootVolumeGb := Max(MIN_BOOT_GB, target.bootVolumeGb),
       bootVolumeVpusPerGb := NormalizedVpus(target.bootVolumeVpusPerGb))
  }

  /** Every entry with the instance's identifier is replaced. */
  function WithReplaced(fleet: seq<Instance>, id: string, replacement: Instance): seq<Instance> {
    if fleet == [] then []
    else
      var n := |fleet| - 1;
      WithReplaced(fleet[..n], id, replacement) + [if fleet[n].id == id then replacement else fleet[n]]
  }

  function EstimateResize(i: Instance, fleet: seq<Instance>, target: Target): Change {
    var resized := WithReplaced(fleet, i.id, ResizedInstance(i, target));
    var current, after := AccountHourly(fleet), AccountHourly(resized);
    Change(current, after, after - current, AccountBlockers(resized))
  }

  function Without(fleet: seq<Instance>, k: nat): seq<Instance>
    requires k < |fleet|
  {
    fleet[..k] + fleet[k + 1..]
  }

  // The account's price does not depend on the order of the list ------------------------

  lemma {:induction false} SelectOfConcatenation(a: seq<Instance>, b: seq<Instance>, p: Instance -> bool)
    ensures Select(a + b, p) == Select(a, p) + Select(b, p)
    decreases |b|
  {
    if b == [] {
      assert a + b == a;
    } else {
      var n := |b| - 1;
      assert a + b == a + b[..n] + [b[n]];
      SelectOfMore(a + b[..n], b[n], p);
      SelectOfConcatenation(a, b[..n], p);
    }
  }

  function One(i: Instance, p: Instance -> bool): multiset<Instance> {
    if p(i) then multiset{i} else multiset{}
  }

  lemma SelectAroundOne(b: seq<Instance>, k: nat, p: Instance -> bool)
    requires k < |b|
    ensures multiset(Select(b, p)) == multiset(Select(Without(b, k), p)) + One(b[k], p)
  {
    hide Select;
    SelectOfConcatenation(b[..k], b[k + 1..], p);
    assert b == b[..k] + [b[k]] + b[k + 1..];
    SelectOfConcatenation(b[..k] + [b[k]], b[k + 1..], p);
    SelectOfMore(b[..k], b[k], p);
  }

  lemma {:induction false} SelectIgnoresOrder(a: seq<Instance>, b: seq<Instance>, p: Instance -> bool)
    requires multiset(a) == multiset(b)
    ensures multiset(Select(a, p)) == multiset(Select(b, p))
    decreases |a|
  {
    if a == [] {
      assert |multiset(b)| == |b|;
    } else {
      hide Select, One;
      var n := |a| - 1;
      var k := RemoveOne(a, b);
      SelectIgnoresOrder(a[..n], Without(b, k), p);
      SelectAroundOne(a, n, p);
      assert Without(a, n) == a[..n];
      SelectAroundOne(b, k, p);
    }
  }

  lemma SelectedSumIgnoresOrder(a: seq<Instance>, b: seq<Instance>, p: Instance -> bool, f: Instance -> real)
    requires multiset(a) == multiset(b)
    ensures Sum(Select(a, p), f) == Sum(Select(b, p), f) && |Select(a, p)| == |Select(b, p)|
  {
    hide Sum, Select;
    SelectIgnoresOrder(a, b, p);
    SumIgnoresOrder(Select(a, p), Select(b, p), f);
    assert |multiset(Select(a, p))| == |multiset(Select(b, p))|;
  }

  lemma ComputeIgnoresOrder(a: seq<Instance>, b: seq<Instance>)
    requires multiset(a) == multiset(b)
    ensures ComputePrice(a) == ComputePrice(b)
  {
    hide Sum, Select, IsE2, IsA1, IsStandard, E2Price, A1Price, StandardPrice;
    SelectedSumIgnoresOrder(a, b, IsE2, Ocpus);
    SelectedSumIgnoresOrder(a, b, IsA1, Ocpus);
    SelectedSumIgnoresOrder(a, b, IsA1, MemoryGb);
    SelectedSumIgnoresOrder(a, b, IsStandard, StandardPrice);
  }

  lemma StorageIgnoresOrder(a: seq<Instance>, b: seq<Instance>)
    requires multiset(a) == multiset(b)
    ensures AccountQuantities(a) == AccountQuantities(b)
  {
    hide Sum, BaseShare, AccountUplift;
    SumIgnoresOrder(a, b, AccountGb);
    SumIgnoresOrder(a, b, AccountUplift);
    ProportionalSplitInClosedForm(a);
    ProportionalSplitInClosedForm(b);
  }

  lemma AccountIgnoresOrder(a: seq<Instance>, b: seq<Instance>)
    requires multiset(a) == multiset(b)
    ensures AccountHourly(a) == AccountHourly(b)
  {
    hide Select, ComputePrice, AccountQuantities, StoragePrice, IsActive;
    SelectIgnoresOrder(a, b, IsActive);
    ComputeIgnoresOrder(Active(a), Active(b));
    StorageIgnoresOrder(Active(a), Active(b));
  }

  // A resize against a launch --------------------------------------------------------------

  predicate OnlyAt(fleet: seq<Instance>, k: nat)
    requires k < |fleet|
  {
    forall j :: 0 <= j < |fleet| && fleet[j].id == fleet[k].id ==> j == k
  }

  lemma {:induction false} ReplacedPointwise(fleet: seq<Instance>, id: string, replacement: Instance)
    ensures |WithReplaced(fleet, id, replacement)| == |fleet|
    ensures forall j :: 0 <= j < |fleet| ==> WithReplaced(fleet, id, replacement)[j] == if fleet[j].id == id then replacement else fleet[j]
  {
    if fleet != [] {
      var n := |fleet| - 1;
      ReplacedPointwise(fleet[..n], id, replacement);
    }
  }

  lemma MovedToTheEnd(fleet: seq<Instance>, k: nat, i: Instance)
    requires k < |fleet|
    ensures multiset(fleet[k := i]) == multiset(Without(fleet, k) + [i])
  {
    assert fleet[k := i] == fleet[..k] + [i] + fleet[k + 1..];
  }

  /** The change shown for a resize is what launching the new instance would add to the
      other instances, minus what the old one adds to them. */
  lemma ResizeIsRelaunch(fleet: seq<Instance>, k: nat, target: Target)
    requires k < |fleet| && OnlyAt(fleet, k)
    ensures var others := Without(fleet, k);
      EstimateResize(fleet[k], fleet, target).deltaHourly
      == (AccountHourly(others + [ResizedInstance(fleet[k], target)]) - AccountHourly(others))
       - (AccountHourly(others + [fleet[k]]) - AccountHourly(others))
  {
    hide AccountHourly, AccountBlockers, ResizedInstance, WithReplaced;
    var resized := ResizedInstance(fleet[k], target);
    ReplacedPointwise(fleet, fleet[k].id, resized);
    assert WithReplaced(fleet, fleet[k].id, resized) == fleet[k := resized];
    assert fleet == fleet[k := fleet[k]];
    MovedToTheEnd(fleet, k, resized);
    MovedToTheEnd(fleet, k, fleet[k]);
    AccountIgnoresOrder(fleet[k := resized], Without(fleet, k) + [resized]);
    AccountIgnoresOrder(fleet, Without(fleet, k) + [fleet[k]]);
  }

  /** The whole number nearest to a performance, upwards from a half, within 10 to 120. */
  predicate IsNearestVpus(value: real, vpus: real) {
    && 10.0 <= vpus <= 120.0 && vpus.Floor as real == vpus
    && (value <= 10.0 ==> vpus == 10.0)
    && (value >= 120.0 ==> vpus == 120.0)
    && (10.0 < value < 120.0 ==> -0.5 <= value - vpus < 0.5)
  }

  lemma NearestIsNormalized(value: real, vpus: real)
    requires IsNearestVpus(value, vpus)
    ensures vpus == NormalizedVpus(value)
  {
    var n := NormalizedVpus(value);
    NormalizedVpusIsNearest(value);
    if 10.0 < value < 120.0 {
      assert -1.0 < vpus - n < 1.0;
      assert -1 < vpus.Floor - n.Floor < 1;
    }
  }

  /** The same instance, not touched in identifier and status, in the size asked for. */
  predicate IsResized(i: Instance, target: Target, j: Instance) {
    && j.id == i.id && j.status == i.status
    && j.shape == target.shape && j.ocpus == target.ocpus && j.memoryGb == target.memoryGb
    && j.bootVolumeGb == (if target.bootVolumeGb < 50.0 then 50.0 else target.bootVolumeGb)
    && IsNearestVpus(target.bootVolumeVpusPerGb, j.bootVolumeVpusPerGb)
  }

  /** The page prices the fleet in which that instance, and no other, is as asked for. */
  lemma ResizePricesWhatIsAskedFor(fleet: seq<Instance>, k: nat, target: Target, j: Instance)
    requires k < |fleet| && OnlyAt(fleet, k) && IsResized(fleet[k], target, j)
    ensures EstimateResize(fleet[k], fleet, target)
         == Change(AccountHourly(fleet), AccountHourly(fleet[k := j]), AccountHourly(fleet[k := j]) - AccountHourly(fleet),
                   AccountBlockers(fleet[k := j]))
  {
    hide AccountHourly, AccountBlockers, WithReplaced, NormalizedVpus;
    NearestIsNormalized(target.bootVolumeVpusPerGb, j.bootVolumeVpusPerGb);
    assert j == ResizedInstance(fleet[k], target);
    ReplacedPointwise(fleet, fleet[k].id, j);
    assert WithReplaced(fleet, fleet[k].id, j) == fleet[k := j];
  }

  /** Instances alike in storage add the same to the storage price. */
  lemma AlikeInStorage(others: seq<Instance>, i: Instance, j: Instance)
    requires i.status == j.status && AccountGb(i) == AccountGb(j) && AccountUplift(i) == AccountUplift(j)
    ensures StorageDelta(others, i) == StorageDelta(others, j)
  {
    hide NormalizedVpus, Sum, Select, BaseShare, AccountGb, AccountUplift;
    SelectOfMore(others, i, IsActive);
    SelectOfMore(others, j, IsActive);
    var active := Active(others);
    SumOfMore(active, i, AccountGb);
    SumOfMore(active, j, AccountGb);
    SumOfMore(active, i, AccountUplift);
    SumOfMore(active, j, AccountUplift);
    ProportionalSplitInClosedForm(active + [i]);
    ProportionalSplitInClosedForm(active + [j]);
    assert IsActive(i) ==> AccountQuantities(active + [i]) == AccountQuantities(active + [j]);
  }

  /** What an instance adds to the compute price of the others, by its shape, in dollars per hour. */
  function ComputeAdded(others: seq<Instance>, i: Instance): real {
    var usage := UsageOf(others);
    if i.status == Terminating || i.status == Terminated then 0.0
    else if i.shape == "VM.Standard.E2.1.Micro" then
      if usage.e2Count < 2 then 0.0 else 0.0255 + 0.0015
    else if i.shape == "VM.Standard.A1.Flex" then
      (Over(usage.a1Ocpus + i.ocpus, 4.0) - Over(usage.a1Ocpus, 4.0)) * 0.01
      + (Over(usage.a1MemoryGb + i.memoryGb, 24.0) - Over(usage.a1MemoryGb, 24.0)) * 0.0015
    else i.ocpus * 0.0255 + i.memoryGb * 0.0015
  }

  lemma ComputeDeltaByShape(others: seq<Instance>, i: Instance)
    ensures ComputeDelta(others, i) == ComputeAdded(others, i)
  {
    hide ComputePrice, Select, Sum;
    assert IsActive(i) <==> i.status != Terminating && i.status != Terminated;
    ShapesDiffer(i);
    SelectOfMore(others, i, IsActive);
    if IsActive(i) {
      ComputePriceOfMore(Active(others), i);
    }
  }

  /** A resize that leaves the volume alone changes the price by what the two shapes add to
      the others: say, by the whole standard price less the part of the A1 price that was
      over the allowance. */
  lemma ShapeChangeByClass(fleet: seq<Instance>, k: nat, target: Target, j: Instance)
    requires k < |fleet| && OnlyAt(fleet, k) && IsResized(fleet[k], target, j)
    requires fleet[k].bootVolumeGb >= 50.0 && target.bootVolumeGb == fleet[k].bootVolumeGb
    requires target.bootVolumeVpusPerGb == fleet[k].bootVolumeVpusPerGb
    ensures EstimateResize(fleet[k], fleet, target).deltaHourly
         == ComputeAdded(Without(fleet, k), j) - ComputeAdded(Without(fleet, k), fleet[k])
  {
    var others := Without(fleet, k);
    NearestIsNormalized(target.bootVolumeVpusPerGb, j.bootVolumeVpusPerGb);
    NormalizedOnce(target.bootVolumeVpusPerGb);
    assert j == ResizedInstance(fleet[k], target);
    assert AccountGb(j) == AccountGb(fleet[k]) && AccountUplift(j) == AccountUplift(fleet[k]);
    hide NormalizedVpus, ComputeAdded, EstimateResize, ResizedInstance, AccountGb, AccountUplift;
    ResizeIsRelaunch(fleet, k, target);
    ComputeDeltaByShape(others, fleet[k]);
    ComputeDeltaByShape(others, j);
    AlikeInStorage(others, fleet[k], j);
    hide ComputePrice, StoragePrice, AccountQuantities, Active;
  }

  /** What the create page asks of an instance to price it: whole volume size, no negative
      amounts, and a priced shape written without outer spaces. */
  predicate Quotable(i: Instance, option: Option<ShapeOption>) {
    && IsActive(i) && i.bootVolumeGb >= MIN_BOOT_GB && i.ocpus >= 0.0 && i.memoryGb >= 0.0
    && JsTrim(i.shape) == i.shape && IsPriced(Classify(i.shape), i, option)
  }

  function QuoteOver(others: seq<Instance>, i: Instance, usedGb: real, option: Option<ShapeOption>): Quote {
    QuoteLaunch(Classify(i.shape), i.ocpus, i.memoryGb, i.bootVolumeGb, i.bootVolumeVpusPerGb,
                Some(usedGb), UsageOf(others), option)
  }

  function Surplus(others: seq<Instance>, i: Instance, usedGb: real, option: Option<ShapeOption>): real {
    ComputeSurplus(others, i, Classify(i.shape), option) + StorageSurplus(Active(others), i.bootVolumeGb, usedGb)
  }

  /** The two pages tell one story: the change shown for a resize is the create page's quote
      for the new size minus its quote for the old one, over the other instances, exactly when
      both quotes have the same surplus. */
  lemma ResizeIsDifferenceOfQuotes(fleet: seq<Instance>, k: nat, target: Target, usedGb: real, option: Option<ShapeOption>)
    requires k < |fleet| && OnlyAt(fleet, k)
    requires Quotable(fleet[k], option) && Quotable(ResizedInstance(fleet[k], target), option)
    ensures var others, i, j := Without(fleet, k), fleet[k], ResizedInstance(fleet[k], target);
      var before := QuoteOver(others, i, usedGb, option).hourly;
      var after := QuoteOver(others, j, usedGb, option).hourly;
      && before.Some? && after.Some?
      && (EstimateResize(i, fleet, target).deltaHourly == after.value - before.value
          <==> Surplus(others, i, usedGb, option) == Surplus(others, j, usedGb, option))
  {
    hide AccountHourly, EstimateResize, ResizedInstance, Classify, JsTrim, QuoteLaunch, Active, UsageOf, IsActive;
    hide IsPriced, ComputeSurplus, StorageSurplus;
    ResizeIsRelaunch(fleet, k, target);
    var others := Without(fleet, k);
    var i, j := fleet[k], ResizedInstance(fleet[k], target);
    QuoteIsTheAccountDifference(others, i, Classify(i.shape), usedGb, option);
    QuoteIsTheAccountDifference(others, j, Classify(j.shape), usedGb, option);
  }

  function Unchanged(i: Instance): Target {
    Target(i.shape, i.ocpus, i.memoryGb, i.bootVolumeGb, i.bootVolumeVpusPerGb)
  }

  /** The page corrects size and performance of the target, which costs nothing by itself:
      asking for what an instance already has is shown as no change. */
  lemma UnchangedCostsNothing(fleet: seq<Instance>, k: nat)
    requires k < |fleet| && OnlyAt(fleet, k)
    ensures EstimateResize(fleet[k], fleet, Unchanged(fleet[k])).deltaHourly == 0.0
  {
    var others := Without(fleet, k);
    ResizeIsRelaunch(fleet, k, Unchanged(fleet[k]));
    SamePriceWithCorrected(others, fleet[k]);
    hide AccountHourly, EstimateResize, ResizedInstance;
  }

  lemma CorrectedIsTheSame(i: Instance)
    ensures var j := ResizedInstance(i, Unchanged(i));
      && j == i.(bootVolumeGb := j.bootVolumeGb, bootVolumeVpusPerGb := j.bootVolumeVpusPerGb)
      && AccountGb(j) == AccountGb(i) && AccountUplift(j) == AccountUplift(i)
  {
    NormalizedOnce(i.bootVolumeVpusPerGb);
  }

  lemma NormalizedOnce(value: real)
    ensures NormalizedVpus(NormalizedVpus(value)) == NormalizedVpus(value)
  {
    var vpus := NormalizedVpus(value);
    var n := if vpus == 10.0 then 10 else if vpus == 120.0 then 120 else Round(value);
    assert vpus == n as real;
    assert Round(vpus) == n;
  }

  lemma SamePriceWithCorrected(others: seq<Instance>, i: Instance)
    ensures AccountHourly(others + [ResizedInstance(i, Unchanged(i))]) == AccountHourly(others + [i])
  {
    CorrectedIsTheSame(i);
    var j := ResizedInstance(i, Unchanged(i));
    hide ResizedInstance, NormalizedVpus, Sum, Select, E2Price, A1Price, StandardPrice, BaseShare, AccountGb, AccountUplift;
    SelectOfMore(others, i, IsActive);
    SelectOfMore(others, j, IsActive);
    var active := Active(others);
    ComputePriceOfMore(active, i);
    ComputePriceOfMore(active, j);
    assert StandardPrice(i) == StandardPrice(j) by { SameAmounts(i, j); }
    hide ComputePrice;
    SumOfMore(active, i, AccountGb);
    SumOfMore(active, j, AccountGb);
    SumOfMore(active, i, AccountUplift);
    SumOfMore(active, j, AccountUplift);
    ProportionalSplitInClosedForm(active + [i]);
    ProportionalSplitInClosedForm(active + [j]);
    assert AccountQuantities(active + [i]) == AccountQuantities(active + [j]);
  }

  lemma SameAmounts(i: Instance, j: Instance)
    requires i.ocpus == j.ocpus && i.memoryGb == j.memoryGb
    ensures StandardPrice(i) == StandardPrice(j)
  {
  }
}

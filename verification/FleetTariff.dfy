/** The hourly price of a fleet under the free-tier tariff, as two pages compute it:
    the budget page walks through the boot volumes and uses up the free gigabytes one
    instance after another, the instances page gives every volume the same share. */
module FleetTariff {

  datatype Status = Running | Stopped | Provisioning | Terminating | Terminated

  datatype Instance = Instance(
    id: string, status: Status, shape: string, ocpus: real, memoryGb: real, bootVolumeGb: real, bootVolumeVpusPerGb: real)

  const E2_MICRO := "VM.Standard.E2.1.Micro"
  const A1_FLEX := "VM.Standard.A1.Flex"
  const FREE_E2_COUNT := 2
  const FREE_A1_OCPUS := 4.0
  const FREE_A1_MEMORY_GB := 24.0
  const FREE_BOOT_GB := 200.0
  const FREE_VPUS_PER_GB := 10.0
  const MIN_BOOT_GB := 50.0
  const HOURS_PER_MONTH := 730.0
  const STANDARD_OCPU_HOUR := 0.0255
  const STANDARD_MEMORY_HOUR := 0.0015
  const A1_OCPU_HOUR := 0.01
  const A1_MEMORY_HOUR := 0.0015
  const BOOT_GB_MONTH := 0.0255
  const BOOT_VPU_GB_MONTH := 0.0017

  function Max(a: real, b: real): real {
    if a >= b then a else b
  }

  function Min(a: real, b: real): real {
    if a <= b then a else b
  }

  /** What exceeds a free allowance. */
  function Over(used: real, free: real): real {
    Max(0.0, used - free)
  }

  function SafePositive(value: real): real {
    if value > 0.0 then value else 0.0
  }

  /** Rounding half up, as `Math.round` does. */
  function Round(value: real): int {
    (value + 0.5).Floor
  }

  function NormalizedVpus(value: real): (vpus: real)
    ensures 10.0 <= vpus <= 120.0
  {
    if value <= 0.0 then 10.0 else Min(120.0, Max(10.0, Round(value) as real))
  }

  /** The nearest whole number, upwards from a half, kept within 10 to 120. */
  lemma NormalizedVpusIsNearest(value: real)
    ensures 10.0 <= value <= 120.0 ==>
      && -0.5 <= value - NormalizedVpus(value) < 0.5
      && NormalizedVpus(value).Floor as real == NormalizedVpus(value)
    ensures value < 10.0 ==> NormalizedVpus(value) == 10.0
    ensures value > 120.0 ==> NormalizedVpus(value) == 120.0
  {
    var n := Round(value);
    assert n as real - 0.5 <= value < n as real + 0.5;
    if 10.0 <= value <= 120.0 {
      assert 10 <= n <= 120;
    }
  }

  function Sum(fleet: seq<Instance>, f: Instance -> real): real {
    if fleet == [] then 0.0 else Sum(fleet[..|fleet| - 1], f) + f(fleet[|fleet| - 1])
  }

  function Select(fleet: seq<Instance>, p: Instance -> bool): seq<Instance> {
    if fleet == [] then []
    else Select(fleet[..|fleet| - 1], p) + if p(fleet[|fleet| - 1]) then [fleet[|fleet| - 1]] else []
  }

  predicate IsActive(i: Instance) {
    i.status != Terminating && i.status != Terminated
  }

  function Active(fleet: seq<Instance>): seq<Instance> {
    Select(fleet, IsActive)
  }

  // Storage quantities ---------------------------------------------------------------

  datatype Quantities = Quantities(billableGb: real, baseVpusGb: real, upliftVpusGb: real)

  function StoragePrice(q: Quantities, hours: real): real
    requires hours > 0.0
  {
    (q.billableGb * BOOT_GB_MONTH + (q.baseVpusGb + q.upliftVpusGb) * BOOT_VPU_GB_MONTH) / hours
  }

  /** The budget page takes a volume's size as it is. */
  function BudgetGb(i: Instance): real {
    SafePositive(i.bootVolumeGb)
  }

  function BudgetUplift(i: Instance): real {
    BudgetGb(i) * (NormalizedVpus(i.bootVolumeVpusPerGb) - FREE_VPUS_PER_GB)
  }

  /** The instances page rounds every volume up to the smallest possible size. */
  function AccountGb(i: Instance): real {
    Max(MIN_BOOT_GB, i.bootVolumeGb)
  }

  function AccountUplift(i: Instance): real {
    AccountGb(i) * Max(0.0, NormalizedVpus(i.bootVolumeVpusPerGb) - FREE_VPUS_PER_GB)
  }

  /** What the budget page's walk amounts to; see `EstimateStorageFleet`. */
  function BudgetQuantities(fleet: seq<Instance>): Quantities {
    var billable := Over(Sum(fleet, BudgetGb), FREE_BOOT_GB);
    Quantities(billable, 10.0 * billable, Sum(fleet, BudgetUplift))
  }

  /** Every volume's billable share, at up to the free performance level. */
  function BaseShare(fleet: seq<Instance>, ratio: real): real {
    if fleet == [] then 0.0
    else
      var i := fleet[|fleet| - 1];
      BaseShare(fleet[..|fleet| - 1], ratio)
      + AccountGb(i) * ratio * Min(NormalizedVpus(i.bootVolumeVpusPerGb), FREE_VPUS_PER_GB)
  }

  function AccountQuantities(active: seq<Instance>): Quantities {
    var total := Sum(active, AccountGb);
    var billable := Over(total, FREE_BOOT_GB);
    Quantities(billable, if total <= FREE_BOOT_GB then 0.0 else BaseShare(active, billable / total), Sum(active, AccountUplift))
  }

  /** The budget page's walk: free gigabytes go to the instances in list order, yet what
      is billed in the end depends on the totals only. */
  method WalkFleet(fleet: seq<Instance>) returns (baseVpusGb: real, upliftVpusGb: real)
    ensures baseVpusGb == 10.0 * Over(Sum(fleet, BudgetGb), FREE_BOOT_GB)
    ensures upliftVpusGb == Sum(fleet, BudgetUplift)
  {
    hide NormalizedVpus, SafePositive, Over, Min, Max, BudgetUplift;
    NothingUsed();
    var remaining := FREE_BOOT_GB;
    baseVpusGb, upliftVpusGb := 0.0, 0.0;
    for i := 0 to |fleet|
      invariant remaining == Over(FREE_BOOT_GB, Sum(fleet[..i], BudgetGb))
      invariant baseVpusGb == 10.0 * Over(Sum(fleet[..i], BudgetGb), FREE_BOOT_GB)
      invariant upliftVpusGb == Sum(fleet[..i], BudgetUplift)
    {
      assert fleet[..i + 1][..i] == fleet[..i];
      WalkStep(Sum(fleet[..i], BudgetGb), fleet[i]);
      var bootGb := SafePositive(fleet[i].bootVolumeGb);
      var vpus := NormalizedVpus(fleet[i].bootVolumeVpusPerGb);
      var freeGb := Min(remaining, bootGb);
      var billableGb := Max(0.0, bootGb - freeGb);
      remaining := Max(0.0, remaining - freeGb);
      baseVpusGb := baseVpusGb + billableGb * Min(vpus, FREE_VPUS_PER_GB);
      if vpus > FREE_VPUS_PER_GB {
        upliftVpusGb := upliftVpusGb + bootGb * (vpus - FREE_VPUS_PER_GB);
      }
    }
    assert fleet[..|fleet|] == fleet;
  }

  method EstimateStorageFleet(fleet: seq<Instance>, hoursInMonth: real) returns (hourly: real, billableGb: real, totalGb: real)
    requires hoursInMonth > 0.0
    ensures totalGb == Sum(fleet, BudgetGb) && billableGb == Over(totalGb, FREE_BOOT_GB)
    ensures hourly == StoragePrice(BudgetQuantities(fleet), hoursInMonth)
  {
    totalGb := 0.0;
    for i := 0 to |fleet|
      invariant totalGb == Sum(fleet[..i], BudgetGb)
    {
      assert fleet[..i + 1][..i] == fleet[..i];
      totalGb := totalGb + BudgetGb(fleet[i]);
    }
    assert fleet[..|fleet|] == fleet;
    billableGb := Over(totalGb, FREE_BOOT_GB);
    var baseVpusGb, upliftVpusGb := WalkFleet(fleet);
    hide Over, Sum;
    PriceSplits(billableGb, baseVpusGb + upliftVpusGb, hoursInMonth);
    hourly := billableGb * BOOT_GB_MONTH / hoursInMonth + (baseVpusGb + upliftVpusGb) * BOOT_VPU_GB_MONTH / hoursInMonth;
  }

  lemma NothingUsed()
    ensures Over(FREE_BOOT_GB, 0.0) == FREE_BOOT_GB && Over(0.0, FREE_BOOT_GB) == 0.0
  {
  }

  /** One instance of the walk, after instances with `used` gigabytes in all. */
  lemma WalkStep(used: real, i: Instance)
    ensures var remaining := Over(FREE_BOOT_GB, used);
      var bootGb := SafePositive(i.bootVolumeGb);
      var vpus := NormalizedVpus(i.bootVolumeVpusPerGb);
      var freeGb := Min(remaining, bootGb);
      var billable := Max(0.0, bootGb - freeGb);
      && Max(0.0, remaining - freeGb) == Over(FREE_BOOT_GB, used + BudgetGb(i))
      && 10.0 * Over(used, FREE_BOOT_GB) + billable * Min(vpus, FREE_VPUS_PER_GB) == 10.0 * Over(used + BudgetGb(i), FREE_BOOT_GB)
      && (if vpus > FREE_VPUS_PER_GB then bootGb * (vpus - FREE_VPUS_PER_GB) else 0.0) == BudgetUplift(i)
  {
    var vpus := NormalizedVpus(i.bootVolumeVpusPerGb);
    assert Min(vpus, FREE_VPUS_PER_GB) == 10.0;
    if vpus == FREE_VPUS_PER_GB {
      assert BudgetUplift(i) == BudgetGb(i) * 0.0;
    }
  }

  lemma PriceSplits(gb: real, vpusGb: real, hours: real)
    requires hours > 0.0
    ensures gb * BOOT_GB_MONTH / hours + vpusGb * BOOT_VPU_GB_MONTH / hours
         == (gb * BOOT_GB_MONTH + vpusGb * BOOT_VPU_GB_MONTH) / hours
  {
  }

  // Order does not matter ---------------------------------------------------------------

  lemma {:induction false} SumOfConcatenation(a: seq<Instance>, b: seq<Instance>, f: Instance -> real)
    ensures Sum(a + b, f) == Sum(a, f) + Sum(b, f)
    decreases |b|
  {
    if b == [] {
      assert a + b == a;
    } else {
      var n := |b| - 1;
      assert (a + b)[..|a + b| - 1] == a + b[..n];
      SumOfConcatenation(a, b[..n], f);
    }
  }

  /** Taking the same instance out of two rearrangements leaves two rearrangements. */
  lemma RemoveOne(a: seq<Instance>, b: seq<Instance>) returns (k: nat)
    requires a != [] && multiset(a) == multiset(b)
    ensures k < |b| && b[k] == a[|a| - 1]
    ensures multiset(a[..|a| - 1]) == multiset(b[..k] + b[k + 1..])
  {
    var n := |a| - 1;
    assert a == a[..n] + [a[n]];
    assert multiset(a) == multiset(a[..n]) + multiset{a[n]};
    assert a[n] in multiset(b);
    k :| 0 <= k < |b| && b[k] == a[n];
    assert b == b[..k] + ([b[k]] + b[k + 1..]);
    assert multiset(b) == multiset(b[..k]) + (multiset{b[k]} + multiset(b[k + 1..]));
    CancelOne(multiset(a[..n]), multiset(b[..k]), multiset(b[k + 1..]), a[n]);
  }

  lemma CancelOne(a: multiset<Instance>, left: multiset<Instance>, right: multiset<Instance>, x: Instance)
    requires a + multiset{x} == left + (multiset{x} + right)
    ensures a == left + right
  {
    forall y
      ensures a[y] == (left + right)[y]
    {
      assert (a + multiset{x})[y] == (left + (multiset{x} + right))[y];
    }
  }

  lemma {:induction false} SumIgnoresOrder(a: seq<Instance>, b: seq<Instance>, f: Instance -> real)
    requires multiset(a) == multiset(b)
    ensures Sum(a, f) == Sum(b, f)
    decreases |a|
  {
    if a == [] {
      assert |multiset(b)| == |b|;
    } else {
      var k := RemoveOne(a, b);
      SumIgnoresOrder(a[..|a| - 1], b[..k] + b[k + 1..], f);
      SumOfConcatenation(b[..k], b[k + 1..], f);
      assert b == b[..k] + ([b[k]] + b[k + 1..]);
      SumOfConcatenation(b[..k], [b[k]] + b[k + 1..], f);
      SumOfConcatenation([b[k]], b[k + 1..], f);
      assert [b[k]][..0] == [];
    }
  }

  /** The walk bills any rearrangement of a fleet the same. */
  lemma WalkIgnoresOrder(a: seq<Instance>, b: seq<Instance>)
    requires multiset(a) == multiset(b)
    ensures BudgetQuantities(a) == BudgetQuantities(b)
  {
    SumIgnoresOrder(a, b, BudgetGb);
    SumIgnoresOrder(a, b, BudgetUplift);
  }

  // The two pages compared ----------------------------------------------------------------

  lemma {:induction false} SharesAddUp(fleet: seq<Instance>, ratio: real)
    ensures BaseShare(fleet, ratio) == 10.0 * ratio * Sum(fleet, AccountGb)
  {
    if fleet != [] {
      var n := |fleet| - 1;
      SharesAddUp(fleet[..n], ratio);
      assert Min(NormalizedVpus(fleet[n].bootVolumeVpusPerGb), FREE_VPUS_PER_GB) == 10.0;
      assert 10.0 * ratio * (Sum(fleet[..n], AccountGb) + AccountGb(fleet[n]))
          == 10.0 * ratio * Sum(fleet[..n], AccountGb) + AccountGb(fleet[n]) * ratio * 10.0;
    }
  }

  /** The proportional split comes to the same closed form as the walk, on its own sizes. */
  lemma ProportionalSplitInClosedForm(active: seq<Instance>)
    ensures AccountQuantities(active).baseVpusGb == 10.0 * AccountQuantities(active).billableGb
  {
    var total := Sum(active, AccountGb);
    if total > FREE_BOOT_GB {
      var billable := total - FREE_BOOT_GB;
      SharesAddUp(active, billable / total);
      assert billable / total * total == billable;
      assert 10.0 * (billable / total) * total == 10.0 * (billable / total * total);
    }
  }

  /** A sum of larger terms is larger, and equal only when all terms are. */
  lemma {:induction false} SumsCompare(fleet: seq<Instance>, f: Instance -> real, g: Instance -> real)
    requires forall i :: 0 <= i < |fleet| ==> f(fleet[i]) <= g(fleet[i])
    ensures Sum(fleet, f) <= Sum(fleet, g)
    ensures Sum(fleet, f) == Sum(fleet, g) <==> forall i :: 0 <= i < |fleet| ==> f(fleet[i]) == g(fleet[i])
  {
    if fleet != [] {
      var n := |fleet| - 1;
      SumsCompare(fleet[..n], f, g);
      assert forall i :: 0 <= i < n ==> fleet[..n][i] == fleet[i];
    }
  }

  lemma ProductsCompare(a: real, b: real, extra: real)
    requires 0.0 <= a <= b && extra >= 0.0
    ensures 0.0 <= a * extra <= b * extra
    ensures a * extra == b * extra <==> a == b || extra == 0.0
  {
    assert b * extra - a * extra == (b - a) * extra;
    if a < b && extra > 0.0 {
      assert (b - a) * extra > 0.0;
    }
  }

  lemma GbCompare(i: Instance)
    ensures 0.0 <= BudgetGb(i) <= AccountGb(i)
    ensures BudgetGb(i) == AccountGb(i) <==> i.bootVolumeGb >= MIN_BOOT_GB
  {
  }

  lemma UpliftCompare(i: Instance)
    ensures 0.0 <= BudgetUplift(i) <= AccountUplift(i)
    ensures BudgetUplift(i) == AccountUplift(i)
       <==> i.bootVolumeGb >= MIN_BOOT_GB || NormalizedVpus(i.bootVolumeVpusPerGb) == FREE_VPUS_PER_GB
  {
    hide NormalizedVpus, BudgetGb, AccountGb;
    var extra := NormalizedVpus(i.bootVolumeVpusPerGb) - FREE_VPUS_PER_GB;
    GbCompare(i);
    ProductsCompare(BudgetGb(i), AccountGb(i), extra);
    assert Max(0.0, extra) == extra;
  }

  predicate AllFullSize(fleet: seq<Instance>) {
    forall i :: 0 <= i < |fleet| ==> fleet[i].bootVolumeGb >= MIN_BOOT_GB
  }

  /** Volumes below the smallest size run at the free performance level. */
  predicate SmallOnesAreBalanced(fleet: seq<Instance>) {
    forall i :: 0 <= i < |fleet| ==>
      fleet[i].bootVolumeGb >= MIN_BOOT_GB || NormalizedVpus(fleet[i].bootVolumeVpusPerGb) == FREE_VPUS_PER_GB
  }

  predicate SameStorage(active: seq<Instance>) {
    (AllFullSize(active) || Sum(active, AccountGb) <= FREE_BOOT_GB) && SmallOnesAreBalanced(active)
  }

  /** The two pages bill the same quantities exactly when every volume has at least the
      smallest size, or all volumes rounded up are still free and no small one is fast. */
  lemma PagesAgreeOnStorage(active: seq<Instance>)
    ensures BudgetQuantities(active) == AccountQuantities(active)
       <==> SameStorage(active)
  {
    forall i | 0 <= i < |active|
      ensures BudgetGb(active[i]) <= AccountGb(active[i])
      ensures BudgetGb(active[i]) == AccountGb(active[i]) <==> active[i].bootVolumeGb >= MIN_BOOT_GB
      ensures BudgetUplift(active[i]) <= AccountUplift(active[i])
      ensures BudgetUplift(active[i]) == AccountUplift(active[i])
         <==> active[i].bootVolumeGb >= MIN_BOOT_GB || NormalizedVpus(active[i].bootVolumeVpusPerGb) == FREE_VPUS_PER_GB
    {
      GbCompare(active[i]);
      UpliftCompare(active[i]);
    }
    SumsCompare(active, BudgetGb, AccountGb);
    SumsCompare(active, BudgetUplift, AccountUplift);
    ProportionalSplitInClosedForm(active);
  }

  // The account estimate of the instances page --------------------------------------------

  predicate IsE2(i: Instance) { i.shape == E2_MICRO }

  predicate IsA1(i: Instance) { i.shape == A1_FLEX }

  predicate IsStandard(i: Instance) { !IsE2(i) && !IsA1(i) }

  function Ocpus(i: Instance): real { i.ocpus }

  function MemoryGb(i: Instance): real { i.memoryGb }

  function StandardPrice(i: Instance): real {
    i.ocpus * STANDARD_OCPU_HOUR + i.memoryGb * STANDARD_MEMORY_HOUR
  }

  function E2Price(count: int): real {
    (if count > FREE_E2_COUNT then count - FREE_E2_COUNT else 0) as real * (STANDARD_OCPU_HOUR + STANDARD_MEMORY_HOUR)
  }

  function A1Price(ocpus: real, memoryGb: real): real {
    Over(ocpus, FREE_A1_OCPUS) * A1_OCPU_HOUR + Over(memoryGb, FREE_A1_MEMORY_GB) * A1_MEMORY_HOUR
  }

  function ComputePrice(active: seq<Instance>): real {
    E2Price(|Select(active, IsE2)|)
    + A1Price(Sum(Select(active, IsA1), Ocpus), Sum(Select(active, IsA1), MemoryGb))
    + Sum(Select(active, IsStandard), StandardPrice)
  }

  /** Why the account is beyond the free tier. */
  datatype Blocker = TooManyE2 | A1OcpusExceeded | A1MemoryExceeded | BootGbExceeded | FastVolumes | StandardShapes

  function AccountHourly(fleet: seq<Instance>): real {
    ComputePrice(Active(fleet)) + StoragePrice(AccountQuantities(Active(fleet)), HOURS_PER_MONTH)
  }

  function If(condition: bool, blocker: Blocker): seq<Blocker> {
    if condition then [blocker] else []
  }

  function AccountBlockers(fleet: seq<Instance>): seq<Blocker> {
    var active := Active(fleet);
    var q := AccountQuantities(active);
    If(|Select(active, IsE2)| > FREE_E2_COUNT, TooManyE2)
    + If(Sum(Select(active, IsA1), Ocpus) > FREE_A1_OCPUS, A1OcpusExceeded)
    + If(Sum(Select(active, IsA1), MemoryGb) > FREE_A1_MEMORY_GB, A1MemoryExceeded)
    + If(q.billableGb > 0.0, BootGbExceeded)
    + If(q.upliftVpusGb > 0.0, FastVolumes)
    + If(Select(active, IsStandard) != [], StandardShapes)
  }

  lemma ListedBlockers(e2: bool, ocpus: bool, memory: bool, gb: bool, fast: bool, standard: bool)
    ensures var blockers := If(e2, TooManyE2) + If(ocpus, A1OcpusExceeded) + If(memory, A1MemoryExceeded)
                            + If(gb, BootGbExceeded) + If(fast, FastVolumes) + If(standard, StandardShapes);
      && (blockers == [] <==> !e2 && !ocpus && !memory && !gb && !fast && !standard)
      && (blockers == [StandardShapes] <==> !e2 && !ocpus && !memory && !gb && !fast && standard)
  {
    var others := If(e2, TooManyE2) + If(ocpus, A1OcpusExceeded) + If(memory, A1MemoryExceeded)
                  + If(gb, BootGbExceeded) + If(fast, FastVolumes);
    if others != [] {
      assert others[0] != StandardShapes;
      assert (others + If(standard, StandardShapes))[0] == others[0];
    }
  }

  lemma {:induction false} SumIsNonNegative(fleet: seq<Instance>, f: Instance -> real)
    requires forall i :: 0 <= i < |fleet| ==> f(fleet[i]) >= 0.0
    ensures Sum(fleet, f) >= 0.0
    ensures Sum(fleet, f) == 0.0 <==> forall i :: 0 <= i < |fleet| ==> f(fleet[i]) == 0.0
  {
    if fleet != [] {
      var n := |fleet| - 1;
      SumIsNonNegative(fleet[..n], f);
      assert fleet == fleet[..n] + [fleet[n]];
    }
  }

  lemma {:induction false} SelectedSatisfy(fleet: seq<Instance>, p: Instance -> bool)
    ensures forall i :: 0 <= i < |Select(fleet, p)| ==> p(Select(fleet, p)[i]) && Select(fleet, p)[i] in fleet
  {
    if fleet != [] {
      SelectedSatisfy(fleet[..|fleet| - 1], p);
    }
  }

  lemma StorageIsFreeWithoutQuantities(active: seq<Instance>)
    ensures var q := AccountQuantities(active);
      && q.billableGb >= 0.0 && q.upliftVpusGb >= 0.0
      && StoragePrice(q, HOURS_PER_MONTH) >= 0.0
      && (StoragePrice(q, HOURS_PER_MONTH) == 0.0 <==> q.billableGb == 0.0 && q.upliftVpusGb == 0.0)
  {
    ProportionalSplitInClosedForm(active);
    forall i | 0 <= i < |active|
      ensures AccountUplift(active[i]) >= 0.0
    {
      UpliftCompare(active[i]);
    }
    SumIsNonNegative(active, AccountUplift);
  }

  /** Amounts of standard shapes are not negative. */
  predicate StandardAmounts(active: seq<Instance>) {
    forall i :: 0 <= i < |active| && IsStandard(active[i]) ==> active[i].ocpus >= 0.0 && active[i].memoryGb >= 0.0
  }

  predicate StandardOnesAreEmpty(active: seq<Instance>) {
    forall i :: 0 <= i < |active| && IsStandard(active[i]) ==> active[i].ocpus == 0.0 && active[i].memoryGb == 0.0
  }

  lemma {:induction false} StandardShapesCost(active: seq<Instance>)
    requires StandardAmounts(active)
    ensures var standard := Select(active, IsStandard);
      Sum(standard, StandardPrice) >= 0.0 && (Sum(standard, StandardPrice) == 0.0 <==> StandardOnesAreEmpty(active))
  {
    hide IsE2, IsA1;
    if active != [] {
      var n := |active| - 1;
      var before := Select(active[..n], IsStandard);
      assert forall i :: 0 <= i < n ==> active[..n][i] == active[i];
      StandardShapesCost(active[..n]);
      var standard := Select(active, IsStandard);
      if IsStandard(active[n]) {
        assert standard[..|before|] == before;
        assert Sum(standard, StandardPrice) == Sum(before, StandardPrice) + StandardPrice(active[n]);
      } else {
        assert standard == before;
      }
    }
  }

  /** The account costs nothing exactly when nothing blocks the free tier, or when the
      only blocker is standard shapes without any processor or memory. */
  lemma FreeAccountHasNoBlockers(fleet: seq<Instance>)
    requires StandardAmounts(Active(fleet))
    ensures AccountHourly(fleet) >= 0.0
    ensures AccountHourly(fleet) == 0.0 <==>
      || AccountBlockers(fleet) == []
      || (AccountBlockers(fleet) == [StandardShapes] && StandardOnesAreEmpty(Active(fleet)))
  {
    hide Sum, StoragePrice, AccountQuantities, StandardOnesAreEmpty, StandardAmounts;
    var active := Active(fleet);
    StorageIsFreeWithoutQuantities(active);
    StandardShapesCost(active);
    var standard := Select(active, IsStandard);
    if standard == [] {
      NoPriceForNone();
    }
    ComputeIsFree(active);
    var q := AccountQuantities(active);
    ListedBlockers(|Select(active, IsE2)| > FREE_E2_COUNT,
                   Sum(Select(active, IsA1), Ocpus) > FREE_A1_OCPUS, Sum(Select(active, IsA1), MemoryGb) > FREE_A1_MEMORY_GB,
                   q.billableGb > 0.0, q.upliftVpusGb > 0.0, standard != []);
    hide If;
    hide Select, ComputePrice;
    assert AccountHourly(fleet) == ComputePrice(active) + StoragePrice(AccountQuantities(active), HOURS_PER_MONTH);
  }

  /** The account is free exactly within the allowance: two E2.1.Micro, 4 processors and 24 GB
      of A1, 200 GB of volumes of at least 50 GB each and none faster than 10, and no other
      shape of any size. */
  lemma FreeExactlyWithinTheAllowance(fleet: seq<Instance>)
    requires StandardAmounts(Active(fleet))
    ensures AccountHourly(fleet) == 0.0 <==>
      && |Select(Active(fleet), IsE2)| <= 2
      && Sum(Select(Active(fleet), IsA1), Ocpus) <= 4.0
      && Sum(Select(Active(fleet), IsA1), MemoryGb) <= 24.0
      && Sum(Active(fleet), AccountGb) <= 200.0
      && (forall i :: 0 <= i < |Active(fleet)| ==> NormalizedVpus(Active(fleet)[i].bootVolumeVpusPerGb) == 10.0)
      && StandardOnesAreEmpty(Active(fleet))
  {
    hide Sum, StoragePrice, BaseShare, StandardOnesAreEmpty, StandardAmounts, NormalizedVpus, IsActive, Select, ComputePrice;
    var active := Active(fleet);
    StorageIsFreeWithoutQuantities(active);
    StandardShapesCost(active);
    ComputeIsFree(active);
    NoUpliftAtTen(active);
    assert AccountHourly(fleet) == ComputePrice(active) + StoragePrice(AccountQuantities(active), HOURS_PER_MONTH);
  }

  lemma NoUpliftAtTen(active: seq<Instance>)
    ensures AccountQuantities(active).upliftVpusGb == 0.0
       <==> forall i :: 0 <= i < |active| ==> NormalizedVpus(active[i].bootVolumeVpusPerGb) == 10.0
  {
    hide NormalizedVpus;
    forall i | 0 <= i < |active|
      ensures AccountUplift(active[i]) >= 0.0
      ensures AccountUplift(active[i]) == 0.0 <==> NormalizedVpus(active[i].bootVolumeVpusPerGb) == 10.0
    {
      UpliftCompare(active[i]);
      var extra := NormalizedVpus(active[i].bootVolumeVpusPerGb) - 10.0;
      assert AccountGb(active[i]) >= 50.0;
      ProductsCompare(50.0, AccountGb(active[i]), if extra >= 0.0 then extra else 0.0);
    }
    SumIsNonNegative(active, AccountUplift);
  }

  lemma ComputeIsFree(active: seq<Instance>)
    ensures var standardPrice := Sum(Select(active, IsStandard), StandardPrice);
      && ComputePrice(active) >= standardPrice
      && (ComputePrice(active) == standardPrice <==>
            && |Select(active, IsE2)| <= FREE_E2_COUNT
            && Sum(Select(active, IsA1), Ocpus) <= FREE_A1_OCPUS
            && Sum(Select(active, IsA1), MemoryGb) <= FREE_A1_MEMORY_GB)
  {
  }

  lemma NoPriceForNone()
    ensures Sum([], StandardPrice) == 0.0
  {
  }
}

/** The price of one new instance as the create page quotes it, against the change of
    the account's price that the instances page would show afterwards. */
module LaunchEstimate {
  import opened Text
  import opened FleetTariff

  datatype PriceStatus = Free | Estimated | Rough | MissingPrice | WaitingUsage

  datatype ComputeQuote = ComputeQuote(hourly: Option<real>, status: PriceStatus, blockers: nat)

  datatype ComputeUsage = ComputeUsage(e2Count: nat, a1Ocpus: real, a1MemoryGb: real)

  /** Smallest size of a listed shape. */
  datatype ShapeOption = ShapeOption(minOcpus: real, minMemoryGb: real)

  datatype Quote = Quote(status: PriceStatus, labelledFree: bool, hourly: Option<real>, storageHourly: Option<real>, blockers: nat)

  function AtLeastZero(value: real): real {
    Max(0.0, value)
  }

  function OrElse(value: real, fallback: real): real {
    if value != 0.0 then value else fallback
  }

  /** Shapes with a listed price that are never free. */
  predicate IsPricedFlex(shape: string) {
    || Contains(shape, "VM.Standard.E3.Flex")
    || Contains(shape, "VM.Standard.E4.Flex")
    || Contains(shape, "VM.Standard.E5.Flex")
    || Contains(shape, "VM.Standard.E6.Flex")
    || Contains(shape, "VM.Standard3.Flex")
  }

  predicate IsStandardFamily(shape: string) {
    StartsWith(shape, "VM.Standard") || StartsWith(shape, "BM.Standard")
  }

  datatype ShapeClass = E2Class | A1Class | PricedFlex | StandardFamily | UnknownShape

  /** The order in which the page tells shapes apart. */
  function Classify(shape: string): ShapeClass {
    if shape == E2_MICRO then E2Class
    else if shape == A1_FLEX then A1Class
    else if IsPricedFlex(shape) then PricedFlex
    else if IsStandardFamily(shape) then StandardFamily
    else UnknownShape
  }

  function StandardRate(ocpus: real, memoryGb: real): real {
    ocpus * STANDARD_OCPU_HOUR + memoryGb * STANDARD_MEMORY_HOUR
  }

  /** What a shape without an exact price is taken to have: the smallest size of the listed
      shape, or else what was asked for. */
  function InferredOcpus(ocpus: real, option: Option<ShapeOption>): real {
    if option.Some? then OrElse(option.value.minOcpus, AtLeastZero(ocpus)) else AtLeastZero(ocpus)
  }

  function InferredMemory(memoryGb: real, option: Option<ShapeOption>): real {
    if option.Some? then OrElse(option.value.minMemoryGb, AtLeastZero(memoryGb)) else AtLeastZero(memoryGb)
  }

  function QuoteCompute(
    shapeClass: ShapeClass, ocpus: real, memoryGb: real, usage: ComputeUsage, option: Option<ShapeOption>): ComputeQuote
  {
    var safeOcpus := AtLeastZero(ocpus);
    var safeMemory := AtLeastZero(memoryGb);
    match shapeClass
    case E2Class =>
      if usage.e2Count < FREE_E2_COUNT then ComputeQuote(Some(0.0), Free, 0)
      else ComputeQuote(Some(STANDARD_OCPU_HOUR + STANDARD_MEMORY_HOUR), Estimated, 1)
    case A1Class =>
      var ocpusExceeded := usage.a1Ocpus + safeOcpus > FREE_A1_OCPUS;
      var memoryExceeded := usage.a1MemoryGb + safeMemory > FREE_A1_MEMORY_GB;
      if !ocpusExceeded && !memoryExceeded then ComputeQuote(Some(0.0), Free, 0)
      else
        ComputeQuote(
          Some(Over(usage.a1Ocpus + safeOcpus, FREE_A1_OCPUS) * A1_OCPU_HOUR
               + Over(usage.a1MemoryGb + safeMemory, FREE_A1_MEMORY_GB) * A1_MEMORY_HOUR),
          Estimated, (if ocpusExceeded then 1 else 0) + (if memoryExceeded then 1 else 0))
    case PricedFlex =>
      ComputeQuote(Some(StandardRate(safeOcpus, safeMemory)), Estimated, 1)
    case _ =>
      if shapeClass == StandardFamily && InferredOcpus(ocpus, option) > 0.0 && InferredMemory(memoryGb, option) > 0.0 then
        ComputeQuote(Some(StandardRate(InferredOcpus(ocpus, option), InferredMemory(memoryGb, option))), Rough, 1)
      else
        ComputeQuote(None, MissingPrice, 1)
  }

  /** What the new volume costs on top of `usedGb`. */
  function VolumeQuantities(volumeGb: real, vpus: real, usedGb: real): Quantities {
    var freeRemaining := Over(FREE_BOOT_GB, usedGb);
    var billable := Max(0.0, volumeGb - freeRemaining);
    Quantities(billable, billable * Min(vpus, FREE_VPUS_PER_GB),
               if vpus > FREE_VPUS_PER_GB then volumeGb * (vpus - FREE_VPUS_PER_GB) else 0.0)
  }

  function VolumeHourly(q: Quantities): real {
    q.billableGb * BOOT_GB_MONTH / HOURS_PER_MONTH + (q.baseVpusGb + q.upliftVpusGb) * BOOT_VPU_GB_MONTH / HOURS_PER_MONTH
  }

  /** The whole quote. Without a usage figure the storage price is unknown. */
  function QuoteLaunch(
    shapeClass: ShapeClass, ocpus: real, memoryGb: real, volumeGb: real, volumeVpus: real,
    usedGb: Option<real>, usage: ComputeUsage, option: Option<ShapeOption>): Quote
  {
    var compute := QuoteCompute(shapeClass, ocpus, memoryGb, usage, option);
    var vpus := NormalizedVpus(volumeVpus);
    var fast := if vpus > FREE_VPUS_PER_GB then 1 else 0;
    if usedGb.None? then
      Quote(if compute.hourly.None? then MissingPrice else WaitingUsage, false, None, None, compute.blockers + 1 + fast)
    else
      var q := VolumeQuantities(volumeGb, vpus, usedGb.value);
      var storage := VolumeHourly(q);
      var storageFree := q.billableGb == 0.0 && vpus <= FREE_VPUS_PER_GB;
      var blockers := compute.blockers + (if q.billableGb > 0.0 then 1 else 0) + fast;
      if compute.hourly.None? then
        Quote(MissingPrice, false, None, Some(storage), blockers)
      else
        var hourly := compute.hourly.value + storage;
        Quote(if hourly == 0.0 && storageFree then Free else if compute.status == Free then Estimated else compute.status,
              compute.hourly.value == 0.0 && storageFree, Some(hourly), Some(storage), blockers)
  }

  /** Counting what already uses the free compute allowance. */
  method SummarizeUsage(fleet: seq<Instance>) returns (usage: ComputeUsage)
    ensures usage == UsageOf(fleet)
  {
    hide IsE2, IsA1, UsageOf;
    NoUsage();
    usage := ComputeUsage(0, 0.0, 0.0);
    for i := 0 to |fleet|
      invariant usage == UsageOf(fleet[..i])
    {
      UsageOfMore(fleet[..i], fleet[i]);
      assert fleet[..i + 1] == fleet[..i] + [fleet[i]];
      if IsActive(fleet[i]) {
        if IsE2(fleet[i]) {
          usage := usage.(e2Count := usage.e2Count + 1);
        }
        if IsA1(fleet[i]) {
          usage := usage.(a1Ocpus := usage.a1Ocpus + fleet[i].ocpus, a1MemoryGb := usage.a1MemoryGb + fleet[i].memoryGb);
        }
      }
    }
    assert fleet[..|fleet|] == fleet;
  }

  function UsageOf(fleet: seq<Instance>): ComputeUsage {
    var active := Active(fleet);
    ComputeUsage(|Select(active, IsE2)|, Sum(Select(active, IsA1), Ocpus), Sum(Select(active, IsA1), MemoryGb))
  }

  lemma NoUsage()
    ensures UsageOf([]) == ComputeUsage(0, 0.0, 0.0)
  {
  }

  // One more instance -----------------------------------------------------------------

  lemma SelectOfMore(fleet: seq<Instance>, i: Instance, p: Instance -> bool)
    ensures Select(fleet + [i], p) == if p(i) then Select(fleet, p) + [i] else Select(fleet, p)
  {
    assert (fleet + [i])[..|fleet|] == fleet;
  }

  lemma SumOfMore(fleet: seq<Instance>, i: Instance, f: Instance -> real)
    ensures Sum(fleet + [i], f) == Sum(fleet, f) + f(i)
  {
    assert (fleet + [i])[..|fleet|] == fleet;
  }

  lemma ShapesDiffer(i: Instance)
    ensures !(IsE2(i) && IsA1(i))
  {
    assert |E2_MICRO| == 22 && |A1_FLEX| == 19;
  }

  lemma UsageOfMore(fleet: seq<Instance>, i: Instance)
    ensures UsageOf(fleet + [i])
         == if !IsActive(i) then UsageOf(fleet)
            else
              var usage := UsageOf(fleet);
              ComputeUsage(usage.e2Count + (if IsE2(i) then 1 else 0),
                           usage.a1Ocpus + (if IsA1(i) then i.ocpus else 0.0),
                           usage.a1MemoryGb + (if IsA1(i) then i.memoryGb else 0.0))
  {
    hide IsE2, IsA1, Select, Sum;
    SelectOfMore(fleet, i, IsActive);
    if IsActive(i) {
      SelectOfMore(Active(fleet), i, IsE2);
      SelectOfMore(Active(fleet), i, IsA1);
      SumOfMore(Select(Active(fleet), IsA1), i, Ocpus);
      SumOfMore(Select(Active(fleet), IsA1), i, MemoryGb);
    }
  }

  lemma ComputePriceOfMore(active: seq<Instance>, i: Instance)
    ensures ComputePrice(active + [i]) - ComputePrice(active)
         == var e2 := |Select(active, IsE2)|;
            var ocpus := Sum(Select(active, IsA1), Ocpus);
            var memory := Sum(Select(active, IsA1), MemoryGb);
            if IsE2(i) then E2Price(e2 + 1) - E2Price(e2)
            else if IsA1(i) then A1Price(ocpus + i.ocpus, memory + i.memoryGb) - A1Price(ocpus, memory)
            else StandardPrice(i)
  {
    hide IsE2, IsA1, Select, Sum, E2Price, A1Price, StandardPrice;
    ShapesDiffer(i);
    SelectOfMore(active, i, IsE2);
    SelectOfMore(active, i, IsA1);
    SelectOfMore(active, i, IsStandard);
    SumOfMore(Select(active, IsA1), i, Ocpus);
    SumOfMore(Select(active, IsA1), i, MemoryGb);
    SumOfMore(Select(active, IsStandard), i, StandardPrice);
  }

  lemma ClassesOfInstances(i: Instance)
    ensures Classify(i.shape) == E2Class <==> IsE2(i)
    ensures Classify(i.shape) == A1Class <==> IsA1(i)
    ensures Classify(i.shape) == PricedFlex || Classify(i.shape) == StandardFamily ==> IsStandard(i)
  {
    ShapesDiffer(i);
  }

  /** Instances that are gone or going cost the account nothing; any other one, also a stopped
      one, costs at least its volume as soon as the free gigabytes are used up. */
  lemma OnlyTerminatedOnesAreFree(fleet: seq<Instance>, i: Instance)
    requires i.ocpus >= 0.0 && i.memoryGb >= 0.0
    ensures i.status in {Terminating, Terminated} ==> AccountHourly(fleet + [i]) == AccountHourly(fleet)
    ensures i.status !in {Terminating, Terminated} && Sum(Active(fleet), AccountGb) >= FREE_BOOT_GB ==>
      AccountHourly(fleet + [i]) > AccountHourly(fleet)
  {
    SelectOfMore(fleet, i, IsActive);
    hide ComputePrice, Select, AccountQuantities, StoragePrice, Sum;
    if i.status !in {Terminating, Terminated} && Sum(Active(fleet), AccountGb) >= FREE_BOOT_GB {
      ComputeNeverFalls(Active(fleet), i);
      StorageRises(Active(fleet), i);
    }
  }

  lemma StorageRises(active: seq<Instance>, i: Instance)
    requires Sum(active, AccountGb) >= FREE_BOOT_GB
    ensures StoragePrice(AccountQuantities(active + [i]), HOURS_PER_MONTH) > StoragePrice(AccountQuantities(active), HOURS_PER_MONTH)
  {
    ProportionalSplitInClosedForm(active);
    ProportionalSplitInClosedForm(active + [i]);
    SumOfMore(active, i, AccountGb);
    SumOfMore(active, i, AccountUplift);
    UpliftCompare(i);
    assert AccountGb(i) >= 50.0;
    hide Sum, BaseShare, AccountGb, AccountUplift, NormalizedVpus;
    var before, after := AccountQuantities(active), AccountQuantities(active + [i]);
    assert after.billableGb >= before.billableGb + 50.0 && after.upliftVpusGb >= before.upliftVpusGb;
    hide AccountQuantities;
    DearerQuantities(before, after);
  }

  lemma DearerQuantities(before: Quantities, after: Quantities)
    requires after.billableGb > before.billableGb && after.upliftVpusGb >= before.upliftVpusGb
    requires before.baseVpusGb == 10.0 * before.billableGb && after.baseVpusGb == 10.0 * after.billableGb
    ensures StoragePrice(after, HOURS_PER_MONTH) > StoragePrice(before, HOURS_PER_MONTH)
  {
  }

  lemma ComputeNeverFalls(active: seq<Instance>, i: Instance)
    requires i.ocpus >= 0.0 && i.memoryGb >= 0.0
    ensures ComputePrice(active + [i]) >= ComputePrice(active)
  {
    hide ComputePrice, Select, Sum, IsE2, IsA1;
    ComputePriceOfMore(active, i);
  }

  // Shapes and statuses -------------------------------------------------------------------

  const EXACT_FLEX_SHAPES :=
    ["VM.Standard.E3.Flex", "VM.Standard.E4.Flex", "VM.Standard.E5.Flex", "VM.Standard.E6.Flex", "VM.Standard3.Flex"]

  /** Any other name that contains one of these has an exact price. */
  lemma NamesWithExactPrice(before: string, k: nat, after: string)
    requires k < |EXACT_FLEX_SHAPES|
    ensures var shape := before + EXACT_FLEX_SHAPES[k] + after;
      shape != E2_MICRO && shape != A1_FLEX ==> Classify(shape) == PricedFlex
  {
    var name := EXACT_FLEX_SHAPES[k];
    var shape := before + name + after;
    assert shape[|before|..|before| + |name|] == name;
    assert OccursAt(shape, name, |before|);
    assert Contains(shape, name);
    if k == 0 {
      assert name == "VM.Standard.E3.Flex";
    } else if k == 1 {
      assert name == "VM.Standard.E4.Flex";
    } else if k == 2 {
      assert name == "VM.Standard.E5.Flex";
    } else if k == 3 {
      assert name == "VM.Standard.E6.Flex";
    } else {
      assert name == "VM.Standard3.Flex";
    }
    hide Contains, OccursAt, IsStandardFamily;
  }

  /** What the status of a quote says: a price is missing without one for the shape, usage is
      waited for if only that is missing, and a quote that is not free is rough exactly when
      the shape is priced by its family only. */
  lemma StatusTellsWhatIsKnown(
    shapeClass: ShapeClass, ocpus: real, memoryGb: real, volumeGb: real, volumeVpus: real,
    usedGb: Option<real>, usage: ComputeUsage, option: Option<ShapeOption>)
    ensures var quote := QuoteLaunch(shapeClass, ocpus, memoryGb, volumeGb, volumeVpus, usedGb, usage, option);
      var priced := QuoteCompute(shapeClass, ocpus, memoryGb, usage, option).hourly.Some?;
      && (quote.status == MissingPrice <==> !priced)
      && (quote.status == WaitingUsage <==> priced && usedGb.None?)
      && (quote.hourly.None? <==> quote.status in {MissingPrice, WaitingUsage})
      && (quote.status == Rough ==> shapeClass == StandardFamily)
      && (quote.status in {Free, Estimated} ==> shapeClass !in {StandardFamily, UnknownShape})
  {
    hide VolumeQuantities, VolumeHourly, NormalizedVpus;
    if shapeClass == StandardFamily && usedGb.Some? {
      RoughQuoteIsNotFree(ocpus, memoryGb, volumeGb, NormalizedVpus(volumeVpus), usedGb.value, usage, option);
    }
  }

  lemma RoughQuoteIsNotFree(
    ocpus: real, memoryGb: real, volumeGb: real, vpus: real, usedGb: real, usage: ComputeUsage, option: Option<ShapeOption>)
    requires vpus >= 10.0
    ensures var compute := QuoteCompute(StandardFamily, ocpus, memoryGb, usage, option);
      var q := VolumeQuantities(volumeGb, vpus, usedGb);
      compute.hourly.Some? && q.billableGb == 0.0 && vpus <= FREE_VPUS_PER_GB ==>
        compute.hourly.value > 0.0 && compute.status == Rough && compute.hourly.value + VolumeHourly(q) != 0.0
    ensures var compute := QuoteCompute(StandardFamily, ocpus, memoryGb, usage, option);
      compute.hourly.Some? ==> compute.status == Rough
  {
    FreeVolumeCostsNothing(volumeGb, vpus, usedGb);
    hide VolumeQuantities, VolumeHourly;
  }

  /** What the account is already charged for its A1 instances. */
  function A1Charged(fleet: seq<Instance>): real {
    A1Price(UsageOf(fleet).a1Ocpus, UsageOf(fleet).a1MemoryGb)
  }

  function ComputeDelta(fleet: seq<Instance>, i: Instance): real {
    ComputePrice(Active(fleet + [i])) - ComputePrice(Active(fleet))
  }

  function StorageDelta(fleet: seq<Instance>, i: Instance): real {
    StoragePrice(AccountQuantities(Active(fleet + [i])), HOURS_PER_MONTH)
    - StoragePrice(AccountQuantities(Active(fleet)), HOURS_PER_MONTH)
  }

  /** For every number of existing ones, a new E2.1.Micro is quoted at what it adds. */
  lemma E2QuoteIsTheDifference(fleet: seq<Instance>, i: Instance, option: Option<ShapeOption>)
    requires IsActive(i) && IsE2(i)
    ensures QuoteCompute(E2Class, i.ocpus, i.memoryGb, UsageOf(fleet), option).hourly == Some(ComputeDelta(fleet, i))
  {
    hide IsE2, IsA1, ComputePrice, Select, Sum;
    ShapesDiffer(i);
    SelectOfMore(fleet, i, IsActive);
    ComputePriceOfMore(Active(fleet), i);
  }

  /** A new A1.Flex is quoted at what it adds plus everything the account already pays
      for A1; so the quote is the difference exactly when the account is within the
      free allowance. */
  lemma A1QuoteIncludesEarlierOverage(fleet: seq<Instance>, i: Instance, option: Option<ShapeOption>)
    requires IsActive(i) && IsA1(i) && i.ocpus >= 0.0 && i.memoryGb >= 0.0
    ensures var quote := QuoteCompute(A1Class, i.ocpus, i.memoryGb, UsageOf(fleet), option);
      && quote.hourly == Some(ComputeDelta(fleet, i) + A1Charged(fleet))
      && (quote.hourly == Some(ComputeDelta(fleet, i))
          <==> UsageOf(fleet).a1Ocpus <= FREE_A1_OCPUS && UsageOf(fleet).a1MemoryGb <= FREE_A1_MEMORY_GB)
  {
    hide IsE2, IsA1, ComputePrice, Select, Sum;
    ShapesDiffer(i);
    SelectOfMore(fleet, i, IsActive);
    ComputePriceOfMore(Active(fleet), i);
  }

  /** A priced flexible shape is quoted at what it adds. */
  lemma FlexQuoteIsTheDifference(fleet: seq<Instance>, i: Instance, option: Option<ShapeOption>)
    requires IsActive(i) && IsStandard(i) && i.ocpus >= 0.0 && i.memoryGb >= 0.0
    ensures QuoteCompute(PricedFlex, i.ocpus, i.memoryGb, UsageOf(fleet), option).hourly == Some(ComputeDelta(fleet, i))
  {
    hide IsE2, IsA1, ComputePrice, Select, Sum;
    ShapesDiffer(i);
    SelectOfMore(fleet, i, IsActive);
    ComputePriceOfMore(Active(fleet), i);
  }

  /** A roughly priced shape is quoted at what it adds plus the price of what it is taken to
      have, less the price of what it has. */
  lemma RoughQuoteMissesByInference(fleet: seq<Instance>, i: Instance, option: Option<ShapeOption>)
    requires IsActive(i) && IsStandard(i) && i.ocpus >= 0.0 && i.memoryGb >= 0.0
    ensures QuoteCompute(StandardFamily, i.ocpus, i.memoryGb, UsageOf(fleet), option).hourly
         == if IsPriced(StandardFamily, i, option)
            then Some(ComputeDelta(fleet, i) + ComputeSurplus(fleet, i, StandardFamily, option)) else None
  {
    hide IsE2, IsA1, ComputePrice, Select, Sum;
    ShapesDiffer(i);
    SelectOfMore(fleet, i, IsActive);
    ComputePriceOfMore(Active(fleet), i);
  }

  /** Without a listing a rough quote is for the size asked for, and with one for the smallest
      size listed, whatever was asked: in both cases it is what such an instance adds. */
  lemma RoughQuoteIsForListedSize(fleet: seq<Instance>, i: Instance, listed: ShapeOption)
    requires IsActive(i) && IsStandard(i) && i.ocpus > 0.0 && i.memoryGb > 0.0
    ensures QuoteCompute(StandardFamily, i.ocpus, i.memoryGb, UsageOf(fleet), None).hourly == Some(ComputeDelta(fleet, i))
    ensures listed.minOcpus > 0.0 && listed.minMemoryGb > 0.0 ==>
      QuoteCompute(StandardFamily, i.ocpus, i.memoryGb, UsageOf(fleet), Some(listed)).hourly
      == Some(ComputeDelta(fleet, i.(ocpus := listed.minOcpus, memoryGb := listed.minMemoryGb)))
  {
    hide IsE2, IsA1, ComputePrice, Select, Sum, UsageOf;
    var smallest := i.(ocpus := listed.minOcpus, memoryGb := listed.minMemoryGb);
    assert IsStandard(smallest) by { SameShape(i, smallest); }
    RoughQuoteMissesByInference(fleet, i, None);
    if listed.minOcpus > 0.0 && listed.minMemoryGb > 0.0 {
      RoughQuoteMissesByInference(fleet, smallest, Some(listed));
    }
    hide ComputeDelta;
  }

  lemma SameShape(i: Instance, j: Instance)
    requires i.shape == j.shape
    ensures IsStandard(i) <==> IsStandard(j)
  {
  }

  predicate IsPriced(shapeClass: ShapeClass, i: Instance, option: Option<ShapeOption>) {
    match shapeClass
    case StandardFamily => InferredOcpus(i.ocpus, option) > 0.0 && InferredMemory(i.memoryGb, option) > 0.0
    case UnknownShape => false
    case _ => true
  }

  /** What the create page's compute price has over the change of the account's. */
  function ComputeSurplus(fleet: seq<Instance>, i: Instance, shapeClass: ShapeClass, option: Option<ShapeOption>): real {
    match shapeClass
    case A1Class => A1Charged(fleet)
    case StandardFamily =>
      StandardRate(InferredOcpus(i.ocpus, option), InferredMemory(i.memoryGb, option)) - StandardPrice(i)
    case _ => 0.0
  }

  function RawGb(i: Instance): real { i.bootVolumeGb }

  lemma {:induction false} FullSizeSums(active: seq<Instance>)
    requires AllFullSize(active)
    ensures Sum(active, RawGb) == Sum(active, AccountGb) >= 0.0
  {
    if active != [] {
      assert forall k :: 0 <= k < |active| - 1 ==> active[..|active| - 1][k] == active[k];
      FullSizeSums(active[..|active| - 1]);
    }
  }

  /** The free gigabytes that a new volume gets when `usedGb` are taken. */
  function FreeShare(volumeGb: real, usedGb: real): real {
    Min(volumeGb, Over(FREE_BOOT_GB, usedGb))
  }

  /** The free gigabytes that the account gives a new volume and the create page, going by
      another used figure, does not. */
  function FreeShareMissed(active: seq<Instance>, volumeGb: real, usedGb: real): real {
    FreeShare(volumeGb, Sum(active, AccountGb)) - FreeShare(volumeGb, usedGb)
  }

  /** Nothing is missed when the used figure is the sum of whole volumes. */
  lemma NothingMissedOverWholeVolumes(active: seq<Instance>, volumeGb: real)
    requires AllFullSize(active)
    ensures FreeShareMissed(active, volumeGb, Sum(active, RawGb)) == 0.0
  {
    FullSizeSums(active);
  }

  /** For every fleet and every used figure, each billable quantity of a new volume is the
      account's after minus before, but for the free gigabytes missed. */
  lemma VolumeQuantitiesAreMarginal(active: seq<Instance>, i: Instance, usedGb: real)
    requires i.bootVolumeGb >= MIN_BOOT_GB
    ensures var q := VolumeQuantities(i.bootVolumeGb, NormalizedVpus(i.bootVolumeVpusPerGb), usedGb);
      var before := AccountQuantities(active);
      var after := AccountQuantities(active + [i]);
      var missed := FreeShareMissed(active, i.bootVolumeGb, usedGb);
      && q.billableGb == after.billableGb - before.billableGb + missed
      && q.baseVpusGb == after.baseVpusGb - before.baseVpusGb + 10.0 * missed
      && q.upliftVpusGb == after.upliftVpusGb - before.upliftVpusGb
  {
    hide NormalizedVpus, BaseShare, Sum, VolumeQuantities, AccountUplift, FreeShare;
    AccountGbIsNonNegative(active);
    ProportionalSplitInClosedForm(active);
    ProportionalSplitInClosedForm(active + [i]);
    SumOfMore(active, i, AccountGb);
    SumOfMore(active, i, AccountUplift);
    MarginalVolume(Sum(active, AccountGb), usedGb, i);
  }

  lemma AccountGbIsNonNegative(active: seq<Instance>)
    ensures Sum(active, AccountGb) >= 0.0
  {
    SumIsNonNegative(active, AccountGb);
  }

  lemma MarginalVolume(total: real, usedGb: real, i: Instance)
    requires i.bootVolumeGb >= MIN_BOOT_GB && total >= 0.0
    ensures var q := VolumeQuantities(i.bootVolumeGb, NormalizedVpus(i.bootVolumeVpusPerGb), usedGb);
      && q.billableGb == Over(total + AccountGb(i), FREE_BOOT_GB) - Over(total, FREE_BOOT_GB)
                         + FreeShare(i.bootVolumeGb, total) - FreeShare(i.bootVolumeGb, usedGb)
      && q.baseVpusGb == 10.0 * q.billableGb
      && q.upliftVpusGb == AccountUplift(i)
  {
    var vpus := NormalizedVpus(i.bootVolumeVpusPerGb);
    assert Min(vpus, FREE_VPUS_PER_GB) == 10.0;
    if vpus <= FREE_VPUS_PER_GB {
      assert AccountUplift(i) == AccountGb(i) * 0.0;
    }
  }

  /** The price of the free gigabytes missed. */
  function StorageSurplus(active: seq<Instance>, volumeGb: real, usedGb: real): real {
    FreeShareMissed(active, volumeGb, usedGb) * (BOOT_GB_MONTH + 10.0 * BOOT_VPU_GB_MONTH) / HOURS_PER_MONTH
  }

  /** A new volume is quoted at what it adds to the account's storage price plus the price of
      the free gigabytes missed; so exactly at what it adds if and only if none are, and in
      particular over whole volumes whose sum is the used figure. */
  lemma VolumeQuoteIsTheDifference(fleet: seq<Instance>, i: Instance, usedGb: real)
    requires IsActive(i) && i.bootVolumeGb >= MIN_BOOT_GB
    ensures var quote := VolumeHourly(VolumeQuantities(i.bootVolumeGb, NormalizedVpus(i.bootVolumeVpusPerGb), usedGb));
      && quote == StorageDelta(fleet, i) + StorageSurplus(Active(fleet), i.bootVolumeGb, usedGb)
      && (quote == StorageDelta(fleet, i) <==> FreeShareMissed(Active(fleet), i.bootVolumeGb, usedGb) == 0.0)
    ensures AllFullSize(Active(fleet)) && usedGb == Sum(Active(fleet), RawGb) ==>
      StorageSurplus(Active(fleet), i.bootVolumeGb, usedGb) == 0.0
  {
    hide AccountQuantities, VolumeQuantities, FreeShareMissed, AllFullSize, Sum, Select, IsActive;
    SelectOfMore(fleet, i, IsActive);
    var active := Active(fleet);
    VolumeQuantitiesAreMarginal(active, i, usedGb);
    PricesSubtract(AccountQuantities(active), AccountQuantities(active + [i]),
                   VolumeQuantities(i.bootVolumeGb, NormalizedVpus(i.bootVolumeVpusPerGb), usedGb),
                   FreeShareMissed(active, i.bootVolumeGb, usedGb));
    if AllFullSize(active) {
      NothingMissedOverWholeVolumes(active, i.bootVolumeGb);
    }
  }

  lemma PricesSubtract(before: Quantities, after: Quantities, q: Quantities, missed: real)
    requires q.billableGb == after.billableGb - before.billableGb + missed
    requires q.baseVpusGb == after.baseVpusGb - before.baseVpusGb + 10.0 * missed
    requires q.upliftVpusGb == after.upliftVpusGb - before.upliftVpusGb
    ensures VolumeHourly(q) == StoragePrice(after, HOURS_PER_MONTH) - StoragePrice(before, HOURS_PER_MONTH)
                               + missed * (BOOT_GB_MONTH + 10.0 * BOOT_VPU_GB_MONTH) / HOURS_PER_MONTH
  {
  }

  /** For every fleet, used figure and shape with a price, the whole quote is the change of the
      account's hourly price plus the two surpluses: the A1 overage already charged or the
      error of a rough price, and the free gigabytes missed. */
  lemma QuoteIsTheAccountDifference(
    fleet: seq<Instance>, i: Instance, shapeClass: ShapeClass, usedGb: real, option: Option<ShapeOption>)
    requires IsActive(i) && i.bootVolumeGb >= MIN_BOOT_GB && i.ocpus >= 0.0 && i.memoryGb >= 0.0
    requires shapeClass == Classify(JsTrim(i.shape)) && JsTrim(i.shape) == i.shape
    ensures var quote := QuoteLaunch(shapeClass, i.ocpus, i.memoryGb, i.bootVolumeGb, i.bootVolumeVpusPerGb,
                                     Some(usedGb), UsageOf(fleet), option).hourly;
      quote == if IsPriced(shapeClass, i, option)
               then Some(AccountHourly(fleet + [i]) - AccountHourly(fleet)
                         + ComputeSurplus(fleet, i, shapeClass, option)
                         + StorageSurplus(Active(fleet), i.bootVolumeGb, usedGb))
               else None
  {
    hide StoragePrice, AccountQuantities, VolumeQuantities, VolumeHourly, ComputePrice, NormalizedVpus, QuoteCompute;
    hide IsE2, IsA1, Select, Sum, UsageOf, StorageSurplus, A1Charged, StandardRate, StandardPrice;
    ClassesOfInstances(i);
    hide Classify, IsStandard, JsTrim, Active;
    VolumeQuoteIsTheDifference(fleet, i, usedGb);
    match shapeClass
    case E2Class => E2QuoteIsTheDifference(fleet, i, option);
    case A1Class => A1QuoteIncludesEarlierOverage(fleet, i, option);
    case PricedFlex => FlexQuoteIsTheDifference(fleet, i, option);
    case StandardFamily => RoughQuoteMissesByInference(fleet, i, option);
    case UnknownShape => UnknownShapesHaveNoPrice(i, UsageOf(fleet), option);
  }

  lemma UnknownShapesHaveNoPrice(i: Instance, usage: ComputeUsage, option: Option<ShapeOption>)
    ensures QuoteCompute(UnknownShape, i.ocpus, i.memoryGb, usage, option).hourly == None
  {
  }

  /** The label says free exactly when the status does. */
  lemma LabelFollowsStatus(
    shapeClass: ShapeClass, ocpus: real, memoryGb: real, volumeGb: real, volumeVpus: real,
    usedGb: Option<real>, usage: ComputeUsage, option: Option<ShapeOption>)
    ensures var quote := QuoteLaunch(shapeClass, ocpus, memoryGb, volumeGb, volumeVpus, usedGb, usage, option);
      quote.labelledFree <==> quote.status == Free
  {
    hide QuoteCompute, NormalizedVpus;
    if usedGb.Some? {
      FreeVolumeCostsNothing(volumeGb, NormalizedVpus(volumeVpus), usedGb.value);
    }
    ComputeStatusIsFreeAtZero(shapeClass, ocpus, memoryGb, usage, option);
  }

  lemma FreeVolumeCostsNothing(volumeGb: real, vpus: real, usedGb: real)
    requires vpus >= 10.0
    ensures var q := VolumeQuantities(volumeGb, vpus, usedGb);
      q.billableGb >= 0.0 && (q.billableGb == 0.0 && vpus <= FREE_VPUS_PER_GB ==> VolumeHourly(q) == 0.0)
  {
    var q := VolumeQuantities(volumeGb, vpus, usedGb);
    if q.billableGb == 0.0 {
      assert q.baseVpusGb == 0.0 * Min(vpus, FREE_VPUS_PER_GB);
    }
  }

  lemma ComputeStatusIsFreeAtZero(
    shapeClass: ShapeClass, ocpus: real, memoryGb: real, usage: ComputeUsage, option: Option<ShapeOption>)
    ensures var compute := QuoteCompute(shapeClass, ocpus, memoryGb, usage, option);
      && compute.status != WaitingUsage
      && (compute.status == MissingPrice <==> compute.hourly.None?)
      && (compute.hourly.Some? ==> compute.hourly.value >= 0.0)
      && (compute.status == Free <==> compute.blockers == 0)
      && (compute.status == Free ==> compute.hourly == Some(0.0))
      && (compute.hourly == Some(0.0) ==> compute.status == Free || EmptyFlex(shapeClass, ocpus, memoryGb))
      && (EmptyFlex(shapeClass, ocpus, memoryGb) ==> compute.hourly == Some(0.0) && compute.blockers == 1)
  {
  }

  /** A priced flexible shape without processors and memory. */
  predicate EmptyFlex(shapeClass: ShapeClass, ocpus: real, memoryGb: real) {
    shapeClass == PricedFlex && ocpus <= 0.0 && memoryGb <= 0.0
  }

  predicate StorageIsFree(volumeGb: real, volumeVpus: real, usedGb: Option<real>) {
    && usedGb.Some?
    && NormalizedVpus(volumeVpus) <= FREE_VPUS_PER_GB
    && VolumeQuantities(volumeGb, NormalizedVpus(volumeVpus), usedGb.value).billableGb == 0.0
  }

  /** A quote is free exactly when it lists no blocker; the one exception is a priced
      flexible shape of size zero on free storage, which is called free and blocked at once. */
  lemma FreeQuoteHasNoBlockers(
    shapeClass: ShapeClass, ocpus: real, memoryGb: real, volumeGb: real, volumeVpus: real,
    usedGb: Option<real>, usage: ComputeUsage, option: Option<ShapeOption>)
    ensures var quote := QuoteLaunch(shapeClass, ocpus, memoryGb, volumeGb, volumeVpus, usedGb, usage, option);
      (quote.status == Free <==> quote.blockers == 0)
      <==> !(EmptyFlex(shapeClass, ocpus, memoryGb) && StorageIsFree(volumeGb, volumeVpus, usedGb))
  {
    hide QuoteCompute, NormalizedVpus;
    if usedGb.Some? {
      FreeVolumeCostsNothing(volumeGb, NormalizedVpus(volumeVpus), usedGb.value);
    }
    ComputeStatusIsFreeAtZero(shapeClass, ocpus, memoryGb, usage, option);
  }
}

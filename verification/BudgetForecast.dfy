/** The budget page's spend figures: one rounded hourly rate, rounded again into the
    spend so far and the forecast for the month, and the test that triggers the policy. */
module BudgetForecast {
  import opened FleetTariff
  import opened LaunchEstimate

  const UNITS_PER_USD := 10000.0

  function RoundMoney(value: real): real {
    Round(value * UNITS_PER_USD) as real / UNITS_PER_USD
  }

  datatype MonthProgress = MonthProgress(elapsedHours: real, hoursInMonth: real)

  const MS_PER_HOUR := 3600000.0

  /** Times in milliseconds; `now` may lie anywhere. */
  function ProgressAt(monthStart: real, nextMonth: real, now: real): (p: MonthProgress)
    ensures 0.0 <= p.elapsedHours <= p.hoursInMonth && p.hoursInMonth >= 1.0
  {
    var hours := Max(1.0, (nextMonth - monthStart) / MS_PER_HOUR);
    MonthProgress(Min(hours, Max(0.0, (now - monthStart) / MS_PER_HOUR)), hours)
  }

  predicate IsRunning(i: Instance) {
    i.status == Running
  }

  /** Standard shapes are priced as at least one processor and one gigabyte; other
      families are unknown and count nothing. */
  function BudgetStandardPrice(i: Instance): real {
    if IsStandardFamily(i.shape) then
      StandardRate(OrElse(SafePositive(i.ocpus), 1.0), OrElse(SafePositive(i.memoryGb), 1.0))
    else 0.0
  }

  function PositiveOcpus(i: Instance): real { SafePositive(i.ocpus) }

  function PositiveMemory(i: Instance): real { SafePositive(i.memoryGb) }

  function BudgetComputeHourly(billable: seq<Instance>): real {
    var running := Select(billable, IsRunning);
    E2Price(|Select(running, IsE2)|)
    + A1Price(Sum(Select(running, IsA1), PositiveOcpus), Sum(Select(running, IsA1), PositiveMemory))
    + Sum(Select(running, IsStandard), BudgetStandardPrice)
  }

  datatype Spend = Spend(hourly: real, monthly: real, actual: real, forecast: real)

  function Cost(hourly: real, hours: real): real {
    hourly * hours
  }

  function SpendAt(rate: real, p: MonthProgress): Spend {
    var hourly := RoundMoney(rate);
    var actual := RoundMoney(Cost(hourly, p.elapsedHours));
    Spend(hourly, RoundMoney(Cost(hourly, p.hoursInMonth)), actual,
          RoundMoney(actual + Cost(hourly, Max(0.0, p.hoursInMonth - p.elapsedHours))))
  }

  function BudgetRate(billable: seq<Instance>, p: MonthProgress): real
    requires p.hoursInMonth > 0.0
  {
    BudgetComputeHourly(billable) + StoragePrice(BudgetQuantities(billable), p.hoursInMonth)
  }

  function EstimateBudgetUsage(billable: seq<Instance>, p: MonthProgress): Spend
    requires p.hoursInMonth > 0.0
  {
    SpendAt(BudgetRate(billable, p), p)
  }

  function Percent(value: real, total: real): real {
    if total <= 0.0 then 0.0 else value / total * 100.0
  }

  predicate Triggered(spend: Spend, monthlyBudget: real, thresholdPercent: real) {
    Max(Percent(spend.actual, monthlyBudget), Percent(spend.forecast, monthlyBudget)) >= thresholdPercent
  }

  // Rounding --------------------------------------------------------------------------

  /** The nearest whole number of ten-thousandths, upwards from a half. */
  lemma RoundMoneyError(value: real)
    ensures -0.00005 < RoundMoney(value) - value <= 0.00005
    ensures (RoundMoney(value) * 10000.0).Floor as real == RoundMoney(value) * 10000.0
  {
    var units := Round(value * UNITS_PER_USD) as real;
    assert units - 0.5 <= value * UNITS_PER_USD < units + 0.5;
    assert units / UNITS_PER_USD * UNITS_PER_USD == units;
  }

  /** Close amounts round to amounts at most one unit apart. */
  lemma RoundingKeepsClose(a: real, b: real)
    requires -0.0001 <= a - b <= 0.0001
    ensures -0.0001 <= RoundMoney(a) - RoundMoney(b) <= 0.0001
  {
    var m, n := Round(a * UNITS_PER_USD), Round(b * UNITS_PER_USD);
    assert -1 <= m - n <= 1;
    DividedUnits(m, n);
    assert -1.0 <= (m - n) as real <= 1.0;
  }

  lemma DividedUnits(m: int, n: int)
    ensures m as real / UNITS_PER_USD - n as real / UNITS_PER_USD == (m - n) as real * 0.0001
  {
  }

  lemma RoundMoneyMonotone(a: real, b: real)
    requires a <= b
    ensures RoundMoney(a) <= RoundMoney(b)
  {
    DividedUnits(Round(a * UNITS_PER_USD), Round(b * UNITS_PER_USD));
  }

  lemma RoundMoneyFixed(value: real)
    ensures RoundMoney(RoundMoney(value)) == RoundMoney(value)
  {
    var n := Round(value * UNITS_PER_USD);
    assert n as real / UNITS_PER_USD * UNITS_PER_USD == n as real;
    assert Round(n as real) == n;
  }

  // The figures agree -------------------------------------------------------------------

  lemma CostsAdd(hourly: real, a: real, b: real)
    ensures Cost(hourly, a) + Cost(hourly, b) == Cost(hourly, a + b)
    ensures hourly >= 0.0 && b >= 0.0 ==> Cost(hourly, b) >= 0.0
  {
  }

  /** Whatever the rate and the moment, the forecast is within one rounding unit of the
      plain monthly figure. */
  lemma ForecastIsTheMonthlyFigure(rate: real, p: MonthProgress)
    requires p.elapsedHours <= p.hoursInMonth
    ensures -0.0001 <= SpendAt(rate, p).forecast - SpendAt(rate, p).monthly <= 0.0001
  {
    hide RoundMoney, Cost;
    var hourly := RoundMoney(rate);
    var rest := Max(0.0, p.hoursInMonth - p.elapsedHours);
    var spent := Cost(hourly, p.elapsedHours);
    RoundMoneyError(spent);
    CostsAdd(hourly, p.elapsedHours, rest);
    RoundingKeepsClose(RoundMoney(spent) + Cost(hourly, rest), Cost(hourly, p.hoursInMonth));
  }

  /** The bound is reached: half an hour into a month at the smallest rate. */
  lemma ForecastCanBeOneUnitOff()
    ensures var spend := SpendAt(0.0001, MonthProgress(0.5, 720.0)); spend.forecast == spend.monthly + 0.0001
  {
    assert RoundMoney(0.0001) == 0.0001;
    assert RoundMoney(0.00005) == 0.0001;
    assert RoundMoney(0.072) == 0.072;
    assert RoundMoney(0.0001 + 0.0001 * 719.5) == 0.0721;
  }

  lemma CostsCompare(a: real, b: real, hours: real)
    requires hours >= 0.0 && -0.00005 <= a - b <= 0.00005
    ensures -0.00005 * hours <= Cost(a, hours) - Cost(b, hours) <= 0.00005 * hours
  {
    NonNegativeProduct(a - b + 0.00005, hours);
    NonNegativeProduct(0.00005 - (a - b), hours);
    assert (a - b + 0.00005) * hours == a * hours - b * hours + 0.00005 * hours;
    assert (0.00005 - (a - b)) * hours == 0.00005 * hours - (a * hours - b * hours);
  }

  lemma NonNegativeProduct(a: real, b: real)
    requires a >= 0.0 && b >= 0.0
    ensures a * b >= 0.0
  {
  }

  /** The figures stand for the rate, and the rate times the hours of the month and those
      elapsed, within what rounding the rate and then the product can do. */
  lemma SpendIsNearTheRate(rate: real, p: MonthProgress)
    requires 0.0 <= p.elapsedHours <= p.hoursInMonth
    ensures var spend := SpendAt(rate, p);
      && -0.00005 <= spend.hourly - rate <= 0.00005
      && -0.00005 * (p.hoursInMonth + 1.0) <= spend.monthly - rate * p.hoursInMonth <= 0.00005 * (p.hoursInMonth + 1.0)
      && -0.00005 * (p.elapsedHours + 1.0) <= spend.actual - rate * p.elapsedHours <= 0.00005 * (p.elapsedHours + 1.0)
  {
    RoundMoneyError(rate);
    RoundMoneyError(Cost(RoundMoney(rate), p.hoursInMonth));
    RoundMoneyError(Cost(RoundMoney(rate), p.elapsedHours));
    CostsCompare(RoundMoney(rate), rate, p.hoursInMonth);
    CostsCompare(RoundMoney(rate), rate, p.elapsedHours);
    assert Cost(rate, p.hoursInMonth) == rate * p.hoursInMonth && Cost(rate, p.elapsedHours) == rate * p.elapsedHours;
    hide RoundMoney, Cost;
  }

  /** Within the month the elapsed hours are the time passed since its start, before it none
      and after it all; no month has less than an hour. */
  lemma ProgressIsTimePassed(monthStart: real, nextMonth: real, now: real)
    requires nextMonth - monthStart >= 3600000.0
    ensures var p := ProgressAt(monthStart, nextMonth, now);
      && p.hoursInMonth * 3600000.0 == nextMonth - monthStart
      && (monthStart <= now <= nextMonth ==> p.elapsedHours * 3600000.0 == now - monthStart)
      && (now < monthStart ==> p.elapsedHours == 0.0)
      && (now > nextMonth ==> p.elapsedHours == p.hoursInMonth)
  {
  }

  lemma SpentIsWithinForecast(rate: real, p: MonthProgress)
    requires rate >= 0.0 && p.elapsedHours <= p.hoursInMonth
    ensures SpendAt(rate, p).actual <= SpendAt(rate, p).forecast
  {
    assert RoundMoney(0.0) == 0.0;
    hide RoundMoney, Cost;
    var hourly := RoundMoney(rate);
    var rest := Max(0.0, p.hoursInMonth - p.elapsedHours);
    var actual := RoundMoney(Cost(hourly, p.elapsedHours));
    RoundMoneyMonotone(0.0, rate);
    RoundMoneyFixed(Cost(hourly, p.elapsedHours));
    CostsAdd(hourly, p.elapsedHours, rest);
    RoundMoneyMonotone(actual, actual + Cost(hourly, rest));
  }

  lemma PercentMonotone(a: real, b: real, total: real)
    requires a <= b
    ensures Percent(a, total) <= Percent(b, total)
  {
    if total > 0.0 {
      assert a / total <= b / total;
    }
  }

  lemma PercentReaches(value: real, total: real, percent: real)
    ensures Percent(value, total) >= percent <==> if total > 0.0 then value * 100.0 >= percent * total else percent <= 0.0
  {
    if total > 0.0 {
      var share := value / total;
      assert share * total == value;
      assert share * 100.0 >= percent <==> (share * 100.0 - percent) * total >= 0.0;
      assert (share * 100.0 - percent) * total == value * 100.0 - percent * total;
    }
  }

  /** The rate of a fleet is never negative. */
  lemma RateIsNonNegative(billable: seq<Instance>, hours: real)
    requires hours > 0.0
    ensures BudgetComputeHourly(billable) >= 0.0 && StoragePrice(BudgetQuantities(billable), hours) >= 0.0
  {
    hide IsE2, IsA1, IsStandardFamily, Select, Sum;
    var standard := Select(Select(billable, IsRunning), IsStandard);
    forall i | 0 <= i < |standard|
      ensures BudgetStandardPrice(standard[i]) >= 0.0
    {
    }
    SumIsNonNegative(standard, BudgetStandardPrice);
    forall i | 0 <= i < |billable|
      ensures BudgetUplift(billable[i]) >= 0.0
    {
      UpliftCompare(billable[i]);
    }
    SumIsNonNegative(billable, BudgetUplift);
  }

  /** Only running instances have a compute price on this page. */
  lemma OnlyRunningOnesCompute(billable: seq<Instance>, i: Instance)
    ensures i.status != Running ==> BudgetComputeHourly(billable + [i]) == BudgetComputeHourly(billable)
    ensures i.status == Running && IsStandard(i) ==>
      BudgetComputeHourly(billable + [i]) == BudgetComputeHourly(billable) + BudgetStandardPrice(i)
  {
    SelectOfMore(billable, i, IsRunning);
    if i.status == Running {
      var running := Select(billable, IsRunning);
      SelectOfMore(running, i, IsE2);
      SelectOfMore(running, i, IsA1);
      SelectOfMore(running, i, IsStandard);
      SumOfMore(Select(running, IsStandard), i, BudgetStandardPrice);
    }
    hide Select, Sum, IsE2, IsA1, BudgetStandardPrice;
  }

  // Against the account price of the instances page ---------------------------------------

  /** What the budget page charges for processors and memory that an instance of a known
      family does not report: the cost from the reported amount up to one unit. */
  function AssumedPrice(i: Instance): real {
    if IsStandardFamily(i.shape) then
      StandardRate(if i.ocpus > 0.0 then 0.0 else 1.0 - i.ocpus, if i.memoryGb > 0.0 then 0.0 else 1.0 - i.memoryGb)
    else 0.0
  }

  /** What it leaves out because it does not know the family. */
  function UnknownPrice(i: Instance): real {
    if IsStandardFamily(i.shape) then 0.0 else StandardPrice(i)
  }

  /** For one standard instance, whatever it reports: the two pages differ by the assumed and
      the unknown price; which page is dearer, and when they agree. */
  lemma StandardPricesCompare(i: Instance)
    ensures BudgetStandardPrice(i) + UnknownPrice(i) == StandardPrice(i) + AssumedPrice(i)
    ensures AssumedPrice(i) >= 0.0 && (AssumedPrice(i) == 0.0 <==> IsStandardFamily(i.shape) ==> i.ocpus > 0.0 && i.memoryGb > 0.0)
    ensures BudgetStandardPrice(i) <= StandardPrice(i)
       <==> if IsStandardFamily(i.shape) then i.ocpus > 0.0 && i.memoryGb > 0.0 else StandardPrice(i) >= 0.0
    ensures BudgetStandardPrice(i) == StandardPrice(i)
       <==> if IsStandardFamily(i.shape) then i.ocpus > 0.0 && i.memoryGb > 0.0 else StandardPrice(i) == 0.0
  {
    hide IsStandardFamily;
  }

  lemma {:induction false} SumsBalance(
    fleet: seq<Instance>, a: Instance -> real, b: Instance -> real, c: Instance -> real, d: Instance -> real)
    requires forall i :: 0 <= i < |fleet| ==> a(fleet[i]) + b(fleet[i]) == c(fleet[i]) + d(fleet[i])
    ensures Sum(fleet, a) + Sum(fleet, b) == Sum(fleet, c) + Sum(fleet, d)
  {
    if fleet != [] {
      SumsBalance(fleet[..|fleet| - 1], a, b, c, d);
    }
  }

  /** No instance reports a negative amount. */
  ghost predicate NonNegativeAmounts(running: seq<Instance>) {
    forall i :: i in running ==> i.ocpus >= 0.0 && i.memoryGb >= 0.0
  }

  ghost predicate KnownFamilies(running: seq<Instance>) {
    forall i :: i in running && IsStandard(i) ==> IsStandardFamily(i.shape)
  }

  /** Every standard instance of a known family reports processors and memory. */
  ghost predicate KnownOnesReport(running: seq<Instance>) {
    forall i :: i in running && IsStandard(i) && IsStandardFamily(i.shape) ==> i.ocpus > 0.0 && i.memoryGb > 0.0
  }

  /** Every standard instance of another family is empty. */
  ghost predicate UnknownOnesAreEmpty(running: seq<Instance>) {
    forall i :: i in running && IsStandard(i) && !IsStandardFamily(i.shape) ==> i.ocpus == 0.0 && i.memoryGb == 0.0
  }

  lemma {:induction false} SelectedMembers(fleet: seq<Instance>, p: Instance -> bool)
    ensures forall i :: i in Select(fleet, p) <==> i in fleet && p(i)
  {
    if fleet != [] {
      var n := |fleet| - 1;
      SelectedMembers(fleet[..n], p);
      assert fleet == fleet[..n] + [fleet[n]];
    }
  }

  function StandardOnes(running: seq<Instance>): seq<Instance> {
    Select(running, IsStandard)
  }

  lemma A1PricesAgree(running: seq<Instance>)
    requires NonNegativeAmounts(running)
    ensures Sum(Select(running, IsA1), PositiveOcpus) == Sum(Select(running, IsA1), Ocpus)
    ensures Sum(Select(running, IsA1), PositiveMemory) == Sum(Select(running, IsA1), MemoryGb)
  {
    hide Sum;
    var a1 := Select(running, IsA1);
    SelectedMembers(running, IsA1);
    hide Select, IsA1;
    SumsCompare(a1, PositiveOcpus, Ocpus);
    SumsCompare(a1, PositiveMemory, MemoryGb);
  }

  /** What the assumed and the unknown prices of a fleet add up to. */
  lemma GapsAddUp(running: seq<Instance>)
    ensures var standard := StandardOnes(running);
      && Sum(standard, BudgetStandardPrice) + Sum(standard, UnknownPrice) == Sum(standard, StandardPrice) + Sum(standard, AssumedPrice)
      && Sum(standard, AssumedPrice) >= 0.0
      && (Sum(standard, AssumedPrice) == 0.0 <==> KnownOnesReport(running))
    ensures NonNegativeAmounts(running) ==>
      && Sum(StandardOnes(running), UnknownPrice) >= 0.0
      && (Sum(StandardOnes(running), UnknownPrice) == 0.0 <==> UnknownOnesAreEmpty(running))
  {
    hide Sum, IsStandardFamily, BudgetStandardPrice;
    var standard := StandardOnes(running);
    SelectedMembers(running, IsStandard);
    assert forall i :: i in standard <==> i in running && IsStandard(i);
    hide Select, StandardOnes, IsStandard;
    forall k | 0 <= k < |standard|
      ensures BudgetStandardPrice(standard[k]) + UnknownPrice(standard[k]) == StandardPrice(standard[k]) + AssumedPrice(standard[k])
      ensures AssumedPrice(standard[k]) >= 0.0
      ensures AssumedPrice(standard[k]) == 0.0
         <==> IsStandardFamily(standard[k].shape) ==> standard[k].ocpus > 0.0 && standard[k].memoryGb > 0.0
    {
      StandardPricesCompare(standard[k]);
    }
    SumsBalance(standard, BudgetStandardPrice, UnknownPrice, StandardPrice, AssumedPrice);
    SumIsNonNegative(standard, AssumedPrice);
    if NonNegativeAmounts(running) {
      forall k | 0 <= k < |standard|
        ensures UnknownPrice(standard[k]) >= 0.0
        ensures UnknownPrice(standard[k]) == 0.0
           <==> IsStandardFamily(standard[k].shape) || (standard[k].ocpus == 0.0 && standard[k].memoryGb == 0.0)
      {
        assert standard[k] in running;
      }
      SumIsNonNegative(standard, UnknownPrice);
    }
  }

  /** How the budget page's compute price compares with what the instances page asks for the
      same running instances: dearer by what it assumes, cheaper by what it does not know. */
  lemma PagesAgreeOnCompute(billable: seq<Instance>)
    requires NonNegativeAmounts(Select(billable, IsRunning))
    ensures var running := Select(billable, IsRunning);
      var assumed := Sum(StandardOnes(running), AssumedPrice);
      var unknown := Sum(StandardOnes(running), UnknownPrice);
      && BudgetComputeHourly(billable) == ComputePrice(running) + assumed - unknown
      && assumed >= 0.0 && (assumed == 0.0 <==> KnownOnesReport(running))
      && unknown >= 0.0 && (unknown == 0.0 <==> UnknownOnesAreEmpty(running))
  {
    hide Sum, BudgetStandardPrice, StandardPrice, AssumedPrice, UnknownPrice, NonNegativeAmounts, KnownOnesReport, UnknownOnesAreEmpty;
    hide Select, IsE2, IsA1, IsStandard, A1Price, E2Price;
    var running := Select(billable, IsRunning);
    A1PricesAgree(running);
    GapsAddUp(running);
  }

  lemma StoragePricesScale(q: Quantities, hours: real)
    requires hours > 0.0
    ensures StoragePrice(q, hours) * hours == q.billableGb * 0.0255 + (q.baseVpusGb + q.upliftVpusGb) * 0.0017
    ensures StoragePrice(q, HOURS_PER_MONTH) * HOURS_PER_MONTH == StoragePrice(q, hours) * hours
    ensures StoragePrice(q, hours) == StoragePrice(q, HOURS_PER_MONTH)
       <==> StoragePrice(q, HOURS_PER_MONTH) == 0.0 || hours == HOURS_PER_MONTH
  {
    var total := q.billableGb * BOOT_GB_MONTH + (q.baseVpusGb + q.upliftVpusGb) * BOOT_VPU_GB_MONTH;
    QuotientsCompare(total, hours, HOURS_PER_MONTH);
  }

  lemma QuotientsCompare(total: real, a: real, b: real)
    requires a > 0.0 && b > 0.0
    ensures total / a * a == total
    ensures total / a == total / b <==> total / b == 0.0 || a == b
  {
    assert total / a * a == total && total / b * b == total;
    if total / a == total / b && a != b {
      assert total / b * (a - b) == 0.0;
    }
    if total / b == 0.0 {
      assert total == 0.0 * b;
    }
  }

  /** The pages spread the monthly storage price over different numbers of hours: the budget
      page over those of the month, the instances page always over 730. So even a running
      fleet on which they agree in everything else has one hourly price on both exactly when
      its storage is free or the month has 730 hours. */
  lemma PagesAgree(fleet: seq<Instance>, p: MonthProgress)
    requires p.hoursInMonth > 0.0
    requires Select(Active(fleet), IsRunning) == Active(fleet) && NonNegativeAmounts(Active(fleet))
    requires KnownOnesReport(Active(fleet)) && UnknownOnesAreEmpty(Active(fleet)) && SameStorage(Active(fleet))
    ensures var active := Active(fleet);
      var q := AccountQuantities(active);
      && BudgetComputeHourly(active) == ComputePrice(active)
      && StoragePrice(BudgetQuantities(active), p.hoursInMonth) * p.hoursInMonth
         == StoragePrice(q, HOURS_PER_MONTH) * 730.0
         == q.billableGb * 0.0255 + (q.baseVpusGb + q.upliftVpusGb) * 0.0017
      && (BudgetRate(active, p) == AccountHourly(fleet)
          <==> (q.billableGb == 0.0 && q.upliftVpusGb == 0.0) || p.hoursInMonth == 730.0)
  {
    hide Select, Active, Sum, BudgetComputeHourly, ComputePrice, BudgetQuantities, AccountQuantities, StoragePrice;
    hide NonNegativeAmounts, KnownOnesReport, UnknownOnesAreEmpty, AllFullSize, SmallOnesAreBalanced;
    var active := Active(fleet);
    PagesAgreeOnCompute(active);
    PagesAgreeOnStorage(active);
    StoragePricesScale(AccountQuantities(active), p.hoursInMonth);
    StorageIsFreeWithoutQuantities(active);
  }

  /** No calendar month has 730 hours, whatever the change of clocks; so in every month the
      pages give such a fleet one price exactly when its storage is free. */
  lemma PagesAgreeInNoMonthUnlessStorageIsFree(fleet: seq<Instance>, p: MonthProgress, days: int, clockChange: real)
    requires 28 <= days <= 31 && -2.0 <= clockChange <= 2.0 && p.hoursInMonth == 24.0 * days as real + clockChange
    requires Select(Active(fleet), IsRunning) == Active(fleet) && NonNegativeAmounts(Active(fleet))
    requires KnownOnesReport(Active(fleet)) && UnknownOnesAreEmpty(Active(fleet)) && SameStorage(Active(fleet))
    ensures BudgetRate(Active(fleet), p) == AccountHourly(fleet)
       <==> AccountQuantities(Active(fleet)).billableGb == 0.0 && AccountQuantities(Active(fleet)).upliftVpusGb == 0.0
  {
    hide Select, Active, Sum, BudgetRate, AccountHourly, AccountQuantities, SameStorage;
    hide NonNegativeAmounts, KnownOnesReport, UnknownOnesAreEmpty;
    assert p.hoursInMonth != HOURS_PER_MONTH by {
      assert days <= 30 || days >= 31;
      if days <= 30 {
        assert days as real <= 30.0;
      }
    }
    PagesAgree(fleet, p);
  }

  /** For every fleet, moment, budget and threshold the trigger is the forecast test alone. */
  lemma TriggerIsTheForecastTest(billable: seq<Instance>, p: MonthProgress, monthlyBudget: real, thresholdPercent: real)
    requires 0.0 < p.hoursInMonth && p.elapsedHours <= p.hoursInMonth
    ensures var spend := EstimateBudgetUsage(billable, p);
      Triggered(spend, monthlyBudget, thresholdPercent)
      <==> if monthlyBudget > 0.0 then spend.forecast * 100.0 >= thresholdPercent * monthlyBudget else thresholdPercent <= 0.0
  {
    hide BudgetComputeHourly, StoragePrice, RoundMoney, Cost, Percent, BudgetQuantities, Triggered;
    RateIsNonNegative(billable, p.hoursInMonth);
    SpentIsWithinForecast(BudgetRate(billable, p), p);
    TriggerTest(EstimateBudgetUsage(billable, p), monthlyBudget, thresholdPercent);
    hide SpendAt;
  }

  lemma TriggerTest(spend: Spend, monthlyBudget: real, thresholdPercent: real)
    requires spend.actual <= spend.forecast
    ensures Triggered(spend, monthlyBudget, thresholdPercent)
       <==> if monthlyBudget > 0.0 then spend.forecast * 100.0 >= thresholdPercent * monthlyBudget else thresholdPercent <= 0.0
  {
    hide Percent;
    PercentMonotone(spend.actual, spend.forecast, monthlyBudget);
    PercentReaches(spend.forecast, monthlyBudget, thresholdPercent);
  }
}

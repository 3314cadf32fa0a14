/** The return metrics: the equity holder's cash-flow vector (the equity paid
    in, the intermediate levered free cash flows, the exit equity), MOIC, DPI
    and TVPI; and the net present value whose root is the IRR. */
module Returns {
  import opened Common

  /** Enterprise value at exit: exit EBITDA at the exit multiple. */
  function ExitEnterpriseValue(exitEbitda: real, exitMultiple: real): (ev: real)
  {
    exitEbitda * exitMultiple
  }

  /** Equity value at exit: the exit enterprise value less the debt still outstanding. */
  function ExitEquity(exitEbitda: real, exitMultiple: real, exitDebt: real): (equity: real)
  {
    ExitEnterpriseValue(exitEbitda, exitMultiple) - exitDebt
  }

  /** The cash flows to equity over n = |lfcf| years: the equity paid in at
      entry, the levered free cash flow of every year strictly between entry and
      exit, and the exit equity in the exit year. */
  function CashFlowsToEquity(equityAmount: real, lfcf: seq<real>, exitEquity: real): (cfs: seq<real>)
    requires |lfcf| >= 2
    ensures |cfs| == |lfcf|
    ensures cfs[0] == -equityAmount && cfs[|cfs| - 1] == exitEquity
    ensures forall k :: 0 < k < |cfs| - 1 ==> cfs[k] == lfcf[k]
  {
    [-equityAmount] + lfcf[1..|lfcf| - 1] + [exitEquity]
  }

  /** The loop over the years between entry and exit that builds the vector;
      year - entryYear indexes the levered free cash flow of that year. */
  method BuildCashFlows(entryYear: int, exitYear: int, equityAmount: real, lfcf: seq<real>, exitEquity: real)
    returns (cashFlows: seq<real>)
    requires exitYear - entryYear + 1 == |lfcf| && |lfcf| >= 2
    ensures cashFlows == CashFlowsToEquity(equityAmount, lfcf, exitEquity)
  {
    cashFlows := [-equityAmount];
    var year := entryYear + 1;
    while year < exitYear
      invariant entryYear + 1 <= year <= exitYear
      invariant cashFlows == [-equityAmount] + lfcf[1..year - entryYear]
    {
      var yearIdx := year - entryYear;
      cashFlows := cashFlows + [lfcf[yearIdx]];
      year := year + 1;
    }
    cashFlows := cashFlows + [exitEquity];
  }

  /** Multiple on invested capital: exit equity over the equity paid in. */
  function Moic(exitEquity: real, equityAmount: real): (r: Option<real>)
    ensures r.Some? <==> equityAmount != 0.0
    ensures r.Some? ==> r.value * equityAmount == exitEquity
  {
    Ratio(exitEquity, equityAmount)
  }

  /** Distributions to paid-in: the positive cash flows after entry over the
      equity paid in. */
  function Dpi(cashFlows: seq<real>, equityAmount: real): (r: Option<real>)
    requires |cashFlows| >= 1
    ensures r.Some? <==> equityAmount != 0.0
    ensures r.Some? ==> r.value * equityAmount == SumPositive(cashFlows[1..])
  {
    Ratio(SumPositive(cashFlows[1..]), equityAmount)
  }

  /** Where the DPI division raises instead of giving inf or nan: with no
      equity paid in and no positive flow after entry, each max(0, cf) is the
      integer 0, so is their sum, and the integer 0 divided by 0.0 raises. */
  predicate DpiRaises(cashFlows: seq<real>, equityAmount: real)
    requires |cashFlows| >= 1
  {
    equityAmount == 0.0 && forall k :: 1 <= k < |cashFlows| ==> cashFlows[k] <= 0.0
  }

  /** The DPI division raises exactly when both its numerator and its
      denominator are zero; the model then has no number for DPI. */
  lemma DpiRaisesOnZeroOverZero(cashFlows: seq<real>, equityAmount: real)
    requires |cashFlows| >= 1
    ensures DpiRaises(cashFlows, equityAmount) <==>
              equityAmount == 0.0 && SumPositive(cashFlows[1..]) == 0.0
    ensures DpiRaises(cashFlows, equityAmount) ==> Dpi(cashFlows, equityAmount) == None
  {
    var later := cashFlows[1..];
    assert forall k :: 1 <= k < |cashFlows| ==> cashFlows[k] == later[k - 1];
    SumPositiveIsZero(later);
  }

  datatype ReturnMetrics = ReturnMetrics(
    cashFlows: seq<real>,
    exitEquity: real,
    moic: Option<real>,
    dpi: Option<real>,
    tvpi: Option<real>)

  /** The metrics of a run, from the equity paid in, the exit multiple and the
      three columns the returns read: EBITDA, balance-sheet debt and levered
      free cash flow. The exit year is the last row. */
  function MetricsFrom(equityAmount: real, exitMultiple: real, ebitda: seq<real>, debt: seq<real>, lfcf: seq<real>)
    : (m: ReturnMetrics)
    requires |ebitda| == |debt| == |lfcf| >= 2
    ensures |m.cashFlows| == |lfcf|
  {
    var n := |lfcf|;
    var exitEquity := ExitEquity(ebitda[n - 1], exitMultiple, debt[n - 1]);
    var cashFlows := CashFlowsToEquity(equityAmount, lfcf, exitEquity);
    var moic := Moic(exitEquity, equityAmount);
    ReturnMetrics(cashFlows, exitEquity, moic, Dpi(cashFlows, equityAmount), moic)
  }

  /** The return calculation of a run: the loop that builds the cash flows to
      equity, then the exit valuation and the three multiples. */
  method Calculate(entryYear: int, exitYear: int, equityAmount: real, exitMultiple: real,
                   ebitda: seq<real>, debt: seq<real>, lfcf: seq<real>) returns (m: ReturnMetrics)
    requires exitYear - entryYear + 1 == |lfcf| && |ebitda| == |debt| == |lfcf| >= 2
    ensures m == MetricsFrom(equityAmount, exitMultiple, ebitda, debt, lfcf)
  {
    var exitIndex := exitYear - entryYear;
    var exitEbitda := ebitda[exitIndex];
    var exitEnterpriseValue := ExitEnterpriseValue(exitEbitda, exitMultiple);
    var netDebt := debt[exitIndex];
    var exitEquityValue := exitEnterpriseValue - netDebt;
    var cashFlows := BuildCashFlows(entryYear, exitYear, equityAmount, lfcf, exitEquityValue);
    var moic := Moic(exitEquityValue, equityAmount);
    var dpi := Dpi(cashFlows, equityAmount);
    m := ReturnMetrics(cashFlows, exitEquityValue, moic, dpi, moic);
  }

  /** MOIC and TVPI are the same number, a number exactly when equity was paid
      in; MOIC times the equity is the exit equity. */
  lemma MoicAndTvpi(equityAmount: real, exitMultiple: real, ebitda: seq<real>, debt: seq<real>, lfcf: seq<real>)
    requires |ebitda| == |debt| == |lfcf| >= 2
    ensures var m := MetricsFrom(equityAmount, exitMultiple, ebitda, debt, lfcf);
      && m.tvpi == m.moic
      && (m.moic.Some? <==> equityAmount != 0.0)
      && (m.moic.Some? ==> m.moic.value * equityAmount == m.exitEquity)
      && m.exitEquity == ebitda[|ebitda| - 1] * exitMultiple - debt[|debt| - 1]
  {
  }

  /** With equity paid in, DPI is a number that is never negative, and never
      below TVPI: its numerator counts the exit equity whenever that is positive,
      and every positive intermediate flow besides. */
  lemma DpiBounds(equityAmount: real, exitMultiple: real, ebitda: seq<real>, debt: seq<real>, lfcf: seq<real>)
    requires |ebitda| == |debt| == |lfcf| >= 2 && equityAmount > 0.0
    ensures var m := MetricsFrom(equityAmount, exitMultiple, ebitda, debt, lfcf);
      && m.dpi.Some? && m.dpi.value >= 0.0
      && m.tvpi.Some? && m.dpi.value >= m.tvpi.value
  {
    var m := MetricsFrom(equityAmount, exitMultiple, ebitda, debt, lfcf);
    var later := m.cashFlows[1..];
    var s := SumPositive(later);
    assert later[|later| - 1] == m.exitEquity;
    DividedKeepsOrder(m.exitEquity, s, equityAmount);
    DividedKeepsOrder(0.0, s, equityAmount);
  }

  /** Dividing by a positive number keeps the order. */
  lemma DividedKeepsOrder(smaller: real, larger: real, divisor: real)
    requires smaller <= larger && divisor > 0.0
    ensures smaller / divisor <= larger / divisor
  {
  }

  /** When nothing after entry is negative, DPI is every later cash flow over the equity paid in. */
  lemma DpiOfNonNegativeFlows(cashFlows: seq<real>, equityAmount: real)
    requires |cashFlows| >= 1 && equityAmount != 0.0
    requires forall k :: 1 <= k < |cashFlows| ==> cashFlows[k] >= 0.0
    ensures Dpi(cashFlows, equityAmount) == Some(Sum(cashFlows[1..]) / equityAmount)
  {
    var later := cashFlows[1..];
    assert forall k :: 0 <= k < |later| ==> later[k] == cashFlows[k + 1];
    SumPositiveOfNonNegative(later);
  }

  // ----- Net present value and the internal rate of return -----

  /** The net present value of yearly cash flows at a rate above -100%, the
      first flow undiscounted. */
  function Npv(cashFlows: seq<real>, rate: real): (npv: real)
    requires rate > -1.0
  {
    if cashFlows == [] then 0.0
    else Npv(cashFlows[..|cashFlows| - 1], rate) + cashFlows[|cashFlows| - 1] / Pow(1.0 + rate, |cashFlows| - 1)
  }

  lemma {:induction false} PowOfOne(n: nat)
    ensures Pow(1.0, n) == 1.0
  {
    if n > 0 {
      PowOfOne(n - 1);
    }
  }

  /** At a zero rate nothing is discounted: the NPV is the plain sum. */
  lemma {:induction false} NpvAtZeroRate(cashFlows: seq<real>)
    ensures Npv(cashFlows, 0.0) == Sum(cashFlows)
  {
    if cashFlows != [] {
      NpvAtZeroRate(cashFlows[..|cashFlows| - 1]);
      PowOfOne(|cashFlows| - 1);
    }
  }

  /** For one payment in and one payment out a year later, the NPV vanishes at
      exactly one rate: the payoff over the payment, less one. */
  lemma TwoFlowIrr(paidIn: real, payoff: real, rate: real)
    requires paidIn > 0.0 && payoff > 0.0 && rate > -1.0
    ensures Npv([-paidIn, payoff], rate) == 0.0 <==> rate == payoff / paidIn - 1.0
  {
    var flows := [-paidIn, payoff];
    assert flows[..1] == [-paidIn];
    assert flows[..1][..0] == [];
    assert Npv(flows[..1], rate) == -paidIn;
    assert Pow(1.0 + rate, 1) == (1.0 + rate) * Pow(1.0 + rate, 0) == 1.0 + rate;
    assert Npv(flows, rate) == -paidIn + payoff / (1.0 + rate);
    DiscountRoot(paidIn, payoff, 1.0 + rate);
  }

  lemma DiscountRoot(paidIn: real, payoff: real, factor: real)
    requires paidIn > 0.0 && payoff > 0.0 && factor > 0.0
    ensures -paidIn + payoff / factor == 0.0 <==> factor - 1.0 == payoff / paidIn - 1.0
  {
    if -paidIn + payoff / factor == 0.0 {
      assert payoff == paidIn * factor;
    }
    if factor == payoff / paidIn {
      assert payoff / factor == paidIn;
    }
  }
}

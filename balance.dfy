/** The projected balance sheet: debt rolled forward over the cash-flow
    statement's principal payments, equity grown by the cumulative levered free
    cash flow, enterprise value as their sum, and the implied EV/EBITDA multiple. */
module Balance {
  import opened Common
  import opened Inputs
  import Income
  import CashFlow
  import Debt

  /** One column per line item, one entry per year (index t = year - entry year). */
  datatype BalanceSheet = BalanceSheet(
    debt: seq<real>,
    equity: seq<real>,
    enterpriseValue: seq<real>,
    impliedEvEbitda: seq<Option<real>>)

  predicate HasYears(b: BalanceSheet, n: nat)
  {
    |b.debt| == n && |b.equity| == n && |b.enterpriseValue| == n && |b.impliedEvEbitda| == n
  }

  /** The sheet given the starting equity, the EBITDA column, the cash-flow
      statement and the debt list rolled forward over its amortisation column. */
  function SheetFrom(equityAmount: real, ebitda: seq<real>, cashFlow: CashFlow.CashFlowStatement,
                     debtBalance: seq<real>): (b: BalanceSheet)
    requires CashFlow.HasYears(cashFlow, |debtBalance|) && |ebitda| == |debtBalance|
    ensures HasYears(b, |debtBalance|)
  {
    var equity := Offset(equityAmount, cashFlow.cumulativeFcf);
    var enterpriseValue := Plus(debtBalance, equity);
    BalanceSheet(debtBalance, equity, enterpriseValue, RatioColumn(enterpriseValue, ebitda))
  }

  /** The balance sheet of a run whose purchase price is split into debtAmount
      and equityAmount. */
  function Sheet(a: Assumptions, debtAmount: real, equityAmount: real, n: nat): (b: BalanceSheet)
    requires n >= 2 && a.amortizationYears != 0
    ensures HasYears(b, n)
  {
    var cashFlow := CashFlow.Statement(a, debtAmount, n);
    SheetFrom(equityAmount, Income.Statement(a, debtAmount, n).ebitda, cashFlow,
              Debt.DebtBalance(debtAmount, cashFlow.debtAmortization))
  }

  /** The balance-sheet debt of year t is the entry debt less the principal the
      cash-flow statement paid in years 1..t. */
  lemma DebtLessRepayments(a: Assumptions, debtAmount: real, equityAmount: real, n: nat, t: nat)
    requires n >= 2 && a.amortizationYears != 0 && t < n
    ensures Sheet(a, debtAmount, equityAmount, n).debt[t] ==
              debtAmount + Sum(CashFlow.Statement(a, debtAmount, n).debtAmortization[1..t + 1])
  {
    Debt.BalanceIsDebtLessPayments(debtAmount, CashFlow.Statement(a, debtAmount, n).debtAmortization, t);
  }

  /** The balance-sheet debt is the income statement's remaining debt. */
  lemma DebtIsRemainingDebt(a: Assumptions, debtAmount: real, equityAmount: real, n: nat, t: nat)
    requires n >= 2 && a.amortizationYears != 0 && t < n
    ensures Sheet(a, debtAmount, equityAmount, n).debt[t] ==
              Debt.DebtAfter(debtAmount, Installment(a, debtAmount), t)
  {
    Debt.BalanceIsRemainingDebt(debtAmount, Installment(a, debtAmount), n, t);
  }

  /** So the interest of every year is the rate on that year's balance-sheet debt. */
  lemma InterestOnSheetDebt(a: Assumptions, debtAmount: real, equityAmount: real, n: nat, t: nat)
    requires n >= 2 && a.amortizationYears != 0 && t < n
    ensures Income.Statement(a, debtAmount, n).interestExpense[t] ==
              Sheet(a, debtAmount, equityAmount, n).debt[t] * a.interestRate
  {
    DebtIsRemainingDebt(a, debtAmount, equityAmount, n, t);
    Income.InterestOnRemainingDebt(a, debtAmount, n, t);
  }

  /** A positive debt amortised over a positive number of years never goes
      negative or up, and is zero exactly from year amortizationYears on. */
  lemma DebtRunsOff(a: Assumptions, debtAmount: real, equityAmount: real, n: nat, t: nat)
    requires n >= 2 && a.amortizationYears > 0 && debtAmount > 0.0 && t < n
    ensures Sheet(a, debtAmount, equityAmount, n).debt[t] >= 0.0
    ensures t > 0 ==> Sheet(a, debtAmount, equityAmount, n).debt[t] <= Sheet(a, debtAmount, equityAmount, n).debt[t - 1]
    ensures Sheet(a, debtAmount, equityAmount, n).debt[t] == 0.0 <==> t >= a.amortizationYears
  {
    var p := Installment(a, debtAmount);
    InstallmentSign(a, debtAmount);
    DebtIsRemainingDebt(a, debtAmount, equityAmount, n, t);
    if t > 0 {
      DebtIsRemainingDebt(a, debtAmount, equityAmount, n, t - 1);
      Debt.DebtAfterNonIncreasing(debtAmount, p, t - 1, t);
    }
    Debt.DebtRetiredExactly(debtAmount, a.amortizationYears, t);
  }

  /** Equity is the entry equity plus the levered free cash flow of every year
      so far. */
  lemma EquityAccumulates(a: Assumptions, debtAmount: real, equityAmount: real, n: nat, t: nat)
    requires n >= 2 && a.amortizationYears != 0 && t < n
    ensures Sheet(a, debtAmount, equityAmount, n).equity[t] ==
              equityAmount + Sum(CashFlow.Statement(a, debtAmount, n).lfcf[..t + 1])
  {
    CashFlow.CumulativeIsPrefixSum(a, debtAmount, n, t);
  }

  /** Enterprise value is debt plus equity; in the acquisition year it is the
      entry financing plus that year's levered free cash flow. */
  lemma EnterpriseValueOfSheet(a: Assumptions, debtAmount: real, equityAmount: real, n: nat, t: nat)
    requires n >= 2 && a.amortizationYears != 0 && t < n
    ensures var b := Sheet(a, debtAmount, equityAmount, n);
      b.enterpriseValue[t] == b.debt[t] + b.equity[t]
    ensures Sheet(a, debtAmount, equityAmount, n).enterpriseValue[0] ==
              debtAmount + equityAmount + CashFlow.Statement(a, debtAmount, n).lfcf[0]
  {
    EquityAccumulates(a, debtAmount, equityAmount, n, 0);
    var lfcf := CashFlow.Statement(a, debtAmount, n).lfcf;
    assert lfcf[..1] == [lfcf[0]];
    assert [lfcf[0]][..0] == [];
  }

  /** Financed as the setup splits the price, the first enterprise value is the
      purchase price plus the first levered free cash flow. */
  lemma EntryEnterpriseValue(a: Assumptions, n: nat)
    requires n >= 2 && a.amortizationYears != 0
    ensures var f := Setup(a);
      Sheet(a, f.debtAmount, f.equityAmount, n).enterpriseValue[0] ==
        f.purchasePrice + CashFlow.Statement(a, f.debtAmount, n).lfcf[0]
  {
    var f := Setup(a);
    EnterpriseValueOfSheet(a, f.debtAmount, f.equityAmount, n, 0);
  }

  /** The implied multiple is a number exactly in the years with non-zero
      EBITDA, and then EBITDA times it gives back the enterprise value. */
  lemma ImpliedMultiple(a: Assumptions, debtAmount: real, equityAmount: real, n: nat, t: nat)
    requires n >= 2 && a.amortizationYears != 0 && t < n
    ensures var b := Sheet(a, debtAmount, equityAmount, n);
      var ebitda := Income.Statement(a, debtAmount, n).ebitda;
      && (b.impliedEvEbitda[t].Some? <==> ebitda[t] != 0.0)
      && (b.impliedEvEbitda[t].Some? ==> b.impliedEvEbitda[t].value * ebitda[t] == b.enterpriseValue[t])
  {
    var cashFlow := CashFlow.Statement(a, debtAmount, n);
    SheetRatioAt(equityAmount, Income.Statement(a, debtAmount, n).ebitda, cashFlow,
                 Debt.DebtBalance(debtAmount, cashFlow.debtAmortization), t);
  }

  /** The implied multiple of any sheet, year by year. */
  lemma SheetRatioAt(equityAmount: real, ebitda: seq<real>, cashFlow: CashFlow.CashFlowStatement,
                     debtBalance: seq<real>, t: nat)
    requires CashFlow.HasYears(cashFlow, |debtBalance|) && |ebitda| == |debtBalance| && t < |ebitda|
    ensures var b := SheetFrom(equityAmount, ebitda, cashFlow, debtBalance);
      && (b.impliedEvEbitda[t].Some? <==> ebitda[t] != 0.0)
      && (b.impliedEvEbitda[t].Some? ==> b.impliedEvEbitda[t].value * ebitda[t] == b.enterpriseValue[t])
  {
    RatioColumnAt(SheetFrom(equityAmount, ebitda, cashFlow, debtBalance).enterpriseValue, ebitda, t);
  }
}

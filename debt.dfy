/** The three debt recurrences of the engine: the income statement's remaining
    debt (which sets interest), the cash-flow statement's amortisation payments
    with their own running balance, and the balance sheet's debt roll-forward
    driven by those payments. */
module Debt {
  import opened Common

  // ----- Income statement: remaining debt after t installments -----

  /** The remaining debt of year t: the entry debt, then each year the previous
      balance less one installment, floored at zero. */
  function DebtAfter(debt: real, installment: real, t: nat): (r: real)
    ensures t > 0 || debt >= 0.0 ==> r >= 0.0
  {
    if t == 0 then debt else Max(0.0, DebtAfter(debt, installment, t - 1) - installment)
  }

  /** The remaining-debt list of the first n years. */
  function RemainingDebt(debt: real, installment: real, n: nat): (r: seq<real>)
    ensures |r| == n
  {
    seq(n, t requires t >= 0 => DebtAfter(debt, installment, t))
  }

  /** The loop that builds the remaining-debt list. It always holds the entry
      balance, even when there is no year to attach it to. */
  method IncomeSchedule(debt: real, installment: real, numYears: int) returns (remaining: seq<real>)
    ensures remaining == RemainingDebt(debt, installment, if numYears < 1 then 1 else numYears)
  {
    remaining := [debt];
    var i := 1;
    while i < numYears
      invariant 1 <= i && (i <= numYears || i == 1)
      invariant remaining == RemainingDebt(debt, installment, i)
    {
      var newDebt := Max(0.0, remaining[|remaining| - 1] - installment);
      remaining := remaining + [newDebt];
      i := i + 1;
    }
  }

  /** With a non-negative debt and installment, the balance of year t is the
      debt less t installments, or zero once that is used up. */
  lemma {:induction false} DebtAfterClosedForm(debt: real, installment: real, t: nat)
    requires debt >= 0.0 && installment >= 0.0
    ensures DebtAfter(debt, installment, t) == Max(0.0, debt - t as real * installment)
  {
    if t > 0 {
      DebtAfterClosedForm(debt, installment, t - 1);
      var before := debt - (t - 1) as real * installment;
      assert debt - t as real * installment == before - installment by {
        OneMoreMultiple(t, installment);
      }
      FloorThenSubtract(before, installment);
    }
  }

  /** A rate charged on the remaining debt is that rate on the closed form. */
  lemma ChargeClosedForm(debt: real, installment: real, rate: real, t: nat)
    requires debt >= 0.0 && installment >= 0.0
    ensures DebtAfter(debt, installment, t) * rate == Max(0.0, debt - t as real * installment) * rate
  {
    DebtAfterClosedForm(debt, installment, t);
  }

  /** Flooring at zero before taking off a non-negative amount and flooring
      again is the same as flooring once afterwards. */
  lemma FloorThenSubtract(x: real, p: real)
    requires p >= 0.0
    ensures Max(0.0, Max(0.0, x) - p) == Max(0.0, x - p)
  {
  }

  lemma OneMoreMultiple(t: nat, x: real)
    requires t > 0
    ensures (t - 1) as real * x + x == t as real * x
  {
  }

  /** The remaining debt never grows from one year to a later one. */
  lemma {:induction false} DebtAfterNonIncreasing(debt: real, installment: real, i: nat, j: nat)
    requires debt >= 0.0 && installment >= 0.0
    requires i <= j
    ensures DebtAfter(debt, installment, j) <= DebtAfter(debt, installment, i)
  {
    if i < j {
      DebtAfterNonIncreasing(debt, installment, i, j - 1);
    }
  }

  /** With installments of debt / amortizationYears, a positive debt is fully
      repaid exactly from year amortizationYears on, and not before. */
  lemma DebtRetiredExactly(debt: real, amortizationYears: int, t: nat)
    requires debt > 0.0 && amortizationYears > 0
    ensures DebtAfter(debt, debt / amortizationYears as real, t) == 0.0 <==> t >= amortizationYears
  {
    var p := debt / amortizationYears as real;
    assert p > 0.0;
    DebtAfterClosedForm(debt, p, t);
    assert debt - t as real * p == (amortizationYears - t) as real * p;
  }

  /** Once the amortisation years have run out, nothing is left of a non-negative debt. */
  lemma InstallmentsRetireDebt(debt: real, amortizationYears: int, t: nat)
    requires debt >= 0.0 && amortizationYears > 0
    ensures t >= amortizationYears ==> DebtAfter(debt, debt / amortizationYears as real, t) == 0.0
  {
    if debt > 0.0 {
      DebtRetiredExactly(debt, amortizationYears, t);
    } else {
      DebtAfterClosedForm(debt, debt / amortizationYears as real, t);
    }
  }

  // ----- Cash-flow statement: payments and their running balance -----

  /** The cash-flow statement's running balance after the payments of years 1..t. */
  function RunningBalance(debt: real, installment: real, t: nat): (r: real)
  {
    if t == 0 then debt
    else
      var before := RunningBalance(debt, installment, t - 1);
      before - Min(installment, before)
  }

  /** The principal paid in year t: nothing in the acquisition year, then the
      installment capped at what is still owed. */
  function Payment(debt: real, installment: real, t: nat): (r: real)
  {
    if t == 0 then 0.0 else Min(installment, RunningBalance(debt, installment, t - 1))
  }

  /** Each payment after the acquisition year is what the running balance loses that year. */
  lemma PaymentReducesBalance(debt: real, installment: real, t: nat)
    requires t > 0
    ensures Payment(debt, installment, t) + RunningBalance(debt, installment, t) ==
              RunningBalance(debt, installment, t - 1)
  {
  }

  /** The debt-amortisation column of the first n years, payments as outflows. */
  function Amortization(debt: real, installment: real, n: nat): (r: seq<real>)
    ensures |r| == n
  {
    seq(n, t requires t >= 0 => -Payment(debt, installment, t))
  }

  /** The loop that builds the debt-amortisation column. */
  method AmortizationSchedule(debt: real, installment: real, numYears: int) returns (amortization: seq<real>)
    ensures amortization == Amortization(debt, installment, if numYears < 0 then 0 else numYears)
  {
    amortization := [];
    var remaining := debt;
    var i := 0;
    while i < numYears
      invariant 0 <= i && (i <= numYears || i == 0)
      invariant amortization == Amortization(debt, installment, i)
      invariant remaining == RunningBalance(debt, installment, if i == 0 then 0 else i - 1)
    {
      if i == 0 {
        amortization := amortization + [0.0];
      } else {
        var payment := Min(installment, remaining);
        amortization := amortization + [-payment];
        remaining := remaining - payment;
      }
      i := i + 1;
    }
  }

  /** Paying min(installment, balance) leaves max(0, balance - installment): the
      cash-flow running balance is the income statement's remaining debt. */
  lemma {:induction false} RunningBalanceIsDebtAfter(debt: real, installment: real, t: nat)
    ensures RunningBalance(debt, installment, t) == DebtAfter(debt, installment, t)
  {
    if t > 0 {
      RunningBalanceIsDebtAfter(debt, installment, t - 1);
    }
  }

  /** No principal in year 0; afterwards each payment lies between zero and the installment. */
  lemma PaymentBounds(debt: real, installment: real, t: nat)
    requires debt >= 0.0 && installment >= 0.0
    ensures t == 0 ==> Payment(debt, installment, t) == 0.0
    ensures 0.0 <= Payment(debt, installment, t) <= installment
  {
    if t > 0 {
      RunningBalanceIsDebtAfter(debt, installment, t - 1);
    }
  }

  // ----- Balance sheet: debt roll-forward from the amortisation column -----

  /** The balance-sheet debt of year t: the previous balance less the payment
      recorded (as a negative amount) in the amortisation column. */
  function BalanceAt(debt: real, amortization: seq<real>, t: nat): (balance: real)
    requires t == 0 || t < |amortization|
  {
    if t == 0 then debt else BalanceAt(debt, amortization, t - 1) - (-amortization[t])
  }

  /** The balance-sheet debt list: one entry per row of the amortisation
      column, and the entry balance even when the column is empty. */
  function DebtBalance(debt: real, amortization: seq<real>): (r: seq<real>)
    ensures |r| == (if |amortization| == 0 then 1 else |amortization|)
  {
    var n := if |amortization| == 0 then 1 else |amortization|;
    seq(n, t requires 0 <= t < n => BalanceAt(debt, amortization, t))
  }

  /** The loop that builds the balance-sheet debt list. */
  method BalanceSchedule(debt: real, amortization: seq<real>) returns (balance: seq<real>)
    ensures balance == DebtBalance(debt, amortization)
  {
    balance := [debt];
    var i := 1;
    while i < |amortization|
      invariant 1 <= i && (i <= |amortization| || i == 1)
      invariant |balance| == i
      invariant forall t :: 0 <= t < i ==> balance[t] == BalanceAt(debt, amortization, t)
    {
      var debtPayment := -amortization[i];
      var newBalance := balance[|balance| - 1] - debtPayment;
      balance := balance + [newBalance];
      i := i + 1;
    }
  }

  /** The balance of year t is the entry debt less every payment of years 1..t. */
  lemma {:induction false} BalanceIsDebtLessPayments(debt: real, amortization: seq<real>, t: nat)
    requires t < |amortization|
    ensures BalanceAt(debt, amortization, t) == debt + Sum(amortization[1..t + 1])
  {
    if t > 0 {
      BalanceIsDebtLessPayments(debt, amortization, t - 1);
      assert amortization[1..t + 1][..t - 1] == amortization[1..t];
    }
  }

  /** The balance sheet's debt, rolled forward over the payments, is the
      income statement's remaining debt in every year. */
  lemma {:induction false} BalanceIsRemainingDebt(debt: real, installment: real, n: nat, t: nat)
    requires t < n
    ensures BalanceAt(debt, Amortization(debt, installment, n), t) == DebtAfter(debt, installment, t)
  {
    if t > 0 {
      BalanceIsRemainingDebt(debt, installment, n, t - 1);
      RunningBalanceIsDebtAfter(debt, installment, t - 1);
      RunningBalanceIsDebtAfter(debt, installment, t);
    }
  }

  /** Over the first n years the principal repaid is the entry debt less the
      final balance, so it never exceeds the debt. */
  lemma TotalRepaid(debt: real, installment: real, n: nat)
    requires debt >= 0.0 && installment >= 0.0 && n >= 1
    ensures -Sum(Amortization(debt, installment, n)[1..]) == debt - DebtAfter(debt, installment, n - 1)
    ensures 0.0 <= -Sum(Amortization(debt, installment, n)[1..]) <= debt
  {
    var amortization := Amortization(debt, installment, n);
    BalanceIsDebtLessPayments(debt, amortization, n - 1);
    BalanceIsRemainingDebt(debt, installment, n, n - 1);
    DebtAfterNonIncreasing(debt, installment, 0, n - 1);
    assert amortization[1..n] == amortization[1..];
  }
}

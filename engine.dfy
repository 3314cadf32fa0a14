/** The model object: the constructor stores the normalised assumptions and
    then runs the five build steps in order, each filling in its own fields from
    the ones the earlier steps set. */
module Engine {
  import opened Common
  import opened Inputs
  import Debt
  import Income
  import CashFlow
  import Balance
  import Returns

  class LBOModel {
    var inputs: Assumptions
    var holdingPeriod: int
    // set by SetupModel
    var entryEbitda: real
    var purchasePrice: real
    var debtAmount: real
    var equityAmount: real
    var years: seq<int>
    var numYears: int
    // set by the three statement builders
    var incomeStmt: Income.IncomeStatement
    var cashFlow: CashFlow.CashFlowStatement
    var balanceSheet: Balance.BalanceSheet
    // set by CalculateReturns
    var cashFlows: seq<real>
    var moic: Option<real>
    var dpi: Option<real>
    var tvpi: Option<real>

    /** After SetupModel: the financing split and the timeline of the inputs. */
    ghost predicate SetUp()
      reads this`inputs, this`holdingPeriod, this`entryEbitda, this`purchasePrice, this`debtAmount,
            this`equityAmount, this`years, this`numYears
    {
      && Runnable(inputs)
      && holdingPeriod == HoldingPeriod(inputs)
      && Financing(entryEbitda, purchasePrice, debtAmount, equityAmount) == Setup(inputs)
      && years == Years(inputs)
      && numYears == NumYears(inputs)
    }

    /** After BuildIncomeStatement, given SetUp. */
    ghost predicate IncomeBuilt()
      reads this`inputs, this`debtAmount, this`numYears, this`incomeStmt
    {
      && numYears >= 2 && inputs.amortizationYears != 0
      && incomeStmt == Income.StatementFrom(inputs, numYears,
                         Debt.RemainingDebt(debtAmount, Installment(inputs, debtAmount), numYears))
    }

    /** After BuildCashFlow, given IncomeBuilt. */
    ghost predicate CashFlowBuilt()
      reads this`inputs, this`debtAmount, this`numYears, this`incomeStmt, this`cashFlow
    {
      && numYears >= 2 && Income.HasYears(incomeStmt, numYears) && inputs.amortizationYears != 0
      && cashFlow == CashFlow.StatementFrom(inputs, incomeStmt,
                       Debt.Amortization(debtAmount, Installment(inputs, debtAmount), numYears))
    }

    /** After BuildBalanceSheet, given CashFlowBuilt. */
    ghost predicate BalanceSheetBuilt()
      reads this`debtAmount, this`equityAmount, this`numYears, this`incomeStmt, this`cashFlow,
            this`balanceSheet
    {
      && numYears >= 2 && Income.HasYears(incomeStmt, numYears) && CashFlow.HasYears(cashFlow, numYears)
      && balanceSheet == Balance.SheetFrom(equityAmount, incomeStmt.ebitda, cashFlow,
                           Debt.DebtBalance(debtAmount, cashFlow.debtAmortization))
    }

    /** After CalculateReturns, given BalanceSheetBuilt. */
    ghost predicate ReturnsCalculated()
      reads this`inputs, this`equityAmount, this`numYears, this`incomeStmt, this`cashFlow,
            this`balanceSheet, this`cashFlows, this`moic, this`dpi, this`tvpi
    {
      && numYears >= 2 && Income.HasYears(incomeStmt, numYears) && CashFlow.HasYears(cashFlow, numYears)
      && Balance.HasYears(balanceSheet, numYears)
      && var m := Returns.MetricsFrom(equityAmount, inputs.purchasePriceMultiple,
                                      incomeStmt.ebitda, balanceSheet.debt, cashFlow.lfcf);
         cashFlows == m.cashFlows && moic == m.moic && dpi == m.dpi && tvpi == m.tvpi
    }

    /** Every step has filled in its fields from the ones before it. */
    ghost predicate Valid()
      reads this
    {
      SetUp() && IncomeBuilt() && CashFlowBuilt() && BalanceSheetBuilt() && ReturnsCalculated()
    }

    /** So every statement is the one the specification functions compute from
        the stored inputs. */
    lemma ValidMatchesSpecification()
      requires Valid()
      ensures incomeStmt == Income.Statement(inputs, debtAmount, numYears)
      ensures cashFlow == CashFlow.Statement(inputs, debtAmount, numYears)
      ensures balanceSheet == Balance.Sheet(inputs, debtAmount, equityAmount, numYears)
      ensures Financing(entryEbitda, purchasePrice, debtAmount, equityAmount) == Setup(inputs)
    {
    }

    /** Stores the arguments, percentages as fractions, and builds the model.
        Inputs on which a build step raises are excluded: see Inputs.FailureOf. */
    constructor (raw: RawInputs)
      requires Runnable(Normalize(raw))
      ensures Valid() && inputs == Normalize(raw)
    {
      inputs := Normalize(raw);
      holdingPeriod := raw.exitYear - raw.entryYear;
      new;
      SetupModel();
      BuildIncomeStatement();
      BuildCashFlow();
      BuildBalanceSheet();
      label built:
      CalculateReturns();
      StagesKept@built();
    }

    /** The return calculation leaves the statements it reads as they were. */
    twostate lemma StagesKept()
      requires old(SetUp() && IncomeBuilt() && CashFlowBuilt() && BalanceSheetBuilt())
      requires unchanged(this`inputs, this`holdingPeriod, this`entryEbitda, this`purchasePrice,
                         this`debtAmount, this`equityAmount, this`years, this`numYears,
                         this`incomeStmt, this`cashFlow, this`balanceSheet)
      ensures SetUp() && IncomeBuilt() && CashFlowBuilt() && BalanceSheetBuilt()
    {
    }

    /** Entry valuation, financing split and timeline. */
    method SetupModel()
      requires Runnable(inputs) && holdingPeriod == HoldingPeriod(inputs)
      modifies this`entryEbitda, this`purchasePrice, this`debtAmount, this`equityAmount,
               this`years, this`numYears
      ensures SetUp()
    {
      entryEbitda := inputs.revenueEntry * inputs.ebitdaMarginEntry;
      purchasePrice := entryEbitda * inputs.purchasePriceMultiple;
      debtAmount := purchasePrice * inputs.debtPercentage;
      equityAmount := purchasePrice - debtAmount;
      assert Setup(inputs) == Financing(entryEbitda, purchasePrice, debtAmount, equityAmount);
      years := Years(inputs);
      numYears := |years|;
    }

    /** The income statement, with interest on the remaining-debt list its loop builds. */
    method BuildIncomeStatement()
      requires SetUp()
      modifies this`incomeStmt
      ensures SetUp() && IncomeBuilt()
    {
      var annualPayment := debtAmount / inputs.amortizationYears as real;
      var remainingDebt := Debt.IncomeSchedule(debtAmount, annualPayment, numYears);
      incomeStmt := Income.StatementFrom(inputs, numYears, remainingDebt);
    }

    /** The cash-flow statement, with the amortisation column its loop builds. */
    method BuildCashFlow()
      requires SetUp() && IncomeBuilt()
      modifies this`cashFlow
      ensures SetUp() && IncomeBuilt() && CashFlowBuilt()
    {
      var annualDebtPayment := debtAmount / inputs.amortizationYears as real;
      var debtAmortization := Debt.AmortizationSchedule(debtAmount, annualDebtPayment, numYears);
      cashFlow := CashFlow.StatementFrom(inputs, incomeStmt, debtAmortization);
    }

    /** The balance sheet, with the debt list its loop rolls forward over the
        cash-flow statement's amortisation column. */
    method BuildBalanceSheet()
      requires SetUp() && IncomeBuilt() && CashFlowBuilt()
      modifies this`balanceSheet
      ensures SetUp() && IncomeBuilt() && CashFlowBuilt() && BalanceSheetBuilt()
    {
      var debtBalance := Debt.BalanceSchedule(debtAmount, cashFlow.debtAmortization);
      balanceSheet := Balance.SheetFrom(equityAmount, incomeStmt.ebitda, cashFlow, debtBalance);
    }

    /** The equity cash flows, MOIC, DPI and TVPI; the IRR is not computed here. */
    method CalculateReturns()
      requires SetUp() && BalanceSheetBuilt()
      modifies this`cashFlows, this`moic, this`dpi, this`tvpi
      ensures ReturnsCalculated()
      ensures unchanged(this`inputs, this`holdingPeriod, this`entryEbitda, this`purchasePrice,
                        this`debtAmount, this`equityAmount, this`years, this`numYears,
                        this`incomeStmt, this`cashFlow, this`balanceSheet)
    {
      var m := Returns.Calculate(inputs.entryYear, inputs.exitYear, equityAmount, inputs.purchasePriceMultiple,
                                 incomeStmt.ebitda, balanceSheet.debt, cashFlow.lfcf);
      cashFlows, moic, dpi, tvpi := m.cashFlows, m.moic, m.dpi, m.tvpi;
    }
  }
}

# LBO model in Dafny

A model of the leveraged-buyout engine in `LBOModel.py`.

The constructor stores the deal assumptions. Percentage inputs become fractions. It then runs five build steps in order:

1. **Setup.** Entry EBITDA, the purchase price at the entry multiple, the debt/equity split and the timeline of years from entry to exit.
2. **Income statement.** Revenue compounding at the growth rate, and an EBITDA margin stepping linearly from the entry margin to the exit margin. Depreciation is 80% of capex. Interest is charged on a remaining-debt list that loses one fixed installment per year, floored at zero. Tax is floored at zero, and net income is pre-tax earnings less tax.
3. **Cash-flow statement.** Net income plus D&A, the working-capital change from receivable, payable and inventory days, and capex. A separate loop pays the installment capped at the debt still owed, and interest is paid out. These give free cash flow, levered free cash flow and their running total.
4. **Balance sheet.** Debt rolled forward over the cash-flow statement's payments, equity grown by the cumulative levered free cash flow, enterprise value as their sum, and the implied EV/EBITDA multiple.
5. **Returns.** The equity cash flows: equity paid in, the intermediate levered free cash flows, and the exit equity at the entry multiple less the exit debt. MOIC, DPI and TVPI are computed from them.

Also modelled:

- The exit-multiple leg of the sensitivity analysis: the default sweeps, the MOIC at each multiple, and the two-flow IRR root.
- The arguments the growth and margin sweeps pass to their temporary models.
- The sample Acme Corp run of the script.

Module layout:

| module | contents |
|---|---|
| `Common` | Python `max`/`min`, powers, numpy-style division, element-wise column arithmetic, sums and pandas' `cumsum` |
| `Inputs` | raw and normalised assumptions, the timeline, the failure conditions, the financing split |
| `Debt` | the three debt recurrences, each a loop method proved against a recursive function |
| `Income`, `CashFlow`, `Balance` | the three statements as records of columns (`seq<real>`), with lemmas about their entries |
| `Returns` | the cash flows to equity, the multiples, and the net present value whose root is the IRR |
| `Sensitivity` | the sweeps |
| `Engine` | the `LBOModel` class: the normalised arguments as one `inputs` record, one field per attribute the build steps set (except `irr`, which is not modelled), the equity cash-flow vector kept as a field although the code keeps it in a local variable, and one method per build step |
| `Example` | the Acme Corp run |

Each build step of `Engine.LBOModel` assigns its fields. Its postcondition is a stage predicate (`SetUp`, `IncomeBuilt`, …). That predicate ties the fields to the specification functions of the field values set by earlier steps. `ValidMatchesSpecification` then shows that each statement of a constructed model is the statement `Income.Statement`, `CashFlow.Statement` and `Balance.Sheet` compute from the stored inputs. The lemmas about those functions therefore hold for the object's fields.

Floating-point numbers are modelled as exact reals. A division that numpy turns into `inf` or `nan` yields `None` (`Common.Ratio`). This covers MOIC, DPI and the implied multiple. The constructor validates nothing: a non-positive revenue or a negative number of amortisation years runs through. The statement builds raise in three cases, which `Inputs.FailureOf` describes and the class constructor excludes by requiring `Inputs.Runnable`:

- division by zero in the margin step when entry and exit year coincide;
- division by zero in the installment when `amortization_years` is 0;
- a column length mismatch when the exit year precedes the entry year: the amortisation list is empty but the cash-flow table has one row.

The return calculation raises in one more case: with no equity paid in and no positive flow after entry, the DPI division is the integer 0 over 0.0. `Returns.DpiRaises` describes that case; the constructor does not exclude it, and the model's DPI there is `None`.

Further results:

- **Debt recurrences.** The income statement's remaining debt, the cash-flow statement's running balance and the balance-sheet debt are the same number in every year (`Debt.RunningBalanceIsDebtAfter`, `Debt.BalanceIsRemainingDebt`). This is proved here in exact arithmetic; the same case split (the installment is either at most the balance, or the whole balance is paid) gives equal values in floating point too.
- **DPI and TVPI.** DPI counts the positive exit equity as well as every positive intermediate flow. So with equity paid in, DPI is never below TVPI (`Returns.DpiBounds`). This is the reverse of the usual fund convention, and it is what the code computes.

## Model

| member | source | states |
|---|---|---|
| Inputs.Normalize | LBOModel.py:33-49 | margins, growth, capex, debt share and interest rate are stored as the given percentage divided by 100; the tax rate and every other argument are stored unchanged |
| Inputs.HoldingPeriod | LBOModel.py:36 | no contract of its own; the timeline length is stated through it by Inputs.Years |
| Inputs.Years | LBOModel.py:69-70 | the timeline has holding period + 1 years (none if exit precedes entry), holds exactly the years from entry to exit, and is strictly increasing |
| Inputs.NumYears | LBOModel.py:70 | a natural number; its value is the length stated by Inputs.Years |
| Inputs.Runnable | LBOModel.py:80-148 | no contract of its own; it is exactly the inputs on which Inputs.FailureOf gives no failure |
| Inputs.FailureOf | LBOModel.py:80-148 | a statement build fails exactly when the inputs are not runnable; by division by zero in the margin step exactly when entry and exit year coincide; otherwise by division by zero in the installment exactly when amortization_years is 0 |
| Inputs.SetupSplitsPrice | LBOModel.py:61-66 | debt plus equity is the purchase price and equity is the price times one less the debt share; with a non-negative price and a debt share in [0, 1], both parts lie between 0 and the price |
| Inputs.Setup | LBOModel.py:61-66 | debt plus equity is the purchase price; the rest of the split is stated by Inputs.SetupSplitsPrice |
| Inputs.Installment | LBOModel.py:92 | no contract of its own; stated by Inputs.InstallmentSpreadsDebt and Inputs.InstallmentSign |
| Inputs.InstallmentSpreadsDebt | LBOModel.py:92 | the installment times the amortisation years is the debt |
| Inputs.InstallmentSign | LBOModel.py:92 | over a positive number of years a non-negative debt has a non-negative installment, and a positive debt a positive one |
| Common.Max | LBOModel.py:95 | Python's max of two numbers: at least both, and one of them |
| Common.Min | LBOModel.py:144 | Python's min of two numbers: at most both, and one of them |
| Common.Pow | LBOModel.py:77 | a power of a positive base is positive, and a power of a base of at least 1 is at least 1 |
| Common.Ratio | LBOModel.py:187-188 | a division is a number exactly when the divisor is not zero, and that number times the divisor is the dividend |
| Common.RatioColumnAt | LBOModel.py:187-188 | the same for each entry of a column divided element-wise by another |
| Common.RatioColumn | LBOModel.py:187-188 | one entry per row; entries stated by Common.RatioColumnAt |
| Common.CumSumIsPrefixSum | LBOModel.py:165 | each entry of the running total is the sum of the column up to and including that entry |
| Common.CumSum | LBOModel.py:165 | one entry per element; entries stated by Common.CumSumIsPrefixSum |
| Common.SumPositive | LBOModel.py:221 | the sum of the positive parts is non-negative and at least every single element |
| Common.SumPositiveOfNonNegative | LBOModel.py:221 | with no negative element, summing the positive parts is summing everything |
| Debt.IncomeSchedule | LBOModel.py:91-96 | the loop's list is the remaining debt of every year (and holds the entry balance even with no year) |
| Debt.DebtAfter | LBOModel.py:94-96 | after the first year, and in the first year for a non-negative debt, the remaining debt is never negative |
| Debt.RemainingDebt | LBOModel.py:91-96 | one entry per year; entries stated by Debt.DebtAfter, Debt.DebtAfterClosedForm, Debt.DebtAfterNonIncreasing and Debt.DebtRetiredExactly |
| Debt.DebtAfterClosedForm | LBOModel.py:94-96 | with non-negative debt and installment, the remaining debt of year t is max(0, debt - t * installment) |
| Debt.ChargeClosedForm | LBOModel.py:99 | a rate charged on the remaining debt is that rate on the closed form |
| Debt.DebtAfterNonIncreasing | LBOModel.py:94-96 | with non-negative debt and installment, the remaining debt never grows from one year to a later one |
| Debt.DebtRetiredExactly | LBOModel.py:92-96 | a positive debt with installments of debt / amortization_years is zero from year amortization_years on and never before |
| Debt.InstallmentsRetireDebt | LBOModel.py:92-96 | a non-negative debt is zero in every year from amortization_years on |
| Debt.AmortizationSchedule | LBOModel.py:134-148 | the loop's column is the payment column: 0 in the acquisition year, then minus the installment capped at the running balance |
| Debt.RunningBalance | LBOModel.py:136-146 | no contract of its own; equal to Debt.DebtAfter by Debt.RunningBalanceIsDebtAfter |
| Debt.Payment | LBOModel.py:139-146 | no contract of its own; bounds by Debt.PaymentBounds, balance by Debt.PaymentReducesBalance |
| Debt.PaymentReducesBalance | LBOModel.py:144-146 | each payment after the acquisition year is exactly what the running balance loses that year |
| Debt.Amortization | LBOModel.py:138-148 | one entry per year; entries stated by Debt.AmortizationSchedule and Debt.PaymentBounds |
| Debt.RunningBalanceIsDebtAfter | LBOModel.py:136-146 | the cash-flow statement's running balance equals the income statement's remaining debt in every year |
| Debt.PaymentBounds | LBOModel.py:138-146 | no principal in the acquisition year; every payment lies between zero and the installment |
| Debt.TotalRepaid | LBOModel.py:138-148 | the principal paid over the horizon is the debt less the final remaining debt, between zero and the debt |
| Debt.BalanceSchedule | LBOModel.py:172-178 | the loop's list is the balance-sheet debt: the entry debt, then each year the previous balance less that year's payment |
| Debt.BalanceAt | LBOModel.py:172-176 | no contract of its own; stated by Debt.BalanceIsDebtLessPayments and Debt.BalanceIsRemainingDebt |
| Debt.DebtBalance | LBOModel.py:172-178 | one entry per amortisation row, and one entry even for an empty column; entries stated by Debt.BalanceIsDebtLessPayments and Debt.BalanceIsRemainingDebt |
| Debt.BalanceIsDebtLessPayments | LBOModel.py:172-176 | the balance of year t is the debt plus the (negative) amortisation entries of years 1..t |
| Debt.BalanceIsRemainingDebt | LBOModel.py:172-176 | rolled over the cash-flow payments, the balance-sheet debt equals the income statement's remaining debt |
| Income.StatementFrom | LBOModel.py:72-104 | every income-statement column has one entry per year |
| Income.Statement | LBOModel.py:72-104 | every column has one entry per year; entries stated by the Income lemmas |
| Income.Revenue | LBOModel.py:77 | length only; entries stated by Income.RevenueCompounds and Income.RevenueMonotone |
| Income.EbitdaMargin | LBOModel.py:80-81 | length only; entries stated by Income.MarginInterpolates |
| Income.TaxColumn | LBOModel.py:103 | length only; each entry is Income.Tax of that year's EBT for any tax rate, stated by Income.NetIncomeAfterTax |
| Income.RevenueCompounds | LBOModel.py:77 | revenue starts at the entry revenue and each year is the previous year's times one plus growth |
| Income.RevenueMonotone | LBOModel.py:77 | with positive entry revenue and non-negative growth, revenue is positive and never falls; with positive growth it rises strictly |
| Income.MarginInterpolates | LBOModel.py:80-81 | the margin is the entry margin in the first year and the exit margin in the last, with a constant step of (exit - entry) / (years - 1) |
| Income.EbitdaEndpoints | LBOModel.py:82 | first-year EBITDA is the entry EBITDA of the setup; last-year EBITDA is last-year revenue times the exit margin |
| Income.Tax | LBOModel.py:103 | tax is non-negative, at least pre-tax earnings times the rate, and either zero or that product |
| Income.NetIncomeAfterTax | LBOModel.py:88-104 | tax is Income.Tax of that year's EBT, so non-negative; net income is pre-tax earnings less tax and never above them; EBT is EBITDA less depreciation and interest; a profit is taxed at the full rate and a loss passes through untaxed |
| Income.InterestOnRemainingDebt | LBOModel.py:99 | each year's interest is the rate on that year's remaining debt |
| Income.InterestOnEntryDebt | LBOModel.py:91-99 | first-year interest is the rate on the whole debt |
| Income.InterestClosedForm | LBOModel.py:91-99 | with non-negative debt and positive amortisation years, interest in year t is the rate on max(0, debt - t installments) |
| Income.InterestEndsWithAmortization | LBOModel.py:91-99 | no interest is charged from year amortization_years on |
| Income.InterestNonIncreasing | LBOModel.py:91-99 | at a non-negative rate, interest never rises from one year to the next |
| CashFlow.StatementFrom | LBOModel.py:106-165 | every cash-flow column has one entry per year |
| CashFlow.Statement | LBOModel.py:106-165 | every column has one entry per year; entries stated by the CashFlow lemmas |
| CashFlow.WorkingCapitalChange | LBOModel.py:117-128 | length only; entries stated by CashFlow.WorkingCapitalStep |
| CashFlow.RevenueChange | LBOModel.py:117 | no contract of its own; the working-capital change it feeds is stated by CashFlow.WorkingCapitalStep (0 in the first year, then the revenue difference) |
| CashFlow.WorkingCapitalStep | LBOModel.py:117-128 | the working-capital change is 0 in the first year, then the revenue change times (DPO - DSO - DSI) / 365 |
| CashFlow.WorkingCapitalTelescopes | LBOModel.py:117-128 | working-capital changes summed from the first year are the revenue change since entry times the net days |
| CashFlow.FreeCashFlows | LBOModel.py:110-162 | net income and D&A come from the income statement; FCF is their sum plus the working-capital change and capex; LFCF is FCF less principal and interest |
| CashFlow.DepreciationFromCapex | LBOModel.py:114-131 | capex is minus revenue times the capex share; D&A added back is 80% of that outflow |
| CashFlow.CumulativeIsPrefixSum | LBOModel.py:165 | cumulative FCF of year t is the sum of LFCF over years 0..t |
| CashFlow.AmortizationBounds | LBOModel.py:133-148 | no principal in the acquisition year; each year's entry lies between minus the installment and zero; the total repaid lies between zero and the debt |
| Balance.SheetFrom | LBOModel.py:167-188 | every balance-sheet column has one entry per year |
| Balance.Sheet | LBOModel.py:167-188 | every column has one entry per year; entries stated by the Balance lemmas |
| Balance.DebtLessRepayments | LBOModel.py:172-178 | balance-sheet debt of year t is the entry debt less the principal paid in years 1..t |
| Balance.DebtIsRemainingDebt | LBOModel.py:172-178 | balance-sheet debt equals the income statement's remaining debt |
| Balance.InterestOnSheetDebt | LBOModel.py:99 | every year's interest is the rate on that year's balance-sheet debt |
| Balance.DebtRunsOff | LBOModel.py:172-178 | a positive debt stays non-negative, never rises, and is zero exactly from year amortization_years on |
| Balance.EquityAccumulates | LBOModel.py:181 | equity is the entry equity plus LFCF summed over years 0..t |
| Balance.EnterpriseValueOfSheet | LBOModel.py:184 | enterprise value is debt plus equity; in the first year it is debt plus equity financing plus first-year LFCF |
| Balance.EntryEnterpriseValue | LBOModel.py:184 | financed as the setup splits the price, first-year enterprise value is the purchase price plus first-year LFCF |
| Balance.ImpliedMultiple | LBOModel.py:187-188 | the implied multiple is a number exactly where EBITDA is non-zero, and then EBITDA times it is the enterprise value |
| Balance.SheetRatioAt | LBOModel.py:187-188 | for any sheet, the implied multiple is a number exactly where EBITDA is non-zero, and then EBITDA times it is the enterprise value |
| Returns.CashFlowsToEquity | LBOModel.py:193-212 | one flow per year: minus the equity at entry, the exit equity in the exit year, each year's LFCF in between |
| Returns.BuildCashFlows | LBOModel.py:193-212 | the loop over the years between entry and exit builds exactly that vector |
| Returns.Calculate | LBOModel.py:190-224 | the exit valuation, the cash-flow loop and the multiples give the metrics of the run |
| Returns.ExitEquity | LBOModel.py:200-209 | no contract of its own; stated by Returns.MoicAndTvpi |
| Returns.ExitEnterpriseValue | LBOModel.py:203 | no contract of its own; stated by Returns.MoicAndTvpi (exit EBITDA times the multiple) |
| Returns.Moic | LBOModel.py:218 | a number exactly when equity is non-zero, and then MOIC times equity is the exit equity |
| Returns.Dpi | LBOModel.py:221 | a number exactly when equity is non-zero, and then DPI times equity is the sum of the positive flows after entry |
| Returns.DpiRaises | LBOModel.py:221 | no contract of its own; stated by Returns.DpiRaisesOnZeroOverZero |
| Returns.DpiRaisesOnZeroOverZero | LBOModel.py:221 | the DPI division raises exactly when equity is zero and the positive parts after entry sum to zero, and the model's DPI is then None |
| Common.SumPositiveIsZero | LBOModel.py:221 | the positive parts sum to zero exactly when no element is positive |
| Returns.MetricsFrom | LBOModel.py:190-224 | one cash flow per year; the metrics are stated by Returns.MoicAndTvpi, Returns.DpiBounds and Returns.CashFlowsToEquity |
| Returns.Npv | LBOModel.py:215 | no contract of its own; stated by Returns.NpvAtZeroRate and Returns.TwoFlowIrr |
| Returns.MoicAndTvpi | LBOModel.py:200-224 | exit equity is exit EBITDA times the multiple less exit debt; TVPI equals MOIC; MOIC is a number exactly when equity is non-zero, and then MOIC times equity is the exit equity |
| Returns.DpiBounds | LBOModel.py:220-224 | with positive equity, DPI is a non-negative number and never below TVPI |
| Returns.DpiOfNonNegativeFlows | LBOModel.py:221 | with no negative flow after entry, DPI is the sum of those flows over the equity |
| Returns.NpvAtZeroRate | LBOModel.py:215 | at a zero rate the net present value whose root the IRR is, is the plain sum of the flows |
| Returns.TwoFlowIrr | LBOModel.py:332-334 | for one payment in and one positive payoff a year later, the NPV vanishes exactly at the rate payoff / payment - 1 |
| Sensitivity.SweepAround | LBOModel.py:297-316 | the default sweep has five values, the base value and one and two units either side, in increasing order |
| Sensitivity.SensitivityMoic | LBOModel.py:321-329 | a number exactly when equity is non-zero; its order in the multiple is stated by Sensitivity.SensitivityMoicIncreasing |
| Sensitivity.SensitivityMoicIncreasing | LBOModel.py:321-329 | with positive exit EBITDA and equity, a higher exit multiple gives a strictly higher MOIC |
| Sensitivity.SweepMoics | LBOModel.py:297-329 | across the default multiple sweep MOICs strictly increase, and the middle one is the MOIC of the run |
| Sensitivity.SensitivityIrr | LBOModel.py:321-334 | the IRR of the two-flow sweep vector is that multiple's MOIC less one |
| Sensitivity.GrowthSweepInputs | LBOModel.py:343-359 | no contract of its own; stated by Sensitivity.SweepResetsTaxRate |
| Sensitivity.MarginSweepInputs | LBOModel.py:368-384 | no contract of its own; stated by Sensitivity.SweepResetsTaxRate |
| Sensitivity.GrowthSweepInputsKeepingTax | LBOModel.py:343-359 | no contract of its own; stated by Sensitivity.SweepKeepingTaxVariesOneParameter |
| Sensitivity.MarginSweepInputsKeepingTax | LBOModel.py:368-384 | no contract of its own; stated by Sensitivity.SweepKeepingTaxVariesOneParameter |
| Sensitivity.SweepResetsTaxRate | LBOModel.py:341-384 | as written, a temporary model has the swept parameter and the default tax rate; its centre reproduces the base run exactly when the base run used the default rate |
| Sensitivity.SweepKeepingTaxVariesOneParameter | LBOModel.py:341-384 | passing the tax rate on, each temporary model differs from the base run in the swept parameter only, and the centre of each sweep is the base run |
| Engine.LBOModel.constructor | LBOModel.py:33-56 | the stored assumptions are the normalised arguments and every build step has run on them in order |
| Engine.LBOModel.SetupModel | LBOModel.py:58-70 | entry EBITDA, price, debt, equity and the timeline are the setup of the inputs |
| Engine.LBOModel.BuildIncomeStatement | LBOModel.py:72-104 | the income statement is the one computed on the remaining-debt list of the stored debt |
| Engine.LBOModel.BuildCashFlow | LBOModel.py:106-165 | the cash-flow statement is the one computed from the stored income statement and the payment column |
| Engine.LBOModel.BuildBalanceSheet | LBOModel.py:167-188 | the balance sheet is the one computed from the stored statements and the debt rolled over the payments |
| Engine.LBOModel.CalculateReturns | LBOModel.py:190-224 | cash flows, MOIC, DPI and TVPI are the metrics of the stored statements; nothing else changes |
| Engine.LBOModel.ValidMatchesSpecification | LBOModel.py:51-56 | in a built model every statement equals the one computed directly from the stored inputs and financing |
| Example.AcmeFinancing | LBOModel.py:392-408 | the sample run goes through with six years, entry EBITDA 125, price 1,250, debt 750 and equity 500 |
| Example.AcmeEntryInterest | LBOModel.py:91-99 | first-year interest of the sample run is 60 |
| Example.AcmeDebtRetired | LBOModel.py:172-178 | the sample run's debt is outstanding through 2027 and zero in the exit year |
| Example.AcmeExitEbitda | LBOModel.py:77-82 | the sample run's exit EBITDA is 220.39921152 |
| Example.AcmeMoic | LBOModel.py:200-218 | the sample run's MOIC is 4.4079842304 |

## Left out

- The IRR (`npf.irr`, line 215) is foreign numerical code. The model stops at the net present value (`Returns.Npv`) and its root in the two-flow case.
- `summary`, `visualize` and the printing in `sensitivity_analysis` are output only.
- The growth and margin sweeps build temporary models. Only the arguments they pass are modelled, not the full runs of those models.
- Floating-point rounding: numbers are exact reals, so the revenue powers, margins and ratios are exact rather than rounded.
- DataFrame indexing by calendar year is modelled as indexing by year offset. For contiguous years the two are the same.
- The amortisation years are an integer. The code only divides by them (lines 92 and 134), so a fractional value such as 2.5 would run there; the model cannot take one, and `Debt.DebtRetiredExactly` relies on the value being whole.
- `inf` and `nan` from a division by zero are one value, `None`.
- Returns.Dpi: when the equity is 0 and no flow after entry is positive, Python divides the integer 0 by 0.0 and raises `ZeroDivisionError`. The model returns `None` there as it does on every zero division; `Returns.DpiRaises` marks the case.
- Inputs.FailureOf: it covers only the raises in the statement builds (lines 80-148), not the one in the DPI division at line 221, which depends on the computed cash flows.
- Returns.Calculate: the IRR field is not computed (see the first line).
- Engine.LBOModel.constructor: it requires inputs on which no statement build raises (`Inputs.Runnable`). Those inputs are characterised separately by `Inputs.FailureOf`, not as an exceptional outcome of the constructor. Runnable inputs on which the DPI division raises are not excluded; see `Returns.Dpi` above.
- Inputs.Installment carries no postcondition of its own. What it promises is stated by `Inputs.InstallmentSpreadsDebt` and `Inputs.InstallmentSign`.
- Income.Revenue, Income.EbitdaMargin, Income.TaxColumn and CashFlow.WorkingCapitalChange state only their length. Their entries are stated by `Income.RevenueCompounds`, `Income.MarginInterpolates`, `Income.NetIncomeAfterTax` and `CashFlow.WorkingCapitalStep`.
- Debt.RemainingDebt, Debt.Amortization and Debt.DebtBalance state only their length, and Debt.RunningBalance, Debt.Payment and Debt.BalanceAt have no postcondition of their own. Their values are stated by the loop methods and lemmas of the `Debt` rows.
- Returns.ExitEquity, Returns.Npv, Sensitivity.GrowthSweepInputs and Sensitivity.MarginSweepInputs have no postcondition of their own. They are stated by `Returns.MoicAndTvpi`, `Returns.NpvAtZeroRate`, `Returns.TwoFlowIrr` and `Sensitivity.SweepResetsTaxRate`.

## Findings

| source | as written | input that shows it | evidently intended | confidence | as-written member | corrected member |
|---|---|---|---|---|---|---|
| LBOModel.py:343-384 | the temporary models of the growth and margin sweeps are built without `tax_rate`, so they fall back to 0.21 | a base run with `tax_rate=0.30`: the centre of the growth sweep is a different model from the base run | the temporary model differs from the base run only in the swept parameter | medium, not executed | Sensitivity.SweepResetsTaxRate | Sensitivity.SweepKeepingTaxVariesOneParameter |

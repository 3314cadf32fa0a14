/** The sample run of the repository's script: Acme Corp, bought in 2023 at
    10x an EBITDA of 25% of $500M revenue with 60% debt at 8% over five years,
    and sold in 2028. */
module Example {
  import opened Common
  import opened Inputs
  import Income
  import CashFlow
  import Balance
  import Returns

  function AcmeInputs(): (raw: RawInputs)
  {
    RawInputs("Acme Corp", 2023, 2028, 500.0, 25.0, 8.0, 30.0, 4.0,
              45.0, 60.0, 30.0, 10.0, 60.0, 8.0, 5, DEFAULT_TAX_RATE)
  }

  /** The run goes through: six years, entry EBITDA $125M, price $1,250M,
      $750M of debt and $500M of equity. */
  lemma AcmeFinancing()
    ensures Runnable(Normalize(AcmeInputs())) && NumYears(Normalize(AcmeInputs())) == 6
    ensures Setup(Normalize(AcmeInputs())) == Financing(125.0, 1250.0, 750.0, 500.0)
  {
  }

  /** Interest in 2023 is 8% of the full $750M: $60M. */
  lemma AcmeEntryInterest()
    ensures Income.Statement(Normalize(AcmeInputs()), 750.0, 6).interestExpense[0] == 60.0
  {
    Income.InterestOnEntryDebt(Normalize(AcmeInputs()), 750.0, 6);
  }

  /** The debt is outstanding through 2027 and fully repaid in the exit year. */
  lemma AcmeDebtRetired(t: nat)
    requires t < 6
    ensures Balance.Sheet(Normalize(AcmeInputs()), 750.0, 500.0, 6).debt[t] == 0.0 <==> t == 5
  {
    Balance.DebtRunsOff(Normalize(AcmeInputs()), 750.0, 500.0, 6, t);
  }

  /** Revenue grows to 500 * 1.08^5 = $734.6640384M and the margin reaches 30%,
      so exit EBITDA is $220.39921152M. */
  lemma AcmeExitEbitda()
    ensures Income.Statement(Normalize(AcmeInputs()), 750.0, 6).ebitda[5] == 220.39921152
  {
    var a := Normalize(AcmeInputs());
    Income.EbitdaEndpoints(a, 750.0, 6);
    assert Pow(1.08, 5) == 1.4693280768 by {
      assert Pow(1.08, 2) == 1.1664;
      assert Pow(1.08, 3) == 1.259712;
      assert Pow(1.08, 4) == 1.36048896;
    }
  }

  /** With no debt left, exit equity is ten times the exit EBITDA, and MOIC
      (and TVPI) is that over the $500M paid in: about 4.41x. */
  lemma AcmeMoic()
    ensures var a := Normalize(AcmeInputs());
      Returns.MetricsFrom(500.0, a.purchasePriceMultiple,
                          Income.Statement(a, 750.0, 6).ebitda,
                          Balance.Sheet(a, 750.0, 500.0, 6).debt,
                          CashFlow.Statement(a, 750.0, 6).lfcf).moic == Some(4.4079842304)
  {
    AcmeExitEbitda();
    AcmeDebtRetired(5);
  }
}

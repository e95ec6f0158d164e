/**
 * An end-to-end run of the controllers on one profile: an income of 1000 to
 * the card, a goal with target 500, an allocation of 300 from the card, a
 * rejected allocation of 800, and the deletion of the income, after which the
 * earmark of 300 is still there and the card's free funds are -300.
 */
module Scenario {
  import opened Common
  import opened Sums
  import opened Keyed
  import opened JsNumber
  import opened Records
  import opened Aggregation
  import opened Profiles

  function IncomeForm(): Tx
  {
    FormTx("u1", INCOME, Finite(1000.0), "Зарплата", CARD, "2024-05-01", "", "t1", "2024-05-01", 1)
  }

  function GoalForm(): Goal
  {
    NewGoal("u1", "Отпуск", Finite(500.0), "g1", 2)
  }

  /** The form records of the run: a card income of 1000 and an empty goal. */
  lemma FormRecords()
    ensures var t := IncomeForm();
      t.id == "t1" && t.txType == INCOME && t.account == CARD && t.amount == 1000.0
    ensures var g := GoalForm();
      g.id == "g1" && g.savedCash == Finite(0.0) && g.savedCard == Finite(0.0)
  {
    var raw := RawTx(None, Some("u1"), Some(INCOME), Finite(1000.0), Some("Зарплата"), Some(CARD),
                     Some("2024-05-01"), Some(""), Some(1));
    SafeAccountOfAccount(CARD);
  }

  /** The run on any records like the form's. */
  lemma Run(income: Tx, goal: Goal)
    requires income.id == "t1" && income.txType == INCOME && income.account == CARD && income.amount == 1000.0
    requires goal.id == "g1" && goal.savedCash == Finite(0.0) && goal.savedCard == Finite(0.0)
    ensures var ledger, goals := [income], [goal];
      && AccountBalances(ledger).card == 1000.0
      && FreeCard(ledger, goals) == 1000.0
      && Allocate(ledger, goals, "g1", Finite(300.0), CARD) == Success([goal.(savedCard := Finite(300.0))])
      && FreeCard(ledger, [goal.(savedCard := Finite(300.0))]) == 700.0
      && Allocate(ledger, [goal.(savedCard := Finite(300.0))], "g1", Finite(800.0), CARD) == Failure(InsufficientFunds)
      && Delete(ledger, "t1", TxId) == []
      && FreeCard([], [goal.(savedCard := Finite(300.0))]) == -300.0
      && !Covered([], [goal.(savedCard := Finite(300.0))])
  {
    var ledger, goals := [income], [goal];
    var goals' := [goal.(savedCard := Finite(300.0))];
    assert Sum(ledger, CardDelta) == 1000.0;
    assert Sum(goals, SavedCard) == 0.0;
    assert Sum(goals', SavedCard) == 300.0;
    assert IndexOf(goals, GoalId, "g1") == Some(0);
    assert Credit(goal, 300.0, CARD) == goals'[0];
    assert Put(goals, goals'[0], GoalId) == goals';
    assert IndexOf(ledger, TxId, "t1") == Some(0);
  }

  /** Deleting the transaction that funded a goal leaves the earmark, so the card is over-committed. */
  lemma RemoveTxCanOvercommit()
    ensures var goals' := [GoalForm().(savedCard := Finite(300.0))];
      && Allocate([IncomeForm()], [GoalForm()], "g1", Finite(300.0), CARD) == Success(goals')
      && Allocate([IncomeForm()], goals', "g1", Finite(800.0), CARD) == Failure(InsufficientFunds)
      && Delete([IncomeForm()], "t1", TxId) == []
      && FreeCard([], goals') == -300.0
  {
    FormRecords();
    Run(IncomeForm(), GoalForm());
  }
}

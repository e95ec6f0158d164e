/**
 * The controllers over one profile's two stores (app.js:1028-1152): adding a
 * transaction from the form, removing a transaction, adding and removing a
 * goal, and allocating free funds to a goal.
 *
 * A `Profile` holds the profile's ledger and goals as keyed sequences (the
 * primary key is `id`). The functions `Allocate` and the lemmas beside it state
 * what an allocation does; the method `AddMoneyToGoal` is proved against them.
 */
module Profiles {
  import opened Common
  import opened Sums
  import opened Keyed
  import opened JsText
  import opened JsNumber
  import opened Records
  import opened Aggregation

  /** Why a controller wrote nothing. */
  datatype Rejection =
    | InvalidAmount      // not a finite number above zero
    | UnknownAccount     // not one of `ACCOUNTS`
    | InsufficientFunds  // more than the account's free funds (with tolerance `EPS`)
    | GoalNotFound       // no goal has the given id
    | MissingTitle       // a goal title that is blank after trimming
    | InvalidTarget      // a goal target that is not a finite number above zero

  function TxId(t: Tx): string { t.id }

  function GoalId(g: Goal): string { g.id }

  /** `Number.isFinite(x) && x > 0`. */
  predicate IsPositive(x: Num)
  {
    x.Finite? && x.value > 0.0
  }

  /** What every stored goal satisfies: a title, a positive target and non-negative finite earmarks. */
  predicate WellFormedGoal(g: Goal)
  {
    && g.id != "" && g.title != ""
    && IsPositive(g.target)
    && g.savedCash.Finite? && g.savedCash.value >= 0.0
    && g.savedCard.Finite? && g.savedCard.value >= 0.0
  }

  /** No account has more earmarked than it holds, up to the tolerance. */
  predicate Covered(txs: seq<Tx>, goals: seq<Goal>)
  {
    FreeCash(txs, goals) >= -EPS && FreeCard(txs, goals) >= -EPS
  }

  /** The goal with `amount` added to the earmark of `account`: cash for `"Наличные"`, card otherwise. */
  function Credit(g: Goal, amount: real, account: string): Goal
  {
    if account == CASH then g.(savedCash := Finite(OrZero(g.savedCash) + amount))
    else g.(savedCard := Finite(OrZero(g.savedCard) + amount))
  }

  /**
   * What `addMoneyToGoal` does to the goals of a profile whose (normalised)
   * ledger is `txs`: the checks in the source's order, then the write.
   */
  function Allocate(txs: seq<Tx>, goals: seq<Goal>, goalId: string, amount: Num, account: string)
    : Result<seq<Goal>, Rejection>
  {
    if !IsPositive(amount) then Failure(InvalidAmount)
    else if account !in ACCOUNTS then Failure(UnknownAccount)
    else if amount.value > Free(txs, goals, account) + EPS then Failure(InsufficientFunds)
    else match IndexOf(goals, GoalId, goalId)
      case None => Failure(GoalNotFound)
      case Some(i) => Success(Put(goals, Credit(goals[i], amount.value, account), GoalId))
  }

  /** An allocation is rejected exactly when one of the four checks fails, and the first failing check names the error. */
  lemma AllocateRejects(txs: seq<Tx>, goals: seq<Goal>, goalId: string, amount: Num, account: string)
    ensures var r := Allocate(txs, goals, goalId, amount, account);
      && (r.Failure? <==>
            || !IsPositive(amount)
            || account !in ACCOUNTS
            || amount.value > Free(txs, goals, account) + EPS
            || (forall g :: g in goals ==> g.id != goalId))
      && (!IsPositive(amount) ==> r == Failure(InvalidAmount))
      && (IsPositive(amount) && account !in ACCOUNTS ==> r == Failure(UnknownAccount))
      && ((IsPositive(amount) && account in ACCOUNTS && amount.value > Free(txs, goals, account) + EPS)
            ==> r == Failure(InsufficientFunds))
      && ((IsPositive(amount) && account in ACCOUNTS && amount.value <= Free(txs, goals, account) + EPS
             && (forall g :: g in goals ==> g.id != goalId))
            ==> r == Failure(GoalNotFound))
  {
    if IndexOf(goals, GoalId, goalId).Some? {
      assert goals[IndexOf(goals, GoalId, goalId).value] in goals;
    }
  }

  /**
   * A successful allocation changes exactly one field of one goal: the
   * account's earmark of the goal with that id grows by `amount`.
   */
  lemma AllocateChangesOneEarmark(txs: seq<Tx>, goals: seq<Goal>, goalId: string, amount: Num, account: string)
    requires Allocate(txs, goals, goalId, amount, account).Success?
    ensures var r := Allocate(txs, goals, goalId, amount, account).value;
      var i := IndexOf(goals, GoalId, goalId).value;
      && |r| == |goals|
      && (forall j :: 0 <= j < |goals| && j != i ==> r[j] == goals[j])
      && r[i].id == goalId
      && (account == CASH ==> r[i] == goals[i].(savedCash := Finite(SavedCash(goals[i]) + amount.value)))
      && (account == CARD ==> r[i] == goals[i].(savedCard := Finite(SavedCard(goals[i]) + amount.value)))
  {
    var i := IndexOf(goals, GoalId, goalId).value;
    var g := Credit(goals[i], amount.value, account);
    assert IndexOf(goals, GoalId, GoalId(g)) == Some(i);
  }

  /**
   * After a successful allocation the chosen account's free funds drop by
   * `amount` and stay at or above `-EPS`; the other account is unchanged.
   */
  lemma AllocateKeepsFundsCovered(txs: seq<Tx>, goals: seq<Goal>, goalId: string, amount: Num, account: string)
    requires Allocate(txs, goals, goalId, amount, account).Success?
    ensures var r := Allocate(txs, goals, goalId, amount, account).value;
      && Free(txs, r, account) == Free(txs, goals, account) - amount.value
      && Free(txs, r, account) >= -EPS
      && (account == CASH ==> FreeCard(txs, r) == FreeCard(txs, goals))
      && (account == CARD ==> FreeCash(txs, r) == FreeCash(txs, goals))
  {
    var i := IndexOf(goals, GoalId, goalId).value;
    var g := Credit(goals[i], amount.value, account);
    AllocateChangesOneEarmark(txs, goals, goalId, amount, account);
    var r := Allocate(txs, goals, goalId, amount, account).value;
    assert r == goals[i := g];
    SumUpdate(goals, i, g, SavedCash);
    SumUpdate(goals, i, g, SavedCard);
  }

  /** Allocation preserves the central invariant: no account is over-committed. */
  lemma AllocatePreservesCover(txs: seq<Tx>, goals: seq<Goal>, goalId: string, amount: Num, account: string)
    requires Covered(txs, goals)
    requires Allocate(txs, goals, goalId, amount, account).Success?
    ensures Covered(txs, Allocate(txs, goals, goalId, amount, account).value)
  {
    AllocateKeepsFundsCovered(txs, goals, goalId, amount, account);
  }

  /** Deleting a goal releases exactly its earmarks into the free funds of each account. */
  lemma RemoveGoalReleasesEarmark(txs: seq<Tx>, goals: seq<Goal>, id: string)
    ensures var r := Delete(goals, id, GoalId);
      match IndexOf(goals, GoalId, id)
      case Some(i) =>
        && FreeCash(txs, r) == FreeCash(txs, goals) + SavedCash(goals[i])
        && FreeCard(txs, r) == FreeCard(txs, goals) + SavedCard(goals[i])
      case None => r == goals
  {
    match IndexOf(goals, GoalId, id)
    case Some(i) =>
      SumRemoveAt(goals, i, SavedCash);
      SumRemoveAt(goals, i, SavedCard);
    case None =>
  }

  /** Deleting a goal never over-commits an account. */
  lemma RemoveGoalPreservesCover(txs: seq<Tx>, goals: seq<Goal>, id: string)
    requires Covered(txs, goals)
    requires forall g :: g in goals ==> WellFormedGoal(g)
    ensures Covered(txs, Delete(goals, id, GoalId))
  {
    RemoveGoalReleasesEarmark(txs, goals, id);
    if IndexOf(goals, GoalId, id).Some? {
      assert goals[IndexOf(goals, GoalId, id).value] in goals;
    }
  }

  /** Crediting a positive amount to one goal keeps every goal well-formed and the ids distinct. */
  lemma CreditKeepsGoalsWellFormed(goals: seq<Goal>, i: nat, amount: real, account: string)
    requires i < |goals| && amount > 0.0
    requires UniqueKeys(goals, GoalId)
    requires forall g :: g in goals ==> WellFormedGoal(g)
    ensures UniqueKeys(goals[i := Credit(goals[i], amount, account)], GoalId)
    ensures forall g :: g in goals[i := Credit(goals[i], amount, account)] ==> WellFormedGoal(g)
    ensures Put(goals, Credit(goals[i], amount, account), GoalId) == goals[i := Credit(goals[i], amount, account)]
  {
    var c := Credit(goals[i], amount, account);
    var r := goals[i := c];
    assert goals[i] in goals;
    forall g | g in r ensures WellFormedGoal(g) {
      var j :| 0 <= j < |r| && r[j] == g;
      if j != i {
        assert goals[j] in goals;
      }
    }
    assert IndexOf(goals, GoalId, GoalId(c)).Some?;
    assert IndexOf(goals, GoalId, GoalId(c)) == Some(i);
  }

  /** A goal from the goal form is well-formed, with nothing saved yet. */
  lemma NewGoalWellFormed(userId: string, title: string, target: Num, freshId: string, now: int)
    requires title != "" && Trim(title) == title && IsPositive(target) && freshId != ""
    ensures var g := NewGoal(userId, title, target, freshId, now);
      && WellFormedGoal(g) && g.id == freshId && g.title == title && g.target == target
      && g.savedCash == Finite(0.0) && g.savedCard == Finite(0.0)
  {
  }

  /**
   * Deleting a transaction changes its account's free funds by minus its
   * signed amount; the goals keep their earmarks.
   */
  lemma RemoveTxChangesFreeFunds(txs: seq<Tx>, goals: seq<Goal>, id: string)
    ensures var r := Delete(txs, id, TxId);
      match IndexOf(txs, TxId, id)
      case Some(i) =>
        && FreeCash(r, goals) == FreeCash(txs, goals) - CashDelta(txs[i])
        && FreeCard(r, goals) == FreeCard(txs, goals) - CardDelta(txs[i])
      case None => r == txs
  {
    match IndexOf(txs, TxId, id)
    case Some(i) => BalancesRemoveAt(txs, i);
    case None =>
  }

  /** A goal as the goal form creates it. */
  function NewGoal(userId: string, title: string, target: Num, freshId: string, now: int): Goal
  {
    NormalizeGoal(RawGoal(None, Some(userId), Some(title), target, NaN, NaN, Some(now)), freshId, now)
  }

  /** A transaction as the transaction form creates it (app.js:1031-1052). */
  function FormTx(userId: string, txType: string, amount: Num, category: string, account: string,
                  date: string, note: string, freshId: string, today: string, now: int): Tx
  {
    var raw := RawTx(None, Some(userId), Some(txType), amount, Some(category), Some(account),
                     Some(if date != "" then date else today), Some(note), Some(now));
    NormalizeTx(raw, freshId, today, now)
  }

  /**
   * The free funds of `account` as `addMoneyToGoal` computes them: the balances
   * of the ledger read back through the normaliser, less the goal totals.
   */
  method FreeFundsOf(ledger: seq<Tx>, goals: seq<Goal>, account: string, freshId: string, today: string, now: int)
    returns (free: real)
    requires forall t :: t in ledger ==> WellFormedTx(t)
    ensures free == Free(ledger, goals, account)
  {
    var allTx := NormalizeAll(ledger, freshId, today, now);
    NormalizeAllOfWellFormed(ledger, freshId, today, now);
    var acc := CalcAccountBalances(allTx);
    var totals := CalcGoalTotals(goals);
    var freeCash := acc.cash - totals.savedCash;
    var freeCard := acc.card - totals.savedCard;
    free := if account == CASH then freeCash else freeCard;
  }

  /** A record from the transaction form with a non-blank category is well-formed and carries the fresh id. */
  lemma FormTxWellFormed(userId: string, txType: string, amount: Num, category: string, account: string,
                         date: string, note: string, freshId: string, today: string, now: int)
    requires freshId != "" && today != "" && now != 0 && Trim(category) != ""
    ensures var t := FormTx(userId, txType, amount, category, account, date, note, freshId, today, now);
      WellFormedTx(t) && t.id == freshId
  {
    var raw := RawTx(None, Some(userId), Some(txType), amount, Some(category), Some(account),
                     Some(if date != "" then date else today), Some(note), Some(now));
    NormalizeTxFixedWellFormed(raw, freshId, today, now);
    assert OrDefault(raw.category, OTHER) == category;
    NormalizeTxAgreesUnlessBlank(raw, freshId, today, now);
  }

  /** What the two stores of a profile always satisfy: distinct ids and well-formed records. */
  predicate StoresValid(ledger: seq<Tx>, goals: seq<Goal>)
  {
    && UniqueKeys(ledger, TxId) && UniqueKeys(goals, GoalId)
    && (forall t :: t in ledger ==> WellFormedTx(t))
    && (forall g :: g in goals ==> WellFormedGoal(g))
  }

  /** Putting a well-formed transaction under a new id appends it and keeps the stores valid. */
  lemma PutTxKeepsStoresValid(ledger: seq<Tx>, goals: seq<Goal>, t: Tx)
    requires StoresValid(ledger, goals) && WellFormedTx(t)
    requires forall x :: x in ledger ==> x.id != t.id
    ensures Put(ledger, t, TxId) == ledger + [t]
    ensures StoresValid(ledger + [t], goals)
  {
    PutSpec(ledger, t, TxId);
    PutFresh(ledger, t, TxId);
    forall x | x in ledger + [t] ensures WellFormedTx(x) {
      if x != t {
        assert x in ledger;
      }
    }
  }

  /** Putting a well-formed goal under a new id appends it and keeps the stores valid. */
  lemma PutGoalKeepsStoresValid(ledger: seq<Tx>, goals: seq<Goal>, g: Goal)
    requires StoresValid(ledger, goals) && WellFormedGoal(g)
    requires forall x :: x in goals ==> x.id != g.id
    ensures Put(goals, g, GoalId) == goals + [g]
    ensures StoresValid(ledger, goals + [g])
  {
    PutSpec(goals, g, GoalId);
    PutFresh(goals, g, GoalId);
    forall x | x in goals + [g] ensures WellFormedGoal(x) {
      if x != g {
        assert x in goals;
      }
    }
  }

  /** The stores of the active profile. */
  class Profile {
    const userId: string
    var ledger: seq<Tx>
    var goals: seq<Goal>

    ghost predicate Valid()
      reads this
    {
      StoresValid(ledger, goals)
    }

    constructor(userId: string)
      ensures Valid()
      ensures this.userId == userId && ledger == [] && goals == []
    {
      this.userId := userId;
      ledger := [];
      goals := [];
    }

    /**
     * `addTxFromForm()`: parse the amount, reject it unless it is a positive
     * finite number, otherwise store the normalised record under a fresh id.
     * The category comes from the form's select, whose options are the fixed,
     * non-blank category names.
     */
    method AddTxFromForm(txType: string, amountText: string, category: string, account: string,
                         date: string, note: string, freshId: string, today: string, now: int)
      returns (r: Result<Tx, Rejection>)
      requires Valid()
      requires freshId != "" && today != "" && now != 0
      requires Trim(category) != ""
      requires forall t :: t in ledger ==> t.id != freshId
      modifies this
      ensures Valid()
      ensures goals == old(goals)
      ensures r.Failure? <==> !IsPositive(ParseAmount(Some(amountText)))
      ensures r.Failure? ==> r.error == InvalidAmount && ledger == old(ledger)
      ensures r.Success? ==> r.value == FormTx(userId, txType, ParseAmount(Some(amountText)), category,
                                                account, date, note, freshId, today, now)
      ensures r.Success? ==> ledger == old(ledger) + [r.value]
    {
      var amount := ParseAmount(Some(amountText));
      if !IsPositive(amount) {
        return Failure(InvalidAmount);
      }
      var t := FormTx(userId, txType, amount, category, account, date, note, freshId, today, now);
      FormTxWellFormed(userId, txType, amount, category, account, date, note, freshId, today, now);
      PutTxKeepsStoresValid(ledger, goals, t);
      ledger := Put(ledger, t, TxId);
      r := Success(t);
    }

    /** `removeTx(id)`: delete the record; goals are not touched, so free funds may turn negative. */
    method RemoveTx(id: string)
      requires Valid()
      modifies this
      ensures Valid()
      ensures ledger == Delete(old(ledger), id, TxId)
      ensures goals == old(goals)
    {
      DeleteSpec(ledger, id, TxId);
      ledger := Delete(ledger, id, TxId);
    }

    /**
     * `addGoalFromForm()`: trim the title and parse the target; reject a blank
     * title, then a target that is not a positive finite number.
     */
    method AddGoalFromForm(titleText: string, targetText: string, freshId: string, now: int)
      returns (r: Result<Goal, Rejection>)
      requires Valid()
      requires freshId != ""
      requires forall g :: g in goals ==> g.id != freshId
      modifies this
      ensures Valid()
      ensures ledger == old(ledger)
      ensures Trim(titleText) == "" ==> r == Failure(MissingTitle)
      ensures Trim(titleText) != "" && !IsPositive(ParseAmount(Some(targetText))) ==> r == Failure(InvalidTarget)
      ensures r.Success? <==> Trim(titleText) != "" && IsPositive(ParseAmount(Some(targetText)))
      ensures r.Failure? ==> goals == old(goals)
      ensures r.Success? ==> r.value == NewGoal(userId, Trim(titleText), ParseAmount(Some(targetText)), freshId, now)
      ensures r.Success? ==> goals == old(goals) + [r.value]
      ensures r.Success? ==> r.value.savedCash == Finite(0.0) && r.value.savedCard == Finite(0.0)
    {
      var title := Trim(titleText);
      var target := ParseAmount(Some(targetText));
      if title == "" {
        return Failure(MissingTitle);
      }
      if !IsPositive(target) {
        return Failure(InvalidTarget);
      }
      var g := NewGoal(userId, title, target, freshId, now);
      TrimIdempotent(titleText);
      NewGoalWellFormed(userId, title, target, freshId, now);
      PutGoalKeepsStoresValid(ledger, goals, g);
      goals := Put(goals, g, GoalId);
      r := Success(g);
    }

    /** `removeGoal(id)`: delete the goal; its earmarks become free funds again. */
    method RemoveGoal(id: string)
      requires Valid()
      modifies this
      ensures Valid()
      ensures goals == Delete(old(goals), id, GoalId)
      ensures ledger == old(ledger)
    {
      DeleteSpec(goals, id, GoalId);
      goals := Delete(goals, id, GoalId);
    }

    /**
     * `addMoneyToGoal(goalId, amount, accountName)`: validate, recompute the
     * balances and earmarks from both stores, check the free funds of the
     * account, find the goal and write it back with the larger earmark.
     */
    method AddMoneyToGoal(goalId: string, amount: Num, account: string, freshId: string, today: string, now: int)
      returns (r: Result<Goal, Rejection>)
      requires Valid()
      modifies this
      ensures Valid()
      ensures ledger == old(ledger)
      ensures var a := Allocate(old(ledger), old(goals), goalId, amount, account);
        && (a.Failure? ==> r == Failure(a.error) && goals == old(goals))
        && (a.Success? ==> r.Success? && goals == a.value && r.value in goals)
    {
      if !IsPositive(amount) {
        return Failure(InvalidAmount);
      }
      if account !in ACCOUNTS {
        return Failure(UnknownAccount);
      }
      var free := FreeFundsOf(ledger, goals, account, freshId, today, now);
      if amount.value > free + EPS {
        return Failure(InsufficientFunds);
      }
      var found := IndexOf(goals, GoalId, goalId);
      if found.None? {
        return Failure(GoalNotFound);
      }
      var upd := Credit(goals[found.value], amount.value, account);
      CreditKeepsGoalsWellFormed(goals, found.value, amount.value, account);
      var written := Put(goals, upd, GoalId);
      assert Allocate(ledger, goals, goalId, amount, account) == Success(written);
      assert written[found.value] == upd;
      goals := written;
      r := Success(upd);
    }
  }
}

/**
 * The aggregation engine (app.js:262-307): per-account balances, goal
 * earmark totals, free funds, expenses grouped by category, the display
 * order of transactions, and the goal progress percentage.
 *
 * Each accumulator loop of the source is a method proved against a
 * specification function built from `Sum`; the properties the screens rely on
 * are lemmas about those functions.
 */
module Aggregation {
  import opened Common
  import opened Sums
  import opened Sorting
  import opened Keyed
  import opened JsText
  import opened JsNumber
  import opened Records

  /** Tolerance of the free-funds comparison (app.js:1138). */
  const EPS: real := 0.000000001

  // ----- Account balances (app.js:282-297) -----

  datatype Balances = Balances(cash: real, card: real, income: real, expense: real, total: real)

  /** Income counts positively; every other type, expense or not, negatively. */
  function Signed(t: Tx): real
  {
    if t.txType == INCOME then t.amount else -t.amount
  }

  /** A transaction moves cash only when its account is exactly `"Наличные"`. */
  function CashDelta(t: Tx): real { if t.account == CASH then Signed(t) else 0.0 }

  /** Every account other than `"Наличные"` counts as card. */
  function CardDelta(t: Tx): real { if t.account == CASH then 0.0 else Signed(t) }

  function IncomeAmount(t: Tx): real { if t.txType == INCOME then t.amount else 0.0 }

  function ExpenseAmount(t: Tx): real { if t.txType == EXPENSE then t.amount else 0.0 }

  /** Amounts of transactions that are neither income nor expense; they still reduce a balance. */
  function OtherAmount(t: Tx): real
  {
    if t.txType == INCOME || t.txType == EXPENSE then 0.0 else t.amount
  }

  /** What `calcAccountBalances` returns for a ledger. */
  function AccountBalances(txs: seq<Tx>): Balances
  {
    var cash := Sum(txs, CashDelta);
    var card := Sum(txs, CardDelta);
    Balances(cash, card, Sum(txs, IncomeAmount), Sum(txs, ExpenseAmount), cash + card)
  }

  /** `calcAccountBalances(allTx)`: one pass over the ledger with four accumulators. */
  method CalcAccountBalances(allTx: seq<Tx>) returns (r: Balances)
    ensures r == AccountBalances(allTx)
    ensures r.total == r.cash + r.card
  {
    var cash, card, income, expense := 0.0, 0.0, 0.0, 0.0;
    for i := 0 to |allTx|
      invariant cash == Sum(allTx[..i], CashDelta)
      invariant card == Sum(allTx[..i], CardDelta)
      invariant income == Sum(allTx[..i], IncomeAmount)
      invariant expense == Sum(allTx[..i], ExpenseAmount)
    {
      var t := allTx[i];
      assert allTx[..i + 1] == allTx[..i] + [t];
      SumAppend(allTx[..i], t, CashDelta);
      SumAppend(allTx[..i], t, CardDelta);
      SumAppend(allTx[..i], t, IncomeAmount);
      SumAppend(allTx[..i], t, ExpenseAmount);
      var sign := if t.txType == INCOME then 1.0 else -1.0;
      if t.txType == INCOME {
        income := income + t.amount;
      }
      if t.txType == EXPENSE {
        expense := expense + t.amount;
      }
      if t.account == CASH {
        cash := cash + sign * t.amount;
      } else {
        card := card + sign * t.amount;
      }
    }
    assert allTx[..|allTx|] == allTx;
    r := Balances(cash, card, income, expense, cash + card);
  }

  /**
   * Adding one transaction changes only its own account, by `+amount` for
   * income and `-amount` for anything else, and only its own type's total.
   */
  lemma BalancesAppend(txs: seq<Tx>, t: Tx)
    ensures var b, b' := AccountBalances(txs), AccountBalances(txs + [t]);
      var delta := if t.txType == INCOME then t.amount else -t.amount;
      && b'.cash == b.cash + (if t.account == CASH then delta else 0.0)
      && b'.card == b.card + (if t.account == CASH then 0.0 else delta)
      && b'.income == b.income + (if t.txType == INCOME then t.amount else 0.0)
      && b'.expense == b.expense + (if t.txType == EXPENSE then t.amount else 0.0)
      && b'.total == b.total + delta
  {
    SumAppend(txs, t, CashDelta);
    SumAppend(txs, t, CardDelta);
    SumAppend(txs, t, IncomeAmount);
    SumAppend(txs, t, ExpenseAmount);
  }

  /** The net total is income minus expense minus the amounts of any other type. */
  lemma {:induction false} BalancesTotal(txs: seq<Tx>)
    ensures AccountBalances(txs).total
      == AccountBalances(txs).income - AccountBalances(txs).expense - Sum(txs, OtherAmount)
  {
    if |txs| > 0 {
      BalancesTotal(txs[1..]);
    }
  }

  /** Balances do not depend on the order in which the store returns the ledger. */
  lemma BalancesPermutation(a: seq<Tx>, b: seq<Tx>)
    requires multiset(a) == multiset(b)
    ensures AccountBalances(a) == AccountBalances(b)
  {
    SumPermutation(a, b, CashDelta);
    SumPermutation(a, b, CardDelta);
    SumPermutation(a, b, IncomeAmount);
    SumPermutation(a, b, ExpenseAmount);
  }

  /** Dropping the transaction at `i` undoes its contribution to every figure. */
  lemma BalancesRemoveAt(txs: seq<Tx>, i: nat)
    requires i < |txs|
    ensures var b, b' := AccountBalances(txs), AccountBalances(txs[..i] + txs[i + 1..]);
      && b'.cash == b.cash - CashDelta(txs[i])
      && b'.card == b.card - CardDelta(txs[i])
      && b'.income == b.income - IncomeAmount(txs[i])
      && b'.expense == b.expense - ExpenseAmount(txs[i])
  {
    SumRemoveAt(txs, i, CashDelta);
    SumRemoveAt(txs, i, CardDelta);
    SumRemoveAt(txs, i, IncomeAmount);
    SumRemoveAt(txs, i, ExpenseAmount);
  }

  // ----- Goal totals (app.js:299-307) -----

  datatype Totals = Totals(savedCash: real, savedCard: real, total: real)

  /** `Number(g.savedCash) || 0`: a missing or non-numeric earmark counts as zero. */
  function SavedCash(g: Goal): real { OrZero(g.savedCash) }

  function SavedCard(g: Goal): real { OrZero(g.savedCard) }

  /** The amount saved towards one goal, as the goal list shows it (app.js:646). */
  function Saved(g: Goal): real { SavedCash(g) + SavedCard(g) }

  /** What `calcGoalTotals` returns for the goals of a profile. */
  function GoalTotals(goals: seq<Goal>): Totals
  {
    var cash := Sum(goals, SavedCash);
    var card := Sum(goals, SavedCard);
    Totals(cash, card, cash + card)
  }

  /** `calcGoalTotals(goals)`: one pass with two accumulators. */
  method CalcGoalTotals(goals: seq<Goal>) returns (r: Totals)
    ensures r == GoalTotals(goals)
    ensures r.total == r.savedCash + r.savedCard
  {
    var savedCash, savedCard := 0.0, 0.0;
    for i := 0 to |goals|
      invariant savedCash == Sum(goals[..i], SavedCash)
      invariant savedCard == Sum(goals[..i], SavedCard)
    {
      var g := goals[i];
      assert goals[..i + 1] == goals[..i] + [g];
      SumAppend(goals[..i], g, SavedCash);
      SumAppend(goals[..i], g, SavedCard);
      savedCash := savedCash + OrZero(g.savedCash);
      savedCard := savedCard + OrZero(g.savedCard);
    }
    assert goals[..|goals|] == goals;
    r := Totals(savedCash, savedCard, savedCash + savedCard);
  }

  /** The overall earmark is the sum of what each goal shows as saved. */
  lemma GoalTotalsOfSaved(goals: seq<Goal>)
    ensures GoalTotals(goals).total == Sum(goals, Saved)
  {
    SumSplit(goals, Saved, SavedCash, SavedCard);
  }

  /** A further goal adds its numeric earmarks; a non-numeric one adds nothing. */
  lemma GoalTotalsAppend(goals: seq<Goal>, g: Goal)
    ensures var e, e' := GoalTotals(goals), GoalTotals(goals + [g]);
      && e'.savedCash == e.savedCash + (if g.savedCash.Finite? then g.savedCash.value else 0.0)
      && e'.savedCard == e.savedCard + (if g.savedCard.Finite? then g.savedCard.value else 0.0)
  {
    SumAppend(goals, g, SavedCash);
    SumAppend(goals, g, SavedCard);
  }

  /** Earmarks of a set of goals with no negative earmark are not negative. */
  lemma GoalTotalsNonNegative(goals: seq<Goal>)
    requires forall i :: 0 <= i < |goals| ==> SavedCash(goals[i]) >= 0.0 && SavedCard(goals[i]) >= 0.0
    ensures GoalTotals(goals).savedCash >= 0.0 && GoalTotals(goals).savedCard >= 0.0
  {
    SumNonNegative(goals, SavedCash);
    SumNonNegative(goals, SavedCard);
  }

  // ----- Free funds (app.js:479-480, app.js:1134-1137) -----

  /** Cash not earmarked for any goal. */
  function FreeCash(txs: seq<Tx>, goals: seq<Goal>): real
  {
    AccountBalances(txs).cash - GoalTotals(goals).savedCash
  }

  /** Card funds not earmarked for any goal. */
  function FreeCard(txs: seq<Tx>, goals: seq<Goal>): real
  {
    AccountBalances(txs).card - GoalTotals(goals).savedCard
  }

  /** The free funds of the account an allocation names: cash for `"Наличные"`, card otherwise. */
  function Free(txs: seq<Tx>, goals: seq<Goal>, account: string): real
  {
    if account == CASH then FreeCash(txs, goals) else FreeCard(txs, goals)
  }

  /** Free funds of both accounts add up to the balance less everything earmarked. */
  lemma FreeFundsTotal(txs: seq<Tx>, goals: seq<Goal>)
    ensures FreeCash(txs, goals) + FreeCard(txs, goals)
      == AccountBalances(txs).total - Sum(goals, Saved)
  {
    GoalTotalsOfSaved(goals);
  }

  // ----- Expenses by category (app.js:269-280) -----

  datatype CategoryItem = CategoryItem(category: string, amount: real)

  function ItemCategory(it: CategoryItem): string { it.category }

  function ItemAmount(it: CategoryItem): real { it.amount }

  predicate IsExpense(t: Tx) { t.txType == EXPENSE }

  /** The expense categories of `s`, each once, in order of first occurrence (the key order of the `Map`). */
  function ExpenseCategories(s: seq<Tx>): (r: seq<string>)
    ensures forall i, j :: 0 <= i < j < |r| ==> r[i] != r[j]
  {
    if |s| == 0 then []
    else
      var keys := ExpenseCategories(s[..|s| - 1]);
      var t := s[|s| - 1];
      if IsExpense(t) && t.category !in keys then keys + [t.category] else keys
  }

  /** The total expense of category `c` in `s`. */
  function CategorySum(s: seq<Tx>, c: string): real
  {
    if |s| == 0 then 0.0
    else
      var t := s[|s| - 1];
      CategorySum(s[..|s| - 1], c) + (if IsExpense(t) && t.category == c then t.amount else 0.0)
  }

  lemma CategorySumAppend(s: seq<Tx>, t: Tx, c: string)
    ensures CategorySum(s + [t], c) == CategorySum(s, c) + (if IsExpense(t) && t.category == c then t.amount else 0.0)
  {
    assert (s + [t])[..|s|] == s;
  }

  /** The item for each key, with the key's total in `s`. */
  function ItemsFor(keys: seq<string>, s: seq<Tx>): (r: seq<CategoryItem>)
    ensures |r| == |keys|
    ensures forall i :: 0 <= i < |r| ==> r[i] == CategoryItem(keys[i], CategorySum(s, keys[i]))
  {
    if |keys| == 0 then [] else [CategoryItem(keys[0], CategorySum(s, keys[0]))] + ItemsFor(keys[1..], s)
  }

  /** The items `sumByCategoryExpense` builds before sorting them. */
  function CategoryItems(s: seq<Tx>): seq<CategoryItem>
  {
    ItemsFor(ExpenseCategories(s), s)
  }

  /** `[...map.entries()]`: the entries of the map in key insertion order. */
  function Entries(keys: seq<string>, sums: map<string, real>): (r: seq<CategoryItem>)
    requires forall k :: k in keys ==> k in sums
    ensures |r| == |keys|
    ensures forall i :: 0 <= i < |r| ==> r[i] == CategoryItem(keys[i], sums[keys[i]])
  {
    if |keys| == 0 then [] else [CategoryItem(keys[0], sums[keys[0]])] + Entries(keys[1..], sums)
  }

  /** Items in non-increasing order of amount: the comparator `b.amount - a.amount`. */
  function AmountDesc(a: CategoryItem, b: CategoryItem): bool
  {
    b.amount - a.amount <= 0.0
  }

  lemma AmountDescTotalPreorder()
    ensures TotalPreorder(AmountDesc)
  {
  }

  /** A category is listed exactly when some expense carries it. */
  lemma {:induction false} ExpenseCategoriesMembers(s: seq<Tx>, c: string)
    ensures c in ExpenseCategories(s) <==> exists k :: 0 <= k < |s| && IsExpense(s[k]) && s[k].category == c
  {
    if |s| > 0 {
      var p := s[..|s| - 1];
      ExpenseCategoriesMembers(p, c);
      if c in ExpenseCategories(p) {
        var k :| 0 <= k < |p| && IsExpense(p[k]) && p[k].category == c;
        assert s[k] == p[k];
      }
      if exists k :: 0 <= k < |s| && IsExpense(s[k]) && s[k].category == c {
        var k :| 0 <= k < |s| && IsExpense(s[k]) && s[k].category == c;
        if k < |s| - 1 {
          assert p[k] == s[k];
        }
      }
    }
  }

  /** A category that no expense carries has total zero. */
  lemma {:induction false} CategorySumAbsent(s: seq<Tx>, c: string)
    requires c !in ExpenseCategories(s)
    ensures CategorySum(s, c) == 0.0
  {
    if |s| > 0 {
      CategorySumAbsent(s[..|s| - 1], c);
    }
  }

  /** One more transaction adds its amount to the item of its category, if that category is among the keys. */
  lemma {:induction false} ItemsForAppend(keys: seq<string>, s: seq<Tx>, t: Tx)
    requires forall i, j :: 0 <= i < j < |keys| ==> keys[i] != keys[j]
    ensures Sum(ItemsFor(keys, s + [t]), ItemAmount)
      == Sum(ItemsFor(keys, s), ItemAmount) + (if IsExpense(t) && t.category in keys then t.amount else 0.0)
  {
    assert (s + [t])[..|s|] == s;
    if |keys| > 0 {
      ItemsForAppend(keys[1..], s, t);
      assert t.category in keys <==> t.category == keys[0] || t.category in keys[1..];
    }
  }

  lemma {:induction false} ItemsForConcat(a: seq<string>, b: seq<string>, s: seq<Tx>)
    ensures ItemsFor(a + b, s) == ItemsFor(a, s) + ItemsFor(b, s)
  {
  }

  /** The category items add up to the total expense of the ledger. */
  lemma {:induction false} CategoryItemsTotal(s: seq<Tx>)
    ensures Sum(CategoryItems(s), ItemAmount) == Sum(s, ExpenseAmount)
  {
    if |s| > 0 {
      var p, t := s[..|s| - 1], s[|s| - 1];
      assert s == p + [t];
      var keys := ExpenseCategories(p);
      CategoryItemsTotal(p);
      SumAppend(p, t, ExpenseAmount);
      ItemsForAppend(keys, p, t);
      if IsExpense(t) && t.category !in keys {
        ItemsForConcat(keys, [t.category], s);
        SumConcat(ItemsFor(keys, s), ItemsFor([t.category], s), ItemAmount);
        CategorySumAbsent(p, t.category);
        assert CategorySum(s, t.category) == t.amount;
      }
    }
  }

  /** Each item is a listed category with its total; every listed category has its item. */
  lemma CategoryItemsMembers(s: seq<Tx>, it: CategoryItem)
    ensures it in CategoryItems(s)
      <==> it.category in ExpenseCategories(s) && it.amount == CategorySum(s, it.category)
  {
    var keys := ExpenseCategories(s);
    var r := CategoryItems(s);
    if it.category in keys && it.amount == CategorySum(s, it.category) {
      var k :| 0 <= k < |keys| && keys[k] == it.category;
      assert r[k] == it;
    }
  }

  /** Each category appears once among the items. */
  lemma CategoryItemsUnique(s: seq<Tx>)
    ensures UniqueKeys(CategoryItems(s), ItemCategory)
  {
  }

  /** `[...map.entries()]` yields the category items once the map holds every category's total. */
  lemma EntriesAreItems(keys: seq<string>, sums: map<string, real>, s: seq<Tx>)
    requires forall k :: k in keys ==> k in sums && sums[k] == CategorySum(s, k)
    ensures Entries(keys, sums) == ItemsFor(keys, s)
  {
  }

  /**
   * `sumByCategoryExpense(txs)`: the expense total and the per-category items,
   * sorted by amount with the largest first.
   */
  method SumByCategoryExpense(txs: seq<Tx>) returns (items: seq<CategoryItem>, total: real)
    ensures total == AccountBalances(txs).expense
    ensures items == SortBy(CategoryItems(txs), AmountDesc)
    ensures multiset(items) == multiset(CategoryItems(txs))
    ensures Sorted(items, AmountDesc)
    ensures UniqueKeys(items, ItemCategory)
    ensures Sum(items, ItemAmount) == total
  {
    var keys: seq<string> := [];
    var sums: map<string, real> := map[];
    total := 0.0;
    for i := 0 to |txs|
      invariant total == Sum(txs[..i], ExpenseAmount)
      invariant keys == ExpenseCategories(txs[..i])
      invariant forall c :: c in sums <==> c in keys
      invariant forall c :: c in sums ==> sums[c] == CategorySum(txs[..i], c)
    {
      var t := txs[i];
      assert txs[..i + 1] == txs[..i] + [t];
      assert txs[..i + 1][..i] == txs[..i];
      SumAppend(txs[..i], t, ExpenseAmount);
      forall c
        ensures CategorySum(txs[..i + 1], c)
          == CategorySum(txs[..i], c) + (if IsExpense(t) && t.category == c then t.amount else 0.0)
      {
        CategorySumAppend(txs[..i], t, c);
      }
      if t.txType == EXPENSE {
        total := total + t.amount;
        var prev := if t.category in sums then sums[t.category] else 0.0;
        if t.category !in sums {
          CategorySumAbsent(txs[..i], t.category);
          keys := keys + [t.category];
        }
        sums := sums[t.category := prev + t.amount];
      }
    }
    assert txs[..|txs|] == txs;
    EntriesAreItems(keys, sums, txs);
    var entries := Entries(keys, sums);
    items := SortBy(entries, AmountDesc);
    AmountDescTotalPreorder();
    SortPermutation(entries, AmountDesc);
    SortSorted(entries, AmountDesc);
    CategoryItemsUnique(txs);
    SortUniqueKeys(entries, ItemCategory, AmountDesc);
    SumPermutation(items, entries, ItemAmount);
    CategoryItemsTotal(txs);
  }

  // ----- Display order of transactions (app.js:262-267) -----

  /** The comparator of `sortTxDesc`: later date first, then larger `createdAt` first. */
  function CompareTx(a: Tx, b: Tx): int
  {
    if a.date != b.date then (if StrLess(a.date, b.date) then 1 else -1)
    else b.createdAt - a.createdAt
  }

  /** `a` may precede `b`: the comparator does not ask to swap them. */
  function TxOrder(a: Tx, b: Tx): bool
  {
    CompareTx(a, b) <= 0
  }

  lemma TxOrderTotalPreorder()
    ensures TotalPreorder(TxOrder)
  {
    forall a: Tx, b: Tx ensures TxOrder(a, b) || TxOrder(b, a) {
      StrLessTrichotomy(a.date, b.date);
    }
    forall a: Tx, b: Tx, c: Tx | TxOrder(a, b) && TxOrder(b, c) ensures TxOrder(a, c) {
      StrLessTrichotomy(a.date, b.date);
      StrLessTrichotomy(b.date, c.date);
      StrLessTrichotomy(a.date, c.date);
      if a.date != b.date && b.date != c.date {
        StrLessTransitive(c.date, b.date, a.date);
      }
    }
  }

  /** `sortTxDesc(arr)`: a sorted copy; the input sequence is a value and stays as it is. */
  function SortTxDesc(arr: seq<Tx>): seq<Tx>
  {
    SortBy(arr, TxOrder)
  }

  /**
   * The display order is a permutation of the ledger, by date descending and
   * then by `createdAt` descending; records the comparator cannot tell apart
   * keep their order.
   */
  lemma SortTxDescSpec(arr: seq<Tx>)
    ensures var r := SortTxDesc(arr);
      && multiset(r) == multiset(arr)
      && (forall i, j :: 0 <= i < j < |r| ==>
            StrLess(r[j].date, r[i].date) || (r[i].date == r[j].date && r[i].createdAt >= r[j].createdAt))
      && (forall z :: Equivalents(r, z, TxOrder) == Equivalents(arr, z, TxOrder))
  {
    var r := SortTxDesc(arr);
    TxOrderTotalPreorder();
    SortPermutation(arr, TxOrder);
    SortSorted(arr, TxOrder);
    forall i, j | 0 <= i < j < |r|
      ensures StrLess(r[j].date, r[i].date) || (r[i].date == r[j].date && r[i].createdAt >= r[j].createdAt)
    {
      assert TxOrder(r[i], r[j]);
      StrLessTrichotomy(r[i].date, r[j].date);
    }
    forall z ensures Equivalents(r, z, TxOrder) == Equivalents(arr, z, TxOrder) {
      SortStable(arr, z, TxOrder);
    }
  }

  // ----- Goal progress (app.js:56, app.js:647-649) -----

  /** `clamp(n, a, b)`: `Math.max(a, Math.min(b, n))`. */
  function Clamp(n: int, a: int, b: int): (r: int)
    ensures a <= b ==> a <= r <= b
    ensures a <= n <= b ==> r == n
    ensures n < a ==> r == a
    ensures a <= b < n ==> r == b
  {
    var m := if b < n then b else n;
    if a > m then a else m
  }

  /** `Math.round(x)`: the nearest integer, halves rounded up. */
  function Round(x: real): (r: int)
    ensures r as real - 0.5 <= x < r as real + 0.5
  {
    (x + 0.5).Floor
  }

  /** The percentage shown on a goal's progress bar. */
  function GoalPercent(g: Goal): int
  {
    var target := OrZero(g.target);
    if target > 0.0 then Clamp(Round(Saved(g) / target * 100.0), 0, 100) else 0
  }

  lemma RoundMonotone(x: real, y: real)
    requires x <= y
    ensures Round(x) <= Round(y)
  {
  }

  lemma RatioMonotone(x: real, y: real, t: real)
    requires t > 0.0 && x <= y
    ensures x / t * 100.0 <= y / t * 100.0
  {
    assert x / t <= y / t by {
      var p, q := x / t, y / t;
      assert p * t == x && q * t == y;
    }
  }

  lemma RatioAtLeastOne(x: real, t: real)
    requires t > 0.0 && x >= t
    ensures x / t * 100.0 >= 100.0
  {
    var p := x / t;
    assert p * t == x;
  }

  lemma RatioNotPositive(x: real, t: real)
    requires t > 0.0 && x <= 0.0
    ensures x / t * 100.0 <= 0.0
  {
    var p := x / t;
    assert p * t == x;
  }

  /**
   * The percentage is between 0 and 100; it is 0 without a positive target or
   * without savings, and 100 once the savings reach the target.
   */
  lemma GoalPercentBounds(g: Goal)
    ensures 0 <= GoalPercent(g) <= 100
    ensures OrZero(g.target) <= 0.0 ==> GoalPercent(g) == 0
    ensures OrZero(g.target) > 0.0 && Saved(g) <= 0.0 ==> GoalPercent(g) == 0
    ensures OrZero(g.target) > 0.0 && Saved(g) >= OrZero(g.target) ==> GoalPercent(g) == 100
  {
    var target := OrZero(g.target);
    if target > 0.0 {
      if Saved(g) >= target {
        RatioAtLeastOne(Saved(g), target);
      }
      if Saved(g) <= 0.0 {
        RatioNotPositive(Saved(g), target);
      }
    }
  }

  /** More savings towards the same target never show a smaller percentage. */
  lemma GoalPercentMonotone(g: Goal, h: Goal)
    requires g.target == h.target && Saved(g) <= Saved(h)
    ensures GoalPercent(g) <= GoalPercent(h)
  {
    var target := OrZero(g.target);
    if target > 0.0 {
      RatioMonotone(Saved(g), Saved(h), target);
      RoundMonotone(Saved(g) / target * 100.0, Saved(h) / target * 100.0);
    }
  }
}

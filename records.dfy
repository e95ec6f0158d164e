/**
 * The two record kinds of the ledger and their normalisation (app.js:241-260,
 * app.js:1075-1085): a transaction (`Tx`) and a savings goal (`Goal`), each in
 * a raw form whose fields may be missing, and the functions that turn a raw
 * record into a stored one by filling in defaults.
 *
 * A missing field and the empty string are both falsy in JavaScript, so
 * `raw.f || d` is `OrDefault(raw.f, d)`. The identifier generator, today's date
 * and the clock (`uid`, `todayISO`, `Date.now`) are parameters.
 */
module Records {
  import opened Common
  import opened JsText
  import opened JsNumber

  const INCOME: string := "Доход"
  const EXPENSE: string := "Расход"
  const CASH: string := "Наличные"
  const CARD: string := "Карта"
  const OTHER: string := "Другое"
  const DEFAULT_TITLE: string := "Цель"

  /** The closed set of accounts (app.js:24). */
  const ACCOUNTS: seq<string> := [CASH, CARD]

  /** `s || d` for a string field that may be missing. */
  function OrDefault(s: Option<string>, d: string): (r: string)
    ensures r == d <==> s.None? || s.value == "" || s.value == d
    ensures r != d ==> s == Some(r)
  {
    if s.Some? && s.value != "" then s.value else d
  }

  /** `monthKey(isoDate)`: the `YYYY-MM` prefix of an ISO date, or "" for a missing one. */
  function MonthKey(isoDate: Option<string>): (r: string)
    ensures |r| <= 7 && r <= OrDefault(isoDate, "")
    ensures |OrDefault(isoDate, "")| >= 7 ==> |r| == 7
  {
    Prefix(OrDefault(isoDate, ""), 7)
  }

  /** A month that comes before another in string order only holds earlier dates. */
  lemma MonthOrderAgreesWithDateOrder(a: string, b: string)
    requires StrLess(MonthKey(Some(a)), MonthKey(Some(b)))
    ensures StrLess(a, b)
  {
    StrLessOfPrefixes(a, b, 7);
  }

  // ----- Transactions -----

  /** A stored transaction. `month` is derived from `date`. */
  datatype Tx = Tx(
    id: string,
    userId: Option<string>,
    txType: string,
    amount: real,
    category: string,
    account: string,
    date: string,
    month: string,
    note: string,
    createdAt: int)

  /**
   * A transaction as it may come from a form or from storage. `amount` is
   * already `Number(raw.amount)`; a `createdAt` of 0 is falsy like a missing one.
   */
  datatype RawTx = RawTx(
    id: Option<string>,
    userId: Option<string>,
    txType: Option<string>,
    amount: Num,
    category: Option<string>,
    account: Option<string>,
    date: Option<string>,
    note: Option<string>,
    createdAt: Option<int>)

  /** `raw.createdAt || now`. */
  function StampOr(createdAt: Option<int>, now: int): int
  {
    if createdAt.Some? && createdAt.value != 0 then createdAt.value else now
  }

  /** The account `normalizeTx` stores: the trimmed raw account when it is one of `ACCOUNTS`, else card. */
  function SafeAccount(raw: Option<string>): string
  {
    var account := Trim(OrDefault(raw, CARD));
    if account in ACCOUNTS then account else CARD
  }

  /** `normalizeTx(raw)` as written: the category is defaulted first and trimmed afterwards. */
  function NormalizeTx(raw: RawTx, freshId: string, today: string, now: int): Tx
  {
    var date := OrDefault(raw.date, today);
    Tx(
      id := OrDefault(raw.id, freshId),
      userId := raw.userId,
      txType := OrDefault(raw.txType, EXPENSE),
      amount := OrZero(raw.amount),
      category := Trim(OrDefault(raw.category, OTHER)),
      account := SafeAccount(raw.account),
      date := date,
      month := MonthKey(Some(date)),
      note := Trim(OrDefault(raw.note, "")),
      createdAt := StampOr(raw.createdAt, now))
  }

  /** The category with the default applied after trimming, so a blank category becomes `"Другое"`. */
  function SafeCategory(raw: Option<string>): (r: string)
    ensures r != "" && Trim(r) == r
    ensures Trim(OrDefault(raw, OTHER)) != "" ==> r == Trim(OrDefault(raw, OTHER))
  {
    var c := Trim(OrDefault(raw, OTHER));
    TrimOfTrimmed(OTHER);
    TrimIdempotent(OrDefault(raw, OTHER));
    if c == "" then OTHER else c
  }

  /**
   * `normalizeTx` corrected so that the category is defaulted after trimming.
   * The program's own paths use `NormalizeTx` as written; this one states the
   * intended rule, which `NormalizeTxFixedIdempotent` and
   * `NormalizeTxFixedWellFormed` are about and `NormalizeTxAgreesUnlessBlank`
   * ties to the code.
   */
  function NormalizeTxFixed(raw: RawTx, freshId: string, today: string, now: int): Tx
  {
    NormalizeTx(raw, freshId, today, now).(category := SafeCategory(raw.category))
  }

  /** A stored transaction read back as a raw record (the spread of its fields). */
  function AsRaw(t: Tx): RawTx
  {
    RawTx(Some(t.id), t.userId, Some(t.txType), Finite(t.amount), Some(t.category),
          Some(t.account), Some(t.date), Some(t.note), Some(t.createdAt))
  }

  /** What every stored transaction satisfies: the normaliser has nothing left to fill in or fix. */
  predicate WellFormedTx(t: Tx)
  {
    && t.id != "" && t.txType != "" && t.date != ""
    && t.category != "" && Trim(t.category) == t.category
    && Trim(t.note) == t.note
    && t.account in ACCOUNTS
    && t.month == MonthKey(Some(t.date))
    && t.createdAt != 0
  }

  /** The stored account is always one of `ACCOUNTS`; it is cash exactly when the trimmed input says so. */
  lemma NormalizeTxAccount(raw: RawTx, freshId: string, today: string, now: int)
    ensures var t := NormalizeTx(raw, freshId, today, now);
      && t.account in ACCOUNTS
      && (t.account == CASH <==> raw.account.Some? && Trim(raw.account.value) == CASH)
      && (raw.account.None? || raw.account.value == "" ==> t.account == CARD)
  {
    TrimOfTrimmed(CARD);
  }

  /** Type, date and month: the type defaults to expense, the date to today, and the month is the date's first seven characters. */
  lemma NormalizeTxDefaults(raw: RawTx, freshId: string, today: string, now: int)
    ensures var t := NormalizeTx(raw, freshId, today, now);
      && (raw.txType.None? || raw.txType.value == "" ==> t.txType == EXPENSE)
      && (raw.txType.Some? && raw.txType.value != "" ==> t.txType == raw.txType.value)
      && (raw.date.Some? && raw.date.value != "" ==> t.date == raw.date.value)
      && (raw.date.None? || raw.date.value == "" ==> t.date == today)
      && t.month == (if |t.date| < 7 then t.date else t.date[..7])
      && (raw.id.None? || raw.id.value == "" ==> t.id == freshId)
      && (raw.amount.NaN? ==> t.amount == 0.0)
      && (raw.amount.Finite? ==> t.amount == raw.amount.value)
  {
  }

  /** Given a fresh id, a date and a clock that are not falsy, the corrected normaliser yields a well-formed record. */
  lemma NormalizeTxFixedWellFormed(raw: RawTx, freshId: string, today: string, now: int)
    requires freshId != "" && today != "" && now != 0
    ensures WellFormedTx(NormalizeTxFixed(raw, freshId, today, now))
  {
    NormalizeTxAccount(raw, freshId, today, now);
    TrimIdempotent(OrDefault(raw.note, ""));
  }

  /** A well-formed record normalises to itself, whatever id, date and clock are at hand. */
  lemma NormalizeTxFixedOfWellFormed(t: Tx, freshId: string, today: string, now: int)
    requires WellFormedTx(t)
    ensures NormalizeTxFixed(AsRaw(t), freshId, today, now) == t
  {
    var raw := AsRaw(t);
    NormalizeTxFixedFields(raw, freshId, today, now);
    SafeAccountOfAccount(t.account);
    assert OrDefault(raw.category, OTHER) == t.category;
    assert SafeCategory(raw.category) == t.category;
    assert OrDefault(raw.id, freshId) == t.id;
    assert OrDefault(raw.txType, EXPENSE) == t.txType;
    assert OrDefault(raw.date, today) == t.date;
    assert OrDefault(raw.note, "") == t.note;
    assert StampOr(raw.createdAt, now) == t.createdAt;
  }

  /**
   * The corrected normaliser field by field. This restates the definition; it is
   * a proof step that spares callers from unfolding `NormalizeTx` and `SafeCategory`.
   */
  lemma NormalizeTxFixedFields(raw: RawTx, freshId: string, today: string, now: int)
    ensures NormalizeTxFixed(raw, freshId, today, now)
      == Tx(OrDefault(raw.id, freshId), raw.userId, OrDefault(raw.txType, EXPENSE), OrZero(raw.amount),
            SafeCategory(raw.category), SafeAccount(raw.account), OrDefault(raw.date, today),
            MonthKey(Some(OrDefault(raw.date, today))), Trim(OrDefault(raw.note, "")),
            StampOr(raw.createdAt, now))
  {
  }

  /** An account that is already one of `ACCOUNTS` is kept. */
  lemma SafeAccountOfAccount(a: string)
    requires a in ACCOUNTS
    ensures SafeAccount(Some(a)) == a
  {
    if a == CASH { TrimOfTrimmed(CASH); } else { TrimOfTrimmed(CARD); }
  }

  /** The corrected normaliser is idempotent: re-normalising a stored record changes nothing. */
  lemma NormalizeTxFixedIdempotent(raw: RawTx, freshId: string, today: string, now: int,
                                   freshId': string, today': string, now': int)
    requires freshId != "" && today != "" && now != 0
    ensures var t := NormalizeTxFixed(raw, freshId, today, now);
      NormalizeTxFixed(AsRaw(t), freshId', today', now') == t
  {
    NormalizeTxFixedWellFormed(raw, freshId, today, now);
    NormalizeTxFixedOfWellFormed(NormalizeTxFixed(raw, freshId, today, now), freshId', today', now');
  }

  /** The two normalisers differ only on a category that is blank after trimming. */
  lemma NormalizeTxAgreesUnlessBlank(raw: RawTx, freshId: string, today: string, now: int)
    ensures NormalizeTx(raw, freshId, today, now) == NormalizeTxFixed(raw, freshId, today, now)
      <==> Trim(OrDefault(raw.category, OTHER)) != ""
  {
  }

  /** A category of three spaces: normalising once stores "", normalising again stores "Другое". */
  lemma NormalizeTxNotIdempotent()
    ensures var raw := RawTx(Some("t1"), None, Some(EXPENSE), Finite(5.0), Some("   "),
                             Some(CARD), Some("2024-05-01"), None, Some(1));
      var t := NormalizeTx(raw, "id", "2024-05-02", 2);
      t.category == "" && NormalizeTx(AsRaw(t), "id", "2024-05-02", 2).category == OTHER
  {
    var s := "   ";
    assert LeadingSpaces(s) == 3 by {
      assert s[1..] == "  " && s[2..] == " " && s[3..] == "";
    }
    assert Trim(s) == "";
    TrimOfTrimmed(OTHER);
  }

  /** A well-formed record also normalises to itself under `normalizeTx` as written, since its category is not blank. */
  lemma NormalizeTxOfWellFormed(t: Tx, freshId: string, today: string, now: int)
    requires WellFormedTx(t)
    ensures NormalizeTx(AsRaw(t), freshId, today, now) == t
  {
    NormalizeTxFixedOfWellFormed(t, freshId, today, now);
    assert OrDefault(Some(t.category), OTHER) == t.category;
    NormalizeTxAgreesUnlessBlank(AsRaw(t), freshId, today, now);
  }

  /** `allTxRaw.map(normalizeTx)`: every stored record normalised again, as written, as it is read. */
  function NormalizeAll(txs: seq<Tx>, freshId: string, today: string, now: int): (r: seq<Tx>)
    ensures |r| == |txs|
    ensures forall i :: 0 <= i < |txs| ==> r[i] == NormalizeTx(AsRaw(txs[i]), freshId, today, now)
  {
    if |txs| == 0 then []
    else [NormalizeTx(AsRaw(txs[0]), freshId, today, now)] + NormalizeAll(txs[1..], freshId, today, now)
  }

  /** Reading back a ledger of well-formed records yields the ledger itself. */
  lemma NormalizeAllOfWellFormed(txs: seq<Tx>, freshId: string, today: string, now: int)
    requires forall t :: t in txs ==> WellFormedTx(t)
    ensures NormalizeAll(txs, freshId, today, now) == txs
  {
    forall i | 0 <= i < |txs| ensures NormalizeAll(txs, freshId, today, now)[i] == txs[i] {
      NormalizeTxOfWellFormed(txs[i], freshId, today, now);
    }
  }

  // ----- Goals -----

  /** A stored goal. The amounts are JavaScript numbers as stored, so readers apply `Number(x) || 0`. */
  datatype Goal = Goal(
    id: string,
    userId: Option<string>,
    title: string,
    target: Num,
    savedCash: Num,
    savedCard: Num,
    createdAt: int)

  datatype RawGoal = RawGoal(
    id: Option<string>,
    userId: Option<string>,
    title: Option<string>,
    target: Num,
    savedCash: Num,
    savedCard: Num,
    createdAt: Option<int>)

  /** `normalizeGoal(raw)`: defaults for id, title and clock; every amount becomes a finite number. */
  function NormalizeGoal(raw: RawGoal, freshId: string, now: int): Goal
  {
    Goal(
      id := OrDefault(raw.id, freshId),
      userId := raw.userId,
      title := Trim(OrDefault(raw.title, DEFAULT_TITLE)),
      target := Finite(OrZero(raw.target)),
      savedCash := Finite(OrZero(raw.savedCash)),
      savedCard := Finite(OrZero(raw.savedCard)),
      createdAt := StampOr(raw.createdAt, now))
  }

  function GoalAsRaw(g: Goal): RawGoal
  {
    RawGoal(Some(g.id), g.userId, Some(g.title), g.target, g.savedCash, g.savedCard, Some(g.createdAt))
  }

  /** A goal's amounts after normalisation are finite, and missing ones are zero. */
  lemma NormalizeGoalAmounts(raw: RawGoal, freshId: string, now: int)
    ensures var g := NormalizeGoal(raw, freshId, now);
      && g.target.Finite? && g.savedCash.Finite? && g.savedCard.Finite?
      && (raw.savedCash.NaN? ==> g.savedCash == Finite(0.0))
      && (raw.savedCard.NaN? ==> g.savedCard == Finite(0.0))
      && (raw.target.NaN? ==> g.target == Finite(0.0))
      && (raw.savedCash.Finite? ==> g.savedCash == raw.savedCash)
      && (raw.savedCard.Finite? ==> g.savedCard == raw.savedCard)
      && (raw.target.Finite? ==> g.target == raw.target)
  {
  }

  /**
   * Re-normalising a goal changes nothing unless its title is blank: like the
   * category of a transaction, a blank title is trimmed to "" and only a second
   * pass would give it the default. The one caller trims and rejects a blank title.
   */
  lemma NormalizeGoalIdempotent(raw: RawGoal, freshId: string, now: int, freshId': string, now': int)
    requires freshId != "" && now != 0
    requires Trim(OrDefault(raw.title, DEFAULT_TITLE)) != ""
    ensures var g := NormalizeGoal(raw, freshId, now);
      NormalizeGoal(GoalAsRaw(g), freshId', now') == g
  {
    TrimIdempotent(OrDefault(raw.title, DEFAULT_TITLE));
  }
}

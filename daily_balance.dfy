/**
 * The daily balance aggregate: running credit and debit totals of one
 * merchant on one day. `BalanceView` and the functions over it specify the
 * entity; the class `DailyBalance` updates its totals in place.
 */
module Balances {
  import opened Common

  /** The fields of a `DailyBalance`, as a value. */
  datatype BalanceView = BalanceView(
    id: Guid,
    merchantId: Guid,
    balanceDate: Date,
    totalCredits: real,
    totalDebits: real,
    netBalance: real,
    lastUpdatedAt: DateTime,
    createdAt: DateTime)

  /** The entity invariant: the net balance is credits minus debits. */
  predicate Consistent(v: BalanceView) {
    v.netBalance == v.totalCredits - v.totalDebits
  }

  /** The identity fields, which no mutation touches. */
  predicate SameIdentity(v: BalanceView, w: BalanceView) {
    && w.id == v.id
    && w.merchantId == v.merchantId
    && w.balanceDate == v.balanceDate
    && w.createdAt == v.createdAt
  }

  /** `DailyBalance.Create` at time `now`: the net balance derived from the totals, both timestamps `now`. */
  function Created(id: Guid, merchantId: Guid, balanceDate: Date, totalCredits: real, totalDebits: real, now: DateTime): (v: BalanceView)
    ensures Consistent(v)
    ensures v.createdAt == v.lastUpdatedAt == now
    ensures v.id == id && v.merchantId == merchantId && v.balanceDate == balanceDate
    ensures v.totalCredits == totalCredits && v.totalDebits == totalDebits
  {
    BalanceView(id, merchantId, balanceDate, totalCredits, totalDebits, totalCredits - totalDebits, now, now)
  }

  /** `RecalculateBalance`: re-derive the net balance and stamp the update time. */
  function Recalculated(v: BalanceView, now: DateTime): (w: BalanceView)
    ensures Consistent(w) && SameIdentity(v, w)
    ensures w.totalCredits == v.totalCredits && w.totalDebits == v.totalDebits && w.lastUpdatedAt == now
  {
    v.(netBalance := v.totalCredits - v.totalDebits, lastUpdatedAt := now)
  }

  /** `AddCredit(amount)` at time `now`. */
  function WithCredit(v: BalanceView, amount: real, now: DateTime): (w: BalanceView)
    ensures Consistent(w) && SameIdentity(v, w) && w.lastUpdatedAt == now
    ensures w.totalCredits == v.totalCredits + amount && w.totalDebits == v.totalDebits
    ensures Consistent(v) ==> w.netBalance == v.netBalance + amount
  {
    Recalculated(v.(totalCredits := v.totalCredits + amount), now)
  }

  /** `AddDebit(amount)` at time `now`. */
  function WithDebit(v: BalanceView, amount: real, now: DateTime): (w: BalanceView)
    ensures Consistent(w) && SameIdentity(v, w) && w.lastUpdatedAt == now
    ensures w.totalDebits == v.totalDebits + amount && w.totalCredits == v.totalCredits
    ensures Consistent(v) ==> w.netBalance == v.netBalance - amount
  {
    Recalculated(v.(totalDebits := v.totalDebits + amount), now)
  }

  /** One accumulation: Credit adds to the credits, every other type code to the debits. */
  datatype Entry = Entry(kind: TransactionType, amount: real, at: DateTime)

  /** `AddCredit` for a Credit entry, `AddDebit` for any other type code. */
  function Applied(v: BalanceView, e: Entry): (w: BalanceView)
    ensures Consistent(w) && SameIdentity(v, w) && w.lastUpdatedAt == e.at
    ensures e.kind == Credit ==> w.totalCredits == v.totalCredits + e.amount && w.totalDebits == v.totalDebits
    ensures e.kind != Credit ==> w.totalDebits == v.totalDebits + e.amount && w.totalCredits == v.totalCredits
  {
    if e.kind == Credit then WithCredit(v, e.amount, e.at) else WithDebit(v, e.amount, e.at)
  }

  /** The balance after a sequence of entries, the last entry last. */
  function AppliedAll(v: BalanceView, entries: seq<Entry>): (w: BalanceView)
  {
    if entries == [] then v else Applied(AppliedAll(v, entries[..|entries| - 1]), entries[|entries| - 1])
  }

  /** The sum of the credit amounts in `entries`. */
  function CreditSum(entries: seq<Entry>): real
  {
    if entries == [] then 0.0
    else CreditSum(entries[..|entries| - 1]) + (var e := entries[|entries| - 1]; if e.kind == Credit then e.amount else 0.0)
  }

  /** The sum of the debit amounts (every non-Credit entry) in `entries`. */
  function DebitSum(entries: seq<Entry>): real
  {
    if entries == [] then 0.0
    else DebitSum(entries[..|entries| - 1]) + (var e := entries[|entries| - 1]; if e.kind == Credit then 0.0 else e.amount)
  }

  /**
   * Whatever the sequence of credits and debits, the totals are the starting
   * totals plus the credit and debit sums, the identity fields are untouched,
   * and after at least one entry the net balance is credits minus debits.
   */
  lemma {:induction false} AppliedAllTotals(v: BalanceView, entries: seq<Entry>)
    ensures var w := AppliedAll(v, entries);
      && SameIdentity(v, w)
      && w.totalCredits == v.totalCredits + CreditSum(entries)
      && w.totalDebits == v.totalDebits + DebitSum(entries)
      && (Consistent(v) || entries != [] ==> Consistent(w))
  {
    if entries != [] {
      AppliedAllTotals(v, entries[..|entries| - 1]);
    }
  }

  /**
   * The totals do not depend on the order in which two neighbouring entries
   * arrive: swapping them leaves both totals and the net balance unchanged
   * (only the update time may differ).
   */
  lemma SwapKeepsTotals(v: BalanceView, entries: seq<Entry>, i: nat)
    requires i + 1 < |entries|
    ensures var swapped := entries[i := entries[i + 1]][i + 1 := entries[i]];
      && AppliedAll(v, swapped).totalCredits == AppliedAll(v, entries).totalCredits
      && AppliedAll(v, swapped).totalDebits == AppliedAll(v, entries).totalDebits
      && AppliedAll(v, swapped).netBalance == AppliedAll(v, entries).netBalance
  {
    var swapped := entries[i := entries[i + 1]][i + 1 := entries[i]];
    AppliedAllTotals(v, entries);
    AppliedAllTotals(v, swapped);
    SwapKeepsSums(entries, i);
  }

  lemma {:induction false} SwapKeepsSums(entries: seq<Entry>, i: nat)
    requires i + 1 < |entries|
    ensures var swapped := entries[i := entries[i + 1]][i + 1 := entries[i]];
      CreditSum(swapped) == CreditSum(entries) && DebitSum(swapped) == DebitSum(entries)
  {
    var swapped := entries[i := entries[i + 1]][i + 1 := entries[i]];
    var n := |entries|;
    if i + 2 < n {
      SwapKeepsSums(entries[..n - 1], i);
      assert swapped[..n - 1] == entries[..n - 1][i := entries[i + 1]][i + 1 := entries[i]];
    } else {
      assert swapped[..n - 2] == entries[..n - 2];
      assert swapped[..n - 1][..n - 2] == entries[..n - 1][..n - 2];
    }
  }

  /**
   * Nothing rejects a zero or negative amount: a non-negative entry never
   * lowers either total, but a negative credit lowers the credits and a
   * negative debit raises the net balance.
   */
  lemma AmountsAreNotChecked(v: BalanceView, e: Entry)
    ensures var w := Applied(v, e);
      && (e.amount >= 0.0 ==> w.totalCredits >= v.totalCredits && w.totalDebits >= v.totalDebits)
      && (e.amount < 0.0 && e.kind == Credit ==> w.totalCredits < v.totalCredits)
      && (e.amount < 0.0 && e.kind != Credit ==> w.netBalance > v.totalCredits - v.totalDebits)
  {
  }

  /** `DailyBalance`: the identity fields are set once, the totals updated in place. */
  class DailyBalance {
    const id: Guid
    const merchantId: Guid
    const balanceDate: Date
    var totalCredits: real
    var totalDebits: real
    var netBalance: real
    var lastUpdatedAt: DateTime
    const createdAt: DateTime

    function View(): BalanceView
      reads this
    {
      BalanceView(id, merchantId, balanceDate, totalCredits, totalDebits, netBalance, lastUpdatedAt, createdAt)
    }

    ghost predicate Valid()
      reads this
    {
      Consistent(View())
    }

    /** `DailyBalance.Create`; the new id and the current time are parameters. */
    constructor Create(id: Guid, merchantId: Guid, balanceDate: Date, now: DateTime, totalCredits: real := 0.0, totalDebits: real := 0.0)
      ensures View() == Created(id, merchantId, balanceDate, totalCredits, totalDebits, now)
      ensures Valid()
    {
      this.id := id;
      this.merchantId := merchantId;
      this.balanceDate := balanceDate;
      this.totalCredits := totalCredits;
      this.totalDebits := totalDebits;
      netBalance := totalCredits - totalDebits;
      createdAt := now;
      lastUpdatedAt := now;
    }

    method AddCredit(amount: real, now: DateTime)
      modifies this
      ensures View() == WithCredit(old(View()), amount, now)
      ensures Valid()
    {
      totalCredits := totalCredits + amount;
      RecalculateBalance(now);
    }

    method AddDebit(amount: real, now: DateTime)
      modifies this
      ensures View() == WithDebit(old(View()), amount, now)
      ensures Valid()
    {
      totalDebits := totalDebits + amount;
      RecalculateBalance(now);
    }

    /**
     * Private in the source: only `AddCredit` and `AddDebit` call it, each
     * right after changing one total. Dafny has no private members, so the
     * restriction is stated here rather than enforced.
     */
    method RecalculateBalance(now: DateTime)
      modifies this
      ensures View() == Recalculated(old(View()), now)
      ensures Valid()
    {
      netBalance := totalCredits - totalDebits;
      lastUpdatedAt := now;
    }
  }

  /** A fresh balance credited 200 and debited 50 has a net balance of 150. */
  method CreditThenDebit(id: Guid, merchantId: Guid, balanceDate: Date, now: DateTime) returns (b: DailyBalance)
    ensures b.totalCredits == 200.0 && b.totalDebits == 50.0 && b.netBalance == 150.0
  {
    b := new DailyBalance.Create(id, merchantId, balanceDate, now);
    b.AddCredit(200.0, now);
    b.AddDebit(50.0, now);
  }

  /** Crediting 100.50 then debiting 50.25 leaves a net balance of 50.25. */
  lemma CentsExample(v: BalanceView, t1: DateTime, t2: DateTime)
    requires v.totalCredits == 0.0 && v.totalDebits == 0.0
    ensures var w := WithDebit(WithCredit(v, 100.50, t1), 50.25, t2);
      w.totalCredits == 100.50 && w.totalDebits == 50.25 && w.netBalance == 50.25
  {
  }
}

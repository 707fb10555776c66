/**
 * The use case that folds one transaction event into the daily balances:
 * fetch or create the balance of (merchant, date part of the transaction
 * date), credit or debit it, save.
 */
module ProcessTransactionEvent {
  import opened Common
  import opened Balances
  import opened Repositories

  /** The arguments of one run of the use case, with the id a new balance would get and the time it runs at. */
  datatype Invocation = Invocation(
    merchantId: Guid,
    kind: TransactionType,
    amount: real,
    transactionDate: DateTime,
    newId: Guid,
    now: DateTime)

  /** The aggregation key: the merchant and the day of the transaction. */
  function KeyOf(inv: Invocation): Key {
    Key(inv.merchantId, DateOf(inv.transactionDate))
  }

  /** The balance the event is applied to: the stored one, or a new zero balance for the key. */
  function Before(rows: map<Key, BalanceView>, inv: Invocation): BalanceView {
    var key := KeyOf(inv);
    if key in rows then rows[key] else Created(inv.newId, key.merchantId, key.date, 0.0, 0.0, inv.now)
  }

  /** The rows after one run of the use case. */
  function Processed(rows: map<Key, BalanceView>, inv: Invocation): map<Key, BalanceView>
  {
    rows[KeyOf(inv) := Applied(Before(rows, inv), Entry(inv.kind, inv.amount, inv.now))]
  }

  /**
   * One run touches only the event's key: an existing balance keeps its
   * identity, a missing one is created with the new id at the current time;
   * the amount goes to the credits or the debits; the net balance is
   * recomputed; and the store's invariants are kept.
   */
  lemma ProcessedEffect(rows: map<Key, BalanceView>, inv: Invocation)
    ensures var r := Processed(rows, inv);
      var key := KeyOf(inv);
      && r.Keys == rows.Keys + {key}
      && (forall k :: k in rows && k != key ==> r[k] == rows[k])
      && (key in rows ==> SameIdentity(rows[key], r[key]))
      && (key !in rows ==> r[key].id == inv.newId && r[key].createdAt == inv.now)
      && r[key].totalCredits == Before(rows, inv).totalCredits + (if inv.kind == Credit then inv.amount else 0.0)
      && r[key].totalDebits == Before(rows, inv).totalDebits + (if inv.kind == Credit then 0.0 else inv.amount)
      && Consistent(r[key]) && r[key].lastUpdatedAt == inv.now
    ensures Keyed(rows) ==> Keyed(Processed(rows, inv))
    ensures AllConsistent(rows) ==> AllConsistent(Processed(rows, inv))
  {
  }

  /** The rows after a sequence of runs, the last run last. */
  function ProcessedAll(rows: map<Key, BalanceView>, invs: seq<Invocation>): map<Key, BalanceView>
  {
    if invs == [] then rows else Processed(ProcessedAll(rows, invs[..|invs| - 1]), invs[|invs| - 1])
  }

  /** The credit amounts of the runs that fall on `key`. */
  function CreditsFor(invs: seq<Invocation>, key: Key): real
  {
    if invs == [] then 0.0
    else
      var inv := invs[|invs| - 1];
      CreditsFor(invs[..|invs| - 1], key) + (if KeyOf(inv) == key && inv.kind == Credit then inv.amount else 0.0)
  }

  /** The debit amounts of the runs that fall on `key`. */
  function DebitsFor(invs: seq<Invocation>, key: Key): real
  {
    if invs == [] then 0.0
    else
      var inv := invs[|invs| - 1];
      DebitsFor(invs[..|invs| - 1], key) + (if KeyOf(inv) == key && inv.kind != Credit then inv.amount else 0.0)
  }

  /**
   * After any sequence of events every key's totals are its starting totals
   * (zero for a key first seen) plus the amounts of the events on that key;
   * no event's key is lost and the store's invariants hold throughout.
   */
  lemma {:induction false} ProcessedAllTotals(rows: map<Key, BalanceView>, invs: seq<Invocation>, key: Key)
    requires Keyed(rows) && AllConsistent(rows)
    ensures var r := ProcessedAll(rows, invs);
      && Keyed(r) && AllConsistent(r)
      && (forall i :: 0 <= i < |invs| ==> KeyOf(invs[i]) in r)
      && (key in r ==> r[key].totalCredits == (if key in rows then rows[key].totalCredits else 0.0) + CreditsFor(invs, key))
      && (key in r ==> r[key].totalDebits == (if key in rows then rows[key].totalDebits else 0.0) + DebitsFor(invs, key))
      && (key !in r ==> key !in rows && CreditsFor(invs, key) == 0.0 && DebitsFor(invs, key) == 0.0)
  {
    if invs != [] {
      var init := invs[..|invs| - 1];
      ProcessedAllTotals(rows, init, key);
      ProcessedEffect(ProcessedAll(rows, init), invs[|invs| - 1]);
      assert forall i :: 0 <= i < |init| ==> invs[i] == init[i];
    }
  }

  /** Processing two runs of events one after the other is processing their concatenation. */
  lemma {:induction false} ProcessedAllAppend(rows: map<Key, BalanceView>, first: seq<Invocation>, second: seq<Invocation>)
    ensures ProcessedAll(rows, first + second) == ProcessedAll(ProcessedAll(rows, first), second)
    decreases |second|
  {
    if second != [] {
      var n := |second|;
      ProcessedAllAppend(rows, first, second[..n - 1]);
      assert (first + second)[..|first + second| - 1] == first + second[..n - 1];
    } else {
      assert first + second == first;
    }
  }

  /** There is no transaction-id check: the same event processed twice counts its amount twice. */
  lemma ProcessedTwiceCountsTwice(rows: map<Key, BalanceView>, inv: Invocation)
    ensures var once := Processed(rows, inv);
      var twice := Processed(once, inv);
      && twice[KeyOf(inv)].totalCredits == Before(rows, inv).totalCredits + (if inv.kind == Credit then 2.0 * inv.amount else 0.0)
      && twice[KeyOf(inv)].totalDebits == Before(rows, inv).totalDebits + (if inv.kind == Credit then 0.0 else 2.0 * inv.amount)
  {
  }

  /**
   * `ProcessTransactionEventUseCase.ExecuteAsync`. It runs in its own scope,
   * so the unit of work starts empty; it mutates an existing balance in place
   * or adds exactly one new one, then saves once.
   */
  method Execute(repo: DailyBalanceRepository, merchantId: Guid, kind: TransactionType, amount: real,
                 transactionDate: DateTime, newId: Guid, now: DateTime)
    requires repo.Valid() && repo.pending == []
    modifies repo, repo.table.Values
    ensures repo.Valid() && repo.pending == []
    ensures repo.saves == old(repo.saves) + 1 && repo.saved == repo.Rows()
    ensures repo.Rows() == Processed(old(repo.Rows()), Invocation(merchantId, kind, amount, transactionDate, newId, now))
    ensures var key := Key(merchantId, DateOf(transactionDate));
      && (key in old(repo.table) ==> repo.table == old(repo.table))
      && (key !in old(repo.table) ==> key in repo.table && repo.table == old(repo.table)[key := repo.table[key]] && fresh(repo.table[key]))
    ensures fresh(repo.table.Values - old(repo.table.Values))
  {
    label Start:
    ghost var inv := Invocation(merchantId, kind, amount, transactionDate, newId, now);
    ghost var key := KeyOf(inv);
    ghost var rows0, table0 := repo.Rows(), repo.table;
    var balanceDate := DateOf(transactionDate);
    var dailyBalance := repo.GetByMerchantAndDate(merchantId, balanceDate);
    if dailyBalance == null {
      dailyBalance := new DailyBalance.Create(newId, merchantId, balanceDate, now);
      var _ := repo.Add(dailyBalance);
      AddedVisibleAfterSave(table0, dailyBalance);
    } else {
      assert table0[key := dailyBalance] == table0;
      assert dailyBalance in table0.Values;
    }
    ghost var before := dailyBalance.View();
    assert before == Before(rows0, inv);
    label Changing:
    if kind == Credit {
      dailyBalance.AddCredit(amount, now);
    } else {
      dailyBalance.AddDebit(amount, now);
    }
    repo.ValidAfterEntityChange@Changing(dailyBalance);
    var saved := repo.SaveChanges();
    assert repo.table == table0[key := dailyBalance];
    assert dailyBalance.View() == Applied(before, Entry(kind, amount, now));
    repo.RowsAfterPut@Start(dailyBalance);
    assert key in repo.table && repo.table[key] == dailyBalance;
  }
}

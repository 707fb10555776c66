/**
 * The store of daily balances. The table maps each natural key
 * (merchant, date) to the tracked entity stored under it, which is the shape
 * the unique index on (MerchantId, BalanceDate) gives the table. `AddAsync`
 * and `UpdateAsync` stage changes; `SaveChangesAsync` commits them.
 * `Lookup` and `Range` are the two queries, over the table's values.
 */
module Repositories {
  import opened Common
  import opened Balances

  /** The natural key of a daily balance. */
  datatype Key = Key(merchantId: Guid, date: Date)

  /** The key an entity is stored under; it reads only fields fixed at construction. */
  function EntityKey(b: DailyBalance): Key {
    Key(b.merchantId, b.balanceDate)
  }

  /** The unique index: every row is stored under its own (merchant, date). */
  predicate Keyed(rows: map<Key, BalanceView>) {
    forall k :: k in rows ==> rows[k].merchantId == k.merchantId && rows[k].balanceDate == k.date
  }

  /** Every row satisfies the entity invariant. */
  predicate AllConsistent(rows: map<Key, BalanceView>) {
    forall k :: k in rows ==> Consistent(rows[k])
  }

  /** The range query's filter: the merchant, and a date within both inclusive bounds. */
  predicate InRange(v: BalanceView, merchantId: Guid, startDate: Date, endDate: Date) {
    v.merchantId == merchantId && startDate <= v.balanceDate <= endDate
  }

  /** `GetByMerchantAndDateAsync`: the row whose merchant and date both match, if there is one. */
  function Lookup(rows: map<Key, BalanceView>, merchantId: Guid, date: Date): (r: Option<BalanceView>)
    requires Keyed(rows)
    ensures r.Some? ==> r.value in rows.Values && r.value.merchantId == merchantId && r.value.balanceDate == date
    ensures r.None? ==> forall k :: k in rows ==> !(rows[k].merchantId == merchantId && rows[k].balanceDate == date)
  {
    var key := Key(merchantId, date);
    if key in rows then Some(rows[key]) else None
  }

  /**
   * `GetByMerchantAndDateRangeAsync`: the rows of the merchant dated within
   * both bounds, ascending by date. Since a merchant has at most one row per
   * date, walking the dates from `startDate` up collects them in order.
   */
  function Range(rows: map<Key, BalanceView>, merchantId: Guid, startDate: Date, endDate: Date): (r: seq<BalanceView>)
    requires Keyed(rows)
    ensures forall i :: 0 <= i < |r| ==> r[i] in rows.Values && InRange(r[i], merchantId, startDate, endDate)
    ensures forall i, j :: 0 <= i < j < |r| ==> r[i].balanceDate < r[j].balanceDate
    ensures forall k :: k in rows && InRange(rows[k], merchantId, startDate, endDate) ==> rows[k] in r
    decreases endDate - startDate
  {
    if startDate > endDate then []
    else
      var key := Key(merchantId, startDate);
      var rest := Range(rows, merchantId, startDate + 1, endDate);
      if key in rows then [rows[key]] + rest else rest
  }

  /** A range whose start is after its end is empty. */
  lemma EmptyRange(rows: map<Key, BalanceView>, merchantId: Guid, startDate: Date, endDate: Date)
    requires Keyed(rows) && startDate > endDate
    ensures Range(rows, merchantId, startDate, endDate) == []
  {
  }

  /** A change staged in the unit of work. */
  datatype Change = Insert(entity: DailyBalance) | Update(entity: DailyBalance)

  /**
   * Whether one change can be committed: an insert must not clash with the
   * unique index; an update must find the row with the entity's id under its key.
   */
  predicate CanApply(table: map<Key, DailyBalance>, c: Change) {
    match c
    case Insert(b) => EntityKey(b) !in table
    case Update(b) => EntityKey(b) in table && table[EntityKey(b)].id == b.id
  }

  function ApplyChange(table: map<Key, DailyBalance>, c: Change): map<Key, DailyBalance> {
    table[EntityKey(c.entity) := c.entity]
  }

  /** Whether a whole unit of work commits; it commits all or nothing. */
  predicate Committable(table: map<Key, DailyBalance>, changes: seq<Change>) {
    changes == [] ||
    (var init := changes[..|changes| - 1];
     Committable(table, init) && CanApply(Committed(table, init), changes[|changes| - 1]))
  }

  /** The table after the unit of work commits, the last change last. */
  function Committed(table: map<Key, DailyBalance>, changes: seq<Change>): (r: map<Key, DailyBalance>)
    ensures (forall k :: k in table ==> EntityKey(table[k]) == k) ==> forall k :: k in r ==> EntityKey(r[k]) == k
    ensures forall b :: b in r.Values ==> b in table.Values || exists i :: 0 <= i < |changes| && changes[i].entity == b
  {
    if changes == [] then table
    else
      var init := changes[..|changes| - 1];
      var rest := Committed(table, init);
      var r := ApplyChange(rest, changes[|changes| - 1]);
      assert forall b :: b in r.Values ==> b in rest.Values || b == changes[|changes| - 1].entity;
      r
  }

  /**
   * The commit writes every staged change: each staged entity's key is in the
   * committed table, the last change staged for a key is the entity stored
   * under it, and a key no change touches keeps its row.
   */
  lemma {:induction false} CommittedHoldsStaged(table: map<Key, DailyBalance>, changes: seq<Change>)
    ensures var r := Committed(table, changes);
      && (forall i :: 0 <= i < |changes| ==> EntityKey(changes[i].entity) in r)
      && (forall i :: 0 <= i < |changes| && (forall j :: i < j < |changes| ==> EntityKey(changes[j].entity) != EntityKey(changes[i].entity))
            ==> r[EntityKey(changes[i].entity)] == changes[i].entity)
      && (forall k :: k in table && (forall i :: 0 <= i < |changes| ==> EntityKey(changes[i].entity) != k) ==> k in r && r[k] == table[k])
  {
    if changes != [] {
      var init := changes[..|changes| - 1];
      CommittedHoldsStaged(table, init);
      assert forall i :: 0 <= i < |init| ==> init[i] == changes[i];
    }
  }

  /** An entity added to an empty unit of work is found under its key once the work is saved. */
  lemma AddedVisibleAfterSave(table: map<Key, DailyBalance>, b: DailyBalance)
    requires EntityKey(b) !in table
    ensures Committable(table, [Insert(b)])
    ensures Committed(table, [Insert(b)]) == table[EntityKey(b) := b]
  {
    assert [Insert(b)][..0] == [];
  }

  /** Placing an entity under a key brings in no other entity. */
  lemma PutValues(table: map<Key, DailyBalance>, key: Key, b: DailyBalance)
    ensures table[key := b].Values <= table.Values + {b}
  {
    forall o | o in table[key := b].Values
      ensures o in table.Values + {b}
    {
      var k :| k in table[key := b] && table[key := b][k] == o;
      if k != key {
        assert table[k] == o;
      }
    }
  }

  /** `DailyBalanceRepository` over an in-memory table. */
  class DailyBalanceRepository {
    var table: map<Key, DailyBalance>
    var pending: seq<Change>
    /** The rows as the last successful `SaveChanges` wrote them to the database. */
    ghost var saved: map<Key, BalanceView>
    /** How many times `SaveChanges` has been called. */
    ghost var saves: nat

    /** The entities the repository refers to. */
    ghost function Entities(): set<DailyBalance>
      reads this
    {
      table.Values + set i | 0 <= i < |pending| :: pending[i].entity
    }

    ghost predicate Valid()
      reads this, Entities()
    {
      && (forall k :: k in table ==> EntityKey(table[k]) == k)
      && (forall b :: b in Entities() ==> b.Valid())
    }

    /** The table's values. */
    function Rows(): (rows: map<Key, BalanceView>)
      reads this, table.Values
    {
      map k | k in table :: table[k].View()
    }

    lemma RowsInvariant()
      requires Valid()
      ensures Keyed(Rows()) && AllConsistent(Rows())
    {
      forall k | k in Rows()
        ensures Consistent(Rows()[k])
      {
        assert table[k] in Entities();
      }
    }

    /**
     * When the table changes by placing `b` under its key and no other stored
     * entity changes, the rows change only at that key.
     */
    twostate lemma RowsAfterPut(new b: DailyBalance)
      requires forall k :: k in old(table) ==> EntityKey(old(table)[k]) == k
      requires table == old(table)[EntityKey(b) := b]
      requires forall o :: o in old(table).Values && o != b ==> unchanged(o)
      ensures Rows() == old(Rows())[EntityKey(b) := b.View()]
      ensures old(Valid()) && pending == [] && b.Valid() ==> Valid()
      ensures b in old(table).Values || fresh(b) ==> fresh(table.Values - old(table).Values)
    {
      var key := EntityKey(b);
      PutValues(old(table), key, b);
      forall k | k in old(table) && k != key
        ensures Rows()[k] == old(Rows())[k]
      {
        assert old(table)[k] in old(table).Values;
        assert EntityKey(old(table)[k]) == k;
      }
      if old(Valid()) && pending == [] && b.Valid() {
        forall o | o in Entities()
          ensures o.Valid()
        {
          if o != b {
            var k :| k in table && table[k] == o;
            assert o in old(table).Values;
          }
        }
      }
    }

    /** Changing one entity in a way that keeps it valid, and nothing else, keeps the repository valid. */
    twostate lemma ValidAfterEntityChange(b: DailyBalance)
      requires old(Valid()) && unchanged(this)
      requires forall o :: o in old(Entities()) && o != b ==> unchanged(o)
      requires b.Valid()
      ensures Valid()
    {
      forall o | o in Entities()
        ensures o.Valid()
      {
        if o != b {
          assert o in old(Entities());
        }
      }
    }

    constructor ()
      ensures table == map[] && pending == []
      ensures saved == map[] && saves == 0
      ensures Valid()
    {
      table := map[];
      pending := [];
      saved := map[];
      saves := 0;
    }

    /** `GetByMerchantAndDateAsync`, returning the tracked entity itself. */
    method GetByMerchantAndDate(merchantId: Guid, date: Date) returns (b: DailyBalance?)
      requires Valid()
      ensures b == null <==> Key(merchantId, date) !in table
      ensures b != null ==> b == table[Key(merchantId, date)] && Some(b.View()) == Lookup(Rows(), merchantId, date)
    {
      var key := Key(merchantId, date);
      if key in table {
        b := table[key];
      } else {
        b := null;
      }
    }

    /** `AddAsync`: stage an insert and hand back the same entity. */
    method Add(b: DailyBalance) returns (r: DailyBalance)
      requires Valid() && b.Valid()
      modifies this
      ensures Valid()
      ensures r == b
      ensures table == old(table) && pending == old(pending) + [Insert(b)]
      ensures saved == old(saved) && saves == old(saves)
    {
      pending := pending + [Insert(b)];
      r := b;
    }

    /** `UpdateAsync`: stage an update of the entity's row. */
    method Update(b: DailyBalance)
      requires Valid() && b.Valid()
      modifies this
      ensures Valid()
      ensures table == old(table) && pending == old(pending) + [Change.Update(b)]
      ensures saved == old(saved) && saves == old(saves)
    {
      pending := pending + [Change.Update(b)];
    }

    /**
     * `SaveChangesAsync`: commit the staged changes and write every tracked
     * row, including those changed in place, or fail and keep them staged.
     */
    method SaveChanges() returns (ok: bool)
      requires Valid()
      modifies this
      ensures Valid()
      ensures saves == old(saves) + 1
      ensures ok == Committable(old(table), old(pending))
      ensures ok ==> table == Committed(old(table), old(pending)) && pending == [] && saved == Rows()
      ensures !ok ==> table == old(table) && pending == old(pending) && saved == old(saved)
    {
      ok := Committable(table, pending);
      if ok {
        table := Committed(table, pending);
        pending := [];
        saved := Rows();
      }
      saves := saves + 1;
    }
  }
}

/**
 * The two read use cases of the consolidated service: the balance of one
 * merchant on one day, and the balances of one merchant over a range of
 * days, each projected to a `DailyBalanceResponse`. Both only read the store.
 */
module Queries {
  import opened Common
  import opened Balances
  import opened Repositories

  /** `DailyBalanceResponse`: the entity's fields without its creation time. */
  datatype DailyBalanceResponse = DailyBalanceResponse(
    id: Guid,
    merchantId: Guid,
    balanceDate: Date,
    totalCredits: real,
    totalDebits: real,
    netBalance: real,
    lastUpdatedAt: DateTime)

  /** Whether `r` carries exactly the fields of the stored balance `v`. */
  predicate Projects(r: DailyBalanceResponse, v: BalanceView) {
    && r.id == v.id
    && r.merchantId == v.merchantId
    && r.balanceDate == v.balanceDate
    && r.totalCredits == v.totalCredits
    && r.totalDebits == v.totalDebits
    && r.netBalance == v.netBalance
    && r.lastUpdatedAt == v.lastUpdatedAt
  }

  function ToResponse(v: BalanceView): (r: DailyBalanceResponse)
    ensures Projects(r, v)
  {
    DailyBalanceResponse(v.id, v.merchantId, v.balanceDate, v.totalCredits, v.totalDebits, v.netBalance, v.lastUpdatedAt)
  }

  /**
   * `GetDailyBalanceUseCase.ExecuteAsync`: no response exactly when no
   * stored balance has this merchant and date; otherwise the projection of
   * that balance, whose net balance is its credits minus its debits.
   */
  function GetDailyBalance(rows: map<Key, BalanceView>, merchantId: Guid, date: Date): (r: Option<DailyBalanceResponse>)
    requires Keyed(rows)
    ensures r.None? <==> forall k :: k in rows ==> !(rows[k].merchantId == merchantId && rows[k].balanceDate == date)
    ensures r.Some? ==> exists k :: k in rows && Projects(r.value, rows[k])
    ensures r.Some? ==> r.value.merchantId == merchantId && r.value.balanceDate == date
    ensures r.Some? && AllConsistent(rows) ==> r.value.netBalance == r.value.totalCredits - r.value.totalDebits
  {
    match Lookup(rows, merchantId, date)
    case None => None
    case Some(v) =>
      assert rows[Key(merchantId, date)] == v;
      Some(ToResponse(v))
  }

  /**
   * `GetDailyBalanceRangeUseCase.ExecuteAsync`: the projection, element by
   * element and in the same order, of the range query.
   */
  function GetDailyBalanceRange(rows: map<Key, BalanceView>, merchantId: Guid, startDate: Date, endDate: Date): (r: seq<DailyBalanceResponse>)
    requires Keyed(rows)
    ensures var found := Range(rows, merchantId, startDate, endDate);
      |r| == |found| && forall i :: 0 <= i < |r| ==> Projects(r[i], found[i])
  {
    var found := Range(rows, merchantId, startDate, endDate);
    seq(|found|, i requires 0 <= i < |found| => ToResponse(found[i]))
  }

  /**
   * What a range response promises on its own: every element belongs to the
   * merchant and lies within both bounds, the dates strictly ascend, every
   * stored balance of the merchant in range is answered, and each net
   * balance is the credits minus the debits.
   */
  lemma RangeResponse(rows: map<Key, BalanceView>, merchantId: Guid, startDate: Date, endDate: Date)
    requires Keyed(rows) && AllConsistent(rows)
    ensures var r := GetDailyBalanceRange(rows, merchantId, startDate, endDate);
      && (forall i :: 0 <= i < |r| ==> r[i].merchantId == merchantId && startDate <= r[i].balanceDate <= endDate)
      && (forall i, j :: 0 <= i < j < |r| ==> r[i].balanceDate < r[j].balanceDate)
      && (forall k :: k in rows && InRange(rows[k], merchantId, startDate, endDate) ==> ToResponse(rows[k]) in r)
      && (forall i :: 0 <= i < |r| ==> r[i].netBalance == r[i].totalCredits - r[i].totalDebits)
  {
    var r := GetDailyBalanceRange(rows, merchantId, startDate, endDate);
    var found := Range(rows, merchantId, startDate, endDate);
    forall i | 0 <= i < |r|
      ensures r[i].netBalance == r[i].totalCredits - r[i].totalDebits
    {
      assert found[i] in rows.Values;
      var k :| k in rows && rows[k] == found[i];
    }
    forall k | k in rows && InRange(rows[k], merchantId, startDate, endDate)
      ensures ToResponse(rows[k]) in r
    {
      var i :| 0 <= i < |found| && found[i] == rows[k];
      assert r[i] == ToResponse(rows[k]);
    }
  }

  /** A range whose start and end coincide answers exactly the point query of that day. */
  lemma SingleDayRange(rows: map<Key, BalanceView>, merchantId: Guid, date: Date)
    requires Keyed(rows)
    ensures var r := GetDailyBalanceRange(rows, merchantId, date, date);
      match GetDailyBalance(rows, merchantId, date)
      case None => r == []
      case Some(v) => r == [v]
  {
    var found := Range(rows, merchantId, date, date);
    EmptyRange(rows, merchantId, date + 1, date);
    assert Range(rows, merchantId, date + 1, date) == [];
  }
}

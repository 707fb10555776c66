/**
 * `DailyBalancesController.GetDailyBalance`: the query-parameter checks
 * and the dispatch to the point or the range query, as a decision over the
 * parameters. `DateOnly.TryParse` is a parameter (`parse`), and whether
 * the store throws when a query reaches it is the flag `storeFails`.
 */
module Controller {
  import opened Common
  import opened Balances
  import opened Repositories
  import opened Queries

  /** The body of a 200 response: one balance, or the balances of a range. */
  datatype Body = Single(response: DailyBalanceResponse) | Many(responses: seq<DailyBalanceResponse>)

  /** The action results the endpoint returns, with the `error` text of each error body. */
  datatype HttpResult =
    | Ok(body: Body)
    | BadRequest(error: string)
    | NotFound(error: string)
    | ServerError(error: string)

  const MerchantRequired := "merchantId is required"
  const InvalidDate := "Invalid date format. Use YYYY-MM-DD"
  const BalanceNotFound := "Daily balance not found for the specified merchant and date"
  const InvalidStartDate := "Invalid startDate format. Use YYYY-MM-DD"
  const InvalidEndDate := "Invalid endDate format. Use YYYY-MM-DD"
  const StartAfterEnd := "startDate must be less than or equal to endDate"
  const MissingDates := "Either 'date' or both 'startDate' and 'endDate' must be provided"
  const RetrievalFailed := "An error occurred while retrieving the daily balance"

  /** `string.IsNullOrEmpty` on an optional query parameter. */
  predicate IsNullOrEmpty(s: Option<string>) {
    s.None? || s.value == ""
  }

  /** The point query is selected: a `date` is given (whatever the other two parameters hold). */
  predicate PointSelected(date: Option<string>) {
    !IsNullOrEmpty(date)
  }

  /** The range query is selected: no `date`, and both bounds given. */
  predicate RangeSelected(date: Option<string>, startDate: Option<string>, endDate: Option<string>) {
    IsNullOrEmpty(date) && !IsNullOrEmpty(startDate) && !IsNullOrEmpty(endDate)
  }

  /** The parameters pass every check and reach a query. */
  predicate ReachesQuery(parse: string -> Option<Date>, merchantId: Guid,
                         date: Option<string>, startDate: Option<string>, endDate: Option<string>)
  {
    && merchantId != EmptyGuid
    && (if PointSelected(date) then parse(date.value).Some?
        else
          && RangeSelected(date, startDate, endDate)
          && parse(startDate.value).Some? && parse(endDate.value).Some?
          && parse(startDate.value).value <= parse(endDate.value).value)
  }

  /** The endpoint, on the store's rows. */
  function GetDailyBalance(rows: map<Key, BalanceView>, storeFails: bool, parse: string -> Option<Date>,
                           merchantId: Guid, date: Option<string>, startDate: Option<string>, endDate: Option<string>): (r: HttpResult)
    requires Keyed(rows)
    ensures r.ServerError? <==> ReachesQuery(parse, merchantId, date, startDate, endDate) && storeFails
    ensures r.ServerError? ==> r.error == RetrievalFailed
    ensures r.BadRequest? <==> !ReachesQuery(parse, merchantId, date, startDate, endDate)
    ensures r.NotFound? <==>
      && ReachesQuery(parse, merchantId, date, startDate, endDate) && !storeFails && PointSelected(date)
      && Queries.GetDailyBalance(rows, merchantId, parse(date.value).value).None?
    ensures r.Ok? && r.body.Single? ==> PointSelected(date) && Some(r.body.response) == Queries.GetDailyBalance(rows, merchantId, parse(date.value).value)
    ensures r.Ok? && r.body.Many? ==>
      && RangeSelected(date, startDate, endDate)
      && r.body.responses == GetDailyBalanceRange(rows, merchantId, parse(startDate.value).value, parse(endDate.value).value)
  {
    if merchantId == EmptyGuid then BadRequest(MerchantRequired)
    else if !IsNullOrEmpty(date) then
      match parse(date.value)
      case None => BadRequest(InvalidDate)
      case Some(balanceDate) =>
        if storeFails then ServerError(RetrievalFailed)
        else
          match Queries.GetDailyBalance(rows, merchantId, balanceDate)
          case None => NotFound(BalanceNotFound)
          case Some(result) => Ok(Single(result))
    else if !IsNullOrEmpty(startDate) && !IsNullOrEmpty(endDate) then
      match parse(startDate.value)
      case None => BadRequest(InvalidStartDate)
      case Some(start) =>
        match parse(endDate.value)
        case None => BadRequest(InvalidEndDate)
        case Some(end) =>
          if start > end then BadRequest(StartAfterEnd)
          else if storeFails then ServerError(RetrievalFailed)
          else Ok(Many(GetDailyBalanceRange(rows, merchantId, start, end)))
    else BadRequest(MissingDates)
  }

  /** An empty merchant id is refused before any other parameter is looked at. */
  lemma MerchantCheckedFirst(rows: map<Key, BalanceView>, storeFails: bool, parse: string -> Option<Date>,
                             date: Option<string>, startDate: Option<string>, endDate: Option<string>)
    requires Keyed(rows)
    ensures GetDailyBalance(rows, storeFails, parse, EmptyGuid, date, startDate, endDate) == BadRequest(MerchantRequired)
  {
  }

  /** A non-empty `date` decides the answer alone: the range parameters are ignored. */
  lemma DateTakesPrecedence(rows: map<Key, BalanceView>, storeFails: bool, parse: string -> Option<Date>, merchantId: Guid,
                            date: string, startDate: Option<string>, endDate: Option<string>,
                            startDate': Option<string>, endDate': Option<string>)
    requires Keyed(rows) && date != ""
    ensures GetDailyBalance(rows, storeFails, parse, merchantId, Some(date), startDate, endDate)
         == GetDailyBalance(rows, storeFails, parse, merchantId, Some(date), startDate', endDate')
  {
  }

  /** Which 400 a request gets, in the order the checks are made. */
  lemma BadRequestMessages(rows: map<Key, BalanceView>, storeFails: bool, parse: string -> Option<Date>, merchantId: Guid,
                           date: Option<string>, startDate: Option<string>, endDate: Option<string>)
    requires Keyed(rows) && merchantId != EmptyGuid
    ensures var r := GetDailyBalance(rows, storeFails, parse, merchantId, date, startDate, endDate);
      var range := RangeSelected(date, startDate, endDate);
      var start, end := if range then parse(startDate.value) else None, if range then parse(endDate.value) else None;
      && (PointSelected(date) && parse(date.value).None? ==> r == BadRequest(InvalidDate))
      && (range && start.None? ==> r == BadRequest(InvalidStartDate))
      && (range && start.Some? && end.None? ==> r == BadRequest(InvalidEndDate))
      && (range && start.Some? && end.Some? && start.value > end.value ==> r == BadRequest(StartAfterEnd))
      && (!PointSelected(date) && !range ==> r == BadRequest(MissingDates))
  {
  }

  /** A range whose two bounds parse to the same day is accepted and answered. */
  lemma SameDayRangeAccepted(rows: map<Key, BalanceView>, parse: string -> Option<Date>, merchantId: Guid,
                             startDate: string, endDate: string, day: Date)
    requires Keyed(rows) && merchantId != EmptyGuid
    requires startDate != "" && endDate != "" && parse(startDate) == Some(day) && parse(endDate) == Some(day)
    ensures GetDailyBalance(rows, false, parse, merchantId, None, Some(startDate), Some(endDate))
         == Ok(Many(GetDailyBalanceRange(rows, merchantId, day, day)))
  {
  }
}

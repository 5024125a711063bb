/** `/api/disruptions`: `POST` validates and stores a new report, refusing a
    second report on the same route and location within 24 hours; `GET`
    lists reports newest first, one page at a time, and fills in any column
    a stored row lacks. The database is an oracle: each call's outcome is a
    parameter, and a small table model says what the duplicate check returns. */
module ReportApi {
  import opened Base
  import opened Severity
  import opened Records
  import Text

  // ---------------------------------------------------------------------
  // POST

  /** The JSON body; every field may be absent. */
  datatype ReportRequest = ReportRequest(
    routeNumber: Option<string>,
    location: Option<string>,
    severity: Option<string>,
    description: Option<string>,
    disruption: Option<string>,
    userId: Option<string>)

  /** The row the handler inserts. `createdAt` is the submission time in
      milliseconds (sent as its ISO text). There is no user column. */
  datatype Payload = Payload(
    routeNumber: string,
    location: string,
    severity: string,
    description: string,
    disruption: string,
    createdAt: int)

  /** How a database call ended: with a result, or by throwing. */
  datatype Call<T> = Returned(result: DbResult<T>) | Threw

  /** What one request did: the reply, and every insert it sent, in order. */
  datatype Outcome = Outcome(reply: Reply<Row>, inserts: seq<Payload>)

  const DayMs := 24 * 60 * 60 * 1000

  const FieldsRequired := "All fields are required"
  const InvalidSeverity := "Invalid severity level"
  const InvalidType := "Invalid disruption type"
  const RecentDuplicate := "You have already reported a disruption for this route and location recently. Please wait before submitting another report."
  const Submitted := "Disruption report submitted successfully"
  const SubmitFailed := "Failed to submit disruption report: "
  const SubmitThrew := "Failed to submit disruption report due to unexpected error"
  const InternalError := "Internal server error"

  predicate AllFieldsPresent(req: ReportRequest) {
    && Truthy(req.routeNumber) && Truthy(req.location) && Truthy(req.severity)
    && Truthy(req.description) && Truthy(req.disruption) && Truthy(req.userId)
  }

  /** The reply to the outcome of the insert call whose result is reported
      (the retry's, when there was one). */
  function InsertReply(call: Call<Row>): (r: Reply<Row>)
    ensures r.status == 200 <==> call.Returned? && call.result.Ok?
    ensures r.status != 200 ==> r.status == 500
    ensures call.Returned? && call.result.Ok? ==> r.body == Message(Submitted, call.result.data)
    ensures call.Returned? && call.result.DbError? ==> r.body == Error(SubmitFailed + call.result.message)
  {
    match call
    case Threw => Reply(500, Error(SubmitThrew))
    case Returned(Ok(data)) => Reply(200, Message(Submitted, data))
    case Returned(DbError(_, message)) => Reply(500, Error(SubmitFailed + message))
  }

  /** The handler. `body` is `None` when the request body is not JSON; `now`
      is the current time in milliseconds; `check` is the outcome of the
      duplicate query (a thrown error and a null result both read as "could
      not check"); `insert` and `retry` are the outcomes of the insert and of
      its one retry. */
  function Submit(body: Option<ReportRequest>, now: int, check: DbResult<seq<Row>>,
                  insert: Call<Row>, retry: Call<Row>): (o: Outcome)
    ensures o.reply.status in {200, 400, 409, 500}
    ensures body.None? ==> o == Outcome(Reply(500, Error(InternalError)), [])
    // Validation, in order: presence, then severity, then type.
    ensures body.Some? && !AllFieldsPresent(body.value) ==>
              o == Outcome(Reply(400, Error(FieldsRequired)), [])
    ensures body.Some? && AllFieldsPresent(body.value) && ParseSeverity(body.value.severity.value).None? ==>
              o == Outcome(Reply(400, Error(InvalidSeverity)), [])
    ensures body.Some? && AllFieldsPresent(body.value) && ParseSeverity(body.value.severity.value).Some?
            && ParseType(body.value.disruption.value).None? ==>
              o == Outcome(Reply(400, Error(InvalidType)), [])
    ensures o.reply.status == 400 <==>
              body.Some? && !(AllFieldsPresent(body.value) && ParseSeverity(body.value.severity.value).Some?
                              && ParseType(body.value.disruption.value).Some?)
    // A duplicate found by a check that worked refuses; a failed check does not.
    ensures o.reply.status == 409 <==>
              body.Some? && o.reply.status != 400 && check.Ok? && |check.data| > 0
    ensures o.reply.status == 409 || o.reply.status == 400 || body.None? <==> o.inserts == []
    // Every insert sends exactly the validated fields and the current time.
    ensures forall p :: p in o.inserts ==>
              && p == Payload(body.value.routeNumber.value, body.value.location.value, body.value.severity.value,
                              body.value.description.value, body.value.disruption.value, now)
              && ParseSeverity(p.severity).Some? && ParseType(p.disruption).Some?
    // One retry, only after an error that mentions the user column.
    ensures |o.inserts| <= 2
    ensures |o.inserts| == 2 <==>
              |o.inserts| > 0 && insert.Returned? && insert.result.DbError? && Text.Contains(insert.result.message, "user_id")
    ensures o.reply.status == 200 ==>
              o.reply == InsertReply(insert) || (|o.inserts| == 2 && o.reply == InsertReply(retry))
    // Once an insert is sent, the reply reports the last insert's outcome.
    ensures o.inserts != [] ==> o.reply == (if |o.inserts| == 2 then InsertReply(retry) else InsertReply(insert))
  {
    match body
    case None => Outcome(Reply(500, Error(InternalError)), [])
    case Some(req) =>
      if !AllFieldsPresent(req) then Outcome(Reply(400, Error(FieldsRequired)), [])
      else if ParseSeverity(req.severity.value).None? then Outcome(Reply(400, Error(InvalidSeverity)), [])
      else if ParseType(req.disruption.value).None? then Outcome(Reply(400, Error(InvalidType)), [])
      else if check.Ok? && |check.data| > 0 then Outcome(Reply(409, Error(RecentDuplicate)), [])
      else
        var payload := Payload(req.routeNumber.value, req.location.value, req.severity.value,
                               req.description.value, req.disruption.value, now);
        match insert
        case Returned(DbError(_, message)) =>
          if Text.Contains(message, "user_id") then
            // The retry sends the very same payload.
            Outcome(InsertReply(retry), [payload, payload])
          else Outcome(InsertReply(insert), [payload])
        case _ => Outcome(InsertReply(insert), [payload])
  }

  /** A stored report as the duplicate query sees it; `createdAt` in milliseconds. */
  datatype StoredReport = StoredReport(routeNumber: string, location: string, createdAt: int, row: Row)

  /** Same route and location (exactly), created at or after `since`. */
  predicate InWindow(s: StoredReport, routeNumber: string, location: string, since: int) {
    s.routeNumber == routeNumber && s.location == location && s.createdAt >= since
  }

  function Recent(table: seq<StoredReport>, routeNumber: string, location: string, since: int): (r: seq<StoredReport>)
    ensures forall s :: s in r <==> s in table && InWindow(s, routeNumber, location, since)
  {
    if |table| == 0 then []
    else
      var rest := Recent(table[1..], routeNumber, location, since);
      if InWindow(table[0], routeNumber, location, since) then [table[0]] + rest else rest
  }

  /** A newest element of a non-empty list of reports. */
  function Newest(reports: seq<StoredReport>): (r: StoredReport)
    requires |reports| > 0
    ensures r in reports
    ensures forall s :: s in reports ==> s.createdAt <= r.createdAt
  {
    if |reports| == 1 then reports[0]
    else
      var rest := Newest(reports[1..]);
      if reports[0].createdAt >= rest.createdAt then reports[0] else rest
  }

  /** The duplicate query: same route and location, created within the last
      24 hours, newest first, at most one row. */
  function DuplicateQuery(table: seq<StoredReport>, routeNumber: string, location: string, now: int): (r: seq<Row>)
    ensures |r| <= 1
    ensures |r| == 1 <==> exists s :: s in table && InWindow(s, routeNumber, location, now - DayMs)
  {
    var recent := Recent(table, routeNumber, location, now - DayMs);
    if |recent| == 0 then [] else [Newest(recent).row]
  }

  function ValidRequest(routeNumber: string, location: string, severity: SeverityLevel,
                        description: string, kind: DisruptionType, userId: string): ReportRequest
  {
    ReportRequest(Some(routeNumber), Some(location), Some(SeverityName(severity)), Some(description),
                  Some(TypeName(kind)), Some(userId))
  }

  /** The duplicate-window policy: a valid report is refused with 409 exactly
      when the table holds a report on the same route and location from the
      last 24 hours (when the check works). */
  lemma DuplicateWindow(table: seq<StoredReport>, routeNumber: string, location: string,
                        severity: SeverityLevel, description: string, kind: DisruptionType,
                        userId: string, now: int, insert: Call<Row>, retry: Call<Row>)
    requires routeNumber != "" && location != "" && description != "" && userId != ""
    ensures var req := ValidRequest(routeNumber, location, severity, description, kind, userId);
            var o := Submit(Some(req), now, Ok(DuplicateQuery(table, routeNumber, location, now)), insert, retry);
            o.reply.status == 409 <==> exists s :: s in table && InWindow(s, routeNumber, location, now - DayMs)
  {
    SeverityNameRoundTrip(severity, SeverityName(severity));
    TypeNameRoundTrip(kind, TypeName(kind));
  }

  /** Submitting the same route and location again within 24 hours of a
      stored report is refused, however the second report differs. */
  lemma ResubmissionIsRefused(table: seq<StoredReport>, first: Payload, row: Row, later: int,
                              req: ReportRequest, insert: Call<Row>, retry: Call<Row>)
    requires first.createdAt <= later <= first.createdAt + DayMs
    requires AllFieldsPresent(req) && req.routeNumber == Some(first.routeNumber) && req.location == Some(first.location)
    requires ParseSeverity(req.severity.value).Some? && ParseType(req.disruption.value).Some?
    ensures var stored := table + [StoredReport(first.routeNumber, first.location, first.createdAt, row)];
            Submit(Some(req), later, Ok(DuplicateQuery(stored, first.routeNumber, first.location, later)), insert, retry)
              == Outcome(Reply(409, Error(RecentDuplicate)), [])
  {
    var stored := table + [StoredReport(first.routeNumber, first.location, first.createdAt, row)];
    assert InWindow(stored[|table|], first.routeNumber, first.location, later - DayMs);
  }

  /** When the duplicate check itself fails, a valid report goes on to be
      inserted whatever the table holds. */
  lemma FailedCheckDoesNotBlock(req: ReportRequest, now: int, code: string, message: string,
                                insert: Call<Row>, retry: Call<Row>)
    requires AllFieldsPresent(req)
    requires ParseSeverity(req.severity.value).Some? && ParseType(req.disruption.value).Some?
    ensures Submit(Some(req), now, DbError(code, message), insert, retry).inserts != []
  {
  }

  // ---------------------------------------------------------------------
  // GET

  /** The query-string parameters. `limit` and `offset` are `None` when
      absent or empty, and otherwise the integer `parseInt` reads. */
  datatype ListParams = ListParams(
    limit: Option<int>,
    offset: Option<int>,
    route: Option<string>,
    severity: Option<string>,
    disruptionType: Option<string>)

  /** The query sent: newest first, the inclusive row range `[from, to]`, and
      equality filters as (column, value) pairs in the order applied. */
  datatype ListQuery = ListQuery(from: int, to: int, filters: seq<(string, string)>)

  /** A listed report: every field filled in. */
  datatype Listed = Listed(
    id: string,
    routeNumber: string,
    location: string,
    severity: string,
    description: string,
    disruption: string,
    createdAt: string,
    userId: string,
    reportedBy: string,
    reportedByEmail: Option<string>)

  datatype ListReply = Listing(disruptions: seq<Listed>, total: nat) | ListFailed(status: nat, error: string)

  const DefaultLimit := 50
  const DefaultOffset := 0

  /** `if (value) query = query.eq(column, value)`, as the filters it adds. */
  function Filter(column: string, value: Option<string>): (r: seq<(string, string)>)
    ensures Truthy(value) ==> r == [(column, value.value)]
    ensures !Truthy(value) ==> r == []
  {
    if Truthy(value) then [(column, value.value)] else []
  }

  /** The query parameter a column is filtered by; `None` for a column the
      listing never filters. */
  function ParamFor(column: string, params: ListParams): Option<string> {
    if column == "route_number" then params.route
    else if column == "severity" then params.severity
    else if column == "disruption" then params.disruptionType
    else None
  }

  /** The query for a page of reports. */
  function ListQueryFor(params: ListParams): (q: ListQuery)
    ensures params.limit.None? && params.offset.None? ==> q.from == 0 && q.to == 49
    ensures q.to - q.from + 1 == (if params.limit.Some? then params.limit.value else DefaultLimit)
    ensures q.from == (if params.offset.Some? then params.offset.value else DefaultOffset)
    ensures Truthy(params.route) ==> ("route_number", params.route.value) in q.filters
    ensures Truthy(params.severity) ==> ("severity", params.severity.value) in q.filters
    ensures Truthy(params.disruptionType) ==> ("disruption", params.disruptionType.value) in q.filters
    // Every filter compares a filterable column with that column's own
    // non-empty parameter, and no column is filtered twice.
    ensures forall f :: f in q.filters ==> Truthy(ParamFor(f.0, params)) && f.1 == ParamFor(f.0, params).value
    ensures forall i, j :: 0 <= i < j < |q.filters| ==> q.filters[i].0 != q.filters[j].0
    ensures |q.filters| <= 3
  {
    var limit := if params.limit.Some? then params.limit.value else DefaultLimit;
    var offset := if params.offset.Some? then params.offset.value else DefaultOffset;
    var filters := Filters(params);
    ListQuery(offset, offset + limit - 1, filters)
  }

  /** The filters, one per non-empty parameter, in the order the handler
      adds them. */
  function Filters(params: ListParams): (r: seq<(string, string)>)
    ensures forall f :: f in r ==> Truthy(ParamFor(f.0, params)) && f.1 == ParamFor(f.0, params).value
    ensures forall i, j :: 0 <= i < j < |r| ==> r[i].0 != r[j].0
    ensures |r| <= 3
  {
    var byRoute := Filter("route_number", params.route);
    var bySeverity := Filter("severity", params.severity);
    var byKind := Filter("disruption", params.disruptionType);
    var r := byRoute + bySeverity + byKind;
    assert forall k :: 0 <= k < |r| ==>
      r[k].0 == (if k < |byRoute| then "route_number" else if k < |byRoute| + |bySeverity| then "severity" else "disruption");
    r
  }

  /** One stored row with every missing or empty column replaced by its
      default; `nowIso` is the current time as ISO text. */
  function Normalise(row: Row, nowIso: string): (l: Listed)
    ensures l.id == Or(row.id, "unknown")
    ensures l.routeNumber == Or2(row.routeNumber, row.route, "Unknown")
    ensures l.location == Or(row.location, "Unknown location")
    ensures l.severity == Or(row.severity, "low")
    ensures l.description == Or(row.description, "No description")
    ensures l.disruption == Or2(row.disruption, row.kind, "other")
    ensures l.createdAt == Or(row.createdAt, nowIso)
    ensures l.userId == Or(row.userId, "anonymous")
    ensures l.reportedBy == "User" && l.reportedByEmail == None
    ensures l.id != "" && l.routeNumber != "" && l.location != "" && l.severity != ""
            && l.description != "" && l.disruption != "" && l.userId != ""
  {
    Listed(Or(row.id, "unknown"), Or2(row.routeNumber, row.route, "Unknown"), Or(row.location, "Unknown location"),
           Or(row.severity, "low"), Or(row.description, "No description"), Or2(row.disruption, row.kind, "other"),
           Or(row.createdAt, nowIso), Or(row.userId, "anonymous"), "User", None)
  }

  function NormaliseAll(rows: seq<Row>, nowIso: string): (r: seq<Listed>)
    ensures |r| == |rows|
    ensures forall i :: 0 <= i < |rows| ==> r[i] == Normalise(rows[i], nowIso)
  {
    if |rows| == 0 then [] else [Normalise(rows[0], nowIso)] + NormaliseAll(rows[1..], nowIso)
  }

  /** The handler, given the outcome of the query (`None` data reads as no
      rows). */
  function List(result: DbResult<Option<seq<Row>>>, nowIso: string): (r: ListReply)
    ensures result.DbError? ==> r == ListFailed(500, "Failed to fetch disruptions: " + result.message)
    ensures result.Ok? ==> r.Listing? && r.total == |r.disruptions|
    ensures result.Ok? && result.data.Some? ==>
              |r.disruptions| == |result.data.value|
              && forall i :: 0 <= i < |r.disruptions| ==> r.disruptions[i] == Normalise(result.data.value[i], nowIso)
    ensures result.Ok? && result.data.None? ==> r == Listing([], 0)
  {
    match result
    case DbError(_, message) => ListFailed(500, "Failed to fetch disruptions: " + message)
    case Ok(data) =>
      var listed := NormaliseAll(if data.Some? then data.value else [], nowIso);
      Listing(listed, |listed|)
  }

  /** The row a listed report would be stored as. */
  function AsRow(l: Listed): Row {
    Row(Some(l.id), Some(l.createdAt), Some(l.routeNumber), None, Some(l.location), Some(l.severity),
        Some(l.description), Some(l.disruption), None, Some(l.userId))
  }

  /** A complete row is listed as it is stored, and normalising an already
      normalised report changes nothing: the defaults fill gaps and never
      overwrite data. */
  lemma NormaliseKeepsCompleteRows(row: Row, nowIso: string)
    ensures Normalise(AsRow(Normalise(row, nowIso)), nowIso) == Normalise(row, nowIso)
    ensures Truthy(row.id) && Truthy(row.createdAt) && Truthy(row.routeNumber) && Truthy(row.location)
            && Truthy(row.severity) && Truthy(row.description) && Truthy(row.disruption) && Truthy(row.userId) ==>
              AsRow(Normalise(row, nowIso)) == row.(route := None, kind := None)
  {
  }
}

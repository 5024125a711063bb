/** `POST /api/disruptions/confirm`: a user confirms an existing report. The
    handler refuses a missing id or user, refuses a user whose own row this
    is, fetches the original report, and inserts a new row that copies the
    original with a possibly higher severity and a possibly longer
    description. The database is an oracle: each call's outcome is a
    parameter. */
module ConfirmApi {
  import opened Base
  import opened Severity
  import opened Records
  import Text

  /** The JSON body; every field may be absent. */
  datatype ConfirmRequest = ConfirmRequest(
    disruptionId: Option<string>,
    userId: Option<string>,
    severity: Option<string>,
    description: Option<string>)

  /** The row the handler inserts for a confirmation. */
  datatype Confirmation = Confirmation(
    routeNumber: Option<string>,
    location: Option<string>,
    severity: Option<string>,
    description: Option<string>,
    disruption: Option<string>,
    userId: string)

  /** What one request did: the reply, and the row it asked to insert, if any. */
  datatype Outcome = Outcome(reply: Reply<Row>, inserted: Option<Confirmation>)

  /** The client library's error code for "no rows" from `.single()`. */
  const NotFoundCode := "PGRST116"

  const IdsRequired := "Disruption ID and user ID are required"
  const CheckFailed := "Failed to check existing confirmation"
  const AlreadyConfirmed := "You have already confirmed this disruption"
  const DisruptionNotFound := "Disruption not found"
  const ConfirmFailed := "Failed to confirm disruption"
  const InternalError := "Internal server error"
  const Confirmed := "Disruption confirmed successfully"

  /** The severity stored with the confirmation: the supplied one when it is
      present, differs from the original and ranks strictly higher; otherwise
      the original's. A missing original severity ranks 1. */
  function EscalatedSeverity(original: Option<string>, supplied: Option<string>): (r: Option<string>)
    ensures r == original || r == supplied
    ensures r != original <==>
              Truthy(supplied) && supplied != original && Rank(supplied.value) > RankOr1(original)
    ensures RankOr1(r) >= RankOr1(original)
    ensures Truthy(supplied) ==> RankOr1(r) == Max(RankOr1(original), Rank(supplied.value))
  {
    if Truthy(supplied) && supplied != original && Rank(supplied.value) > RankOr1(original)
    then supplied else original
  }

  /** `severityLevels[s] || 1` where `s` may be `undefined`. */
  function RankOr1(s: Option<string>): nat {
    if s.Some? then Rank(s.value) else 1
  }

  /** The description stored with the confirmation: the supplied one when it
      is strictly longer than the original's, lengths counted in UTF-16 units
      as `.length` counts them. */
  function LongerDescription(original: string, supplied: Option<string>): (r: string)
    ensures r == original || (supplied.Some? && r == supplied.value)
    ensures Text.Utf16Length(r) >= Text.Utf16Length(original)
    ensures r != original <==> supplied.Some? && Text.Utf16Length(supplied.value) > Text.Utf16Length(original)
  {
    if Truthy(supplied) && Text.Utf16Length(supplied.value) > Text.Utf16Length(original) then supplied.value else original
  }

  /** The handler. `body` is `None` when the request body is not JSON;
      `existing` is the outcome of the lookup of a row with this id and user,
      `original` that of the fetch of the report, and `insert` that of the
      insert. */
  function Confirm(body: Option<ConfirmRequest>, existing: DbResult<Row>, original: DbResult<Row>,
                   insert: DbResult<Row>): (o: Outcome)
    ensures o.reply.status in {200, 400, 404, 409, 500}
    ensures o.inserted.Some? <==> o.reply.status == 200 || o.reply.body == Error(ConfirmFailed)
    ensures o.reply.status == 200 ==> insert.Ok? && o.reply.body == Message(Confirmed, insert.data)
    // Guards, in the order the handler applies them.
    ensures body.None? ==> o == Outcome(Reply(500, Error(InternalError)), None)
    ensures body.Some? && (!Truthy(body.value.disruptionId) || !Truthy(body.value.userId)) ==>
              o == Outcome(Reply(400, Error(IdsRequired)), None)
    ensures body.Some? && Truthy(body.value.disruptionId) && Truthy(body.value.userId)
            && existing.DbError? && existing.code != NotFoundCode ==>
              o == Outcome(Reply(500, Error(CheckFailed)), None)
    ensures o.reply.status == 409 <==>
              body.Some? && Truthy(body.value.disruptionId) && Truthy(body.value.userId) && existing.Ok?
    ensures o.reply.status == 404 <==>
              && body.Some? && Truthy(body.value.disruptionId) && Truthy(body.value.userId)
              && existing.DbError? && existing.code == NotFoundCode && original.DbError?
    // The inserted row copies the original and carries the caller's id.
    ensures o.inserted.Some? ==>
              && body.Some? && existing.DbError? && existing.code == NotFoundCode && original.Ok?
              && o.inserted.value.userId == body.value.userId.value
              && o.inserted.value.routeNumber == original.data.routeNumber
              && o.inserted.value.location == original.data.location
              && o.inserted.value.disruption == original.data.disruption
              && RankOr1(o.inserted.value.severity) >= RankOr1(original.data.severity)
              && (original.data.description.Some? ==>
                    && o.inserted.value.description.Some?
                    && Text.Utf16Length(o.inserted.value.description.value)
                         >= Text.Utf16Length(original.data.description.value))
    // Its severity and description are the escalated and the longer ones.
    ensures o.inserted.Some? ==>
              o.inserted.value.severity == EscalatedSeverity(original.data.severity, body.value.severity)
    ensures o.inserted.Some? && original.data.description.Some? ==>
              o.inserted.value.description == Some(LongerDescription(original.data.description.value, body.value.description))
    ensures o.inserted.Some? && original.data.description.None? ==> o.inserted.value.description.None?
    // A request past every guard, with the original found, sends the insert.
    ensures body.Some? && Truthy(body.value.disruptionId) && Truthy(body.value.userId)
            && existing.DbError? && existing.code == NotFoundCode && original.Ok?
            && !(Truthy(body.value.description) && original.data.description.None?) ==>
              && o.inserted.Some?
              && (insert.Ok? ==> o.reply == Reply(200, Message(Confirmed, insert.data)))
              && (insert.DbError? ==> o.reply == Reply(500, Error(ConfirmFailed)))
    // Reading the length of a missing original description throws.
    ensures body.Some? && Truthy(body.value.disruptionId) && Truthy(body.value.userId)
            && existing.DbError? && existing.code == NotFoundCode && original.Ok?
            && Truthy(body.value.description) && original.data.description.None? ==>
              o == Outcome(Reply(500, Error(InternalError)), None)
  {
    match body
    case None => Outcome(Reply(500, Error(InternalError)), None)
    case Some(req) =>
      if !Truthy(req.disruptionId) || !Truthy(req.userId) then
        Outcome(Reply(400, Error(IdsRequired)), None)
      else if existing.DbError? && existing.code != NotFoundCode then
        Outcome(Reply(500, Error(CheckFailed)), None)
      else if existing.Ok? then
        Outcome(Reply(409, Error(AlreadyConfirmed)), None)
      else if original.DbError? then
        Outcome(Reply(404, Error(DisruptionNotFound)), None)
      else
        var row := original.data;
        // `description.length` of a missing original description throws.
        if Truthy(req.description) && row.description.None? then
          Outcome(Reply(500, Error(InternalError)), None)
        else
          var description := if row.description.Some? then Some(LongerDescription(row.description.value, req.description))
                             else row.description;
          var confirmation := Confirmation(row.routeNumber, row.location,
                                           EscalatedSeverity(row.severity, req.severity),
                                           description, row.disruption, req.userId.value);
          match insert
          case Ok(data) => Outcome(Reply(200, Message(Confirmed, data)), Some(confirmation))
          case DbError(_, _) => Outcome(Reply(500, Error(ConfirmFailed)), Some(confirmation))
  }

  // ---------------------------------------------------------------------
  // The table behind the oracle, to show which repeated confirmations the
  // duplicate check catches.

  /** The rows whose `id` is `id` and, when `user` is given, whose `user_id`
      is `user`. */
  function RowsWith(table: seq<Row>, id: string, user: Option<string>): (r: seq<Row>)
    ensures forall x :: x in r ==> x in table && x.id == Some(id) && (user.Some? ==> x.userId == user)
    ensures forall x :: x in table && x.id == Some(id) && (user.Some? ==> x.userId == user) ==> x in r
  {
    if |table| == 0 then []
    else
      var rest := RowsWith(table[1..], id, user);
      var x := table[0];
      if x.id == Some(id) && (user.Some? ==> x.userId == user) then [x] + rest else rest
  }

  /** `.single()`: exactly one row, or the "no rows" error (the client
      library uses the same code when there are several). */
  function Single(rows: seq<Row>): DbResult<Row> {
    if |rows| == 1 then Ok(rows[0]) else DbError(NotFoundCode, "JSON object requested, multiple (or no) rows returned")
  }

  /** The row the database stores for a confirmation, under the id it assigns. */
  function Stored(c: Confirmation, id: string): Row {
    Row(Some(id), None, c.routeNumber, None, c.location, c.severity, c.description, c.disruption, None, Some(c.userId))
  }

  /** The "no rows" outcome of `.single()`. */
  function NoRow(): DbResult<Row> {
    DbError(NotFoundCode, "JSON object requested, multiple (or no) rows returned")
  }

  /** The disruption and user ids of a request that passes the first guard. */
  function Ids(body: Option<ConfirmRequest>): (r: Option<(string, string)>)
    ensures r.Some? <==> body.Some? && Truthy(body.value.disruptionId) && Truthy(body.value.userId)
    ensures r.Some? ==> r.value == (body.value.disruptionId.value, body.value.userId.value)
  {
    if body.Some? && Truthy(body.value.disruptionId) && Truthy(body.value.userId)
    then Some((body.value.disruptionId.value, body.value.userId.value)) else None
  }

  /** The duplicate check as written: a row whose own id is the disruption's
      id and whose user is the caller. */
  function ExistingAsWritten(table: seq<Row>, d: string, u: string): DbResult<Row> {
    Single(RowsWith(table, d, Some(u)))
  }

  /** The handler against `table` with the duplicate check as written; the
      original is fetched by id and `insert` is the insert's outcome. */
  function ConfirmInAsWritten(table: seq<Row>, body: Option<ConfirmRequest>, insert: DbResult<Row>): (o: Outcome)
    ensures Ids(body).Some? ==>
              var (d, u) := Ids(body).value;
              (o.reply.status == 409 <==> |RowsWith(table, d, Some(u))| == 1)
  {
    match Ids(body)
    case None => Confirm(body, NoRow(), NoRow(), insert)
    case Some((d, u)) => Confirm(body, ExistingAsWritten(table, d, u), Single(RowsWith(table, d, None)), insert)
  }

  /** Both rows are about the same report: route, location and type agree
      (a confirmation copies exactly these from the original). */
  predicate SameReport(x: Row, original: Row) {
    x.routeNumber == original.routeNumber && x.location == original.location && x.disruption == original.disruption
  }

  /** The rows about the same report as `original` that user `u` wrote. */
  function ReportsBy(table: seq<Row>, original: Row, u: string): (r: seq<Row>)
    ensures forall x :: x in r <==> x in table && SameReport(x, original) && x.userId == Some(u)
  {
    if |table| == 0 then []
    else
      var rest := ReportsBy(table[1..], original, u);
      if SameReport(table[0], original) && table[0].userId == Some(u) then [table[0]] + rest else rest
  }

  /** The duplicate check the handler means to make ("has this user already
      confirmed this disruption"): a row by the caller about the same report
      as the original, whether their own report or an earlier confirmation. */
  function Existing(table: seq<Row>, d: string, u: string): (r: DbResult<Row>)
    ensures r.DbError? ==> r.code == NotFoundCode
    ensures Single(RowsWith(table, d, None)).DbError? ==> r.DbError?
    ensures Single(RowsWith(table, d, None)).Ok? ==>
              (r.Ok? <==> exists x :: x in table && SameReport(x, Single(RowsWith(table, d, None)).data) && x.userId == Some(u))
  {
    match Single(RowsWith(table, d, None))
    case Ok(original) =>
      var mine := ReportsBy(table, original, u);
      if |mine| > 0 then
        assert mine[0] in mine;
        Ok(mine[0])
      else
        assert forall x :: x in table && SameReport(x, original) && x.userId == Some(u) ==> x in mine;
        NoRow()
    case DbError(_, _) => NoRow()
  }

  /** The handler against `table` with the intended duplicate check. */
  function ConfirmIn(table: seq<Row>, body: Option<ConfirmRequest>, insert: DbResult<Row>): (o: Outcome)
    ensures Ids(body).Some? && Single(RowsWith(table, Ids(body).value.0, None)).Ok? ==>
              var (d, u) := Ids(body).value;
              var original := Single(RowsWith(table, d, None)).data;
              (o.reply.status == 409 <==> exists x :: x in table && SameReport(x, original) && x.userId == Some(u))
    ensures Ids(body).Some? && Single(RowsWith(table, Ids(body).value.0, None)).DbError? ==>
              o == Outcome(Reply(404, Error(DisruptionNotFound)), None)
  {
    match Ids(body)
    case None => Confirm(body, NoRow(), NoRow(), insert)
    case Some((d, u)) => Confirm(body, Existing(table, d, u), Single(RowsWith(table, d, None)), insert)
  }

  /** As written, the duplicate check looks for a row whose own id is the
      disruption's id, but a confirmation is stored under a new id. So a user
      who did not report the original can confirm it twice: both requests
      succeed and both insert a row. */
  lemma RepeatedConfirmationIsAccepted(original: Row, d: string, u: string, freshId: string, inserted: Row)
    requires original.id == Some(d) && original.userId != Some(u) && original.description.Some?
    requires d != "" && u != "" && freshId != d
    ensures var req := Some(ConfirmRequest(Some(d), Some(u), None, None));
            var first := ConfirmInAsWritten([original], req, Ok(inserted));
            && first.reply.status == 200
            && first.inserted.Some?
            && var second := ConfirmInAsWritten([original, Stored(first.inserted.value, freshId)], req, Ok(inserted));
               second.reply.status == 200 && second.inserted.Some?
  {
    var c := Confirmation(original.routeNumber, original.location, original.severity,
                          original.description, original.disruption, u);
    LookupsSeeOnlyTheOriginal(original, Stored(c, freshId), d, u);
    PlainConfirmationSucceeds(d, u, Single(RowsWith([original], d, Some(u))), original, inserted);
  }

  /** With the intended duplicate check, the first confirmation succeeds and
      the same user's second one is refused with 409 and inserts nothing. */
  lemma RepeatedConfirmationIsRefused(original: Row, d: string, u: string, freshId: string, inserted: Row)
    requires original.id == Some(d) && original.userId != Some(u) && original.description.Some?
    requires d != "" && u != "" && freshId != d
    ensures var req := Some(ConfirmRequest(Some(d), Some(u), None, None));
            var first := ConfirmIn([original], req, Ok(inserted));
            && first.reply.status == 200
            && first.inserted.Some?
            && ConfirmIn([original, Stored(first.inserted.value, freshId)], req, Ok(inserted))
                 == Outcome(Reply(409, Error(AlreadyConfirmed)), None)
  {
    var c := Confirmation(original.routeNumber, original.location, original.severity,
                          original.description, original.disruption, u);
    var stored := Stored(c, freshId);
    LookupsSeeOnlyTheOriginal(original, stored, d, u);
    assert ReportsBy([original], original, u) == [] by {
      assert [original][1..] == [];
    }
    PlainConfirmationSucceeds(d, u, Existing([original], d, u), original, inserted);
    assert stored in [original, stored] && SameReport(stored, original);
  }

  /** A confirmation without severity or description, when the lookup found
      nothing and the fetch and insert work, succeeds with the copied row. */
  lemma PlainConfirmationSucceeds(d: string, u: string, existing: DbResult<Row>, original: Row, inserted: Row)
    requires d != "" && u != ""
    requires existing.DbError? && existing.code == NotFoundCode
    ensures Confirm(Some(ConfirmRequest(Some(d), Some(u), None, None)), existing, Ok(original), Ok(inserted))
              == Outcome(Reply(200, Message(Confirmed, inserted)),
                         Some(Confirmation(original.routeNumber, original.location, original.severity,
                                           original.description, original.disruption, u)))
  {
  }

  /** Before and after a confirmation is stored under a fresh id, the lookup
      by id and user finds nothing and the lookup by id finds the original. */
  lemma LookupsSeeOnlyTheOriginal(original: Row, stored: Row, d: string, u: string)
    requires original.id == Some(d) && original.userId != Some(u) && stored.id != Some(d)
    ensures Single(RowsWith([original], d, Some(u))).DbError?
    ensures Single(RowsWith([original], d, Some(u))).code == NotFoundCode
    ensures Single(RowsWith([original], d, None)) == Ok(original)
    ensures Single(RowsWith([original, stored], d, Some(u))) == Single(RowsWith([original], d, Some(u)))
    ensures Single(RowsWith([original, stored], d, None)) == Ok(original)
  {
    assert [original, stored][1..] == [stored];
    assert [stored][1..] == [];
    assert [original][1..] == [];
  }

  /** The case both duplicate checks catch: the caller reported the very
      row being confirmed. Nothing is inserted. */
  lemma OwnReportIsRefused(original: Row, d: string, u: string, severity: Option<string>,
                           description: Option<string>, insert: DbResult<Row>)
    requires original.id == Some(d) && original.userId == Some(u)
    requires d != "" && u != ""
    ensures var req := Some(ConfirmRequest(Some(d), Some(u), severity, description));
            && ConfirmInAsWritten([original], req, insert) == Outcome(Reply(409, Error(AlreadyConfirmed)), None)
            && ConfirmIn([original], req, insert) == Outcome(Reply(409, Error(AlreadyConfirmed)), None)
  {
    var req := Some(ConfirmRequest(Some(d), Some(u), severity, description));
    assert [original][1..] == [];
    assert Ids(req) == Some((d, u));
    assert RowsWith([original], d, Some(u)) == [original] + RowsWith([], d, Some(u));
    assert RowsWith([original], d, None) == [original] + RowsWith([], d, None);
    assert ReportsBy([original], original, u) == [original];
    assert Existing([original], d, u) == Ok(original);
  }
}

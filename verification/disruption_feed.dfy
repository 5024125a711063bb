/** The disruptions page's local list of reports and what submitting the
    report form does to it: a report about a route and location that already
    has an active entry (compared case-insensitively) is merged into that entry
    as a confirmation; any other report is prepended as a new entry. */
module DisruptionFeed {
  import opened Base
  import opened Text
  import opened Severity

  /** One entry of the page's list. `createdAt` is a time in milliseconds
      (the page stores it as an ISO string). */
  datatype Disruption = Disruption(
    id: string,
    route: string,
    location: string,
    kind: string,
    severity: string,
    description: string,
    reportedBy: string,
    reportedByEmail: Option<string>,
    timeAgo: string,
    confirmations: int,
    status: string,
    createdAt: Option<int>)

  /** The report form's five fields. */
  datatype ReportForm = ReportForm(route: string, location: string, kind: string, severity: string, description: string)

  /** What the submit handler does: show an error and leave the list alone,
      or replace the list and show a success message. */
  datatype Submission = Rejected(error: string) | Accepted(list: seq<Disruption>, message: string)

  const SignInRequired := "You must be signed in to report disruptions"
  const FieldsRequired := "Please fill in all required fields"
  const ConfirmationAdded := "✅ Confirmation added to existing disruption!"
  const ReportCreated := "✅ New disruption report submitted successfully!"

  predicate FormComplete(form: ReportForm) {
    form.route != "" && form.location != "" && form.kind != "" && form.severity != "" && form.description != ""
  }

  /** An entry that a new report about `route` and `location` confirms. */
  predicate Matches(d: Disruption, route: string, location: string) {
    EqualsIgnoreCase(d.route, route) && EqualsIgnoreCase(d.location, location) && d.status == "active"
  }

  /** `findIndex`: the first matching entry at or after `from`. */
  function FindMatch(list: seq<Disruption>, route: string, location: string, from: nat := 0): (r: Option<nat>)
    requires from <= |list|
    ensures r.Some? ==> from <= r.value < |list| && Matches(list[r.value], route, location)
    ensures r.Some? ==> forall j :: from <= j < r.value ==> !Matches(list[j], route, location)
    ensures r.None? ==> forall j :: from <= j < |list| ==> !Matches(list[j], route, location)
    decreases |list| - from
  {
    if from == |list| then None
    else if Matches(list[from], route, location) then Some(from)
    else FindMatch(list, route, location, from + 1)
  }

  /** `user?.email?.split('@')[0] || "Anonymous"`. */
  function ReporterName(email: Option<string>): (r: string)
    ensures r != ""
    ensures r == "Anonymous" || (email.Some? && '@' !in r && |r| <= |email.value| && r == email.value[..|r|])
    ensures email.None? ==> r == "Anonymous"
    ensures email.Some? && BeforeFirst(email.value, '@') != "" ==> r == BeforeFirst(email.value, '@')
    ensures email.Some? && BeforeFirst(email.value, '@') == "" ==> r == "Anonymous"
  {
    match email
    case None => "Anonymous"
    case Some(e) => if BeforeFirst(e, '@') != "" then BeforeFirst(e, '@') else "Anonymous"
  }

  /** The name shown for an address `name@domain` is `name`, whatever the domain. */
  lemma ReporterNameOfAddress(name: string, domain: string)
    requires name != "" && '@' !in name
    ensures ReporterName(Some(name + "@" + domain)) == name
  {
    var e := name + "@" + domain;
    var b := BeforeFirst(e, '@');
    assert e[..|name|] == name && e[|name|] == '@';
  }

  /** The matched entry after one more confirmation. */
  function Confirmed(d: Disruption, form: ReportForm): Disruption {
    d.(confirmations := d.confirmations + 1,
       severity := HigherSeverity(d.severity, form.severity),
       description := if Utf16Length(form.description) > Utf16Length(d.description) then form.description else d.description,
       timeAgo := "Just now")
  }

  /** A fresh entry for a report that matched nothing; `now` is `Date.now()`. */
  function NewEntry(form: ReportForm, email: Option<string>, now: int): Disruption {
    Disruption(IntToString(now), form.route, form.location, form.kind, form.severity, form.description,
               ReporterName(email), email, "Just now", 1, "active", Some(now))
  }

  /** `handleFormSubmit`. */
  function Submit(list: seq<Disruption>, authenticated: bool, email: Option<string>, form: ReportForm, now: int): (r: Submission)
    ensures !authenticated ==> r == Rejected(SignInRequired)
    ensures authenticated && !FormComplete(form) ==> r == Rejected(FieldsRequired)
    ensures r.Accepted? <==> authenticated && FormComplete(form)
    // A report that confirms an existing entry changes that entry only.
    ensures r.Accepted? && FindMatch(list, form.route, form.location).Some? ==>
              var i := FindMatch(list, form.route, form.location).value;
              && r.message == ConfirmationAdded
              && |r.list| == |list|
              && (forall j :: 0 <= j < |list| && j != i ==> r.list[j] == list[j])
              && r.list[i].confirmations == list[i].confirmations + 1
              && r.list[i].id == list[i].id && r.list[i].route == list[i].route
              && r.list[i].location == list[i].location && r.list[i].kind == list[i].kind
              && r.list[i].status == list[i].status && r.list[i].reportedBy == list[i].reportedBy
              && Rank(r.list[i].severity) == Max(Rank(list[i].severity), Rank(form.severity))
              && (r.list[i].severity == list[i].severity || Rank(form.severity) > Rank(list[i].severity))
              && (r.list[i].description != list[i].description <==>
                    Utf16Length(form.description) > Utf16Length(list[i].description))
              && (Utf16Length(form.description) > Utf16Length(list[i].description) ==>
                    r.list[i].description == form.description)
              && Utf16Length(r.list[i].description) >= Utf16Length(list[i].description)
              && r.list[i].reportedByEmail == list[i].reportedByEmail && r.list[i].createdAt == list[i].createdAt
              && r.list[i].timeAgo == "Just now"
    // Any other report is prepended as a new active entry with one confirmation.
    ensures r.Accepted? && FindMatch(list, form.route, form.location).None? ==>
              && r.message == ReportCreated
              && |r.list| == |list| + 1
              && r.list[1..] == list
              && r.list[0].route == form.route && r.list[0].location == form.location
              && r.list[0].kind == form.kind && r.list[0].severity == form.severity
              && r.list[0].description == form.description
              && r.list[0].confirmations == 1 && r.list[0].status == "active"
              && r.list[0].reportedBy == ReporterName(email)
              && r.list[0].id == IntToString(now) && r.list[0].reportedByEmail == email
              && r.list[0].createdAt == Some(now) && r.list[0].timeAgo == "Just now"
  {
    if !authenticated then Rejected(SignInRequired)
    else if !FormComplete(form) then Rejected(FieldsRequired)
    else match FindMatch(list, form.route, form.location)
      case Some(i) => Accepted(list[i := Confirmed(list[i], form)], ConfirmationAdded)
      case None => Accepted([NewEntry(form, email, now)] + list, ReportCreated)
  }

  /** No two active entries describe the same route and location. */
  ghost predicate DistinctActiveGroups(list: seq<Disruption>) {
    forall i, j :: 0 <= i < j < |list| && list[i].status == "active" ==>
      !Matches(list[j], list[i].route, list[i].location)
  }

  /** Submitting reports keeps at most one active entry per (route, location):
      the merge rule means a group never splits into two entries. */
  lemma SubmitKeepsGroupsDistinct(list: seq<Disruption>, authenticated: bool, email: Option<string>, form: ReportForm, now: int)
    requires DistinctActiveGroups(list)
    ensures Submit(list, authenticated, email, form, now).Accepted? ==>
              DistinctActiveGroups(Submit(list, authenticated, email, form, now).list)
  {
    var r := Submit(list, authenticated, email, form, now);
    if r.Accepted? {
      match FindMatch(list, form.route, form.location)
      case Some(k) =>
        forall i, j | 0 <= i < j < |r.list| && r.list[i].status == "active"
          ensures !Matches(r.list[j], r.list[i].route, r.list[i].location)
        {
          assert r.list[i].route == list[i].route && r.list[i].location == list[i].location;
          assert r.list[j].route == list[j].route && r.list[j].location == list[j].location;
          assert r.list[j].status == list[j].status && r.list[i].status == list[i].status;
        }
      case None =>
        forall i, j | 0 <= i < j < |r.list| && r.list[i].status == "active"
          ensures !Matches(r.list[j], r.list[i].route, r.list[i].location)
        {
          if i == 0 {
            assert r.list[j] == list[j - 1];
            EqualsIgnoreCaseIsEquivalence(list[j - 1].route, form.route, form.route);
            EqualsIgnoreCaseIsEquivalence(list[j - 1].location, form.location, form.location);
            assert !Matches(list[j - 1], form.route, form.location);
          } else {
            assert r.list[i] == list[i - 1] && r.list[j] == list[j - 1];
          }
        }
    }
  }

  /** The list the page starts with. */
  function InitialList(): seq<Disruption> {
    [ Disruption("1", "86", "Bourke St / Swanston St", "delay", "high",
                 "Tram stuck behind broken down car, significant delays expected",
                 "Sarah M.", None, "5 min ago", 12, "active", None),
      Disruption("2", "19", "Elizabeth St / Flinders St", "service_change", "medium",
                 "Route 19 experiencing minor delays due to roadworks",
                 "Mike T.", None, "15 min ago", 8, "active", None),
      Disruption("3", "96", "St Kilda Beach", "cancellation", "high",
                 "Service suspended due to track maintenance",
                 "PTV Official", None, "1 hour ago", 25, "resolved", None) ]
  }

  lemma InitialListHasDistinctGroups()
    ensures DistinctActiveGroups(InitialList())
  {
    var l := InitialList();
    assert Lower(l[1].route)[0] != Lower(l[0].route)[0];
    assert Lower(l[2].route)[0] != Lower(l[0].route)[0];
    assert Lower(l[2].route)[0] != Lower(l[1].route)[0];
  }
}

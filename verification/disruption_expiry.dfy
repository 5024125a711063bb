/** When a disruption report stops being shown: two hours after it was
    created. Times are milliseconds; `now` is a parameter. */
module DisruptionExpiry {

  const TwoHoursMs := 2 * 60 * 60 * 1000

  /** A report's creation time as `new Date(created_at)` reads it: a time,
      or an invalid date (whose comparisons are all false). */
  datatype Timestamp = At(ms: int) | InvalidDate

  datatype Report = Report(id: string, createdAt: Timestamp)

  /** `isDisruptionExpired(createdAt)` at time `now`: more than two hours
      have passed since a readable creation time. */
  function IsExpired(created: Timestamp, now: int): (b: bool)
    ensures created.InvalidDate? ==> !b
    ensures created.At? ==> (b <==> now - created.ms > 7200000)
  {
    created.At? && created.ms < now - TwoHoursMs
  }

  /** Exactly two hours old is still shown; a millisecond more is expired. An
      unreadable time never expires. */
  lemma ExpiryBoundary(now: int)
    ensures !IsExpired(At(now - 7200000), now)
    ensures IsExpired(At(now - 7200001), now)
    ensures !IsExpired(InvalidDate, now)
  {
  }

  /** Once expired, a report stays expired. */
  lemma ExpiryIsMonotone(created: Timestamp, now: int, later: int)
    requires now <= later
    ensures IsExpired(created, now) ==> IsExpired(created, later)
  {
  }

  /** `filterActiveDisruptions(reports)` at time `now`. */
  function FilterActive(reports: seq<Report>, now: int): (r: seq<Report>)
    ensures forall x :: x in r <==> x in reports && !IsExpired(x.createdAt, now)
    ensures |r| <= |reports|
  {
    if |reports| == 0 then []
    else (if IsExpired(reports[0].createdAt, now) then [] else [reports[0]]) + FilterActive(reports[1..], now)
  }

  /** Each active report is kept as often as it occurs, and each expired one
      is dropped every time: the filter removes nothing else. */
  lemma {:induction false} FilterActiveCounts(reports: seq<Report>, now: int)
    ensures forall x :: multiset(FilterActive(reports, now))[x] ==
              if IsExpired(x.createdAt, now) then 0 else multiset(reports)[x]
  {
    if |reports| > 0 {
      FilterActiveCounts(reports[1..], now);
      assert reports == [reports[0]] + reports[1..];
    }
  }

  /** `a` is `b` with some elements left out, the rest in the same order. */
  predicate IsSubsequence(a: seq<Report>, b: seq<Report>)
    decreases |b|
  {
    |a| == 0 || (|b| > 0 && ((a[0] == b[0] && IsSubsequence(a[1..], b[1..])) || IsSubsequence(a, b[1..])))
  }

  lemma {:induction false} FilterActiveKeepsOrder(reports: seq<Report>, now: int)
    ensures IsSubsequence(FilterActive(reports, now), reports)
  {
    if |reports| > 0 {
      FilterActiveKeepsOrder(reports[1..], now);
      var r := FilterActive(reports, now);
      if !IsExpired(reports[0].createdAt, now) {
        assert r[0] == reports[0] && r[1..] == FilterActive(reports[1..], now);
      } else {
        assert r == FilterActive(reports[1..], now);
      }
    }
  }

  /** Filtering at a later time after filtering at an earlier one is just
      filtering at the later time; in particular filtering is idempotent. */
  lemma {:induction false} FilterActiveComposes(reports: seq<Report>, now: int, later: int)
    requires now <= later
    ensures FilterActive(FilterActive(reports, now), later) == FilterActive(reports, later)
  {
    if |reports| > 0 {
      FilterActiveComposes(reports[1..], now, later);
      var x := reports[0];
      if !IsExpired(x.createdAt, now) {
        assert FilterActive(reports, now) == [x] + FilterActive(reports[1..], now);
        assert ([x] + FilterActive(reports[1..], now))[1..] == FilterActive(reports[1..], now);
      } else {
        ExpiryIsMonotone(x.createdAt, now, later);
        assert FilterActive(reports, now) == FilterActive(reports[1..], now);
        assert FilterActive(reports, later) == FilterActive(reports[1..], later);
      }
    }
  }

  lemma FilterActiveIsIdempotent(reports: seq<Report>, now: int)
    ensures FilterActive(FilterActive(reports, now), now) == FilterActive(reports, now)
  {
    FilterActiveComposes(reports, now, now);
  }
}

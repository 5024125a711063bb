/** The shared severity and disruption-type vocabularies, and the severity
    ranking used whenever two reports about the same place are merged (on the
    disruptions page and in the confirmation endpoint). Severities travel as
    plain strings in both places, so the ranking is defined on strings: the
    three known names rank 1, 2 and 3 and every other string ranks 1. */
module Severity {
  import opened Base

  datatype SeverityLevel = Low | Medium | High

  datatype DisruptionType = Delay | Cancellation | ServiceChange | TrackWork | Other

  function SeverityName(v: SeverityLevel): string {
    match v
    case Low => "low"
    case Medium => "medium"
    case High => "high"
  }

  function ParseSeverity(s: string): Option<SeverityLevel> {
    if s == "low" then Some(Low)
    else if s == "medium" then Some(Medium)
    else if s == "high" then Some(High)
    else None
  }

  function TypeName(t: DisruptionType): string {
    match t
    case Delay => "delay"
    case Cancellation => "cancellation"
    case ServiceChange => "service_change"
    case TrackWork => "track_work"
    case Other => "other"
  }

  function ParseType(s: string): Option<DisruptionType> {
    if s == "delay" then Some(Delay)
    else if s == "cancellation" then Some(Cancellation)
    else if s == "service_change" then Some(ServiceChange)
    else if s == "track_work" then Some(TrackWork)
    else if s == "other" then Some(Other)
    else None
  }

  /** Names and parsers are inverse: a string parses exactly when it is the
      name of a level, and then to that level. */
  lemma SeverityNameRoundTrip(v: SeverityLevel, s: string)
    ensures ParseSeverity(SeverityName(v)) == Some(v)
    ensures ParseSeverity(s) == Some(v) <==> s == SeverityName(v)
    ensures ParseSeverity(s).None? <==> s !in {"low", "medium", "high"}
  {
  }

  lemma TypeNameRoundTrip(t: DisruptionType, s: string)
    ensures ParseType(TypeName(t)) == Some(t)
    ensures ParseType(s) == Some(t) <==> s == TypeName(t)
    ensures ParseType(s).None? <==> s !in {"delay", "cancellation", "service_change", "track_work", "other"}
  {
  }

  /** `severityLevels[s] || 1` with `{ low: 1, medium: 2, high: 3 }`. */
  function Rank(s: string): (r: nat)
    ensures 1 <= r <= 3
    ensures r == 3 <==> s == "high"
    ensures r == 2 <==> s == "medium"
    ensures ParseSeverity(s).None? ==> r == 1
  {
    match ParseSeverity(s)
    case Some(v) => RankOf(v)
    case None => 1
  }

  function RankOf(v: SeverityLevel): nat {
    match v
    case Low => 1
    case Medium => 2
    case High => 3
  }

  function Max(a: nat, b: nat): nat {
    if a >= b then a else b
  }

  /** `getHigherSeverity(current, newSeverity)`: the new severity replaces the
      current one only when it ranks strictly higher. */
  function HigherSeverity(current: string, incoming: string): (r: string)
    ensures r == current || r == incoming
    ensures Rank(r) == Max(Rank(current), Rank(incoming))
    ensures r == incoming && r != current <==> Rank(incoming) > Rank(current)
  {
    if Rank(incoming) > Rank(current) then incoming else current
  }

  /** Merging never lowers the severity, and keeps the current value on a tie. */
  lemma HigherSeverityNeverDowngrades(current: string, incoming: string)
    ensures Rank(HigherSeverity(current, incoming)) >= Rank(current)
    ensures Rank(HigherSeverity(current, incoming)) >= Rank(incoming)
    ensures Rank(current) == Rank(incoming) ==> HigherSeverity(current, incoming) == current
    ensures HigherSeverity("high", "low") == "high"
    ensures HigherSeverity("low", "medium") == "medium"
  {
  }

  /** Merging a whole series of reports into a current severity, as repeated
      submissions on the disruptions page do. */
  function MergeAll(current: string, reports: seq<string>): string
    decreases |reports|
  {
    if |reports| == 0 then current
    else MergeAll(HigherSeverity(current, reports[0]), reports[1..])
  }

  function MaxRank(reports: seq<string>): nat
  {
    if |reports| == 0 then 0 else Max(Rank(reports[0]), MaxRank(reports[1..]))
  }

  /** However many reports are merged, and in whatever order they arrive, the
      result ranks exactly as high as the highest of them and the starting value:
      a group's severity only escalates. */
  lemma {:induction false} MergeAllRanksAsMaximum(current: string, reports: seq<string>)
    ensures Rank(MergeAll(current, reports)) == Max(Rank(current), MaxRank(reports))
    ensures MergeAll(current, reports) == current || MergeAll(current, reports) in reports
    decreases |reports|
  {
    if |reports| > 0 {
      var next := HigherSeverity(current, reports[0]);
      MergeAllRanksAsMaximum(next, reports[1..]);
      assert MergeAll(current, reports) == MergeAll(next, reports[1..]);
      if MergeAll(next, reports[1..]) in reports[1..] {
        var k :| 0 <= k < |reports[1..]| && reports[1..][k] == MergeAll(next, reports[1..]);
        assert reports[k + 1] == MergeAll(current, reports);
      }
    }
  }

  // ---------------------------------------------------------------------
  // The ranking exactly as written. `severityLevels` is an object literal,
  // so looking up a name it inherits from `Object.prototype` ("toString",
  // "constructor", ...) yields a function or object, which is truthy: the
  // `|| 1` default is skipped, and any `>` comparison with it is false.

  const InheritedNames: set<string> := {
    "constructor", "__proto__", "hasOwnProperty", "isPrototypeOf",
    "propertyIsEnumerable", "toLocaleString", "toString", "valueOf",
    "__defineGetter__", "__defineSetter__", "__lookupGetter__", "__lookupSetter__"
  }

  /** A JavaScript number as the comparison sees it: a rank, or NaN. */
  datatype JsRank = Num(n: nat) | NotANumber

  function RankAsWritten(s: string): JsRank {
    if s in InheritedNames then NotANumber else Num(Rank(s))
  }

  /** `a > b` on JavaScript numbers: false whenever either side is NaN. */
  predicate GreaterAsWritten(a: JsRank, b: JsRank) {
    a.Num? && b.Num? && a.n > b.n
  }

  function HigherSeverityAsWritten(current: string, incoming: string): (r: string)
    ensures r == current || r == incoming
    ensures current !in InheritedNames && incoming !in InheritedNames ==>
              r == HigherSeverity(current, incoming)
  {
    if GreaterAsWritten(RankAsWritten(incoming), RankAsWritten(current)) then incoming else current
  }

  /** The as-written ranking lets a current severity of "toString" block an
      escalation to "high", although an unknown severity is meant to rank 1. */
  lemma InheritedNameBlocksEscalation()
    ensures HigherSeverityAsWritten("toString", "high") == "toString"
    ensures HigherSeverity("toString", "high") == "high"
    ensures Rank(HigherSeverityAsWritten("toString", "high")) < Max(Rank("toString"), Rank("high"))
  {
  }
}

/** The route-planning client: the request sent for one route, the
    normalisation of the provider's answer, and `calculateMultipleRoutes`,
    which asks for three variants one after the other, keeps the first route
    seen for each (summary, duration, distance) key, and sorts the survivors
    by duration. The provider is an oracle: each request's outcome is a
    parameter. */
module Directions {
  import opened Base
  import opened Text

  // ---------------------------------------------------------------------
  // Requests

  datatype TransitMode = Bus | Train | Tram | Subway

  datatype RoutingPreference = FewerTransfers | LessWalking

  datatype TransitOptions = TransitOptions(modes: seq<TransitMode>, preference: RoutingPreference)

  /** The options a caller passes for one route (waypoints are not modelled). */
  datatype RouteOptions = RouteOptions(
    origin: string,
    destination: string,
    travelMode: Option<string>,
    avoidTolls: bool,
    avoidHighways: bool,
    avoidFerries: bool,
    optimizeWaypoints: bool,
    departureTime: Option<int>,
    transitOptions: Option<TransitOptions>)

  /** The request handed to the provider. */
  datatype DirectionsRequest = DirectionsRequest(
    origin: string,
    destination: string,
    travelMode: string,
    avoidTolls: bool,
    avoidHighways: bool,
    avoidFerries: bool,
    optimizeWaypoints: bool,
    departureTime: Option<int>,
    transit: TransitOptions)

  const AllModes: seq<TransitMode> := [Bus, Train, Tram, Subway]

  /** The three variants, in the order they are requested. */
  function VariantTransitOptions(): seq<TransitOptions> {
    [ TransitOptions(AllModes, FewerTransfers),
      TransitOptions([Train, Tram, Subway], FewerTransfers),
      TransitOptions([Bus, Tram], LessWalking) ]
  }

  /** `{ ...options, avoidTolls: false, avoidHighways: false, transitOptions }`
      for each variant, with origin and destination. */
  function VariantOptions(base: RouteOptions): (r: seq<RouteOptions>)
    ensures |r| == 3
    ensures forall i :: 0 <= i < 3 ==> r[i].transitOptions == Some(VariantTransitOptions()[i])
  {
    seq(3, i requires 0 <= i < 3 =>
      base.(avoidTolls := false, avoidHighways := false, transitOptions := Some(VariantTransitOptions()[i])))
  }

  /** The request `calculateRoute` builds, as written: its transit options
      are fixed, and `options.transitOptions` is never read. */
  function RequestAsWritten(options: RouteOptions): (q: DirectionsRequest)
    ensures q.transit == TransitOptions(AllModes, FewerTransfers)
    ensures q.travelMode == Or(options.travelMode, "TRANSIT")
  {
    DirectionsRequest(options.origin, options.destination, Or(options.travelMode, "TRANSIT"),
                      options.avoidTolls, options.avoidHighways, options.avoidFerries, options.optimizeWaypoints,
                      options.departureTime, TransitOptions(AllModes, FewerTransfers))
  }

  /** As written, the three variant requests are the same request, so the
      provider is asked the same question three times. */
  lemma VariantRequestsCoincideAsWritten(base: RouteOptions)
    ensures var v := VariantOptions(base);
            RequestAsWritten(v[0]) == RequestAsWritten(v[1]) == RequestAsWritten(v[2])
  {
  }

  /** The request with the caller's transit options honoured. */
  function Request(options: RouteOptions): (q: DirectionsRequest)
    ensures options.transitOptions.Some? ==> q.transit == options.transitOptions.value
    ensures options.transitOptions.None? ==> q.transit == RequestAsWritten(options).transit
    ensures q.(transit := RequestAsWritten(options).transit) == RequestAsWritten(options)
  {
    var transit := if options.transitOptions.Some? then options.transitOptions.value
                   else TransitOptions(AllModes, FewerTransfers);
    RequestAsWritten(options).(transit := transit)
  }

  /** With the options honoured, the three variants are three different requests. */
  lemma VariantRequestsDiffer(base: RouteOptions)
    ensures var v := VariantOptions(base);
            Request(v[0]) != Request(v[1]) && Request(v[1]) != Request(v[2]) && Request(v[0]) != Request(v[2])
  {
    var v := VariantOptions(base);
    assert Request(v[0]).transit.modes[0] == Bus && Request(v[1]).transit.modes[0] == Train;
    assert Request(v[2]).transit.preference == LessWalking;
  }

  // ---------------------------------------------------------------------
  // Results

  datatype Measure = Measure(text: string, value: nat)

  datatype Step = Step(distance: Measure, duration: Measure, instructions: string, travelMode: string)

  datatype Leg = Leg(distance: Measure, duration: Measure, steps: seq<Step>)

  /** The normalised route (`RouteResult`); its own distance and duration are
      its first leg's. */
  datatype RouteResult = RouteResult(summary: string, distance: Measure, duration: Measure, legs: seq<Leg>)

  /** A measure as the provider gives it: possibly missing, as may be its parts. */
  datatype RawMeasure = RawMeasure(text: Option<string>, value: Option<nat>)

  datatype RawStep = RawStep(distance: Option<RawMeasure>, duration: Option<RawMeasure>,
                             instructions: Option<string>, travelMode: string)

  datatype RawLeg = RawLeg(distance: Option<RawMeasure>, duration: Option<RawMeasure>, steps: seq<RawStep>)

  datatype RawRoute = RawRoute(summary: Option<string>, legs: seq<RawLeg>)

  /** `m?.text || ''` and `m?.value || 0`. */
  function MeasureOf(m: Option<RawMeasure>): (r: Measure)
    ensures m.None? ==> r == Measure("", 0)
    ensures m.Some? && m.value.value.Some? ==> r.value == m.value.value.value
    ensures m.Some? && m.value.text.Some? ==> r.text == m.value.text.value
    ensures m.None? || m.value.value.None? ==> r.value == 0
    ensures m.None? || m.value.text.None? ==> r.text == ""
  {
    match m
    case None => Measure("", 0)
    case Some(raw) => Measure(Or(raw.text, ""), if raw.value.Some? then raw.value.value else 0)
  }

  function NormaliseStep(s: RawStep): Step {
    Step(MeasureOf(s.distance), MeasureOf(s.duration), Or(s.instructions, ""), s.travelMode)
  }

  function NormaliseLeg(l: RawLeg): (r: Leg)
    ensures |r.steps| == |l.steps|
    ensures forall i :: 0 <= i < |l.steps| ==> r.steps[i].travelMode == l.steps[i].travelMode
  {
    Leg(MeasureOf(l.distance), MeasureOf(l.duration), seq(|l.steps|, i requires 0 <= i < |l.steps| => NormaliseStep(l.steps[i])))
  }

  /** The route built from the provider's first route. */
  function Normalise(route: RawRoute): (r: RouteResult)
    requires |route.legs| > 0
    ensures |r.legs| == |route.legs|
    ensures forall i :: 0 <= i < |route.legs| ==> r.legs[i] == NormaliseLeg(route.legs[i])
    ensures r.distance == r.legs[0].distance && r.duration == r.legs[0].duration
    ensures r.distance == MeasureOf(route.legs[0].distance) && r.duration == MeasureOf(route.legs[0].duration)
    ensures r.summary == Or(route.summary, "")
  {
    var legs := seq(|route.legs|, i requires 0 <= i < |route.legs| => NormaliseLeg(route.legs[i]));
    RouteResult(Or(route.summary, ""), legs[0].distance, legs[0].duration, legs)
  }

  /** The provider's form of a normalised measure, step, leg and route: every
      part present. */
  function RawOf(m: Measure): RawMeasure {
    RawMeasure(Some(m.text), Some(m.value))
  }

  function RawStepOf(s: Step): RawStep {
    RawStep(Some(RawOf(s.distance)), Some(RawOf(s.duration)), Some(s.instructions), s.travelMode)
  }

  function RawLegOf(l: Leg): RawLeg {
    RawLeg(Some(RawOf(l.distance)), Some(RawOf(l.duration)),
           seq(|l.steps|, i requires 0 <= i < |l.steps| => RawStepOf(l.steps[i])))
  }

  function RawRouteOf(r: RouteResult): RawRoute {
    RawRoute(Some(r.summary), seq(|r.legs|, i requires 0 <= i < |r.legs| => RawLegOf(r.legs[i])))
  }

  /** Normalisation loses nothing the provider supplied: a route whose own
      measures are its first leg's comes back unchanged from its provider
      form. The defaults only fill in parts that are missing. */
  lemma NormaliseRoundTrip(r: RouteResult)
    requires |r.legs| > 0 && r.distance == r.legs[0].distance && r.duration == r.legs[0].duration
    ensures Normalise(RawRouteOf(r)) == r
  {
    var n := Normalise(RawRouteOf(r));
    forall i | 0 <= i < |r.legs| ensures n.legs[i] == r.legs[i] {
      NormaliseLegRoundTrip(r.legs[i]);
    }
    assert n.legs == r.legs;
  }

  lemma NormaliseLegRoundTrip(l: Leg)
    ensures NormaliseLeg(RawLegOf(l)) == l
  {
    var n := NormaliseLeg(RawLegOf(l));
    forall i | 0 <= i < |l.steps| ensures n.steps[i] == l.steps[i] {
      assert NormaliseStep(RawStepOf(l.steps[i])) == l.steps[i];
    }
    assert n.steps == l.steps;
  }

  /** How one `calculateRoute` call ends: with a route, rejected with the
      provider's status, or never (an OK answer without a route or leg makes
      the provider's callback throw, so the promise is never settled). */
  datatype Variant = Resolved(route: RouteResult) | Rejected(error: string) | Unsettled

  /** `calculateRoute`, given the provider's status and routes. */
  function CalculateRoute(status: string, routes: seq<RawRoute>): (v: Variant)
    ensures status != "OK" ==> v == Rejected("Directions API error: " + status)
    ensures v.Resolved? <==> status == "OK" && |routes| > 0 && |routes[0].legs| > 0
    ensures v.Resolved? ==> v.route == Normalise(routes[0])
    ensures status == "OK" && !(|routes| > 0 && |routes[0].legs| > 0) ==> v == Unsettled
  {
    if status != "OK" then Rejected("Directions API error: " + status)
    else if |routes| == 0 || |routes[0].legs| == 0 then Unsettled
    else Resolved(Normalise(routes[0]))
  }

  // ---------------------------------------------------------------------
  // Deduplication

  /** The composite key routes are told apart by. */
  function Key(r: RouteResult): (string, nat, nat) {
    (r.summary, r.duration.value, r.distance.value)
  }

  /** The key as the source spells it: `${summary}-${duration}-${distance}`. */
  function RouteId(r: RouteResult): string {
    r.summary + "-" + NatToString(r.duration.value) + "-" + NatToString(r.distance.value)
  }

  /** The index of the last occurrence of `c` in `s`, or -1. */
  function LastIndexOf(s: string, c: char): int {
    if |s| == 0 then -1
    else if s[|s| - 1] == c then |s| - 1
    else LastIndexOf(s[..|s| - 1], c)
  }

  lemma {:induction false} LastDashBeforeDigits(x: string, y: string)
    requires AllDigits(y)
    ensures LastIndexOf(x + "-" + y, '-') == |x|
    decreases |y|
  {
    if |y| > 0 {
      var s := x + "-" + y;
      assert s[..|s| - 1] == x + "-" + y[..|y| - 1];
      LastDashBeforeDigits(x, y[..|y| - 1]);
    } else {
      assert x + "-" + y == x + "-";
    }
  }

  /** Splitting at the last '-' is unambiguous when what follows is digits. */
  lemma SplitAtLastDash(x: string, y: string, x': string, y': string)
    requires x + "-" + y == x' + "-" + y'
    requires AllDigits(y) && AllDigits(y')
    ensures x == x' && y == y'
  {
    var s := x + "-" + y;
    LastDashBeforeDigits(x, y);
    LastDashBeforeDigits(x', y');
    assert |x| == |x'|;
    assert x == s[..|x|];
    assert y == s[|x| + 1..];
  }

  /** Two routes get the same string id exactly when they have the same key,
      so deduplicating on the string is deduplicating on the key. */
  lemma RouteIdIsKey(a: RouteResult, b: RouteResult)
    ensures RouteId(a) == RouteId(b) <==> Key(a) == Key(b)
  {
    if RouteId(a) == RouteId(b) {
      SplitAtLastDash(a.summary + "-" + NatToString(a.duration.value), NatToString(a.distance.value),
                      b.summary + "-" + NatToString(b.duration.value), NatToString(b.distance.value));
      SplitAtLastDash(a.summary, NatToString(a.duration.value), b.summary, NatToString(b.duration.value));
      NatToStringInjective(a.duration.value, b.duration.value);
      NatToStringInjective(a.distance.value, b.distance.value);
    }
  }

  /** The result at index `k` succeeded and no earlier success has its key. */
  predicate IsFirst(results: seq<Option<RouteResult>>, k: nat)
    requires k < |results|
  {
    results[k].Some? &&
    forall j :: 0 <= j < k && results[j].Some? ==> Key(results[j].value) != Key(results[k].value)
  }

  /** The first success for each key among the first `n` results, in the
      order they arrived. */
  function FirstsUpTo(results: seq<Option<RouteResult>>, n: nat): seq<RouteResult>
    requires n <= |results|
  {
    if n == 0 then []
    else FirstsUpTo(results, n - 1) + (if IsFirst(results, n - 1) then [results[n - 1].value] else [])
  }

  function KeysOf(routes: seq<RouteResult>): set<(string, nat, nat)> {
    set r | r in routes :: Key(r)
  }

  function SuccessKeys(results: seq<Option<RouteResult>>, n: nat): set<(string, nat, nat)>
    requires n <= |results|
  {
    set k | 0 <= k < n && results[k].Some? :: Key(results[k].value)
  }

  function IdsOf(routes: seq<RouteResult>): set<string> {
    set r | r in routes :: RouteId(r)
  }

  function CountSuccesses(results: seq<Option<RouteResult>>): nat {
    if |results| == 0 then 0
    else CountSuccesses(results[..|results| - 1]) + (if results[|results| - 1].Some? then 1 else 0)
  }

  /** Keeping first successes loses no key and invents none. */
  lemma {:induction false} FirstsKeys(results: seq<Option<RouteResult>>, n: nat)
    requires n <= |results|
    ensures KeysOf(FirstsUpTo(results, n)) == SuccessKeys(results, n)
  {
    if n > 0 {
      FirstsKeys(results, n - 1);
      var prev := FirstsUpTo(results, n - 1);
      var cur := FirstsUpTo(results, n);
      if IsFirst(results, n - 1) {
        assert KeysOf(cur) == KeysOf(prev) + {Key(results[n - 1].value)};
      } else {
        assert cur == prev;
        if results[n - 1].Some? {
          var j :| 0 <= j < n - 1 && results[j].Some? && Key(results[j].value) == Key(results[n - 1].value);
          assert Key(results[n - 1].value) in SuccessKeys(results, n - 1);
        }
      }
      assert SuccessKeys(results, n) == SuccessKeys(results, n - 1)
        + (if results[n - 1].Some? then {Key(results[n - 1].value)} else {});
    }
  }

  /** The kept routes have pairwise distinct keys, each is a success, and
      there are no more of them than successes. */
  lemma {:induction false} FirstsAreDistinct(results: seq<Option<RouteResult>>, n: nat)
    requires n <= |results|
    ensures forall i, j :: 0 <= i < j < |FirstsUpTo(results, n)| ==>
              Key(FirstsUpTo(results, n)[i]) != Key(FirstsUpTo(results, n)[j])
    ensures forall r :: r in FirstsUpTo(results, n) ==> Some(r) in results[..n]
    ensures |FirstsUpTo(results, n)| <= CountSuccesses(results[..n])
  {
    if n > 0 {
      FirstsAreDistinct(results, n - 1);
      FirstsKeys(results, n - 1);
      var prev := FirstsUpTo(results, n - 1);
      assert results[..n - 1] == results[..n][..n - 1];
      if IsFirst(results, n - 1) {
        var r := results[n - 1].value;
        forall i | 0 <= i < |prev| ensures Key(prev[i]) != Key(r) {
          assert prev[i] in prev;
        }
      }
    }
  }

  /** The loop of `calculateMultipleRoutes`: `results[k]` is the k-th
      variant's route, or `None` when that request was rejected (the error is
      logged and skipped). A string set of ids plays `seenRoutes`. */
  method CollectDistinct(results: seq<Option<RouteResult>>) returns (routes: seq<RouteResult>)
    ensures routes == FirstsUpTo(results, |results|)
    ensures forall i, j :: 0 <= i < j < |routes| ==> Key(routes[i]) != Key(routes[j])
    ensures forall r :: r in routes ==> Some(r) in results
    ensures KeysOf(routes) == SuccessKeys(results, |results|)
    ensures |routes| <= CountSuccesses(results)
  {
    routes := [];
    var seen: set<string> := {};
    var i := 0;
    while i < |results|
      invariant 0 <= i <= |results|
      invariant routes == FirstsUpTo(results, i)
      decreases |results| - i
      invariant seen == IdsOf(routes)
    {
      match results[i] {
      case None =>
      case Some(route) =>
        FirstsKeys(results, i);
        var id := RouteId(route);
        if id !in seen {
          forall r | r in routes ensures Key(r) != Key(route) {
            RouteIdIsKey(r, route);
          }
          assert Key(route) !in SuccessKeys(results, i);
          forall j | 0 <= j < i && results[j].Some?
            ensures Key(results[j].value) != Key(route)
          {
            assert Key(results[j].value) in SuccessKeys(results, i);
          }
          seen := seen + {id};
          routes := routes + [route];
        } else {
          var r :| r in routes && RouteId(r) == id;
          RouteIdIsKey(r, route);
          assert Key(route) in SuccessKeys(results, i);
          var j :| 0 <= j < i && results[j].Some? && Key(results[j].value) == Key(route);
          assert !IsFirst(results, i);
        }
      }
      i := i + 1;
    }
    FirstsKeys(results, |results|);
    FirstsAreDistinct(results, |results|);
    assert results[..|results|] == results;
  }

  // ---------------------------------------------------------------------
  // Sorting

  /** Put `r` before the first route that takes at least as long. */
  function Insert(r: RouteResult, sorted: seq<RouteResult>): (s: seq<RouteResult>)
    ensures |s| == |sorted| + 1
  {
    if |sorted| == 0 || r.duration.value <= sorted[0].duration.value then [r] + sorted
    else [sorted[0]] + Insert(r, sorted[1..])
  }

  /** Inserting adds the route and loses none. */
  lemma {:induction false} InsertPermutes(r: RouteResult, sorted: seq<RouteResult>)
    ensures multiset(Insert(r, sorted)) == multiset(sorted) + multiset{r}
  {
    if |sorted| > 0 && r.duration.value > sorted[0].duration.value {
      InsertPermutes(r, sorted[1..]);
      assert sorted == [sorted[0]] + sorted[1..];
    }
  }

  /** `routes.sort((a, b) => a.duration.value - b.duration.value)`; the sort is
      stable, as JavaScript's is. */
  function SortByDuration(routes: seq<RouteResult>): (s: seq<RouteResult>)
    ensures multiset(s) == multiset(routes)
    ensures |s| == |routes|
  {
    if |routes| == 0 then []
    else
      var rest := SortByDuration(routes[1..]);
      InsertPermutes(routes[0], rest);
      assert routes == [routes[0]] + routes[1..];
      Insert(routes[0], rest)
  }

  predicate SortedByDuration(s: seq<RouteResult>) {
    forall i, j :: 0 <= i < j < |s| ==> s[i].duration.value <= s[j].duration.value
  }

  lemma {:induction false} InsertKeepsSorted(r: RouteResult, sorted: seq<RouteResult>)
    requires SortedByDuration(sorted)
    ensures SortedByDuration(Insert(r, sorted))
  {
    if |sorted| > 0 && r.duration.value > sorted[0].duration.value {
      var t := Insert(r, sorted[1..]);
      InsertKeepsSorted(r, sorted[1..]);
      InsertStaysAbove(r, sorted[1..], sorted[0].duration.value);
      var u := Insert(r, sorted);
      assert u == [sorted[0]] + t;
      forall i, j | 0 <= i < j < |u| ensures u[i].duration.value <= u[j].duration.value {
        if i > 0 {
          assert u[i] == t[i - 1] && u[j] == t[j - 1];
        } else {
          assert u[j] == t[j - 1];
        }
      }
    }
  }

  /** Inserting a route no faster than `bound` into routes no faster than
      `bound` gives routes no faster than `bound`. */
  lemma {:induction false} InsertStaysAbove(r: RouteResult, s: seq<RouteResult>, bound: nat)
    requires bound <= r.duration.value
    requires forall i :: 0 <= i < |s| ==> bound <= s[i].duration.value
    ensures forall i :: 0 <= i < |Insert(r, s)| ==> bound <= Insert(r, s)[i].duration.value
  {
    if |s| > 0 && r.duration.value > s[0].duration.value {
      InsertStaysAbove(r, s[1..], bound);
      var t := Insert(r, s[1..]);
      assert Insert(r, s) == [s[0]] + t;
    }
  }

  lemma {:induction false} SortByDurationIsSorted(routes: seq<RouteResult>)
    ensures SortedByDuration(SortByDuration(routes))
  {
    if |routes| > 0 {
      SortByDurationIsSorted(routes[1..]);
      InsertKeepsSorted(routes[0], SortByDuration(routes[1..]));
    }
  }

  /** The routes of a given duration, in order. */
  function WithDuration(s: seq<RouteResult>, d: nat): seq<RouteResult> {
    if |s| == 0 then [] else (if s[0].duration.value == d then [s[0]] else []) + WithDuration(s[1..], d)
  }

  lemma {:induction false} InsertWithDuration(r: RouteResult, s: seq<RouteResult>, d: nat)
    ensures WithDuration(Insert(r, s), d) == (if r.duration.value == d then [r] else []) + WithDuration(s, d)
  {
    var mine: seq<RouteResult> := if r.duration.value == d then [r] else [];
    if |s| > 0 && r.duration.value > s[0].duration.value {
      var head: seq<RouteResult> := if s[0].duration.value == d then [s[0]] else [];
      var t := Insert(r, s[1..]);
      var rest := WithDuration(s[1..], d);
      assert Insert(r, s) == [s[0]] + t;
      InsertWithDuration(r, s[1..], d);
      assert WithDuration(t, d) == mine + rest;
      WithDurationCons(s[0], t, d);
      assert WithDuration(Insert(r, s), d) == head + (mine + rest);
      WithDurationCons(s[0], s[1..], d);
      assert [s[0]] + s[1..] == s;
      assert WithDuration(s, d) == head + rest;
      // At most one of `head` and `mine` is non-empty, as the durations differ.
      if r.duration.value == d {
        assert head == [];
        assert head + (mine + rest) == mine + rest;
        assert mine + (head + rest) == mine + rest;
      } else {
        assert mine == [];
        assert head + (mine + rest) == head + rest;
        assert mine + (head + rest) == head + rest;
      }
    } else {
      assert Insert(r, s) == [r] + s;
      WithDurationCons(r, s, d);
    }
  }

  lemma WithDurationCons(x: RouteResult, s: seq<RouteResult>, d: nat)
    ensures WithDuration([x] + s, d) == (if x.duration.value == d then [x] else []) + WithDuration(s, d)
  {
    assert ([x] + s)[1..] == s;
  }

  /** Stability: routes of equal duration keep the order they arrived in. */
  lemma {:induction false} SortByDurationIsStable(routes: seq<RouteResult>, d: nat)
    ensures WithDuration(SortByDuration(routes), d) == WithDuration(routes, d)
  {
    if |routes| > 0 {
      SortByDurationIsStable(routes[1..], d);
      InsertWithDuration(routes[0], SortByDuration(routes[1..]), d);
    }
  }

  /** The route of each variant, or `None` for a rejected one. */
  function ResultsOf(variants: seq<Variant>): (results: seq<Option<RouteResult>>)
    ensures |results| == |variants|
    ensures forall k :: 0 <= k < |variants| ==> (results[k].Some? <==> variants[k].Resolved?)
    ensures forall k :: 0 <= k < |variants| && variants[k].Resolved? ==> results[k] == Some(variants[k].route)
  {
    seq(|variants|, k requires 0 <= k < |variants| => if variants[k].Resolved? then Some(variants[k].route) else None)
  }

  /** `calculateMultipleRoutes`, given how each variant's request ended. It
      returns `None` when it never returns: a variant that never settles
      blocks the sequential loop. */
  method CalculateMultipleRoutes(variants: seq<Variant>) returns (out: Option<seq<RouteResult>>)
    ensures out.None? <==> exists k :: 0 <= k < |variants| && variants[k].Unsettled?
    ensures out.Some? ==>
              && SortedByDuration(out.value)
              && multiset(out.value) == multiset(FirstsUpTo(ResultsOf(variants), |variants|))
              && (forall i, j :: 0 <= i < j < |out.value| ==> Key(out.value[i]) != Key(out.value[j]))
              && (forall r :: r in out.value ==> exists k :: 0 <= k < |variants| && variants[k] == Resolved(r))
              && (forall k :: 0 <= k < |variants| && variants[k].Resolved? ==>
                    exists r :: r in out.value && Key(r) == Key(variants[k].route))
              && |out.value| <= CountSuccesses(ResultsOf(variants))
              && |out.value| <= |variants|
    // The first route, the one the cards badge "Fastest", is no slower than
    // any route a variant resolved to.
    ensures out.Some? ==>
              forall k :: 0 <= k < |variants| && variants[k].Resolved? ==>
                |out.value| > 0 && out.value[0].duration.value <= variants[k].route.duration.value
  {
    var i := 0;
    while i < |variants|
      invariant 0 <= i <= |variants|
      invariant forall k :: 0 <= k < i ==> !variants[k].Unsettled?
    {
      if variants[i].Unsettled? {
        return None;
      }
      i := i + 1;
    }
    var results := ResultsOf(variants);
    var distinct := CollectDistinct(results);
    var sorted := SortByDuration(distinct);
    SortByDurationIsSorted(distinct);
    SuccessCountBound(results);
    SortedComesFromVariants(variants, distinct, sorted);
    SortedCoversVariants(variants, distinct, sorted);
    SortKeepsKeysDistinct(distinct, sorted);
    FirstIsFastest(variants, sorted);
    out := Some(sorted);
  }

  /** In a sorted list that has a route with the key of every resolved
      variant, the first route is no slower than any of them: the key
      includes the duration. */
  lemma FirstIsFastest(variants: seq<Variant>, sorted: seq<RouteResult>)
    requires SortedByDuration(sorted)
    requires forall k :: 0 <= k < |variants| && variants[k].Resolved? ==>
               exists r :: r in sorted && Key(r) == Key(variants[k].route)
    ensures forall k :: 0 <= k < |variants| && variants[k].Resolved? ==>
              |sorted| > 0 && sorted[0].duration.value <= variants[k].route.duration.value
  {
    forall k | 0 <= k < |variants| && variants[k].Resolved?
      ensures |sorted| > 0 && sorted[0].duration.value <= variants[k].route.duration.value
    {
      var r :| r in sorted && Key(r) == Key(variants[k].route);
      var j :| 0 <= j < |sorted| && sorted[j] == r;
      if j > 0 {
        assert sorted[0].duration.value <= sorted[j].duration.value;
      }
    }
  }

  lemma SortKeepsKeysDistinct(distinct: seq<RouteResult>, sorted: seq<RouteResult>)
    requires forall i, j :: 0 <= i < j < |distinct| ==> Key(distinct[i]) != Key(distinct[j])
    requires multiset(sorted) == multiset(distinct)
    ensures forall i, j :: 0 <= i < j < |sorted| ==> Key(sorted[i]) != Key(sorted[j])
  {
    forall i, j | 0 <= i < j < |sorted| ensures Key(sorted[i]) != Key(sorted[j]) {
      DistinctKeysSurviveSort(distinct, sorted, i, j);
    }
  }

  lemma SortedComesFromVariants(variants: seq<Variant>, distinct: seq<RouteResult>, sorted: seq<RouteResult>)
    requires forall r :: r in distinct ==> Some(r) in ResultsOf(variants)
    requires multiset(sorted) == multiset(distinct)
    ensures forall r :: r in sorted ==> exists k :: 0 <= k < |variants| && variants[k] == Resolved(r)
  {
    var results := ResultsOf(variants);
    forall r | r in sorted ensures exists k :: 0 <= k < |variants| && variants[k] == Resolved(r) {
      assert r in multiset(sorted);
      assert r in distinct;
      var k :| 0 <= k < |results| && results[k] == Some(r);
      assert variants[k] == Resolved(r);
    }
  }

  lemma SortedCoversVariants(variants: seq<Variant>, distinct: seq<RouteResult>, sorted: seq<RouteResult>)
    requires KeysOf(distinct) == SuccessKeys(ResultsOf(variants), |variants|)
    requires multiset(sorted) == multiset(distinct)
    ensures forall k :: 0 <= k < |variants| && variants[k].Resolved? ==>
              exists r :: r in sorted && Key(r) == Key(variants[k].route)
  {
    var results := ResultsOf(variants);
    forall k | 0 <= k < |variants| && variants[k].Resolved?
      ensures exists r :: r in sorted && Key(r) == Key(variants[k].route)
    {
      assert results[k].Some? && Key(results[k].value) == Key(variants[k].route);
      assert Key(variants[k].route) in SuccessKeys(results, |results|);
      var r :| r in distinct && Key(r) == Key(variants[k].route);
      assert r in multiset(distinct);
      assert r in sorted;
    }
  }

  lemma {:induction false} SuccessCountBound(results: seq<Option<RouteResult>>)
    ensures CountSuccesses(results) <= |results|
  {
    if |results| > 0 {
      SuccessCountBound(results[..|results| - 1]);
    }
  }

  /** A permutation of a list with pairwise distinct keys has pairwise
      distinct keys. */
  lemma DistinctKeysSurviveSort(distinct: seq<RouteResult>, sorted: seq<RouteResult>, i: nat, j: nat)
    requires forall a, b :: 0 <= a < b < |distinct| ==> Key(distinct[a]) != Key(distinct[b])
    requires multiset(sorted) == multiset(distinct)
    requires i < j < |sorted|
    ensures Key(sorted[i]) != Key(sorted[j])
  {
    if Key(sorted[i]) == Key(sorted[j]) {
      assert sorted[i] in multiset(distinct) && sorted[j] in multiset(distinct);
      var a :| 0 <= a < |distinct| && distinct[a] == sorted[i];
      var b :| 0 <= b < |distinct| && distinct[b] == sorted[j];
      if a != b {
        assert false;
      }
      // The same route twice in `sorted` would occur twice in `distinct`.
      var m := multiset(sorted);
      assert sorted[i] == sorted[j];
      assert m[sorted[i]] >= 2 by {
        assert sorted == sorted[..i] + [sorted[i]] + sorted[i + 1..j] + [sorted[j]] + sorted[j + 1..];
      }
      OccursOnce(distinct, a);
      assert false;
    }
  }

  /** In a list with pairwise distinct keys, each element occurs once. */
  lemma OccursOnce(s: seq<RouteResult>, a: nat)
    requires forall x, y :: 0 <= x < y < |s| ==> Key(s[x]) != Key(s[y])
    requires a < |s|
    ensures multiset(s)[s[a]] == 1
  {
    assert s == s[..a] + [s[a]] + s[a + 1..];
    assert s[a] !in s[..a];
    assert s[a] !in s[a + 1..];
  }
}

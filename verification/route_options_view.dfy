/** The route cards' small rules: the transfer counter, the badge chosen for
    each route, and the "N transfer(s)" caption. */
module RouteOptionsView {
  import opened Text
  import Directions

  const Transit := "TRANSIT"
  const Walking := "WALKING"

  /** The counter's state: transfers so far and the mode last seen (only
      TRANSIT and WALKING steps change it). */
  datatype Tracker = Tracker(transfers: nat, mode: string)

  /** One iteration of the `forEach` in `countTransfers`. */
  function Advance(t: Tracker, travelMode: string): Tracker {
    if travelMode == Transit && t.mode != Transit then
      Tracker(if t.mode != "" then t.transfers + 1 else t.transfers, Transit)
    else if travelMode == Walking then Tracker(t.transfers, Walking)
    else t
  }

  /** The counter's state after the given steps. */
  function Scan(modes: seq<string>): Tracker {
    if |modes| == 0 then Tracker(0, "")
    else Advance(Scan(modes[..|modes| - 1]), modes[|modes| - 1])
  }

  /** `countTransfers(steps)` over the steps' travel modes. */
  method CountTransfers(modes: seq<string>) returns (transfers: nat)
    ensures transfers == Scan(modes).transfers
    ensures transfers <= Occurrences(modes, Transit) && transfers <= Occurrences(modes, Walking)
    ensures Walking !in modes ==> transfers == 0
  {
    transfers := 0;
    var currentMode := "";
    var i := 0;
    while i < |modes|
      invariant 0 <= i <= |modes|
      invariant Tracker(transfers, currentMode) == Scan(modes[..i])
    {
      assert modes[..i + 1][..i] == modes[..i];
      if modes[i] == Transit && currentMode != Transit {
        if currentMode != "" {
          transfers := transfers + 1;
        }
        currentMode := Transit;
      } else if modes[i] == Walking {
        currentMode := Walking;
      }
      i := i + 1;
    }
    assert modes[..|modes|] == modes;
    TransferBounds(modes);
    if Walking !in modes {
      NoWalkingNoOccurrence(modes);
    }
  }

  /** The steps the page counts over: the first leg's, or none. */
  function FirstLegModes(route: Directions.RouteResult): (r: seq<string>)
    ensures |route.legs| == 0 ==> r == []
    ensures |route.legs| > 0 ==> |r| == |route.legs[0].steps|
    ensures forall i :: 0 <= i < |r| ==> r[i] == route.legs[0].steps[i].travelMode
  {
    if |route.legs| == 0 then []
    else seq(|route.legs[0].steps|, i requires 0 <= i < |route.legs[0].steps| => route.legs[0].steps[i].travelMode)
  }

  /** The travel modes of the provider's first leg, before normalisation. */
  function ProviderModes(route: Directions.RawRoute): seq<string> {
    if |route.legs| == 0 then []
    else seq(|route.legs[0].steps|, i requires 0 <= i < |route.legs[0].steps| => route.legs[0].steps[i].travelMode)
  }

  /** The counter sees exactly the travel modes the provider sent for the
      first leg of the route it chose: normalisation keeps every step, in
      order, with its mode. */
  lemma CountedModesAreProviders(status: string, routes: seq<Directions.RawRoute>)
    ensures Directions.CalculateRoute(status, routes).Resolved? ==>
              FirstLegModes(Directions.CalculateRoute(status, routes).route) == ProviderModes(routes[0])
  {
    if Directions.CalculateRoute(status, routes).Resolved? {
      var leg := Directions.Normalise(routes[0]).legs[0];
      assert leg == Directions.NormaliseLeg(routes[0].legs[0]);
    }
  }

  function Occurrences(modes: seq<string>, m: string): nat {
    if |modes| == 0 then 0
    else Occurrences(modes[..|modes| - 1], m) + (if modes[|modes| - 1] == m then 1 else 0)
  }

  lemma {:induction false} NoWalkingNoOccurrence(modes: seq<string>)
    requires Walking !in modes
    ensures Occurrences(modes, Walking) == 0
  {
    if |modes| > 0 {
      assert forall x :: x in modes[..|modes| - 1] ==> x in modes;
      NoWalkingNoOccurrence(modes[..|modes| - 1]);
    }
  }

  /** The last TRANSIT or WALKING step's mode, or "" when there is none: what
      the tracked mode means. */
  function LastRelevant(modes: seq<string>): string {
    if |modes| == 0 then ""
    else if modes[|modes| - 1] in {Transit, Walking} then modes[|modes| - 1]
    else LastRelevant(modes[..|modes| - 1])
  }

  /** The tracked mode is always "", TRANSIT or WALKING: the last of those
      steps seen; other modes leave it unchanged. */
  lemma {:induction false} TrackedModeIsLastRelevant(modes: seq<string>)
    ensures Scan(modes).mode == LastRelevant(modes)
    ensures Scan(modes).mode in {"", Transit, Walking}
  {
    if |modes| > 0 {
      TrackedModeIsLastRelevant(modes[..|modes| - 1]);
    }
  }

  /** A transfer is counted exactly when a TRANSIT step comes after a
      WALKING step with no TRANSIT step in between; a leading TRANSIT step and
      consecutive TRANSIT steps count nothing. */
  lemma TransferStep(modes: seq<string>, m: string)
    ensures Scan(modes + [m]).transfers ==
              Scan(modes).transfers + (if m == Transit && LastRelevant(modes) == Walking then 1 else 0)
  {
    assert (modes + [m])[..|modes|] == modes;
    TrackedModeIsLastRelevant(modes);
  }

  /** Each transfer needs a TRANSIT step of its own and a WALKING step of its
      own, so neither count is exceeded. */
  lemma {:induction false} TransferBounds(modes: seq<string>)
    ensures Scan(modes).transfers <= Occurrences(modes, Transit)
    ensures Scan(modes).transfers + (if Scan(modes).mode == Walking then 1 else 0) <= Occurrences(modes, Walking)
  {
    if |modes| > 0 {
      TransferBounds(modes[..|modes| - 1]);
      TrackedModeIsLastRelevant(modes[..|modes| - 1]);
    }
  }

  // ---------------------------------------------------------------------
  // Badges and captions

  datatype RouteType = Fastest | FewerTransfers | LessWalking | Alternative

  function Label(t: RouteType): string {
    match t
    case Fastest => "Fastest"
    case FewerTransfers => "Fewer Transfers"
    case LessWalking => "Less Walking"
    case Alternative => "Alternative"
  }

  function Color(t: RouteType): string {
    match t
    case Fastest => "bg-green-100 text-green-800"
    case FewerTransfers => "bg-blue-100 text-blue-800"
    case LessWalking => "bg-yellow-100 text-yellow-800"
    case Alternative => "bg-gray-100 text-gray-800"
  }

  /** The four badges differ in both label and colour, so the badge a card
      shows identifies its route type. */
  lemma BadgesAreDistinct(a: RouteType, b: RouteType)
    ensures Label(a) == Label(b) <==> a == b
    ensures Color(a) == Color(b) <==> a == b
  {
  }

  /** `getRouteType(route, index)`. */
  function GetRouteType(summary: string, index: nat): (t: RouteType)
    ensures t == Fastest <==> index == 0
    ensures t == FewerTransfers <==> index > 0 && Contains(Lower(summary), "fewer transfers")
    ensures t == LessWalking <==>
              index > 0 && Contains(Lower(summary), "walking") && !Contains(Lower(summary), "fewer transfers")
    ensures t == Alternative <==>
              index > 0 && !Contains(Lower(summary), "fewer transfers") && !Contains(Lower(summary), "walking")
  {
    if index == 0 then Fastest
    else if Contains(Lower(summary), "fewer transfers") then FewerTransfers
    else if Contains(Lower(summary), "walking") then LessWalking
    else Alternative
  }

  /** The badge depends on the summary only up to letter case. */
  lemma RouteTypeIgnoresCase(a: string, b: string, index: nat)
    requires EqualsIgnoreCase(a, b)
    ensures GetRouteType(a, index) == GetRouteType(b, index)
  {
  }

  /** `${transfers} transfer${transfers !== 1 ? 's' : ''}`. */
  function TransferCaption(transfers: nat): (r: string)
    ensures |r| > |NatToString(transfers)|
    ensures r[|r| - 1] == 's' <==> transfers != 1
    ensures r[..|NatToString(transfers)|] == NatToString(transfers)
  {
    NatToString(transfers) + " transfer" + (if transfers != 1 then "s" else "")
  }

  /** The caption can be read back: its leading digits are the count, so two
      different counts never share a caption. */
  lemma TransferCaptionReadsBack(n: nat, m: nat)
    ensures DigitsValue(TransferCaption(n)[..|NatToString(n)|]) == n
    ensures TransferCaption(n) == TransferCaption(m) ==> n == m
  {
    DigitsValueOfNatToString(n);
    if TransferCaption(n) == TransferCaption(m) {
      var c := TransferCaption(n);
      var a, b := NatToString(n), NatToString(m);
      assert c[|a|] == ' ' && c[|b|] == ' ';
      assert a == c[..|a|] == b;
      NatToStringInjective(n, m);
    }
  }
}

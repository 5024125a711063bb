/** The trip planner page's crowding classifiers and its planning guard. */
module TripPlanner {

  /** The four crowding bands, from least to most crowded. */
  datatype Band = LowBand | MediumBand | HighBand | VeryHighBand

  /** The band a crowding level (a percentage) falls in. */
  function BandOf(level: int): Band {
    if level < 30 then LowBand
    else if level < 60 then MediumBand
    else if level < 80 then HighBand
    else VeryHighBand
  }

  function BandRank(b: Band): nat {
    match b
    case LowBand => 0
    case MediumBand => 1
    case HighBand => 2
    case VeryHighBand => 3
  }

  function BandLabel(b: Band): string {
    match b
    case LowBand => "Low"
    case MediumBand => "Medium"
    case HighBand => "High"
    case VeryHighBand => "Very High"
  }

  function BandColor(b: Band): string {
    match b
    case LowBand => "text-green-600"
    case MediumBand => "text-yellow-600"
    case HighBand => "text-orange-600"
    case VeryHighBand => "text-red-600"
  }

  /** `getCrowdingLabel(level)`. */
  function CrowdingLabel(level: int): (r: string)
    ensures r == "Low" <==> level < 30
    ensures r == "Medium" <==> 30 <= level < 60
    ensures r == "High" <==> 60 <= level < 80
    ensures r == "Very High" <==> level >= 80
  {
    if level < 30 then "Low"
    else if level < 60 then "Medium"
    else if level < 80 then "High"
    else "Very High"
  }

  /** `getCrowdingColor(level)`. */
  function CrowdingColor(level: int): (r: string)
    ensures r == "text-green-600" <==> level < 30
    ensures r == "text-yellow-600" <==> 30 <= level < 60
    ensures r == "text-orange-600" <==> 60 <= level < 80
    ensures r == "text-red-600" <==> level >= 80
  {
    if level < 30 then "text-green-600"
    else if level < 60 then "text-yellow-600"
    else if level < 80 then "text-orange-600"
    else "text-red-600"
  }

  /** Label and colour always agree: both are the same band's. */
  lemma LabelAndColorAgree(level: int)
    ensures CrowdingLabel(level) == BandLabel(BandOf(level))
    ensures CrowdingColor(level) == BandColor(BandOf(level))
  {
  }

  /** A higher level never falls in a lower band. */
  lemma BandsAreMonotone(a: int, b: int)
    requires a <= b
    ensures BandRank(BandOf(a)) <= BandRank(BandOf(b))
  {
  }

  /** One of the trip options the planner shows. */
  datatype TripOption = TripOption(id: string, routes: seq<string>, duration: string, transfers: nat, crowdingLevel: int)

  /** The options the planner shows once it has "planned" (a fixed list). */
  function MockTripOptions(): seq<TripOption> {
    [ TripOption("1", ["Walk", "86"], "32 min", 0, 25),
      TripOption("2", ["Walk", "19", "86"], "28 min", 1, 65) ]
  }

  datatype Planner = Planner(fromLocation: string, toLocation: string, departureTime: string,
                             isPlanning: bool, tripOptions: seq<TripOption>)

  /** `handlePlanTrip`, from the click to the end of its wait. */
  function PlanTrip(p: Planner): (r: Planner)
    ensures p.fromLocation == "" || p.toLocation == "" ==> r == p
    ensures p.fromLocation != "" && p.toLocation != "" ==>
              r == p.(isPlanning := false, tripOptions := MockTripOptions())
  {
    if p.fromLocation == "" || p.toLocation == "" then p
    else p.(isPlanning := false, tripOptions := MockTripOptions())
  }
}

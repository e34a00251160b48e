/** The street modes a request asks for on access, egress and direct legs. */
module StreetModes {
  datatype StreetMode =
    | NotSet | Walk | Bike | BikeToPark | BikeRental | ScooterRental
    | Car | CarToPark | CarPickup | CarRental | Flexible
}

/**
 * AStarRequest: a street search request. Its street mode fixes the
 * traverse modes of the search and the park-and-ride, rental and pickup
 * flags; the reversed copy differs in the arrive-by flag alone.
 */
module AStarRequest {
  import opened Wrappers
  import opened StreetModes

  datatype TraverseMode = WalkMode | BicycleMode | CarMode
  datatype FormFactor = BicycleForm | ScooterForm | CarForm

  /** The request's own inputs; locations, time, parking, rental and preferences stand for the objects passed in. */
  datatype Inputs = Inputs(
    from: int, to: int, dateTime: int, arriveBy: bool, mode: StreetMode,
    rental: int, parking: int, preferences: int)

  datatype Request = Request(
    inputs: Inputs,
    streetSubRequestModes: set<TraverseMode>,
    parkAndRide: bool,
    vehicleRental: bool,
    allowedRentalFormFactors: set<FormFactor>,
    carPickup: bool)

  /** The constructor's IllegalArgumentException. */
  datatype RequestError = StreetModeNotSet

  /** The traverse modes for a street mode that is set. */
  function SubRequestModes(mode: StreetMode): set<TraverseMode>
    requires mode != NotSet
  {
    match mode
    case Walk | Flexible => {WalkMode}
    case Bike => {BicycleMode}
    case BikeToPark | BikeRental | ScooterRental => {BicycleMode, WalkMode}
    case Car => {CarMode}
    case CarToPark | CarPickup | CarRental => {CarMode, WalkMode}
  }

  function RentalFormFactors(mode: StreetMode): set<FormFactor> {
    match mode
    case BikeRental => {BicycleForm}
    case ScooterRental => {ScooterForm}
    case CarRental => {CarForm}
    case _ => {}
  }

  /**
   * The constructor: an unset street mode throws; otherwise the traverse
   * modes and flags are those of the mode.
   */
  function New(inputs: Inputs): (r: Result<Request, RequestError>)
    ensures r.Err? <==> inputs.mode == NotSet
    ensures r.Ok? ==>
              && r.value.inputs == inputs
              && (r.value.parkAndRide <==> inputs.mode in {BikeToPark, CarToPark})
              && (r.value.vehicleRental <==> inputs.mode in {BikeRental, ScooterRental, CarRental})
              && (r.value.carPickup <==> inputs.mode == CarPickup)
  {
    if inputs.mode == NotSet then Err(StreetModeNotSet)
    else
      var mode := inputs.mode;
      Ok(Request(
        inputs,
        SubRequestModes(mode),
        mode == BikeToPark || mode == CarToPark,
        mode == BikeRental || mode == ScooterRental || mode == CarRental,
        RentalFormFactors(mode),
        mode == CarPickup))
  }

  /**
   * What the flags promise together: the search walks whenever it parks,
   * rents or picks up; renting allows exactly one form factor and not
   * renting none; a car is driven exactly for the car modes, a bicycle
   * ridden exactly for the bicycle and scooter modes.
   */
  lemma FlagsAgree(inputs: Inputs)
    requires inputs.mode != NotSet
    ensures var q := New(inputs).value;
      (q.parkAndRide || q.vehicleRental || q.carPickup ==> WalkMode in q.streetSubRequestModes)
      && (q.vehicleRental <==> |q.allowedRentalFormFactors| == 1)
      && (!q.vehicleRental <==> q.allowedRentalFormFactors == {})
      && (CarMode in q.streetSubRequestModes <==> inputs.mode in {Car, CarToPark, CarPickup, CarRental})
      && (BicycleMode in q.streetSubRequestModes <==> inputs.mode in {Bike, BikeToPark, BikeRental, ScooterRental})
      && q.streetSubRequestModes != {}
      && !(q.parkAndRide && q.vehicleRental) && !(q.carPickup && (q.parkAndRide || q.vehicleRental))
  {
  }

  /** Parking a car gives the car and walk modes. */
  lemma CarToParkModes(inputs: Inputs)
    requires inputs.mode == CarToPark
    ensures New(inputs).Ok? && New(inputs).value.streetSubRequestModes == {CarMode, WalkMode}
  {
  }

  /**
   * copyOfReversed: the same inputs with the arrive-by flag flipped;
   * the rental, parking and preference objects are cloned, which the
   * model takes to leave their values unchanged.
   */
  function CopyOfReversed(q: Request): (r: Result<Request, RequestError>)
    requires q.inputs.mode != NotSet
    ensures r.Ok?
  {
    New(q.inputs.(arriveBy := !q.inputs.arriveBy))
  }

  /** The reversed copy differs in the arrive-by flag alone, and reversing twice gives the request back. */
  lemma ReversedFlipsOnlyArriveBy(inputs: Inputs)
    requires inputs.mode != NotSet
    ensures var q := New(inputs).value;
      var r := CopyOfReversed(q).value;
      r.inputs.arriveBy == !q.inputs.arriveBy
      && r.inputs.(arriveBy := q.inputs.arriveBy) == q.inputs
      && r.(inputs := q.inputs) == q
      && CopyOfReversed(r) == Ok(q)
  {
  }
}

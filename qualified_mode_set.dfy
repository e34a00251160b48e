/**
 * QualifiedModeSet: the modes of the REST mode parameter, one qualified
 * mode per comma-separated piece, turned into request modes. Transit modes
 * collect over all the qualified modes; the access, egress and direct
 * street modes are those of the last street mode met in the set's
 * iteration order.
 */
module QualifiedModeSet {
  import opened Wrappers
  import opened StreetModes
  import opened TransitModes
  import opened JavaStrings

  /** The modes the parameter names; ApiOther stands for those the mapping ignores. */
  datatype ApiMode =
    | ApiWalk | ApiBicycle | ApiCar | ApiTransit | ApiRail | ApiSubway | ApiBus | ApiTram
    | ApiFerry | ApiAirplane | ApiCableCar | ApiGondola | ApiFunicular | ApiOther

  datatype Qualifier = Rent | Park | OtherQualifier

  datatype QualifiedMode = QualifiedMode(mode: ApiMode, qualifiers: set<Qualifier>)

  /** The access, egress and direct street modes; None is null. */
  datatype StreetTriple = StreetTriple(access: Option<StreetMode>, egress: Option<StreetMode>, direct: Option<StreetMode>)

  datatype RequestModes = RequestModes(street: StreetTriple, transitModes: set<TransitMode>)

  /** The transit modes one qualified mode adds; TRANSIT falls through to RAIL. */
  function TransitOf(q: QualifiedMode, allMainModes: set<TransitMode>): set<TransitMode> {
    match q.mode
    case ApiTransit => allMainModes + {Rail}
    case ApiRail => {Rail}
    case ApiSubway => {Subway}
    case ApiBus => {Bus}
    case ApiTram => {Tram}
    case ApiFerry => {Ferry}
    case ApiAirplane => {Airplane}
    case ApiCableCar => {CableCar}
    case ApiGondola => {Gondola}
    case ApiFunicular => {Funicular}
    case _ => {}
  }

  /** The street modes one qualified mode sets, if it is a street mode. */
  function StreetOf(q: QualifiedMode): Option<StreetTriple> {
    match q.mode
    case ApiWalk => Some(StreetTriple(Some(Walk), Some(Walk), Some(Walk)))
    case ApiBicycle =>
      if Rent in q.qualifiers then Some(StreetTriple(Some(BikeRental), Some(BikeRental), Some(BikeRental)))
      else if Park in q.qualifiers then Some(StreetTriple(Some(BikeToPark), Some(Walk), Some(BikeToPark)))
      else Some(StreetTriple(Some(Bike), Some(Bike), Some(Bike)))
    case ApiCar =>
      if Rent in q.qualifiers then Some(StreetTriple(Some(CarRental), Some(CarRental), Some(CarRental)))
      else if Park in q.qualifiers then Some(StreetTriple(Some(CarToPark), Some(Walk), Some(CarToPark)))
      else Some(StreetTriple(Some(Walk), Some(Walk), Some(Car)))
    case _ => None
  }

  /** The transit modes of the first k qualified modes in iteration order. */
  ghost function TransitUpTo(order: seq<QualifiedMode>, allMainModes: set<TransitMode>, k: nat): set<TransitMode>
    requires k <= |order|
  {
    set t, i | 0 <= i < k && t in TransitOf(order[i], allMainModes) :: t
  }

  /** The transit modes of all the qualified modes. */
  ghost function TransitModesOf(qModes: set<QualifiedMode>, allMainModes: set<TransitMode>): set<TransitMode> {
    set t, q | q in qModes && t in TransitOf(q, allMainModes) :: t
  }

  /** The street modes after the first k qualified modes in iteration order: the last street mode's. */
  function StreetUpTo(order: seq<QualifiedMode>, k: nat): StreetTriple
    requires k <= |order|
  {
    if k == 0 then StreetTriple(None, None, None)
    else
      var s := StreetOf(order[k - 1]);
      if s.Some? then s.value else StreetUpTo(order, k - 1)
  }

  /** With no street mode among the first k, all three street modes stay null. */
  lemma {:induction false} StreetUpToNone(order: seq<QualifiedMode>, k: nat)
    requires k <= |order| && forall j :: 0 <= j < k ==> StreetOf(order[j]).None?
    ensures StreetUpTo(order, k) == StreetTriple(None, None, None)
  {
    if k > 0 {
      StreetUpToNone(order, k - 1);
    }
  }

  /** The street modes are those of the last street mode among the first k. */
  lemma {:induction false} StreetUpToLast(order: seq<QualifiedMode>, k: nat, i: nat)
    requires i < k <= |order| && StreetOf(order[i]).Some?
    requires forall j :: i < j < k ==> StreetOf(order[j]).None?
    ensures StreetUpTo(order, k) == StreetOf(order[i]).value
  {
    if k - 1 != i {
      assert StreetOf(order[k - 1]).None?;
      StreetUpToLast(order, k - 1, i);
    }
  }

  /**
   * With at most one street mode among the qualified modes, the street
   * modes do not depend on the iteration order: they are that mode's, or
   * all null.
   */
  lemma OneStreetModeIsOrderFree(order: seq<QualifiedMode>, qModes: set<QualifiedMode>, q: QualifiedMode)
    requires forall m :: m in order <==> m in qModes
    requires q in qModes && StreetOf(q).Some?
    requires forall m :: m in qModes && StreetOf(m).Some? ==> m == q
    ensures StreetUpTo(order, |order|) == StreetOf(q).value
  {
    var i :| 0 <= i < |order| && order[i] == q;
    var last := LastStreetIndex(order, |order|, i);
    assert order[last] in qModes;
    StreetUpToLast(order, |order|, last);
  }

  /** The last index below k of a street mode, given one at i. */
  function LastStreetIndex(order: seq<QualifiedMode>, k: nat, i: nat): (r: nat)
    requires i < k <= |order| && StreetOf(order[i]).Some?
    ensures i <= r < k && StreetOf(order[r]).Some? && forall j :: r < j < k ==> StreetOf(order[j]).None?
    decreases k
  {
    if k - 1 == i || StreetOf(order[k - 1]).Some? then k - 1 else LastStreetIndex(order, k - 1, i)
  }

  /** With two street modes the order decides: WALK then BICYCLE walks, the other order cycles. */
  lemma TwoStreetModesDependOnOrder()
    ensures var walk := QualifiedMode(ApiWalk, {});
      var bike := QualifiedMode(ApiBicycle, {});
      StreetUpTo([walk, bike], 2).direct == Some(Bike)
      && StreetUpTo([bike, walk], 2).direct == Some(Walk)
  {
  }

  class QualifiedModeSet {
    var qModes: set<QualifiedMode>

    /**
     * The constructor: one qualified mode per piece of the text split on
     * commas; parse stands for the QualifiedMode constructor.
     */
    constructor(s: string, parse: string -> QualifiedMode)
      ensures qModes == set k | 0 <= k < |Split(s, {','}, false)| :: parse(Split(s, {','}, false)[k])
    {
      var pieces := Split(s, {','}, false);
      var modes := {};
      var k := 0;
      while k < |pieces|
        invariant 0 <= k <= |pieces|
        invariant modes == set j | 0 <= j < k :: parse(pieces[j])
      {
        modes := modes + {parse(pieces[k])};
        k := k + 1;
      }
      qModes := modes;
    }

    /**
     * getRequestModes: the transit modes of every qualified mode, then the
     * street modes of each street mode in turn; order is the set's
     * iteration order and allMainModes the transit mode service's main
     * modes.
     */
    method GetRequestModes(order: seq<QualifiedMode>, allMainModes: set<TransitMode>) returns (r: RequestModes)
      requires forall m :: m in order <==> m in qModes
      ensures r.transitModes == TransitModesOf(qModes, allMainModes)
      ensures r.street == StreetUpTo(order, |order|)
    {
      var transitModes: set<TransitMode> := {};
      var i := 0;
      while i < |order|
        invariant 0 <= i <= |order|
        invariant transitModes == TransitUpTo(order, allMainModes, i)
      {
        var qMode := order[i];
        match qMode.mode {
          case ApiTransit => transitModes := transitModes + allMainModes + {Rail};
          case ApiRail => transitModes := transitModes + {Rail};
          case ApiSubway => transitModes := transitModes + {Subway};
          case ApiBus => transitModes := transitModes + {Bus};
          case ApiTram => transitModes := transitModes + {Tram};
          case ApiFerry => transitModes := transitModes + {Ferry};
          case ApiAirplane => transitModes := transitModes + {Airplane};
          case ApiCableCar => transitModes := transitModes + {CableCar};
          case ApiGondola => transitModes := transitModes + {Gondola};
          case ApiFunicular => transitModes := transitModes + {Funicular};
          case _ =>
        }
        assert TransitUpTo(order, allMainModes, i + 1)
               == TransitUpTo(order, allMainModes, i) + TransitOf(qMode, allMainModes);
        i := i + 1;
      }
      TransitOfOrderIsOfSet(order, qModes, allMainModes);

      var access: Option<StreetMode> := None;
      var egress: Option<StreetMode> := None;
      var direct: Option<StreetMode> := None;
      i := 0;
      while i < |order|
        invariant 0 <= i <= |order|
        invariant StreetTriple(access, egress, direct) == StreetUpTo(order, i)
      {
        var qMode := order[i];
        match qMode.mode {
          case ApiWalk =>
            access, egress, direct := Some(Walk), Some(Walk), Some(Walk);
          case ApiBicycle =>
            if Rent in qMode.qualifiers {
              access, egress, direct := Some(BikeRental), Some(BikeRental), Some(BikeRental);
            } else if Park in qMode.qualifiers {
              access, egress, direct := Some(BikeToPark), Some(Walk), Some(BikeToPark);
            } else {
              access, egress, direct := Some(Bike), Some(Bike), Some(Bike);
            }
          case ApiCar =>
            if Rent in qMode.qualifiers {
              access, egress, direct := Some(CarRental), Some(CarRental), Some(CarRental);
            } else if Park in qMode.qualifiers {
              access, egress, direct := Some(CarToPark), Some(Walk), Some(CarToPark);
            } else {
              access, egress, direct := Some(Walk), Some(Walk), Some(Car);
            }
          case _ =>
        }
        i := i + 1;
      }
      r := RequestModes(StreetTriple(access, egress, direct), transitModes);
    }
  }

  /** Collecting along any iteration order of the set gives the transit modes of the set. */
  lemma TransitOfOrderIsOfSet(order: seq<QualifiedMode>, qModes: set<QualifiedMode>, allMainModes: set<TransitMode>)
    requires forall m :: m in order <==> m in qModes
    ensures TransitUpTo(order, allMainModes, |order|) == TransitModesOf(qModes, allMainModes)
  {
    forall t | t in TransitModesOf(qModes, allMainModes)
      ensures t in TransitUpTo(order, allMainModes, |order|)
    {
      var q :| q in qModes && t in TransitOf(q, allMainModes);
      var i :| 0 <= i < |order| && order[i] == q;
    }
    forall t | t in TransitUpTo(order, allMainModes, |order|)
      ensures t in TransitModesOf(qModes, allMainModes)
    {
      var i :| 0 <= i < |order| && t in TransitOf(order[i], allMainModes);
      assert order[i] in qModes;
    }
  }

  /**
   * RAIL is selected exactly when TRANSIT or RAIL is among the modes, and
   * TRANSIT selects every main mode.
   */
  lemma TransitFallsThroughToRail(qModes: set<QualifiedMode>, allMainModes: set<TransitMode>)
    ensures Rail in TransitModesOf(qModes, allMainModes) <==>
      (exists q :: q in qModes && q.mode in {ApiTransit, ApiRail}) || (Rail in allMainModes && exists q :: q in qModes && q.mode == ApiTransit)
    ensures (exists q :: q in qModes && q.mode == ApiTransit) ==> allMainModes <= TransitModesOf(qModes, allMainModes)
  {
    if exists q :: q in qModes && q.mode in {ApiTransit, ApiRail} {
      var q :| q in qModes && q.mode in {ApiTransit, ApiRail};
      assert Rail in TransitOf(q, allMainModes);
    }
    if Rail in TransitModesOf(qModes, allMainModes) {
      var q :| q in qModes && Rail in TransitOf(q, allMainModes);
    }
    if exists q :: q in qModes && q.mode == ApiTransit {
      var q :| q in qModes && q.mode == ApiTransit;
      forall t | t in allMainModes
        ensures t in TransitModesOf(qModes, allMainModes)
      {
        assert t in TransitOf(q, allMainModes);
      }
    }
  }
}

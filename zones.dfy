/**
 * The sixteen directional zones and their angular layout around the plot
 * centre.  Angles are compass degrees measured clockwise from North; the
 * north tilt rotates the whole wheel.  Zone i is centred on tilt + 22.5 * i
 * and bounded by the rays 11.25 degrees either side of its centre.
 */
module Zones {
  datatype Zone = N | NNE | NE | ENE | E | ESE | SE | SSE | S | SSW | SW | WSW | W | WNW | NW | NNW

  /** The zones in wheel order, clockwise from North. */
  const ZoneOrder: seq<Zone> := [N, NNE, NE, ENE, E, ESE, SE, SSE, S, SSW, SW, WSW, W, WNW, NW, NNW]

  /** The label of a zone. */
  function Name(z: Zone): string
  {
    match z
    case N => "N"
    case NNE => "NNE"
    case NE => "NE"
    case ENE => "ENE"
    case E => "E"
    case ESE => "ESE"
    case SE => "SE"
    case SSE => "SSE"
    case S => "S"
    case SSW => "SSW"
    case SW => "SW"
    case WSW => "WSW"
    case W => "W"
    case WNW => "WNW"
    case NW => "NW"
    case NNW => "NNW"
  }

  /** The zone names in wheel order. */
  const ZoneNames: seq<string> := ["N", "NNE", "NE", "ENE", "E", "ESE", "SE", "SSE", "S", "SSW", "SW", "WSW", "W", "WNW", "NW", "NNW"]

  /** Position of a zone on the wheel. */
  function Index(z: Zone): (i: nat)
    ensures i < |ZoneOrder| && ZoneOrder[i] == z
  {
    match z
    case N => 0
    case NNE => 1
    case NE => 2
    case ENE => 3
    case E => 4
    case ESE => 5
    case SE => 6
    case SSE => 7
    case S => 8
    case SSW => 9
    case SW => 10
    case WSW => 11
    case W => 12
    case WNW => 13
    case NW => 14
    case NNW => 15
  }

  /** Every zone appears exactly once in the wheel order, and the name list is the names in that order. */
  lemma ZoneOrderIsEnumeration()
    ensures |ZoneOrder| == 16 && |ZoneNames| == 16
    ensures forall i :: 0 <= i < 16 ==> Index(ZoneOrder[i]) == i
    ensures forall i :: 0 <= i < 16 ==> ZoneNames[i] == Name(ZoneOrder[i])
  {
  }

  lemma EveryZoneListed()
    ensures forall z: Zone :: z in ZoneOrder
  {
    forall z: Zone
      ensures z in ZoneOrder
    {
      assert ZoneOrder[Index(z)] == z;
    }
  }

  /** Distinct zones carry distinct names, so a name identifies its zone. */
  lemma NamesDistinct(z1: Zone, z2: Zone)
    ensures Name(z1) == Name(z2) <==> z1 == z2
  {
  }

  // ---------------------------------------------------------------
  // Angular layout
  // ---------------------------------------------------------------

  /** Angular width of one zone: 360 / 16 degrees. */
  const Step: real := 360.0 / 16.0

  /** Direction of boundary ray i, the clockwise start of zone i. */
  function BoundaryAngle(tilt: real, i: int): (a: real)
    ensures a == tilt - 11.25 + 22.5 * i as real
  {
    (tilt - Step / 2.0) + i as real * Step
  }

  /** The bounds (a1, a2) of the wedge of zone i. */
  datatype Wedge = Wedge(a1: real, a2: real)

  function ZoneWedge(tilt: real, i: nat): (w: Wedge)
    requires i < 16
    ensures w.a1 == BoundaryAngle(tilt, i) && w.a2 == w.a1 + Step
  {
    Wedge(BoundaryAngle(tilt, i), BoundaryAngle(tilt, i + 1))
  }

  /** Direction at which the label of zone i is placed. */
  function LabelAngle(tilt: real, i: nat): (a: real)
    requires i < 16
    ensures a == BoundaryAngle(tilt, i) + Step / 2.0
  {
    tilt + i as real * Step
  }

  /** Every wedge spans 22.5 degrees, starting 11.25 degrees before its label direction. */
  lemma WedgeBounds(tilt: real, i: nat)
    requires i < 16
    ensures ZoneWedge(tilt, i).a1 == tilt - 11.25 + 22.5 * i as real
    ensures ZoneWedge(tilt, i).a2 == ZoneWedge(tilt, i).a1 + 22.5
  {
  }

  /** Consecutive wedges share their boundary ray. */
  lemma WedgesAdjacent(tilt: real, i: nat)
    requires i < 15
    ensures ZoneWedge(tilt, i).a2 == ZoneWedge(tilt, i + 1).a1
  {
  }

  /** The last wedge ends one full turn after the first one starts. */
  lemma WedgesCloseTheTurn(tilt: real)
    ensures ZoneWedge(tilt, 15).a2 == ZoneWedge(tilt, 0).a1 + 360.0
  {
  }

  /** The label of a zone sits on the bisector of its wedge. */
  lemma LabelIsMidpoint(tilt: real, i: nat)
    requires i < 16
    ensures LabelAngle(tilt, i) == (ZoneWedge(tilt, i).a1 + ZoneWedge(tilt, i).a2) / 2.0
  {
  }

  /** Tilting the wheel by one step moves every wedge onto the next one's position. */
  lemma TiltByStepShiftsZones(tilt: real, i: nat)
    requires i < 15
    ensures ZoneWedge(tilt + Step, i) == ZoneWedge(tilt, i + 1)
  {
  }

  /** The zone whose wedge [a1, a2) holds a direction within the turn starting at the first boundary ray. */
  function ZoneAt(tilt: real, angle: real): (i: nat)
    requires BoundaryAngle(tilt, 0) <= angle < BoundaryAngle(tilt, 0) + 360.0
    ensures i < 16
    ensures ZoneWedge(tilt, i).a1 <= angle < ZoneWedge(tilt, i).a2
  {
    var q := (angle - BoundaryAngle(tilt, 0)) / Step;
    assert 0.0 <= q < 16.0;
    var i := q.Floor;
    assert i as real <= q < i as real + 1.0;
    i
  }

  /** The wedges partition the turn: a direction lies in exactly one wedge. */
  lemma WedgesPartitionTurn(tilt: real, angle: real, j: nat)
    requires BoundaryAngle(tilt, 0) <= angle < BoundaryAngle(tilt, 0) + 360.0
    requires j < 16
    ensures ZoneWedge(tilt, j).a1 <= angle < ZoneWedge(tilt, j).a2 <==> j == ZoneAt(tilt, angle)
  {
    var i := ZoneAt(tilt, angle);
    if j < i {
      assert ZoneWedge(tilt, j).a2 <= ZoneWedge(tilt, i).a1 by {
        assert (j + 1) as real <= i as real;
      }
    } else if i < j {
      assert ZoneWedge(tilt, i).a2 <= ZoneWedge(tilt, j).a1 by {
        assert (i + 1) as real <= j as real;
      }
    }
  }
}

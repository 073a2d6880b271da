/** The lid and halyard sensors (`SensorManager`, sensors/SensorManager.cpp).
    A pin reading is a boolean: `true` is HIGH. The reading is a parameter
    of every operation that samples a pin; the one remembered bit is the
    previous lid reading, kept to report edges. */
module Sensors {

  /** The lid is open while its pin reads LOW. */
  function LidOpen(lidLevel: bool): (r: bool)
    ensures r <==> lidLevel == false
  {
    !lidLevel
  }

  /** The halyard sensor is triggered while its pin reads HIGH. */
  function HalyardTriggered(halyardLevel: bool): (r: bool)
    ensures r <==> halyardLevel == true
  {
    halyardLevel
  }

  /** The edge `lidJustClosed` reports: the previous reading was LOW (open)
      and the current one is HIGH (closed). */
  function ClosedEdge(prev: bool, current: bool): (r: bool)
    ensures r <==> LidOpen(prev) && !LidOpen(current)
  {
    !prev && current
  }

  /** The edge `lidJustOpened` reports: the previous reading was HIGH
      (closed) and the current one is LOW (open). */
  function OpenedEdge(prev: bool, current: bool): (r: bool)
    ensures r <==> !LidOpen(prev) && LidOpen(current)
  {
    prev && !current
  }

  /** An edge is reported exactly when the reading changed, and never both
      at once. */
  lemma EdgeIffChange(prev: bool, current: bool)
    ensures ClosedEdge(prev, current) || OpenedEdge(prev, current) <==> prev != current
    ensures !(ClosedEdge(prev, current) && OpenedEdge(prev, current))
  {
  }

  /** Edges alternate along any run of readings: counting the closings and
      openings seen from `prev` through `readings`, the difference is the
      net change of the lid between the first and last reading. */
  function Closings(prev: bool, readings: seq<bool>): (n: nat)
    ensures n <= |readings|
    decreases |readings|
  {
    if readings == [] then 0
    else (if ClosedEdge(prev, readings[0]) then 1 else 0) + Closings(readings[0], readings[1..])
  }

  function Openings(prev: bool, readings: seq<bool>): (n: nat)
    ensures n <= |readings|
    decreases |readings|
  {
    if readings == [] then 0
    else (if OpenedEdge(prev, readings[0]) then 1 else 0) + Openings(readings[0], readings[1..])
  }

  function Last(prev: bool, readings: seq<bool>): bool {
    if readings == [] then prev else readings[|readings| - 1]
  }

  /** Between two closings there is always an opening: the number of
      closings minus the number of openings is 1 if the lid went from open
      to closed, -1 if from closed to open, and 0 if it ends as it began. */
  lemma {:induction false} EdgesAlternate(prev: bool, readings: seq<bool>)
    ensures Closings(prev, readings) - Openings(prev, readings)
            == (if ClosedEdge(prev, Last(prev, readings)) then 1
                else if OpenedEdge(prev, Last(prev, readings)) then -1
                else 0)
    decreases |readings|
  {
    if readings != [] {
      EdgesAlternate(readings[0], readings[1..]);
      assert Last(readings[0], readings[1..]) == Last(prev, readings);
    }
  }

  class SensorManager {
    var halyardPin: int
    var lidPin: int
    /** The last lid reading an edge query or `initialize` took; HIGH
        (closed) before any. */
    var prevLidState: bool

    constructor ()
      ensures halyardPin == -1 && lidPin == -1 && prevLidState
    {
      halyardPin, lidPin, prevLidState := -1, -1, true;
    }

    /** `initialize`: take the pins and seed the previous lid reading from
        the lid pin's current level. */
    method Initialize(halyard: int, lid: int, lidLevel: bool)
      modifies this
      ensures halyardPin == halyard && lidPin == lid && prevLidState == lidLevel
    {
      halyardPin, lidPin := halyard, lid;
      prevLidState := lidLevel;
    }

    /** `lidJustClosed`: report a closing edge and remember the reading. */
    method LidJustClosed(lidLevel: bool) returns (wasOpen: bool)
      modifies this`prevLidState
      ensures wasOpen == ClosedEdge(old(prevLidState), lidLevel)
      ensures prevLidState == lidLevel
    {
      var current := lidLevel;
      wasOpen := !prevLidState && current;
      prevLidState := current;
    }

    /** `lidJustOpened`: report an opening edge and remember the reading. */
    method LidJustOpened(lidLevel: bool) returns (wasClosed: bool)
      modifies this`prevLidState
      ensures wasClosed == OpenedEdge(old(prevLidState), lidLevel)
      ensures prevLidState == lidLevel
    {
      var current := lidLevel;
      wasClosed := prevLidState && !current;
      prevLidState := current;
    }
  }
}

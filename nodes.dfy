/**
 * A marina's transitional point: its coordinates and the time elapsed since the
 * start of the simulation.
 */
module Nodes {

  /** An integer plane coordinate (the role `java.awt.Point` plays in `MarinasPositionsCalculator.java`). */
  datatype Point = Point(x: int, y: int)

  /** The value a `Node` holds. Snapshots store node values. */
  datatype NodeState = NodeState(coordinates: Point, time: int)

  /** Coordinates translated by `offset`. */
  function Translate(p: Point, offset: Point): Point
  {
    Point(p.x + offset.x, p.y + offset.y)
  }

  class Node {
    var coordinates: Point
    var time: int

    /** The abstract value of this node. */
    function State(): NodeState
      reads this
    {
      NodeState(coordinates, time)
    }

    constructor (coordinates: Point, time: int)
      ensures State() == NodeState(coordinates, time)
    {
      this.coordinates := coordinates;
      this.time := time;
    }

    function GetCoordinates(): (c: Point)
      reads this
      ensures c == State().coordinates
    {
      coordinates
    }

    function GetTime(): (t: int)
      reads this
      ensures t == State().time
    {
      time
    }

    method SetCoordinates(c: Point)
      modifies this
      ensures State() == old(State()).(coordinates := c)
      ensures GetCoordinates() == c && GetTime() == old(GetTime())
    {
      coordinates := c;
    }

    method SetTime(t: int)
      modifies this
      ensures State() == old(State()).(time := t)
      ensures GetTime() == t && GetCoordinates() == old(GetCoordinates())
    {
      time := t;
    }
  }
}

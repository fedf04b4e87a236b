/** The tools of tools.py: each turns the selection accumulated so far into the
    next tool (or None, when selecting is over), possibly acting on the world. */
module Tools {
  import opened Wrappers
  import opened Physics
  import opened Entities

  /** The tool classes the selection protocol covers. */
  datatype Tool = Drill | Umbilical | Strut | Nuke

  /** One entry of the selection: the asteroid clicked and the world point clicked. */
  type Pick = (Asteroid, Vector)

  /** The two tools that join two asteroids. */
  predicate Joins(t: Tool)
  {
    t.Umbilical? || t.Strut?
  }

  /** The strict bound on the distance between the two clicks. */
  function Reach(t: Tool): real
    requires Joins(t)
  {
    if t.Umbilical? then 300.0 else 200.0
  }

  /** `(pos_1-pos_2).magnitude < reach`, stated on squared lengths. */
  predicate InReach(c1: Vector, c2: Vector, reach: real)
  {
    DistSq(c1, c2) < reach * reach
  }

  /** The squared test agrees with the test on the distance m itself. */
  lemma InReachIsDistance(c1: Vector, c2: Vector, reach: real, m: real)
    requires 0.0 <= m && 0.0 <= reach && m * m == DistSq(c1, c2)
    ensures InReach(c1, c2, reach) <==> m < reach
  {
    SquaresOrdered(m, reach);
  }

  /** Clicks exactly 200 apart are out of a strut's reach: the bound is strict. */
  lemma StrutReachIsStrict()
    ensures !InReach(Vector(0.0, 0.0), Vector(200.0, 0.0), Reach(Strut))
  {
    assert Reach(Strut) * Reach(Strut) == 40000.0;
    assert Sub(Vector(0.0, 0.0), Vector(200.0, 0.0)) == Vector(-200.0, 0.0);
    assert MagnitudeSq(Vector(-200.0, 0.0)) == 40000.0;
  }

  /** Clicks 199 apart are within a strut's reach. */
  lemma StrutReachJustWithin()
    ensures InReach(Vector(0.0, 0.0), Vector(199.0, 0.0), Reach(Strut))
  {
    assert Reach(Strut) * Reach(Strut) == 40000.0;
    assert Sub(Vector(0.0, 0.0), Vector(199.0, 0.0)) == Vector(-199.0, 0.0);
    assert MagnitudeSq(Vector(-199.0, 0.0)) == 39601.0;
  }

  /** Clicks exactly 300 apart are out of an umbilical's reach: the bound is strict. */
  lemma UmbilicalReachIsStrict()
    ensures !InReach(Vector(0.0, 0.0), Vector(300.0, 0.0), Reach(Umbilical))
  {
    assert Reach(Umbilical) * Reach(Umbilical) == 90000.0;
    assert Sub(Vector(0.0, 0.0), Vector(300.0, 0.0)) == Vector(-300.0, 0.0);
    assert MagnitudeSq(Vector(-300.0, 0.0)) == 90000.0;
  }

  /** Clicks 299 apart are within an umbilical's reach. */
  lemma UmbilicalReachJustWithin()
    ensures InReach(Vector(0.0, 0.0), Vector(299.0, 0.0), Reach(Umbilical))
  {
    assert Reach(Umbilical) * Reach(Umbilical) == 90000.0;
    assert Sub(Vector(0.0, 0.0), Vector(299.0, 0.0)) == Vector(-299.0, 0.0);
    assert MagnitudeSq(Vector(-299.0, 0.0)) == 89401.0;
  }

  /** The tool that selection answers after a selection of the given length: the
      joining tools wait for a second click, every other tool is done after one. */
  function NextTool(t: Tool, count: nat): (r: Option<Tool>)
    ensures r == None || r == Some(t)
    ensures count == 2 || !Joins(t) ==> r == None
  {
    if Joins(t) && count != 2 then Some(t) else None
  }

  /** Selecting ends on every tool's answer except a joining tool's before the second click. */
  lemma NextToolEnds(t: Tool, count: nat)
    ensures NextTool(t, count).Some? <==> Joins(t) && count != 2
    ensures NextTool(t, count).Some? ==> NextTool(t, count).value == t
    ensures NextTool(t, 2).None?
  {
  }

  /** Tool.end_selecting */
  function EndSelecting(t: Tool): (r: Option<Tool>)
    ensures r.None?
  {
    None
  }

  /** The asteroids of a selection, the only objects Drill may change. */
  function Picked(selection: seq<Pick>): set<Asteroid>
  {
    set i | 0 <= i < |selection| :: selection[i].0
  }

  /** Drill/Umbilical/Strut/Nuke.selection, with the set of live joints and the
      space passed in. Drill populates the first asteroid picked (an empty selection
      raises IndexError); a joining tool with exactly two picks answers None and adds
      one pin joint, anchored at each click relative to its own asteroid, exactly when
      the clicks are in reach (the Umbilical tool, too, builds an entities.Strut);
      with any other number of picks it answers itself; Nuke does nothing. `added` names
      the joint made, if any. */
  method Selection(tool: Tool, selection: seq<Pick>, constraints: JointSet, space: Space)
    returns (r: Result<Option<Tool>, IndexError>, ghost added: Option<Joint>)
    modifies constraints, space, Picked(selection)
    ensures r.Failure? <==> tool.Drill? && selection == []
    ensures r.Success? ==> r.value == NextTool(tool, |selection|)
    ensures tool.Drill? && selection != [] ==>
      && selection[0].0.SpriteState() == Populated(old(selection[0].0.SpriteState()), true)
      && selection[0].0.position == old(selection[0].0.position)
    ensures !(tool.Drill? && selection != []) ==>
      forall p :: p in Picked(selection) ==> p.SpriteState() == old(p.SpriteState()) && p.position == old(p.position)
    ensures tool.Drill? && selection != [] ==>
      forall p :: p in Picked(selection) && p != selection[0].0 ==> p.SpriteState() == old(p.SpriteState()) && p.position == old(p.position)
    ensures added.Some? <==> Joins(tool) && |selection| == 2 && InReach(selection[0].1, selection[1].1, Reach(tool))
    ensures added.None? ==> constraints.elems == old(constraints.elems) && space.constraints == old(space.constraints)
    ensures added.Some? ==>
      var j := added.value;
      && fresh(j)
      && constraints.elems == old(constraints.elems) + {j}
      && space.constraints == old(space.constraints) + {j}
      && j.kind == PinJoint && j.space == space && j.line == None
      && j.a == selection[0].0 && j.b == selection[1].0
      && j.anchor1 == Sub(selection[0].1, selection[0].0.position)
      && j.anchor2 == Sub(selection[1].1, selection[1].0.position)
  {
    match tool
    case Drill =>
      added := None;
      if selection == [] {
        return Failure(IndexError("list index out of range")), added;
      }
      var asteroid := selection[0].0;
      asteroid.SetPopulated(true);
      return Success(None), added;
    case Umbilical =>
      var next;
      next, added := JoinSelection(tool, selection, constraints, space);
      return Success(next), added;
    case Strut =>
      var next;
      next, added := JoinSelection(tool, selection, constraints, space);
      return Success(next), added;
    case Nuke =>
      added := None;
      return Success(None), added;
  }

  /** j is the pin joint a joining tool makes from two picks, in space, not drawn yet,
      anchored at each click relative to its own asteroid. */
  ghost predicate JoinedAt(j: Joint, first: Pick, second: Pick, space: Space)
    reads j, first.0`position, second.0`position
  {
    && j.kind == PinJoint && j.space == space && j.line == None
    && j.a == first.0 && j.b == second.0
    && j.anchor1 == Sub(first.1, first.0.position)
    && j.anchor2 == Sub(second.1, second.0.position)
  }

  /** The common body of Umbilical.selection and Strut.selection. */
  method JoinSelection(tool: Tool, selection: seq<Pick>, constraints: JointSet, space: Space)
    returns (next: Option<Tool>, ghost added: Option<Joint>)
    requires Joins(tool)
    modifies constraints, space
    ensures next == NextTool(tool, |selection|)
    ensures added.Some? <==> |selection| == 2 && InReach(selection[0].1, selection[1].1, Reach(tool))
    ensures added.None? ==> constraints.elems == old(constraints.elems) && space.constraints == old(space.constraints)
    ensures added.Some? ==>
      var j := added.value;
      && fresh(j)
      && constraints.elems == old(constraints.elems) + {j}
      && space.constraints == old(space.constraints) + {j}
      && j.kind == PinJoint && j.space == space && j.line == None
      && j.a == selection[0].0 && j.b == selection[1].0
      && j.anchor1 == Sub(selection[0].1, selection[0].0.position)
      && j.anchor2 == Sub(selection[1].1, selection[1].0.position)
  {
    added := None;
    if |selection| == 2 {
      var (asteroid1, clicked1) := selection[0];
      var (asteroid2, clicked2) := selection[1];
      if InReach(clicked1, clicked2, Reach(tool)) {
        var joint := new Joint(PinJoint, asteroid1, asteroid2, Sub(clicked1, asteroid1.position),
                               Sub(clicked2, asteroid2.position), space);
        constraints.elems := constraints.elems + {joint};
        added := Some(joint);
      }
      return None, added;
    }
    return Some(tool), added;
  }

  /** A joint made by a tool draws its first line between the two clicks themselves,
      truncated: position plus (click - position) is the click. */
  lemma AnchoredAtClicks(p1: Vector, c1: Vector, p2: Vector, c2: Vector)
    ensures LinePoints(p1, Sub(c1, p1), p2, Sub(c2, p2)) == [Trunc(c1.x), Trunc(c1.y), Trunc(c2.x), Trunc(c2.y)]
  {
    SubAddInverse(c1, p1);
    SubAddInverse(c2, p2);
  }
}

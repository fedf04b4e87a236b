/** The in-game objects of entities.py: asteroids, their sprite state, world
    population, and the strut and umbilical joints with the line each draws. */
module Entities {
  import opened Wrappers
  import opened Physics
  import Segments
  import Resources

  // ---------------------------------------------------------------------------
  // The populated flag and the sprite it drives

  /** The image file for a kind: the kind itself once populated, "raw_" + kind before. */
  function ImageName(kind: string, populated: bool): string
  {
    (if populated then kind else "raw_" + kind) + ".png"
  }

  /** What the populated setter reads and writes: the type, the flag, the
      sprite's image file and its visibility. */
  datatype Sprite = Sprite(kind: string, populated: bool, image: string, visible: bool)

  /** The state a new asteroid of the given kind starts in. */
  function Initial(kind: string): Sprite
  {
    Sprite(kind, false, ImageName(kind, false), false)
  }

  /** The image agrees with the flag. */
  predicate Consistent(s: Sprite)
  {
    s.image == ImageName(s.kind, s.populated)
  }

  /** The populated setter: nothing happens when the value is already set; otherwise
      the flag flips, the image is reloaded, and a "home" asteroid becomes visible. */
  function Populated(s: Sprite, populated: bool): (r: Sprite)
    ensures r.kind == s.kind && r.populated == populated
    ensures populated == s.populated ==> r == s
    ensures populated != s.populated ==> Consistent(r)
    ensures s.visible ==> r.visible
    ensures r.visible && !s.visible ==> s.kind == "home"
  {
    if populated == s.populated then s
    else
      Sprite(s.kind, populated, ImageName(s.kind, populated), s.visible || s.kind == "home")
  }

  /** A new asteroid is unpopulated, hidden and shows its raw image. */
  lemma InitialState(kind: string)
    ensures !Initial(kind).populated && !Initial(kind).visible && Consistent(Initial(kind))
    ensures Initial(kind).image == "raw_" + kind + ".png"
  {
  }

  /** Setting the current value changes nothing, so setting twice is setting once. */
  lemma PopulatedIdempotent(s: Sprite, populated: bool)
    ensures Populated(s, s.populated) == s
    ensures Populated(Populated(s, populated), populated) == Populated(s, populated)
  {
  }

  /** After the setter the flag holds the new value and the kind is kept; a change of
      value always leaves the image consistent, even when it was not, and a change
      never hides the sprite. */
  lemma PopulatedSets(s: Sprite, populated: bool)
    ensures Populated(s, populated).populated == populated
    ensures Populated(s, populated).kind == s.kind
    ensures populated != s.populated ==> Consistent(Populated(s, populated))
    ensures Consistent(s) ==> Consistent(Populated(s, populated))
    ensures s.visible ==> Populated(s, populated).visible
  {
  }

  /** For a kind other than "home", flipping the flag and flipping it back
      restores a consistent sprite exactly. */
  lemma PopulatedRoundTrip(s: Sprite)
    requires Consistent(s) && s.kind != "home"
    ensures Populated(Populated(s, !s.populated), s.populated) == s
  {
  }

  /** The "home" hack: populating a home asteroid makes it visible and shows "home.png". */
  lemma PopulatedHome(s: Sprite)
    requires s.kind == "home" && !s.populated
    ensures Populated(s, true).visible && Populated(s, true).image == "home.png"
  {
  }

  // ---------------------------------------------------------------------------
  // Asteroids

  class Asteroid {
    /** Chosen by randint at population time; the shape's radius is 1.1 times it. */
    const size: real
    var kind: string
    var populated: bool
    var image: string
    var visible: bool
    /** The physics body's position; only the positions set here and read by the
        game's rules are modelled, not the simulation that moves them. */
    var position: Vector

    function SpriteState(): Sprite
      reads this
    {
      Sprite(kind, populated, image, visible)
    }

    function Radius(): real
    {
      1.1 * size
    }

    /** Asteroid(x, y, size, ...) with the kind already chosen: the body is placed at
        (x - size/2, y - size/2) and the sprite starts hidden and unpopulated. */
    constructor (x: real, y: real, size: int, kind: string)
      ensures this.size == size as real
      ensures position == Vector(x - size as real / 2.0, y - size as real / 2.0)
      ensures SpriteState() == Initial(kind)
    {
      this.size := size as real;
      position := Vector(x - size as real / 2.0, y - size as real / 2.0);
      this.kind := kind;
      populated := false;
      image := ImageName(kind, false);
      visible := false;
    }

    /** The populated property setter. */
    method SetPopulated(p: bool)
      modifies this
      ensures SpriteState() == Populated(old(SpriteState()), p)
      ensures position == old(position)
    {
      if p != populated {
        populated := p;
        image := ImageName(kind, p);
        if kind == "home" {
          visible := true;
        }
      }
    }

    /** point_over: the point lies strictly inside the shape's circle. */
    predicate PointOver(px: real, py: real)
      reads this`position
      ensures PointOver(px, py) ==> Abs(px - position.x) < Abs(Radius()) && Abs(py - position.y) < Abs(Radius())
    {
      var dx, dy := px - position.x, py - position.y;
      NearOnBothAxes(dx, dy, Radius());
      dx * dx + dy * dy < Radius() * Radius()
    }
  }

  /** A point inside a circle is within the radius of its centre on each axis. */
  lemma NearOnBothAxes(dx: real, dy: real, r: real)
    ensures dx * dx + dy * dy < r * r ==> Abs(dx) < Abs(r) && Abs(dy) < Abs(r)
  {
    SquareNonNegative(dx);
    SquareNonNegative(dy);
    assert Abs(dx) * Abs(dx) == dx * dx && Abs(dy) * Abs(dy) == dy * dy && Abs(r) * Abs(r) == r * r;
    SquaresOrdered(Abs(dx), Abs(r));
    SquaresOrdered(Abs(dy), Abs(r));
  }

  /** The point test is the squared distance from the body's position against the
      squared radius; a point at distance m from it is over the asteroid exactly
      when m is below the radius, so the circle's rim is outside. */
  lemma PointOverDistance(a: Asteroid, px: real, py: real, m: real)
    requires 0.0 <= a.size && 0.0 <= m
    requires m * m == DistSq(Vector(px, py), a.position)
    ensures a.PointOver(px, py) <==> m < a.Radius()
  {
    SquaresOrdered(m, a.Radius());
  }

  /** A point at the body's own position is over any asteroid of positive size. */
  lemma PointOverCentre(a: Asteroid)
    requires 0.0 < a.size
    ensures a.PointOver(a.position.x, a.position.y)
  {
    MulPositive(a.Radius(), a.Radius());
  }

  /** The asteroids' types, in list order. */
  function Kinds(asteroids: seq<Asteroid>): (r: seq<string>)
    reads asteroids
    ensures |r| == |asteroids|
    ensures forall i :: 0 <= i < |asteroids| ==> r[i] == asteroids[i].kind
  {
    if asteroids == [] then [] else [asteroids[0].kind] + Kinds(asteroids[1..])
  }

  /** Asteroid.verify: the list itself when every resource in TYPES occurs in it,
      None (the False of the source) otherwise. */
  method Verify(asteroids: seq<Asteroid>) returns (r: Option<seq<Asteroid>>)
    ensures r.Some? <==> forall i :: 0 <= i < |Resources.Types| ==> Resources.Types[i].0 in Kinds(asteroids)
    ensures r.Some? ==> r.value == asteroids
  {
    var ok := Resources.AllPresent(Kinds(asteroids), Resources.Types);
    if ok {
      return Some(asteroids);
    }
    return None;
  }

  /** What the constructor raises when the choice gave no type: "raw_" + None. */
  datatype TypeError = TypeError(message: string)

  /** The asteroid made for one leaf: centred on the leaf's centre (as Segment.centre
      computes it) with the drawn size, unpopulated, hidden, and of the kind the
      weighted choice returns for the drawn pick. */
  ghost predicate Placed(a: Asteroid, leaf: Segments.Segment, size: int, pick: real)
    reads a
  {
    var c := Segments.Centre(leaf);
    && a.size == size as real
    && a.position == Vector(c.x - size as real / 2.0, c.y - size as real / 2.0)
    && (exists k: nat :: Resources.FirstAbove(Resources.Types, pick, k) && a.SpriteState() == Initial(Resources.Types[k].0))
  }

  /** The weighted choice falls through for this pick. */
  ghost predicate NoChoice(pick: real)
  {
    forall k: nat :: !Resources.FirstAbove(Resources.Types, pick, k)
  }

  /** The minimum segment size Asteroid.populate asks for. */
  function MinimumFor(maxSize: int): real
  {
    maxSize as real * 1.75
  }

  /** Asteroid.populate: the world is split with minimum max*1.75 and one asteroid is
      made per leaf, in leaf order. sizes(i) is the randint(min, max) drawn for the
      i-th asteroid and picks(i) the uniform pick of its type; when a pick makes the
      weighted choice fall through, the constructor raises TypeError. */
  method Populate(minSize: int, maxSize: int, world: Size, rag: nat -> real, sizes: nat -> int, picks: nat -> real)
    returns (r: Result<seq<Asteroid>, TypeError>)
    requires 0 < maxSize && Segments.Ragged(rag)
    requires forall i: nat :: minSize <= sizes(i) <= maxSize
    ensures var leaves := Segments.Leaves(Segments.FromSize(world), MinimumFor(maxSize), rag, 0);
      && (r.Failure? <==> exists i :: 0 <= i < |leaves| && NoChoice(picks(i)))
      && (r.Success? ==>
            && |r.value| == |leaves|
            && (forall i :: 0 <= i < |leaves| ==> fresh(r.value[i]) && Placed(r.value[i], leaves[i], sizes(i), picks(i)))
            && (forall i :: 0 <= i < |leaves| ==> minSize as real <= r.value[i].size <= maxSize as real))
  {
    var leaves := Segments.RecursiveSplit(Segments.FromSize(world), MinimumFor(maxSize), rag, 0).0;
    var asteroids := [];
    for i := 0 to |leaves|
      invariant |asteroids| == i
      invariant forall j :: 0 <= j < i ==> fresh(asteroids[j]) && Placed(asteroids[j], leaves[j], sizes(j), picks(j))
      invariant forall j :: 0 <= j < i ==> minSize as real <= asteroids[j].size <= maxSize as real
    {
      var a := Place(leaves[i], sizes(i), picks(i));
      if a.None? {
        return Failure(TypeError("cannot concatenate 'str' and 'NoneType' objects"));
      }
      asteroids := asteroids + [a.value];
    }
    forall j | 0 <= j < |leaves|
      ensures !NoChoice(picks(j))
    {
      PlacedIsChosen(asteroids[j], leaves[j], sizes(j), picks(j));
    }
    return Success(asteroids);
  }

  /** A placed asteroid's type draw did not fall through. */
  lemma PlacedIsChosen(a: Asteroid, leaf: Segments.Segment, size: int, pick: real)
    requires Placed(a, leaf, size, pick)
    ensures !NoChoice(pick)
  {
  }

  /** One step of populate: an asteroid of a weighted random type at the segment's
      centre, or None where the type draw falls through. */
  method Place(leaf: Segments.Segment, size: int, pick: real) returns (r: Option<Asteroid>)
    ensures r.None? <==> NoChoice(pick)
    ensures r.Some? ==> fresh(r.value) && Placed(r.value, leaf, size, pick) && r.value.size == size as real
  {
    var centre := Segments.Centre(leaf);
    var kind := Resources.WeightedChoice(Resources.Types, pick);
    if kind.None? {
      return None;
    }
    ghost var k: nat :| Resources.FirstAbove(Resources.Types, pick, k) && Resources.Types[k].0 == kind.value;
    var a := new Asteroid(centre.x, centre.y, size, kind.value);
    assert Placed(a, leaf, size, pick);
    return Some(a);
  }

  // ---------------------------------------------------------------------------
  // The batch of drawn lines and the physics space

  /** int() on a float: truncation toward zero. */
  function Trunc(v: real): (r: int)
    ensures 0.0 <= v ==> 0 <= r && r as real <= v < r as real + 1.0
    ensures v < 0.0 ==> r <= 0 && r as real - 1.0 < v <= r as real
  {
    if v >= 0.0 then v.Floor else -((-v).Floor)
  }

  /** The vertex lists of a pyglet batch: a handle per live list and its points. */
  class Batch {
    var lists: map<nat, seq<int>>
    var next: nat

    ghost predicate Valid()
      reads this
    {
      forall h :: h in lists ==> h < next
    }

    constructor ()
      ensures Valid() && lists == map[]
    {
      lists := map[];
      next := 0;
    }

    /** batch.add of a two-point GL_LINES list: a handle not in use before. */
    method AddLine(points: seq<int>) returns (h: nat)
      requires Valid()
      modifies this
      ensures Valid()
      ensures h !in old(lists) && lists == old(lists)[h := points]
      ensures h == old(next) && next == old(next) + 1
    {
      h := next;
      lists := lists[h := points];
      next := next + 1;
    }

    /** vertex_list.delete() */
    method Delete(h: nat)
      requires Valid()
      modifies this
      ensures Valid()
      ensures lists == old(lists) - {h} && next == old(next)
    {
      lists := lists - {h};
    }
  }

  /** The constraints a pymunk space holds. */
  class Space {
    var constraints: set<Joint>

    constructor ()
      ensures constraints == {}
    {
      constraints := {};
    }
  }

  /** The game's own set of live joints (Main.constraints), which the tools add to. */
  class JointSet {
    var elems: set<Joint>

    constructor ()
      ensures elems == {}
    {
      elems := {};
    }
  }

  /** A Strut's pymunk.PinJoint or an Umbilical's DampedSpring. */
  datatype JointKind = PinJoint | DampedSpring

  /** The four int-truncated coordinates of a joint's line: each body position plus
      its anchor, with no rotation of the anchor. */
  function LinePoints(a: Vector, anchor1: Vector, b: Vector, anchor2: Vector): (r: seq<int>)
    ensures |r| == 4
    ensures r[0] == Trunc(a.x + anchor1.x) && r[1] == Trunc(a.y + anchor1.y)
    ensures r[2] == Trunc(b.x + anchor2.x) && r[3] == Trunc(b.y + anchor2.y)
  {
    var p, q := Add(a, anchor1), Add(b, anchor2);
    [Trunc(p.x), Trunc(p.y), Trunc(q.x), Trunc(q.y)]
  }

  /** entities.Strut and entities.Umbilical: a joint between two asteroids with the
      line that draws it. The two classes differ only in the kind of constraint. */
  class Joint {
    const kind: JointKind
    const a: Asteroid
    const b: Asteroid
    const anchor1: Vector
    const anchor2: Vector
    const space: Space
    /** vertex_list: the handle of the line last added, None before the first update. */
    var line: Option<nat>

    /** The constructor adds the constraint to the space. */
    constructor (kind: JointKind, a: Asteroid, b: Asteroid, anchor1: Vector, anchor2: Vector, space: Space)
      modifies space
      ensures this.kind == kind && this.a == a && this.b == b && this.space == space
      ensures this.anchor1 == anchor1 && this.anchor2 == anchor2
      ensures line == None
      ensures space.constraints == old(space.constraints) + {this}
    {
      this.kind := kind;
      this.a := a;
      this.b := b;
      this.anchor1 := anchor1;
      this.anchor2 := anchor2;
      this.space := space;
      line := None;
      new;
      space.constraints := space.constraints + {this};
    }

    /** The line's points for the bodies' current positions. */
    function Points(): seq<int>
      reads a`position, b`position
    {
      LinePoints(a.position, anchor1, b.position, anchor2)
    }

    /** snap: free the line if there is one and take the constraint out of the space.
        The stale handle stays in vertex_list, as in the source. */
    method Snap(batch: Batch)
      requires batch.Valid()
      modifies batch, space
      ensures batch.Valid()
      ensures batch.lists == if line.Some? then old(batch.lists) - {line.value} else old(batch.lists)
      ensures batch.next == old(batch.next)
      ensures space.constraints == old(space.constraints) - {this}
    {
      if line.Some? {
        batch.Delete(line.value);
      }
      space.constraints := space.constraints - {this};
    }

    /** update: an impulse above 1000 snaps the joint and answers True; otherwise the
        previous line is freed, exactly one new line is added at the current points,
        and the answer is falsy. */
    method Update(batch: Batch, impulse: real) returns (snapped: bool)
      requires batch.Valid()
      modifies this, batch, space
      ensures batch.Valid()
      ensures snapped <==> impulse > 1000.0
      ensures snapped ==> batch.next == old(batch.next)
      ensures !snapped ==> line == Some(old(batch.next)) && batch.next == old(batch.next) + 1
      ensures snapped ==>
        && line == old(line)
        && batch.lists == (if line.Some? then old(batch.lists) - {line.value} else old(batch.lists))
        && space.constraints == old(space.constraints) - {this}
      ensures !snapped ==>
        && line.Some?
        && line.value !in old(batch.lists)
        && space.constraints == old(space.constraints)
        && (var freed := if old(line).Some? then old(batch.lists) - {old(line).value} else old(batch.lists);
            batch.lists == freed[line.value := Points()])
    {
      if impulse > 1000.0 {
        Snap(batch);
        return true;
      }
      if line.Some? {
        batch.Delete(line.value);
      }
      var h := batch.AddLine(Points());
      line := Some(h);
      return false;
    }
  }
}

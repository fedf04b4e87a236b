/** The scenes of scenes.py: the intro's fade, and the main scene's rules for
    loading the world, choosing tools, dispatching clicks, evicting snapped joints
    and fading the logo. */
module Scenes {
  import opened Wrappers
  import opened Physics
  import Segments
  import Resources
  import opened Entities
  import opened Tools
  import opened Graphics

  /** The scenes a scene can hand over to. */
  datatype SceneKind = IntroScene | MainScene | WinScene

  /** Scene.next: False while the scene runs; end() stores True or the next scene. */
  datatype Next = Running | Done | Goto(scene: SceneKind)

  /** Scene.end: the argument is stored, True when none is given. */
  function End(next: Option<SceneKind>): (r: Next)
    ensures r != Running
    ensures next.Some? ==> r == Goto(next.value)
    ensures next.None? ==> r == Done
  {
    if next.Some? then Goto(next.value) else Done
  }

  /** Intro.FADE_SPEED and Main.FADE_SPEED: opacity units per second. */
  const FadeSpeed: real := 75.0

  // ---------------------------------------------------------------------------
  // The intro's fade

  datatype IntroState = IntroState(fade: real, fadeIn: bool, opacity: real, next: Next)

  /** What Intro.load and Scene._load leave behind. */
  const IntroStart: IntroState := IntroState(0.0, true, 0.0, Running)

  /** Intro.update for a frame of the given length. */
  function IntroStep(s: IntroState, frameTime: real): (r: IntroState)
    ensures r.opacity == r.fade
    ensures r.fadeIn ==> s.fadeIn && r.fade < 255.0
    ensures r.next != s.next ==> r.next == Goto(MainScene)
    ensures s.fadeIn && 0.0 <= frameTime && s.fade <= 255.0 ==> s.fade <= r.fade <= 255.0
    ensures !s.fadeIn && 0.0 <= frameTime ==> r.fade <= s.fade
    ensures !s.fadeIn && r.fade <= 0.0 ==> r.next == Goto(MainScene)
  {
    if s.fadeIn then
      var f := s.fade + frameTime * FadeSpeed;
      if f >= 255.0 then IntroState(255.0, false, 255.0, s.next)
      else IntroState(f, true, f, s.next)
    else
      var f := s.fade - frameTime * FadeSpeed;
      IntroState(f, false, f, if f <= 0.0 then Goto(MainScene) else s.next)
  }

  /** n updates of the same frame length. */
  function IntroRun(s: IntroState, frameTime: real, n: nat): IntroState
    decreases n
  {
    if n == 0 then s else IntroRun(IntroStep(s, frameTime), frameTime, n - 1)
  }

  /** The intro's fade stays at most 255 and is never negative while fading in; the
      only scene it ever hands over to is Main, and a fade-out that has reached 0
      always has. */
  ghost predicate IntroOk(s: IntroState)
  {
    && s.fade <= 255.0
    && s.opacity == s.fade
    && (s.fadeIn ==> 0.0 <= s.fade)
    && (s.next == Running || s.next == Goto(MainScene))
    && (!s.fadeIn && s.fade <= 0.0 ==> s.next == Goto(MainScene))
  }

  /** Every update with a non-negative frame time keeps IntroOk, a fade-out never
      turns back into a fade-in, and a hand-over once made is kept. */
  lemma IntroStepOk(s: IntroState, frameTime: real)
    requires IntroOk(s) && 0.0 <= frameTime
    ensures IntroOk(IntroStep(s, frameTime))
    ensures !s.fadeIn ==> !IntroStep(s, frameTime).fadeIn
    ensures s.next != Running ==> IntroStep(s, frameTime).next == s.next
  {
  }

  /** Fading in: after n frames of length dt whose total stays below 255, the fade is
      n*dt*75 and nothing has ended. */
  lemma {:induction false} IntroFadesIn(frameTime: real, n: nat)
    requires 0.0 <= frameTime
    requires n as real * (frameTime * FadeSpeed) < 255.0
    ensures IntroRun(IntroStart, frameTime, n) == IntroState(n as real * (frameTime * FadeSpeed), true, n as real * (frameTime * FadeSpeed), Running)
  {
    if n > 0 {
      var step := frameTime * FadeSpeed;
      assert n as real * step == (n - 1) as real * step + step;
      FadeInFrom(IntroStart, frameTime, n);
    }
  }

  /** The fade-in from a state whose fade is f: n frames later it is f + n*dt*75, as
      long as that stays below 255. */
  lemma {:induction false} FadeInFrom(s: IntroState, frameTime: real, n: nat)
    requires s.fadeIn && 0.0 <= frameTime && s.opacity == s.fade
    requires s.fade + n as real * (frameTime * FadeSpeed) < 255.0
    ensures IntroRun(s, frameTime, n) == IntroState(s.fade + n as real * (frameTime * FadeSpeed), true, s.fade + n as real * (frameTime * FadeSpeed), s.next)
    decreases n
  {
    if n > 0 {
      var step := frameTime * FadeSpeed;
      assert 0.0 <= step;
      assert n as real * step == (n - 1) as real * step + step;
      assert (n - 1) as real * step >= 0.0 by {
        MulNonNegativeReal((n - 1) as real, step);
      }
      var t := IntroStep(s, frameTime);
      assert t == IntroState(s.fade + step, true, s.fade + step, s.next);
      FadeInFrom(t, frameTime, n - 1);
    }
  }

  lemma MulNonNegativeReal(a: real, b: real)
    requires 0.0 <= a && 0.0 <= b
    ensures 0.0 <= a * b
  {
  }

  /** Fading out with frames of positive length dt ends the intro: once n*dt*75
      covers the fade that is left, the intro has handed over to Main. */
  lemma {:induction false} IntroFadeOutEnds(s: IntroState, frameTime: real, n: nat)
    requires IntroOk(s) && !s.fadeIn && 0.0 < frameTime
    requires s.fade <= n as real * (frameTime * FadeSpeed)
    ensures IntroRun(s, frameTime, n).next == Goto(MainScene)
    decreases n
  {
    if n > 0 {
      var step := frameTime * FadeSpeed;
      assert n as real * step == (n - 1) as real * step + step;
      IntroStepOk(s, frameTime);
      IntroFadeOutEnds(IntroStep(s, frameTime), frameTime, n - 1);
    }
  }

  class Intro {
    var fade: real
    var fadeIn: bool
    /** The logo sprite's opacity. */
    var opacity: real
    var next: Next
    /** Where the logo is drawn: the middle of the window. */
    const logoAt: Vector

    function State(): IntroState
      reads this
    {
      IntroState(fade, fadeIn, opacity, next)
    }

    /** Scene._load and Intro.load for a window of the given size. */
    constructor Load(size: Size)
      ensures State() == IntroStart && IntroOk(State())
      ensures logoAt == Vector(size.width / 2.0, size.height / 2.0)
    {
      next := Running;
      logoAt := Vector(size.width / 2.0, size.height / 2.0);
      opacity := 0.0;
      fade := 0.0;
      fadeIn := true;
    }

    method Update(frameTime: real)
      modifies this
      ensures State() == IntroStep(old(State()), frameTime)
    {
      if fadeIn {
        fade := fade + frameTime * FadeSpeed;
        if fade >= 255.0 {
          fadeIn := false;
          fade := 255.0;
        }
        opacity := fade;
      } else {
        fade := fade - frameTime * FadeSpeed;
        if fade <= 0.0 {
          next := End(Some(MainScene));
        }
        opacity := fade;
      }
    }

    /** mouse_pressed and key_pressed both end the intro in favour of Main. */
    method Pressed()
      modifies this`next
      ensures next == Goto(MainScene)
    {
      next := End(Some(MainScene));
    }
  }

  // ---------------------------------------------------------------------------
  // The main scene's logo fade

  datatype Logo = Logo(opacity: real, fade: bool, faded: bool)

  /** The logo fade of Main.update. */
  function LogoStep(l: Logo, frameTime: real): (r: Logo)
    ensures r.fade == l.fade
    ensures l.faded || !l.fade ==> r == l
    ensures 0.0 <= frameTime && 0.0 <= l.opacity ==> r.opacity <= l.opacity
    ensures r.faded && !l.faded ==> r.opacity == 0.0
    ensures !l.faded && 0.0 <= l.opacity ==> 0.0 <= r.opacity
  {
    if l.fade && !l.faded then
      var o := l.opacity - FadeSpeed * frameTime;
      if o < 0.0 then Logo(0.0, l.fade, true) else Logo(o, l.fade, false)
    else l
  }

  function LogoRun(l: Logo, frameTime: real, n: nat): Logo
    decreases n
  {
    if n == 0 then l else LogoRun(LogoStep(l, frameTime), frameTime, n - 1)
  }

  /** With non-negative frame times the opacity stays in [0, 255] and never grows;
      a faded logo never changes again, and one that has not started fading is
      left alone. */
  lemma LogoStepBounds(l: Logo, frameTime: real)
    requires 0.0 <= l.opacity <= 255.0 && 0.0 <= frameTime
    ensures 0.0 <= LogoStep(l, frameTime).opacity <= l.opacity
    ensures l.faded ==> LogoStep(l, frameTime) == l
    ensures !l.fade ==> LogoStep(l, frameTime) == l
    ensures LogoStep(l, frameTime).faded ==> LogoStep(l, frameTime).opacity == 0.0 || l.faded
  {
  }

  /** Once fade is set, frames of positive length dt fade the logo out: after n frames
      with n*dt*75 above the opacity left, it has faded. */
  lemma {:induction false} LogoFadesOut(l: Logo, frameTime: real, n: nat)
    requires l.fade && 0.0 < frameTime && 0.0 <= l.opacity
    requires l.opacity < n as real * (FadeSpeed * frameTime)
    ensures LogoRun(l, frameTime, n).faded
    decreases n
  {
    if !l.faded {
      var step := FadeSpeed * frameTime;
      assert n as real * step == (n - 1) as real * step + step;
      var m := LogoStep(l, frameTime);
      if !m.faded {
        LogoFadesOut(m, frameTime, n - 1);
      } else {
        LogoStaysFaded(m, frameTime, n - 1);
      }
    } else {
      LogoStaysFaded(l, frameTime, n);
    }
  }

  lemma {:induction false} LogoStaysFaded(l: Logo, frameTime: real, n: nat)
    requires l.faded
    ensures LogoRun(l, frameTime, n) == l
    decreases n
  {
    if n > 0 {
      LogoStaysFaded(LogoStep(l, frameTime), frameTime, n - 1);
    }
  }

  // ---------------------------------------------------------------------------
  // The tool property of the main scene

  datatype ToolState = ToolState(tool: Option<Tool>, selecting: bool, selection: seq<Pick>)

  /** The tool setter, on the state it keeps (the button and cursor calls aside). */
  function AssignTool(s: ToolState, t: Option<Tool>): (r: ToolState)
    ensures r.tool == t && (r.selecting <==> t.Some?)
    ensures r.selection == [] || r.selection == s.selection
  {
    if t.Some? then
      var selection := if s.tool.Some? && s.tool != t then [] else s.selection;
      ToolState(t, true, selection)
    else
      ToolState(None, false, [])
  }

  /** Setting None ends selecting with an empty selection; setting a tool always
      selects with it; re-setting the same tool keeps the selection; switching to a
      different tool clears it. */
  lemma AssignToolProperties(s: ToolState, t: Option<Tool>)
    ensures AssignTool(s, t).tool == t
    ensures t.None? ==> !AssignTool(s, t).selecting && AssignTool(s, t).selection == []
    ensures t.Some? ==> AssignTool(s, t).selecting
    ensures t.Some? && s.tool == t ==> AssignTool(s, t).selection == s.selection
    ensures t.Some? && s.tool.Some? && s.tool != t ==> AssignTool(s, t).selection == []
    ensures AssignTool(AssignTool(s, t), t) == AssignTool(s, t)
  {
  }

  /** The tool state every event leaves behind: selecting exactly while a tool is
      set, and at most one pick waiting, only for a joining tool. */
  ghost predicate ToolOk(s: ToolState)
  {
    && (s.selecting <==> s.tool.Some?)
    && |s.selection| <= 1
    && (s.selection != [] ==> s.tool.Some? && Joins(s.tool.value))
  }

  /** The setter keeps ToolOk for any tool. */
  lemma AssignToolOk(s: ToolState, t: Option<Tool>)
    requires ToolOk(s)
    ensures ToolOk(AssignTool(s, t))
  {
  }

  /** mouse_pressed's append of a pick to the selection. */
  function Picking(s: ToolState, pick: Pick): (r: ToolState)
    ensures r.tool == s.tool && r.selecting
    ensures |r.selection| == |s.selection| + 1
    ensures r.selection[..|s.selection|] == s.selection && r.selection[|s.selection|] == pick
  {
    ToolState(s.tool, true, s.selection + [pick])
  }

  /** A click that picks an asteroid keeps ToolOk: the pick is appended, the tool
      answers, and its answer is set. A joining tool waits with one pick and finishes
      on the second; every other tool finishes on the first. */
  lemma PickOk(s: ToolState, pick: Pick)
    requires ToolOk(s) && s.selecting
    ensures var t := s.tool.value;
      var picked := Picking(s, pick);
      && ToolOk(AssignTool(picked, NextTool(t, |s.selection| + 1)))
      && (Joins(t) && s.selection == [] ==> AssignTool(picked, NextTool(t, 1)).selection == [pick])
      && (Joins(t) && s.selection != [] ==> AssignTool(picked, NextTool(t, 2)) == ToolState(None, false, []))
  {
  }

  // ---------------------------------------------------------------------------
  // The main scene

  /** Main.load's world. */
  const WorldSize: Size := Size(3000.0, 3000.0)

  /** The asteroid sizes Main.load asks Asteroid.populate for. */
  const MinSize: int := 50
  const MaxSize: int := 100

  /** The home world lies above three quarters of the world's height. */
  function HomeBound(): real
  {
    WorldSize.height / 4.0 * 3.0
  }

  /** pyglet.window.mouse.RIGHT */
  const RightButton: bv32 := 4

  /** The asteroids above the bound, in list order. */
  function Above(asteroids: seq<Asteroid>, bound: real): (r: seq<Asteroid>)
    reads asteroids`position
    decreases |asteroids|
    ensures forall a :: a in r ==> a in asteroids && a.position.y > bound
    ensures forall a :: a in asteroids && a.position.y > bound ==> a in r
  {
    if asteroids == [] then []
    else (if asteroids[0].position.y > bound then [asteroids[0]] else []) + Above(asteroids[1..], bound)
  }

  /** The selection keeps list order: filtering a concatenation is concatenating the
      filtered parts, and a single asteroid is kept exactly when it is above. */
  lemma {:induction false} AboveAppend(a: seq<Asteroid>, b: seq<Asteroid>, bound: real)
    ensures Above(a + b, bound) == Above(a, bound) + Above(b, bound)
    decreases |a|
  {
    if a == [] {
      assert a + b == b;
    } else {
      assert (a + b)[1..] == a[1..] + b;
      AboveAppend(a[1..], b, bound);
    }
  }

  lemma AboveSingle(a: Asteroid, bound: real)
    ensures Above([a], bound) == if a.position.y > bound then [a] else []
  {
    assert [a][1..] == [];
  }

  /** Whatever the ragged factors and the sizes drawn, some leaf of the world's split
      yields an asteroid above the home bound: the leaf that covers the point (0, 2999)
      is less than 4*175 high, so it starts above 2299, and it is at least 175 wide,
      so the centre that Segment.centre computes is at least 87.5 higher; half the
      size is at most 50. */
  lemma HomeCandidateLeaf(rag: nat -> real, sizes: nat -> int) returns (i: nat)
    requires Segments.Ragged(rag) && forall k: nat :: MinSize <= sizes(k) <= MaxSize
    ensures var leaves := Segments.Leaves(Segments.FromSize(WorldSize), MinimumFor(MaxSize), rag, 0);
      i < |leaves| && Segments.Centre(leaves[i]).y - sizes(i) as real / 2.0 > HomeBound()
  {
    var root := Segments.FromSize(WorldSize);
    var m := MinimumFor(MaxSize);
    assert m == 175.0;
    var leaves := Segments.Leaves(root, m, rag, 0);
    i := Segments.LeafCovering(root, m, rag, 0, 0.0, 2999.0);
    Segments.LeavesAtLeastMinimum(root, m, rag, 0);
    Segments.LeavesBelowFourMinimum(root, m, rag, 0);
    assert leaves[i] in leaves;
  }

  /** random.choice: the element at int(u * len), for u in [0, 1). */
  function ChoiceIndex(u: real, n: nat): (k: nat)
    requires 0.0 <= u < 1.0 && 0 < n
    ensures k < n
  {
    var x := u * n as real;
    assert x < n as real by {
      MulPositive(1.0 - u, n as real);
    }
    assert 0.0 <= x by {
      Segments.MulNonNegative(u, n as real);
    }
    assert x.Floor as real <= x;
    x.Floor
  }

  /** The choice of the home world in Main.load: a random asteroid above the bound
      becomes "home" and is populated, which shows it; nothing else changes. */
  method ChooseHome(asteroids: seq<Asteroid>, u: real) returns (home: Asteroid)
    requires 0.0 <= u < 1.0 && 0 < |Above(asteroids, HomeBound())|
    requires forall a :: a in asteroids ==> !a.populated
    modifies set a | a in asteroids
    ensures home == old(Above(asteroids, HomeBound()))[ChoiceIndex(u, |old(Above(asteroids, HomeBound()))|)]
    ensures home in asteroids && home.position.y > HomeBound()
    ensures home.SpriteState() == Sprite("home", true, "home.png", true)
    ensures Above(asteroids, HomeBound()) == old(Above(asteroids, HomeBound()))
    ensures forall a :: a in asteroids && a != home ==> unchanged(a)
    ensures home.position == old(home.position)
  {
    var candidates := Above(asteroids, HomeBound());
    home := candidates[ChoiceIndex(u, |candidates|)];
    home.kind := "home";
    home.SetPopulated(true);
    assert Above(asteroids, HomeBound()) == candidates;
  }

  /** The asteroid at index k is the first in list order under the point p. */
  ghost predicate FirstOver(asteroids: seq<Asteroid>, p: Vector, k: nat)
    reads asteroids`position
  {
    && k < |asteroids|
    && asteroids[k].PointOver(p.x, p.y)
    && forall j :: 0 <= j < k ==> !asteroids[j].PointOver(p.x, p.y)
  }

  class Main {
    /** The window's size. */
    const size: Size
    const camera: Camera
    const asteroids: seq<Asteroid>
    const home: Asteroid
    const space: Space
    const batch: Batch
    const constraints: JointSet
    /** The tool property's _tool, and the selection it works on. */
    var tool: Option<Tool>
    var selecting: bool
    var selection: seq<Pick>
    /** The logo sprite's opacity and the fade flags. */
    var opacity: real
    var fade: bool
    var faded: bool
    var next: Next

    function Selecting(): ToolState
      reads this`tool, this`selecting, this`selection
    {
      ToolState(tool, selecting, selection)
    }

    function LogoState(): Logo
      reads this`opacity, this`fade, this`faded
    {
      Logo(opacity, fade, faded)
    }

    /** Main.load's camera move: the view is centred on the home world, as far as
        the world's edges allow. */
    predicate CameraOnHome()
      reads camera, home`position
    {
      && camera.x == Clamp(home.position.x - size.width / 2.0, camera.worldSize.width - size.width)
      && camera.y == Clamp(home.position.y - size.height / 2.0, camera.worldSize.height - size.height)
    }

    /** The state every event keeps: the tool state is ToolOk, picks are of the scene's
        asteroids, every live joint is in this scene's space and any line it has was
        handed out by this scene's batch, and no two joints share a line. */
    ghost predicate Valid()
      reads this`tool, this`selecting, this`selection, space, batch, constraints, constraints.elems
    {
      && ToolOk(Selecting())
      && (forall p :: p in selection ==> p.0 in asteroids)
      && JointsValid()
    }

    /** The joints' part of Valid. */
    ghost predicate JointsValid()
      reads space, batch, constraints, constraints.elems
    {
      && constraints.elems <= space.constraints
      && (forall j :: j in constraints.elems ==> j.space == space && (j.line.Some? ==> j.line.value < batch.next))
      && (forall j, k :: j in constraints.elems && k in constraints.elems && j != k && j.line.Some? ==> j.line != k.line)
      && batch.Valid()
    }

    /** The part of Main.load after the asteroids exist and the home world is chosen:
        the camera starts at the origin and is moved to centre on home, no tool is
        set, the logo is opaque and starts fading, and there are no joints. */
    constructor Start(size: Size, asteroids: seq<Asteroid>, home: Asteroid)
      ensures Valid()
      ensures this.size == size && this.asteroids == asteroids && this.home == home
      ensures fresh(camera) && fresh(space) && fresh(batch) && fresh(constraints)
      ensures camera.size == size && camera.worldSize == WorldSize
      ensures camera.speed == 1000.0 && camera.dragSpeed == 10.0
      ensures camera.x == Clamp(home.position.x - size.width / 2.0, WorldSize.width - size.width)
      ensures camera.y == Clamp(home.position.y - size.height / 2.0, WorldSize.height - size.height)
      ensures camera.movement == Vector(0.0, 0.0) && camera.dragged == Vector(0.0, 0.0)
      ensures Selecting() == ToolState(None, false, [])
      ensures LogoState() == Logo(255.0, true, false)
      ensures constraints.elems == {} && space.constraints == {} && batch.lists == map[]
      ensures next == Running
    {
      var cam := new Camera(size, WorldSize, 1000.0, 10.0);
      cam.Move(Vector(home.position.x - size.width / 2.0, home.position.y - size.height / 2.0));
      this.size := size;
      camera := cam;
      next := Running;
      tool, selecting, selection := None, false, [];
      batch := new Batch();
      space := new Space();
      this.asteroids := asteroids;
      this.home := home;
      opacity, fade, faded := 255.0, true, false;
      constraints := new JointSet();
    }

    /** The tool property setter, on the selecting state. */
    method SetTool(t: Option<Tool>)
      modifies this`tool, this`selecting, this`selection
      ensures Selecting() == AssignTool(old(Selecting()), t)
    {
      if t.Some? {
        if tool.Some? && tool != t {
          selecting := false;
          selection := [];
        }
        selecting := true;
      } else {
        selecting := false;
        selection := [];
      }
      tool := t;
    }

    method KeyPressed()
      modifies this`fade
      ensures fade
    {
      fade := true;
    }

    /** mouse_drag: only a drag with the right button held drags the camera. */
    method MouseDrag(dx: real, dy: real, buttons: bv32)
      modifies camera`dragged
      ensures buttons & RightButton != 0 ==> camera.dragged == Vector(dx * camera.dragSpeed, dy * camera.dragSpeed)
      ensures buttons & RightButton == 0 ==> camera.dragged == old(camera.dragged)
    {
      if buttons & RightButton != 0 {
        camera.MouseDragged(dx, dy);
      }
    }

    /** mouse_pressed: the logo starts fading; while selecting, the first asteroid in
        list order under the click (in world coordinates) is appended to the selection
        with the click, and the tool's answer becomes the tool; a click on no asteroid
        sets the tool to None. Not selecting, nothing else happens. `hit` is the index
        of the asteroid picked (unique, by FirstOverUnique) and `added` the joint the
        tool made, if any. */
    method MousePressed(px: real, py: real) returns (ghost hit: Option<nat>, ghost added: Option<Joint>)
      requires Valid()
      modifies this, constraints, space, set a | a in asteroids
      ensures Valid()
      ensures fade && opacity == old(opacity) && faded == old(faded) && next == old(next)
      ensures forall a :: a in asteroids ==> a.position == old(a.position)
      ensures hit.Some? ==> old(selecting) && old(FirstOver(asteroids, camera.Translate(px, py), hit.value))
      ensures old(selecting) && hit.None? ==> forall k: nat :: !old(FirstOver(asteroids, camera.Translate(px, py), k))
      ensures !old(selecting) ==> Selecting() == old(Selecting())
      ensures old(selecting) && hit.None? ==> Selecting() == ToolState(None, false, [])
      ensures hit.Some? ==>
        Selecting() == AssignTool(Picking(old(Selecting()), (asteroids[hit.value], camera.Translate(px, py))),
          NextTool(old(tool).value, |old(selection)| + 1))
      ensures hit.Some? && old(tool) == Some(Drill) ==>
        asteroids[hit.value].SpriteState() == Populated(old(asteroids[hit.value].SpriteState()), true)
      ensures forall a :: a in asteroids && !(hit.Some? && old(tool) == Some(Drill) && a == asteroids[hit.value]) ==>
        a.SpriteState() == old(a.SpriteState())
      ensures added.Some? <==>
        (hit.Some? && Joins(old(tool).value) && |old(selection)| == 1
         && InReach(old(selection)[0].1, camera.Translate(px, py), Reach(old(tool).value)))
      ensures added.None? ==> constraints.elems == old(constraints.elems) && space.constraints == old(space.constraints)
      ensures added.Some? ==>
        && fresh(added.value)
        && JoinedAt(added.value, old(selection)[0], (asteroids[hit.value], camera.Translate(px, py)), space)
        && constraints.elems == old(constraints.elems) + {added.value}
        && space.constraints == old(space.constraints) + {added.value}
    {
      hit, added := None, None;
      fade := true;
      if selecting {
        var clicked := camera.Translate(px, py);
        var over := FindOver(asteroids, clicked);
        if over.Some? {
          hit := over;
          added := PickAt(clicked, over.value);
        } else {
          forall k: nat
            ensures !old(FirstOver(asteroids, clicked, k))
          {
            assert !FirstOver(asteroids, clicked, k);
          }
          SetTool(None);
        }
      }
    }

    /** The branch of mouse_pressed that found the asteroid at index i under the click. */
    method PickAt(clicked: Vector, i: nat) returns (ghost added: Option<Joint>)
      requires Valid() && selecting && i < |asteroids|
      modifies this`tool, this`selecting, this`selection, constraints, space, set a | a in asteroids
      ensures Valid()
      ensures forall a :: a in asteroids ==> a.position == old(a.position)
      ensures Selecting() == AssignTool(Picking(old(Selecting()), (asteroids[i], clicked)),
        NextTool(old(tool).value, |old(selection)| + 1))
      ensures old(tool) == Some(Drill) ==> asteroids[i].SpriteState() == Populated(old(asteroids[i].SpriteState()), true)
      ensures forall a :: a in asteroids && !(old(tool) == Some(Drill) && a == asteroids[i]) ==> a.SpriteState() == old(a.SpriteState())
      ensures added.Some? <==>
        Joins(old(tool).value) && |old(selection)| == 1 && InReach(old(selection)[0].1, clicked, Reach(old(tool).value))
      ensures added.None? ==> constraints.elems == old(constraints.elems) && space.constraints == old(space.constraints)
      ensures added.Some? ==>
        && fresh(added.value) && JoinedAt(added.value, old(selection)[0], (asteroids[i], clicked), space)
        && constraints.elems == old(constraints.elems) + {added.value}
        && space.constraints == old(space.constraints) + {added.value}
    {
      ghost var before := Selecting();
      selection := selection + [(asteroids[i], clicked)];
      var answer;
      answer, added := Apply(tool.value, selection);
      PickOk(before, (asteroids[i], clicked));
      SetTool(answer);
    }

    /** The call of the tool on the selection, from mouse_pressed. */
    method Apply(t: Tool, picks: seq<Pick>) returns (answer: Option<Tool>, ghost added: Option<Joint>)
      requires JointsValid() && picks != [] && forall p :: p in picks ==> p.0 in asteroids
      modifies constraints, space, set a | a in asteroids
      ensures JointsValid()
      ensures answer == NextTool(t, |picks|)
      ensures forall a :: a in asteroids ==> a.position == old(a.position)
      ensures t == Drill ==> picks[0].0.SpriteState() == Populated(old(picks[0].0.SpriteState()), true)
      ensures forall a :: a in asteroids && !(t == Drill && a == picks[0].0) ==> a.SpriteState() == old(a.SpriteState())
      ensures added.Some? <==> Joins(t) && |picks| == 2 && InReach(picks[0].1, picks[1].1, Reach(t))
      ensures added.None? ==> constraints.elems == old(constraints.elems) && space.constraints == old(space.constraints)
      ensures added.Some? ==>
        && fresh(added.value) && JoinedAt(added.value, picks[0], picks[1], space)
        && constraints.elems == old(constraints.elems) + {added.value}
        && space.constraints == old(space.constraints) + {added.value}
    {
      var r;
      r, added := Selection(t, picks, constraints, space);
      answer := r.value;
    }

    /** Main.update's rules: every live joint is updated with its impulse and only the
        ones that did not snap are kept; snapped ones have left the space and every kept
        one draws exactly one line, at its current points. Then the logo fades.
        The player, camera-follow, physics step and win test are not part of this model. */
    method Update(frameTime: real, impulse: Joint -> real)
      requires Valid()
      modifies this, batch, space, constraints, constraints.elems
      ensures Valid()
      ensures constraints.elems == set j | j in old(constraints.elems) && impulse(j) <= 1000.0
      ensures space.constraints == old(space.constraints) - (set j | j in old(constraints.elems) && impulse(j) > 1000.0)
      ensures forall j :: j in constraints.elems ==>
        j.line.Some? && j.line.value in batch.lists && batch.lists[j.line.value] == j.Points()
      ensures batch.lists.Keys == old(batch.lists.Keys) - old(Lines(constraints.elems)) + Lines(constraints.elems)
      ensures forall j :: j in constraints.elems ==> old(batch.next) <= j.line.value
      ensures LogoState() == LogoStep(old(LogoState()), frameTime)
      ensures Selecting() == old(Selecting()) && next == old(next)
    {
      // The fade touches only the logo's fields, so it can go first.
      FadeLogo(frameTime);
      LinesFramed(constraints.elems);
      EvictJoints(impulse);
    }

    /** The logo fade of Main.update. */
    method FadeLogo(frameTime: real)
      modifies this`opacity, this`faded
      ensures LogoState() == LogoStep(old(LogoState()), frameTime)
    {
      if fade && !faded {
        opacity := opacity - FadeSpeed * frameTime;
        if opacity < 0.0 {
          opacity := 0.0;
          faded := true;
        }
      }
    }

    /** The first statement of Main.update. */
    method EvictJoints(impulse: Joint -> real)
      requires Valid()
      modifies batch, space, constraints, constraints.elems
      ensures Valid()
      ensures constraints.elems == set j | j in old(constraints.elems) && impulse(j) <= 1000.0
      ensures space.constraints == old(space.constraints) - (set j | j in old(constraints.elems) && impulse(j) > 1000.0)
      ensures forall j :: j in constraints.elems ==>
        j.line.Some? && j.line.value in batch.lists && batch.lists[j.line.value] == j.Points()
      ensures batch.lists.Keys == old(batch.lists.Keys) - old(Lines(constraints.elems)) + Lines(constraints.elems)
      ensures forall j :: j in constraints.elems ==> old(batch.next) <= j.line.value
    {
      ghost var freed, space0 := Lines(constraints.elems), space.constraints;
      var kept := Evict(constraints.elems, batch, space, impulse, batch.next);
      Filtered(constraints.elems, kept, space0, space.constraints, impulse);
      Adopt(kept, old(batch.lists.Keys) - freed, old(batch.next));
    }

    /** The assignment that ends the first statement of Main.update. */
    method Adopt(kept: set<Joint>, ghost others: set<nat>, ghost start: nat)
      requires ToolOk(Selecting()) && (forall p :: p in selection ==> p.0 in asteroids)
      requires kept <= space.constraints && batch.Valid() && Drawn(kept, batch, start)
      requires forall j :: j in kept ==> j.space == space
      requires batch.lists.Keys == others + Lines(kept)
      modifies constraints
      ensures Valid() && constraints.elems == kept
      ensures Drawn(constraints.elems, batch, start)
      ensures batch.lists.Keys == others + Lines(constraints.elems)
    {
      DrawnSince(kept, batch, start);
      constraints.elems := kept;
      LinesFramed(kept);
    }

    /** Main.load with the random draws as parameters: the world is populated (a
        TypeError when some type draw falls through), the home world is the
        int(u * n)-th asteroid above the home bound, becomes "home" and is populated,
        and the rest of the scene is set up as Start says. The restart branch for an
        empty asteroid list and the IndexError of choice on an empty list cannot
        happen: population always yields an asteroid above the bound. */
    static method Load(size: Size, rag: nat -> real, sizes: nat -> int, picks: nat -> real, u: real)
      returns (r: Result<Main, TypeError>)
      requires Segments.Ragged(rag) && (forall k: nat :: MinSize <= sizes(k) <= MaxSize) && 0.0 <= u < 1.0
      ensures var leaves := Segments.Leaves(Segments.FromSize(WorldSize), MinimumFor(MaxSize), rag, 0);
        r.Failure? <==> exists i :: 0 <= i < |leaves| && NoChoice(picks(i))
      ensures r.Success? ==>
        var m := r.value;
        var leaves := Segments.Leaves(Segments.FromSize(WorldSize), MinimumFor(MaxSize), rag, 0);
        && fresh(m) && m.Valid() && m.size == size
        && |m.asteroids| == |leaves|
        && (forall i :: 0 <= i < |leaves| ==> fresh(m.asteroids[i]))
        && (forall i :: 0 <= i < |leaves| && m.asteroids[i] != m.home ==> Placed(m.asteroids[i], leaves[i], sizes(i), picks(i)))
        && m.home.position.y > HomeBound()
        && 0 < |Above(m.asteroids, HomeBound())|
        && m.home == Above(m.asteroids, HomeBound())[ChoiceIndex(u, |Above(m.asteroids, HomeBound())|)]
        && m.home.SpriteState() == Sprite("home", true, "home.png", true)
        && m.CameraOnHome()
        && m.Selecting() == ToolState(None, false, [])
        && m.LogoState() == Logo(255.0, true, false)
        && m.constraints.elems == {} && m.next == Running
    {
      var populated := PopulateWorld(rag, sizes, picks);
      if populated.Failure? {
        return Failure(populated.error);
      }
      var asteroids := populated.value;
      var m := Build(size, asteroids, u);
      return Success(m);
    }

    /** Main.load's population of the world, and the reason the restart branch is
        dead: some asteroid always lies above the home bound. */
    static method PopulateWorld(rag: nat -> real, sizes: nat -> int, picks: nat -> real)
      returns (r: Result<seq<Asteroid>, TypeError>)
      requires Segments.Ragged(rag) && forall k: nat :: MinSize <= sizes(k) <= MaxSize
      ensures var leaves := Segments.Leaves(Segments.FromSize(WorldSize), MinimumFor(MaxSize), rag, 0);
        && (r.Failure? <==> exists i :: 0 <= i < |leaves| && NoChoice(picks(i)))
        && (r.Success? ==>
          && |r.value| == |leaves|
          && (forall i :: 0 <= i < |leaves| ==> fresh(r.value[i]) && Placed(r.value[i], leaves[i], sizes(i), picks(i)))
          && 0 < |Above(r.value, HomeBound())|
          && (forall a :: a in r.value ==> !a.populated))
    {
      r := Populate(MinSize, MaxSize, WorldSize, rag, sizes, picks);
      if r.Failure? {
        return;
      }
      var asteroids := r.value;
      ghost var leaves := Segments.Leaves(Segments.FromSize(WorldSize), MinimumFor(MaxSize), rag, 0);
      ghost var i := HomeCandidateLeaf(rag, sizes);
      assert asteroids[i] in asteroids && asteroids[i].position.y > HomeBound();
      assert asteroids[i] in Above(asteroids, HomeBound());
      forall a | a in asteroids
        ensures !a.populated
      {
        var k :| 0 <= k < |asteroids| && asteroids[k] == a;
        assert Placed(asteroids[k], leaves[k], sizes(k), picks(k));
      }
    }

    /** The rest of Main.load once the asteroids exist: the home world is chosen and
        the scene is set up around it. */
    static method Build(size: Size, asteroids: seq<Asteroid>, u: real) returns (m: Main)
      requires 0.0 <= u < 1.0 && 0 < |Above(asteroids, HomeBound())|
      requires forall a :: a in asteroids ==> !a.populated
      modifies set a | a in asteroids
      ensures fresh(m) && m.Valid() && m.size == size && m.asteroids == asteroids
      ensures forall a :: a in asteroids && a != m.home ==> unchanged(a)
      ensures m.home.position.y > HomeBound()
      ensures 0 < |Above(m.asteroids, HomeBound())|
      ensures m.home == Above(m.asteroids, HomeBound())[ChoiceIndex(u, |Above(m.asteroids, HomeBound())|)]
      ensures m.home.SpriteState() == Sprite("home", true, "home.png", true)
      ensures m.CameraOnHome()
      ensures m.Selecting() == ToolState(None, false, [])
      ensures m.LogoState() == Logo(255.0, true, false)
      ensures m.constraints.elems == {} && m.next == Running
    {
      var home := ChooseHome(asteroids, u);
      m := new Main.Start(size, asteroids, home);
    }
  }

  /** The loop of mouse_pressed that looks for the clicked asteroid, in list order. */
  method FindOver(asteroids: seq<Asteroid>, p: Vector) returns (r: Option<nat>)
    ensures r.Some? ==> FirstOver(asteroids, p, r.value)
    ensures r.None? ==> forall k: nat :: !FirstOver(asteroids, p, k)
  {
    for i := 0 to |asteroids|
      invariant forall j :: 0 <= j < i ==> !asteroids[j].PointOver(p.x, p.y)
    {
      if asteroids[i].PointOver(p.x, p.y) {
        return Some(i);
      }
    }
    return None;
  }

  /** The set comprehension of Main.update over the live joints: each one is updated
      with its impulse, and the ones that did not snap are kept; the snapped ones are
      gone. The joints are taken in an arbitrary order, as a Python set iterates. */
  method Evict(joints: set<Joint>, batch: Batch, space: Space, impulse: Joint -> real, ghost start: nat)
    returns (kept: set<Joint>)
    requires batch.Valid() && start <= batch.next
    requires forall j :: j in joints ==> j.space == space && (j.line.Some? ==> j.line.value < start)
    modifies batch, space, joints
    ensures forall c :: c in kept <==> c in joints && impulse(c) <= 1000.0
    ensures forall c :: c in space.constraints <==> c in old(space.constraints) && !(c in joints && impulse(c) > 1000.0)
    ensures batch.Valid() && start <= batch.next
    ensures Drawn(kept, batch, start)
    ensures batch.lists.Keys == old(batch.lists.Keys) - old(Lines(joints)) + Lines(kept)
    decreases |joints|
  {
    if joints == {} {
      assert Lines(joints) == {};
      return {};
    }
    var j :| j in joints;
    ghost var keys0, space0, all := batch.lists.Keys, space.constraints, Lines(joints);
    ghost var others := Lines(joints - {j});
    LinesWithout(joints, j);
    var rest := Evict(joints - {j}, batch, space, impulse, start);
    kept := EvictOne(j, joints, rest, batch, space, impulse, start, keys0, space0, others, all);
  }

  /** The last turn of Evict, stated against the whole set of joints: `rest` is what the
      other joints left, `keys0` and `space0` the handles and the space before them, and
      `others` the lines they held before. */
  method EvictOne(j: Joint, joints: set<Joint>, rest: set<Joint>, batch: Batch, space: Space,
                  impulse: Joint -> real, ghost start: nat, ghost keys0: set<nat>,
                  ghost space0: set<Joint>, ghost others: set<nat>, ghost all: set<nat>)
    returns (kept: set<Joint>)
    requires j in joints && j.space == space && (j.line.Some? ==> j.line.value < start)
    requires batch.Valid() && start <= batch.next
    requires forall c :: c in rest <==> c in joints - {j} && impulse(c) <= 1000.0
    requires forall c :: c in space.constraints <==> c in space0 && !(c in joints - {j} && impulse(c) > 1000.0)
    requires Drawn(rest, batch, start)
    requires batch.lists.Keys == keys0 - others + Lines(rest)
    requires all == others + LineSet(j.line)
    modifies j, batch, space
    ensures forall c :: c in kept <==> c in joints && impulse(c) <= 1000.0
    ensures forall c :: c in space.constraints <==> c in space0 && !(c in joints && impulse(c) > 1000.0)
    ensures batch.Valid() && start <= batch.next
    ensures Drawn(kept, batch, start)
    ensures batch.lists.Keys == keys0 - all + Lines(kept)
  {
    assert j !in rest;
    ghost var keys1, line, drawn, space1 := batch.lists.Keys, j.line, Lines(rest), space.constraints;
    ghost var added;
    kept, added := EvictTurn(j, rest, batch, space, impulse(j), start);
    KeysStep(keys0, others, drawn, LineSet(line), keys1, batch.lists.Keys, added, all, Lines(kept));
    KeptStep(j, joints, rest, kept, impulse);
    SpaceStep(j, joints, space0, space1, space.constraints, impulse);
  }

  /** What Evict keeps and what it removes from the space, as the comprehensions of
      Main.update write them. */
  lemma Filtered(joints: set<Joint>, kept: set<Joint>, space0: set<Joint>, space1: set<Joint>, impulse: Joint -> real)
    requires forall c :: c in kept <==> c in joints && impulse(c) <= 1000.0
    requires forall c :: c in space1 <==> c in space0 && !(c in joints && impulse(c) > 1000.0)
    ensures kept == set j | j in joints && impulse(j) <= 1000.0
    ensures space1 == space0 - (set j | j in joints && impulse(j) > 1000.0)
  {
  }

  /** The joints Evict keeps, one turn at a time. */
  lemma KeptStep(j: Joint, joints: set<Joint>, rest: set<Joint>, kept: set<Joint>, impulse: Joint -> real)
    requires forall c :: c in rest <==> c in joints - {j} && impulse(c) <= 1000.0
    requires forall c :: c in kept <==> c in rest || (c == j && impulse(j) <= 1000.0)
    requires j in joints
    ensures forall c :: c in kept <==> c in joints && impulse(c) <= 1000.0
  {
  }

  /** The joints Evict removes from the space, one turn at a time. */
  lemma SpaceStep(j: Joint, joints: set<Joint>, space0: set<Joint>, space1: set<Joint>, space2: set<Joint>,
                  impulse: Joint -> real)
    requires forall c :: c in space1 <==> c in space0 && !(c in joints - {j} && impulse(c) > 1000.0)
    requires forall c :: c in space2 <==> c in space1 && !(impulse(j) > 1000.0 && c == j)
    requires j in joints
    ensures forall c :: c in space2 <==> c in space0 && !(c in joints && impulse(c) > 1000.0)
  {
  }

  /** One turn of Evict: the joint is updated after the joints kept so far, and is kept
      unless it snapped. `added` is the line it drew, if it was kept. */
  method EvictTurn(j: Joint, rest: set<Joint>, batch: Batch, space: Space, impulse: real, ghost start: nat)
    returns (kept: set<Joint>, ghost added: set<nat>)
    requires batch.Valid() && start <= batch.next
    requires j !in rest && j.space == space
    requires j.line.Some? ==> j.line.value < start
    requires Drawn(rest, batch, start)
    modifies j, batch, space
    ensures forall c :: c in kept <==> c in rest || (c == j && impulse <= 1000.0)
    ensures forall c :: c in space.constraints <==> c in old(space.constraints) && !(impulse > 1000.0 && c == j)
    ensures batch.Valid() && start <= batch.next
    ensures Drawn(kept, batch, start)
    ensures LineSet(old(j.line)) !! old(Lines(rest))
    ensures Lines(kept) == old(Lines(rest)) + added
    ensures batch.lists.Keys == old(batch.lists.Keys) - LineSet(old(j.line)) + added
  {
    ghost var drawn := Lines(rest);
    assert LineSet(j.line) !! drawn;
    label before:
    var snapped := KeepOrSnap(j, rest, batch, space, impulse, start);
    kept := if snapped then rest else rest + {j};
    added := if snapped then {} else LineSet(j.line);
    LinesFramed@before(rest);
    if !snapped {
      assert kept - {j} == rest;
      LinesWithout(kept, j);
    }
  }

  /** A set of joints whose lines all stayed put draws the same lines as before. */
  twostate lemma LinesFramed(joints: set<Joint>)
    requires forall k :: k in joints ==> k.line == old(k.line)
    ensures Lines(joints) == old(Lines(joints))
  {
    forall h | h in Lines(joints) ensures h in old(Lines(joints)) {
      var k :| k in joints && k.line == Some(h);
    }
    forall h | h in old(Lines(joints)) ensures h in Lines(joints) {
      var k :| k in joints && old(k.line) == Some(h);
      assert k.line == Some(h);
    }
  }

  /** The handle bookkeeping of one turn of Evict: a turn frees the joint's old line,
      which none of the lines drawn so far is, and adds its new one. */
  lemma KeysStep(keys0: set<nat>, others: set<nat>, drawn: set<nat>, line: set<nat>,
                 keys1: set<nat>, keys2: set<nat>, added: set<nat>, all: set<nat>, after: set<nat>)
    requires keys1 == keys0 - others + drawn
    requires keys2 == keys1 - line + added
    requires line !! drawn
    requires all == others + line && after == drawn + added
    ensures keys2 == keys0 - all + after
  {
    forall x
      ensures x in keys2 <==> x in keys0 - all + after
    {
      if x in line {
        assert x !in drawn;
      }
    }
  }

  /** The handles of the lines the joints hold. */
  ghost function Lines(joints: set<Joint>): set<nat>
    reads joints`line
  {
    set j | j in joints && j.line.Some? :: j.line.value
  }

  /** A joint's line field as a set of handles. */
  function LineSet(line: Option<nat>): (r: set<nat>)
    ensures line.None? <==> r == {}
    ensures line.Some? ==> r == {line.value}
  {
    if line.Some? then {line.value} else {}
  }

  /** The lines of a set of joints are those of the others plus the joint's own. */
  lemma LinesWithout(joints: set<Joint>, j: Joint)
    ensures j in joints ==> Lines(joints) == Lines(joints - {j}) + LineSet(j.line)
  {
  }

  /** Each of the joints has its own line, handed out by the batch since start,
      holding its current points. */
  ghost predicate Drawn(joints: set<Joint>, batch: Batch, start: nat)
    reads batch, joints, (set j | j in joints :: j.a)`position, (set j | j in joints :: j.b)`position
  {
    && (forall j :: j in joints ==>
      j.line.Some? && start <= j.line.value < batch.next && j.line.value in batch.lists && batch.lists[j.line.value] == j.Points())
    && (forall j, k :: j in joints && k in joints && j != k ==> j.line != k.line)
  }

  lemma DrawnSince(joints: set<Joint>, batch: Batch, start: nat)
    requires Drawn(joints, batch, start)
    ensures Drawn(joints, batch, 0)
  {
  }

  /** One joint's turn in Main.update: the lines of the joints kept so far, all
      handed out since start, survive the joint's update. */
  method KeepOrSnap(j: Joint, kept: set<Joint>, batch: Batch, space: Space, impulse: real, ghost start: nat)
    returns (snapped: bool)
    requires batch.Valid() && start <= batch.next
    requires j !in kept && j.space == space
    requires j.line.Some? ==> j.line.value < start
    requires Drawn(kept, batch, start)
    modifies j, batch, space
    ensures snapped <==> impulse > 1000.0
    ensures batch.Valid() && start <= batch.next
    ensures forall c :: c in space.constraints <==> c in old(space.constraints) && !(snapped && c == j)
    ensures Drawn(if snapped then kept else kept + {j}, batch, start)
    ensures batch.lists.Keys == old(batch.lists.Keys) - LineSet(old(j.line)) + (if snapped then {} else LineSet(j.line))
    ensures forall k :: k in kept ==> k.line == old(k.line)
  {
    ghost var before := batch.lists;
    ghost var issued := batch.next;
    snapped := j.Update(batch, impulse);
    forall k | k in kept
      ensures k.line.value in batch.lists && batch.lists[k.line.value] == before[k.line.value]
    {
      assert k.line.value != issued;
    }
    assert Drawn(kept, batch, start);
    if !snapped {
      forall k | k in kept
        ensures k.line != j.line
      {
        assert k.line.value < issued;
      }
      DrawnAdd(kept, j, batch, start);
    }
  }

  /** A joint with a line of its own, not shared with the others, can join them. */
  lemma DrawnAdd(joints: set<Joint>, j: Joint, batch: Batch, start: nat)
    requires Drawn(joints, batch, start)
    requires j.line.Some? && start <= j.line.value < batch.next && j.line.value in batch.lists
    requires batch.lists[j.line.value] == j.Points()
    requires forall k :: k in joints ==> k.line != j.line
    ensures Drawn(joints + {j}, batch, start)
  {
  }

  /** At most one asteroid is the first under a point. */
  lemma FirstOverUnique(asteroids: seq<Asteroid>, p: Vector, k: nat)
    requires FirstOver(asteroids, p, k)
    ensures forall m: nat :: FirstOver(asteroids, p, m) ==> m == k
  {
  }
}

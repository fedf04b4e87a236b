# asteroidbelt, modelled in Dafny

A model of the game logic of asteroidbelt, a small pyglet/pymunk game. The player
lives on a home asteroid in a belt of asteroids. Each asteroid holds one resource
type, which is drawn by weighted choice. Tools act on the asteroids you click: a
Drill populates an asteroid, and a Strut or an Umbilical joins two of them. A
joint breaks when the physics impulse on it exceeds 1000.

The model covers:

- the vector helpers;
- the recursive subdivision of the world into segments, one asteroid per leaf;
- the weighted resource choice;
- the asteroid's populated state and its sprite image;
- the joints and the drawn lines they keep in the batch;
- the tools' two-click selection protocol;
- the camera's clamped movement;
- the Intro scene and the Main scene: loading, tool selection, mouse and key
  handling, joint eviction and the logo fade.

Modules, one per file:

- `Wrappers`: Option and Result.
- `Physics` (physics.py): Vector, Size, comparisons, `closest`.
- `Segments` (the Segment class of entities.py): split, recursive split, centre.
- `Resources` (`Asteroid.TYPES`, `_weighted_random_choice`, the check inside `verify`).
- `Entities` (entities.py): Asteroid, populate, verify, Batch, Space, Strut/Umbilical joints.
- `Tools` (tools.py): the Drill, Umbilical, Strut and Nuke selection.
- `Graphics` (graphics.py): Camera, `centre_image`.
- `Scenes` (scenes.py): Scene ending, Intro, Main.

How the model is built:

- The state the source mutates is held in classes: Asteroid, Joint, Batch, Space,
  Camera, Intro and Main. Their methods carry `modifies` clauses.
- Each scene update also has a pure step function: `IntroStep`, `LogoStep` and
  `AssignTool`. The methods are proved equal to these functions, and the lemmas
  about what happens over many frames are proved on the functions.
- Randomness comes in as parameters:
  - `rag: nat -> real` is the n-th `uniform(0, RAGGEDNESS)` draw of the split, numbered in pre-order.
  - `sizes: nat -> int` is the i-th asteroid's `randint(min, max)`.
  - `picks: nat -> real` is the i-th asteroid's `uniform(0, max)` type pick.
  - `u` in [0, 1) stands for `random.choice`, which takes index `floor(u * n)`.
- Square roots are avoided: every distance threshold (`magnitude < reach`,
  `point_over`) is stated on squared lengths. `InReachIsDistance` and
  `PointOverDistance` prove that the squared test and the test on the distance agree.
- The physics impulse on a joint is a parameter `impulse: Joint -> real`.
- Python's true division (`from __future__ import division`) is real division.
  The floor division in `centre_image` is Dafny's `/` on non-negative ints.
  `int()` on a float truncates toward zero, as `Trunc` states.

Where the code does something other than its names and comments suggest, the model follows the code:

- `Segment.centre` computes its y coordinate from the width (`y + width/2`).
  `CentrePosition` states what follows: the centre lies within the segment
  vertically only when `width <= 2 * height`.
- The Umbilical tool builds an `entities.Strut`, so it makes a pin joint with
  the Umbilical's 300 reach. The model's `Tools.Selection` does the same.
- `Asteroid.populate` does not call `verify`, because that call is commented out.
  A world missing a resource type is therefore accepted. `Verify` is modelled on
  its own.

## Model

| member | source | states |
|---|---|---|
| Physics.Get | physics.py:35-40 | index 0 gives x, index 1 gives y, and every other index is an IndexError (both directions) |
| Physics.UnpackIsComponents | physics.py:35-40 | `x, y = v` stops at the first IndexError and yields exactly [x, y] |
| Physics.MagnitudeSqNonNegative | physics.py:43-44 | magnitude_sq is never negative |
| Physics.SubAddInverse | physics.py:50-54 | subtracting b and adding b undo each other, in every order |
| Physics.ScaleMagnitudeSq | physics.py:56-57 | scaling by s multiplies the squared length by s*s |
| Physics.CompareByLength | physics.py:59-63 | < and > compare lengths only: each is the other's converse, they never both hold, and neither holds exactly when the lengths are equal |
| Physics.SquaresOrdered | physics.py:43-44 | for non-negative numbers, comparing squares is comparing the numbers; this justifies testing magnitude thresholds on magnitude_sq |
| Physics.Closest | physics.py:68-73 | as evidently intended: None iff the list is empty, otherwise the first element nearest to the origin |
| Physics.ClosestAsWritten | physics.py:68-73 | the loop as written equals the left fold ScanAsWritten, which compares a candidate's distance with the current minimum's own length |
| Physics.ClosestAsWrittenMisses | physics.py:71 | from (10,0) over [(10,0),(1,0)], the loop as written returns (1,0), although (10,0) is strictly nearer |
| Segments.Split | entities.py:175-188 | a segment is cut across its width when wider than tall and across its height otherwise; it splits iff the smaller part is at least the minimum; the two halves then tile it along that axis, the first of length half+ragged, the second half-ragged; otherwise the segment is returned whole |
| Segments.SplitBounds | entities.py:175-188 | each half has positive size and lies within the segment's extent |
| Segments.PartBounds | entities.py:175-188 | with raggedness at most 0.5, the smaller part is at most the larger, and the larger is at most 3/4 of the length |
| Segments.WholeIsSmall | entities.py:175-188 | a segment that is not split is less than 4 minima in both dimensions |
| Segments.SplitShrinks | entities.py:190-199 | both halves have a smaller termination measure, so recursive_split terminates |
| Segments.RecursiveSplit | entities.py:190-199 | recursive_split yields at least one leaf and consumes 2*leaves - 1 random draws |
| Segments.LeavesOfHalves | entities.py:190-199 | the leaves of a split segment are the first half's leaves followed by the second half's, on the following draws |
| Segments.LeavesInside | entities.py:190-199 | every leaf lies inside the segment split |
| Segments.LeavesOrdered | entities.py:190-199 | in yield order, each leaf lies before every later leaf (left of it or below it) |
| Segments.LeavesDisjoint | entities.py:190-199 | two different leaves never share a point |
| Segments.LeafCovering | entities.py:190-199 | every point of the segment lies in some leaf |
| Segments.LeafCoveringUnique | entities.py:190-199 | that leaf is unique |
| Segments.LeavesArea | entities.py:190-199 | the leaves' areas add up to the segment's area |
| Segments.LeavesAtLeastMinimum | entities.py:175-199 | every leaf is at least the minimum in both dimensions, given the segment was |
| Segments.LeavesBelowFourMinimum | entities.py:175-199 | every leaf is less than four minima in both dimensions |
| Segments.SplitInside | entities.py:175-188 | both halves of a split segment lie inside it |
| Segments.Centre | entities.py:201-203 | the centre's x is as far from the right edge as from the left; its y lies as far above the bottom edge as x lies right of the left edge, because the width is used for both |
| Segments.CentrePosition | entities.py:201-203 | the centre is horizontally in the middle of the segment and above its bottom edge; it is below the top edge iff width <= 2*height |
| Resources.PrefixMonotone | entities.py:122-129 | with non-negative weights, the running total never decreases |
| Resources.WeightedChoice | entities.py:122-129 | returns the first key whose running total exceeds the pick, or None (falls through) iff there is no such key |
| Resources.FirstAboveUnique | entities.py:122-129 | the key chosen for a pick is unique |
| Resources.ChoiceInterval | entities.py:122-129 | key k is chosen iff the pick lies in [total before k, total including k) |
| Resources.ChoiceExists | entities.py:122-129 | with non-negative weights and a pick of at least 0, some key is chosen iff the pick is below the sum of the weights |
| Resources.TypesTotal | entities.py:59-65 | TYPES weighs 29 in total and has no negative weight |
| Resources.AllPresent | entities.py:111-120 | true iff every key of the table occurs among the given kinds |
| Entities.InitialState | entities.py:86-89 | a new asteroid is unpopulated and hidden, shows "raw_"+type+".png", and is consistent |
| Entities.Populated | entities.py:135-145 | the setter keeps the type and stores the flag; an unchanged flag changes nothing; a changed flag leaves the image matching it; it never hides the sprite, and makes it visible only for the home asteroid |
| Entities.PopulatedIdempotent | entities.py:135-145 | setting populated to its current value changes nothing, and setting the same value twice is setting it once |
| Entities.PopulatedSets | entities.py:135-145 | the setter stores the flag, keeps the type, never hides the sprite, and leaves the image matching the flag |
| Entities.PopulatedRoundTrip | entities.py:135-145 | on a consistent sprite that is not home, toggling populated and toggling back restores the state |
| Entities.PopulatedHome | entities.py:135-145 | populating the home asteroid makes it visible with the image "home.png" |
| Entities.Asteroid.constructor | entities.py:67-89 | the position is the given centre shifted back by size/2 in x and y; the size is stored; the sprite is in its initial state |
| Entities.Asteroid.SetPopulated | entities.py:135-145 | the sprite state becomes the Populated function of the old state; the position is unchanged |
| Entities.Asteroid.PointOver | entities.py:147-149 | a point the asteroid is over lies less than the radius away from its position on each axis |
| Entities.NearOnBothAxes | entities.py:147-149 | a squared distance below r*r bounds each coordinate offset by the absolute value of r |
| Entities.PointOverDistance | entities.py:147-149 | point_over is true iff the distance from the position is below the radius 1.1*size |
| Entities.PointOverCentre | entities.py:147-149 | an asteroid of positive size is over its own position |
| Entities.Kinds | entities.py:111-120 | the list of the asteroids' types, element by element |
| Entities.Verify | entities.py:111-120 | returns the list iff every type in TYPES occurs in it, and None (False) otherwise |
| Entities.Populate | entities.py:106-109 | fails with TypeError iff some leaf's type pick falls through; otherwise it returns one fresh asteroid per leaf of the split with minimum max*1.75, in leaf order, each placed at the leaf's centre with its drawn size and chosen type, each size in [min, max] |
| Entities.Place | entities.py:67-89 | the asteroid for one leaf: none iff the pick falls through, otherwise a fresh asteroid placed on the leaf |
| Entities.PlacedIsChosen | entities.py:85 | an asteroid that was placed had a type chosen for it |
| Entities.Trunc | entities.py:264 | int() truncates toward zero: the result is at most one away from v, on the side of v nearer zero |
| Entities.Batch.AddLine | entities.py:257-269 | adds a new list under a fresh handle and leaves the other lists unchanged |
| Entities.Batch.Delete | entities.py:272-275 | removes exactly that handle |
| Entities.LinePoints | entities.py:257-269 | a line has four points: each body position plus its anchor, truncated |
| Entities.Joint.constructor | entities.py:251-255 | stores the bodies and anchors, has no line yet, and adds itself to the space |
| Entities.Joint.Snap | entities.py:272-275 | deletes the current line if there is one and removes the constraint from the space |
| Entities.Joint.Update | entities.py:257-269 | snaps iff the impulse exceeds 1000; otherwise it replaces its line with a new one drawn at the bodies' current positions and anchors |
| Tools.InReachIsDistance | tools.py:78-88 | the squared reach test agrees with `magnitude < reach` |
| Tools.StrutReachIsStrict | tools.py:78-88 | clicks exactly 200 apart are out of a strut's reach |
| Tools.StrutReachJustWithin | tools.py:78-88 | clicks 199 apart are in a strut's reach |
| Tools.UmbilicalReachIsStrict | tools.py:61-71 | clicks exactly 300 apart are out of an umbilical's reach |
| Tools.UmbilicalReachJustWithin | tools.py:61-71 | clicks 299 apart are in an umbilical's reach |
| Tools.NextTool | tools.py:51-108 | the answer is the tool itself or None, and None whenever there are two picks or the tool does not join |
| Tools.NextToolEnds | tools.py:51-108 | a tool keeps itself only when it joins and has fewer or more than two picks; with two picks every tool answers None |
| Tools.EndSelecting | tools.py:43-44 | end_selecting answers None |
| Tools.Selection | tools.py:51-108 | Drill populates the first pick, or raises IndexError on no picks; Umbilical and Strut add one pin joint, anchored at the clicks, iff there are two picks in reach, and answer None on two picks and themselves otherwise; Nuke changes nothing; no other asteroid changes |
| Tools.JoinSelection | tools.py:61-88 | the shared two-click body: the answer, and the joint made iff the clicks are in reach |
| Tools.AnchoredAtClicks | tools.py:78-88 | a new joint's line runs exactly between the two clicks, truncated |
| Graphics.ClampProperties | graphics.py:95-109 | the setters' clamp lands in [0, hi]; it is the identity exactly inside; below 0 gives 0, above hi gives hi; it is idempotent |
| Graphics.ClampNarrowWorld | graphics.py:95-109 | when the world is narrower than the window (hi < 0), the setters land on hi, because the upper clamp is applied last |
| Graphics.PressRelease | graphics.py:51-69 | releasing a key undoes pressing it and pressing undoes releasing; other keys do nothing; opposite keys cancel |
| Graphics.Camera.constructor | graphics.py:41-49 | stores the sizes and speeds, starts at (0, 0), with no movement and no drag |
| Graphics.Camera.SetX | graphics.py:95-99 | x becomes v clamped to [0, world width - window width] |
| Graphics.Camera.SetY | graphics.py:105-109 | y becomes v clamped to [0, world height - window height] |
| Graphics.Camera.Translate | graphics.py:84-85 | the world point minus the camera position is the window point: translate shifts by the camera offset |
| Graphics.Camera.Move | graphics.py:87-89 | each coordinate becomes the clamped sum of the old coordinate and the vector |
| Graphics.Camera.Update | graphics.py:79-82 | moves by movement*frame_time plus the drag, then clears the drag |
| Graphics.Camera.KeyPressed | graphics.py:51-59 | the movement becomes the Pressed function of the old movement |
| Graphics.Camera.KeyReleased | graphics.py:61-69 | the movement becomes the Released function of the old movement |
| Graphics.Camera.MouseDragged | graphics.py:71-73 | the drag becomes (dx, dy) times the drag speed |
| Graphics.Camera.Clear | graphics.py:75-77 | the camera is back at (0, 0) |
| Graphics.MoveStaysInWorld | graphics.py:87-109 | a move keeps the camera inside the world whenever the world is at least the window |
| Graphics.MoveWithinWorldIsExact | graphics.py:87-99 | a move that stays inside the world is not clamped |
| Graphics.Image.constructor | graphics.py:33-37 | a new image has its size and anchor (0, 0) |
| Graphics.CentreImage | graphics.py:33-37 | the same image comes back, anchored at width//2 and height//2 |
| Graphics.CentredAnchor | graphics.py:33-37 | the floor-halved anchor lies within the image and splits it into parts that differ by at most one |
| Scenes.End | scenes.py:94-95 | ending goes to the next scene if one is given, and otherwise finishes; the scene never stays running |
| Scenes.IntroStep | scenes.py:109-120 | the logo opacity follows the fade; fading in continues only below 255; while fading in the fade rises and stays at most 255; while fading out it falls; the only scene change is to Main, and it happens once the fade reaches 0 |
| Scenes.IntroStepOk | scenes.py:109-120 | one Intro frame keeps the fade invariant; once fading out, it never fades in again; once ended, the next scene stays fixed |
| Scenes.IntroFadesIn | scenes.py:109-120 | from the start, n frames below full opacity raise opacity and fade by n*frame_time*FADE_SPEED |
| Scenes.FadeInFrom | scenes.py:109-120 | the same from any fade-in state whose opacity equals its fade |
| Scenes.IntroFadeOutEnds | scenes.py:109-120 | fading out with a positive frame time ends the Intro, going to Main, once enough frames have passed |
| Scenes.Intro.Load | scenes.py:101-107 | starts transparent, fading in, with the logo at the window's centre |
| Scenes.Intro.Update | scenes.py:109-120 | the new state is IntroStep of the old one |
| Scenes.Intro.Pressed | scenes.py:125-129 | the two handlers, as scenes.py writes them, end the intro and go to the Main scene |
| Scenes.LogoStep | scenes.py:281-286 | the fade flag is kept; a faded or non-fading logo is unchanged; a non-negative opacity never rises and never goes below 0; the logo becomes faded only at opacity 0 |
| Scenes.LogoStepBounds | scenes.py:280-286 | one frame keeps opacity within [0, the old opacity]; once faded, or while not fading, nothing changes; it becomes faded only at opacity 0 |
| Scenes.LogoFadesOut | scenes.py:280-286 | a fading logo is faded after enough frames |
| Scenes.LogoStaysFaded | scenes.py:280-286 | a faded logo never changes again |
| Scenes.AssignTool | scenes.py:222-241 | the tool is stored and selecting holds iff a tool is set; the selection is either kept or cleared |
| Scenes.Picking | scenes.py:261 | the pick is appended to the selection, which keeps its earlier picks; the tool is kept and selecting holds |
| Scenes.AssignToolProperties | scenes.py:222-241 | the setter stores the tool; None stops selecting and clears the selection; a tool starts selecting; re-setting the same tool keeps the selection, while switching tools clears it; setting twice is setting once |
| Scenes.AssignToolOk | scenes.py:222-241 | the setter keeps the invariant that selecting holds iff a tool is set, and that the selection is empty when not selecting |
| Scenes.PickOk | scenes.py:251-265 | a pick followed by setting the tool's answer keeps that invariant |
| Scenes.Above | scenes.py:178 | the asteroids strictly above the home bound (3/4 of the world height), exactly, and each occurs in the original list |
| Scenes.AboveAppend | scenes.py:178 | the filter distributes over concatenation, so it keeps the asteroids in their original order |
| Scenes.AboveSingle | scenes.py:178 | a single asteroid is kept iff it lies above the bound |
| Scenes.HomeCandidateLeaf | scenes.py:171-180 | for the 3000x3000 world and sizes in [50, 100], some leaf puts its asteroid above the home bound, so the restart and the IndexError of choice cannot happen |
| Scenes.ChoiceIndex | scenes.py:178 | random.choice's index lies within the list |
| Scenes.ChooseHome | scenes.py:178-180 | the home world is the chosen asteroid above the bound; it becomes type "home", populated, visible and shows home.png; no other asteroid changes |
| Scenes.Main.Start | scenes.py:141-210 | the camera is on the home world, clamped; the tool is None; the logo is fully opaque, fading and not faded; there are no joints; the scene is running |
| Scenes.Main.SetTool | scenes.py:222-241 | the tool state becomes AssignTool of the old one |
| Scenes.Main.KeyPressed | scenes.py:243-244 | any key starts the logo fade |
| Scenes.Main.MouseDrag | scenes.py:275-277 | drags the camera iff the right button is held |
| Scenes.Main.MousePressed | scenes.py:251-265 | starts the fade; when selecting, the first asteroid under the translated click is picked and the tool becomes its answer, and a click over no asteroid ends selecting; Drill populates the asteroid picked, and no other sprite changes; positions never change; a joint is added iff a joining tool receives its second click in reach, and it is a pin joint in the space anchored at both clicks; otherwise the joints are unchanged |
| Scenes.Main.PickAt | scenes.py:260-263 | the tool state becomes the setter applied, after the pick is appended, to the tool's answer for the new selection; Drill populates the asteroid picked, and no other sprite changes; positions never change; exactly when a joining tool has its second pick in reach, one new pin joint anchored at both clicks joins the set and the space, which are otherwise unchanged; the invariants hold |
| Scenes.Main.Apply | scenes.py:262 | the answer is NextTool for the selection's length; Drill populates the first pick, and no other sprite changes; positions never change; a joint is added to the set and the space iff a joining tool has two picks in reach, and it is a new pin joint anchored at both clicks; the joint invariants are kept |
| Scenes.Main.Update | scenes.py:279-286 | keeps exactly the joints whose impulse is at most 1000, each with a new line at its current positions; removes the others from the space; the batch's handles are the old ones minus the joints' old lines plus the kept joints' new lines, so stale and snapped lines are freed; advances the logo by one LogoStep |
| Scenes.Main.FadeLogo | scenes.py:281-286 | the logo state becomes LogoStep of the old one |
| Scenes.Main.EvictJoints | scenes.py:280 | keeps exactly the joints whose impulse is at most 1000, each with a line drawn since the call at its bodies' current positions and anchors; the snapped joints leave the space; the batch's handles are the old ones minus every joint's old line plus the kept joints' new lines; the joint invariants hold |
| Scenes.Main.Adopt | scenes.py:280 | the assignment of the kept set: the invariants hold, the kept joints stay drawn, and the handles are unchanged |
| Scenes.Main.Load | scenes.py:141-210 | fails with TypeError iff some type pick falls through; otherwise: one asteroid per leaf, every asteroid except home placed on its leaf, home chosen above the bound and populated, the camera on home, tool None, logo opaque and fading, no joints, running |
| Scenes.Main.PopulateWorld | scenes.py:171-176 | population for the world; on success some asteroid lies above the bound and none is populated |
| Scenes.Main.Build | scenes.py:178-210 | the rest of load after population: home is the chosen asteroid above the bound, populated as home; no other asteroid changes; the camera is on home; tool None; logo opaque and fading; no joints; running |
| Scenes.FindOver | scenes.py:252-256 | the index of the first asteroid the point is over, or None iff there is none |
| Scenes.FirstOverUnique | scenes.py:252-256 | that first index is unique |
| Scenes.Evict | scenes.py:280 | the set comprehension: kept are exactly the joints whose impulse is at most 1000, the snapped ones leave the space, the kept ones are drawn, and the batch's handles lose all the joints' old lines and gain exactly the kept joints' lines |
| Scenes.EvictOne | scenes.py:280 | one joint's turn, stated against the whole set: what the other joints left, extended by this joint, gives the keep, space and handle statements of Evict |
| Scenes.EvictTurn | scenes.py:280 | one joint's turn: it is kept iff its impulse is at most 1000; only a snapped joint leaves the space; its old line was none of the lines already drawn; the handles lose its old line and gain the line it drew, if any |
| Scenes.Filtered | scenes.py:280 | the kept joints and the new space are the comprehensions over the impulse |
| Scenes.LinesWithout | scenes.py:280 | the joints' lines are those of the other joints plus this joint's line, if it has one |
| Scenes.KeysStep | entities.py:261-269 | after one turn, the handles are the old ones minus all old lines plus all lines drawn |
| Scenes.KeepOrSnap | scenes.py:280 | one joint's update inside the comprehension: it snaps iff its impulse exceeds 1000; a snapped joint leaves the space, and a kept one joins the drawn set with a fresh line; the handles lose the joint's old line and gain its new one only if it was kept; the other joints' lines do not change |
| Scenes.DrawnSince | scenes.py:280 | lines drawn since a batch handle were drawn since handle 0 |
| Scenes.DrawnAdd | scenes.py:280 | a joint with a fresh line of its own can join a drawn set |

## Left out

- Rendering is left out: pyglet sprites, vertex lists of polygons, colours, groups (CameraGroup,
  PhysicsBodyGroup), stars, the planet sprite and OpenGL calls. Sprite state is
  kept as a record (type, populated, image name, visible). Logo opacity is a real.
- The pymunk simulation is left out: bodies, masses, moments, collision shapes,
  the world borders, `space.step` and the impulses applied during load. An
  asteroid's position is a stored field. The impulse on a joint is given as a
  parameter.
- The DampedSpring parameters of `entities.Umbilical` are left out, because no
  tool creates that class. The joint kind is recorded.
- Square roots and trigonometry are left out (`magnitude`, `normalized`, angles,
  polygon vertex construction). Thresholds are stated on squared lengths.
- The `print` calls are left out, as is main.py (the window and the clock) and
  ui.py (the Button class).
- In the tool setter, the button highlighting and the cursor changes are left out.
  `self.buttons` is never created (its construction is commented out), so in the
  source those calls would raise AttributeError once a tool is set. The model keeps
  the setter's tool and selection logic.
- Rocket, Person, the player's movement, `mouse_motion`, `hovered` and `destroy` are
  left out, as are the camera following the player in update, the space step, the
  win-box test and the Win scene.
- Scene switching outside the scenes themselves is left out. `End` records the
  next scene. The scene stack and the window are left out.
- Dictionary and set iteration order is left out. `Types` lists TYPES in source
  order. The weighted-choice lemmas hold for every order, so they do not depend on
  it. `Evict` keeps a set, as the comprehension does.
- Scenes.Main.EvictJoints: stated over sets, without the order in which the source's
  comprehension visits the joints, which pyglet handles depend on.
- Scenes.Main.Update: the logo fade is done before the joints are updated. The two touch
  disjoint state, so the final state is the same as in the source's order.
- Scenes.Intro.Pressed: `Window.on_key_press` in main.py (line 84) calls `key_pressed(symbol, modifiers)`,
  while the Intro's handler takes `(x, y, symbol, modifiers)`, so a key press during the
  intro raises TypeError in the source. main.py is not part of this model; the model keeps
  the handler as scenes.py writes it.
- Floating point is modelled as exact real arithmetic, so IEEE rounding is left out. This
  matters for Physics.SubAddInverse and Scenes.IntroFadesIn, which hold exactly on reals
  but only up to rounding on floats.
- Segments.RecursiveSplit: the random draws are a function of the draw number, not
  a shared generator. Only the pre-order in which the draws are numbered is modelled.

## Findings

| source | as written | input that shows it | evidently intended | confidence | as-written member | corrected member |
|---|---|---|---|---|---|---|
| physics.py:71 | `(self - other) < minimum` compares the candidate's distance from self with the current minimum's own length, not with its distance from self | origin (10, 0), others [(10, 0), (1, 0)]: returns (1, 0) although (10, 0) is at distance 0 | `(self - other) < (self - minimum)`: the element nearest to self | not executed | Physics.ClosestAsWrittenMisses | Physics.Closest |

/** The camera and the image helper of graphics.py. */
module Graphics {
  import opened Physics

  /** What the x and y setters store: the value raised to 0, then lowered to hi. */
  function Clamp(v: real, hi: real): real
  {
    var low := if v > 0.0 then v else 0.0;
    if low < hi then low else hi
  }

  /** When the world is at least as large as the view (hi >= 0), the clamped value lies
      in [0, hi], equals v exactly when v already does, moves v as little as possible,
      and clamping twice is clamping once. */
  lemma ClampProperties(v: real, hi: real)
    requires 0.0 <= hi
    ensures 0.0 <= Clamp(v, hi) <= hi
    ensures Clamp(v, hi) == v <==> 0.0 <= v <= hi
    ensures v < 0.0 ==> Clamp(v, hi) == 0.0
    ensures hi < v ==> Clamp(v, hi) == hi
    ensures Clamp(Clamp(v, hi), hi) == Clamp(v, hi)
  {
  }

  /** A world narrower than the view pins the coordinate at the negative bound. */
  lemma ClampNarrowWorld(v: real, hi: real)
    requires hi < 0.0
    ensures Clamp(v, hi) == hi
  {
  }

  /** The arrow keys the camera reacts to; any other symbol is Other. */
  datatype Key = Up | Down | Left | Right | Other(symbol: int)

  /** key_pressed's change to movement: each arrow adds speed in its direction. */
  function Pressed(m: Vector, k: Key, speed: real): Vector
  {
    match k
    case Up => Vector(m.x, m.y + speed)
    case Down => Vector(m.x, m.y - speed)
    case Right => Vector(m.x + speed, m.y)
    case Left => Vector(m.x - speed, m.y)
    case Other(_) => m
  }

  /** key_released's change to movement: each arrow takes speed away again. */
  function Released(m: Vector, k: Key, speed: real): Vector
  {
    match k
    case Up => Vector(m.x, m.y - speed)
    case Down => Vector(m.x, m.y + speed)
    case Right => Vector(m.x - speed, m.y)
    case Left => Vector(m.x + speed, m.y)
    case Other(_) => m
  }

  /** Pressing and releasing a key, in either order, leaves movement as it was;
      other keys never change it, and holding opposite arrows cancels out. */
  lemma PressRelease(m: Vector, k: Key, speed: real)
    ensures Released(Pressed(m, k, speed), k, speed) == m
    ensures Pressed(Released(m, k, speed), k, speed) == m
    ensures k.Other? ==> Pressed(m, k, speed) == m && Released(m, k, speed) == m
    ensures Pressed(Pressed(m, Up, speed), Down, speed) == m
    ensures Pressed(Pressed(m, Left, speed), Right, speed) == m
  {
  }

  class Camera {
    const size: Size
    const worldSize: Size
    /** The stored coordinates _x and _y. */
    var x: real
    var y: real
    var movement: Vector
    const speed: real
    const dragSpeed: real
    var dragged: Vector

    constructor (size: Size, worldSize: Size, speed: real, dragSpeed: real)
      ensures this.size == size && this.worldSize == worldSize
      ensures this.speed == speed && this.dragSpeed == dragSpeed
      ensures x == 0.0 && y == 0.0
      ensures movement == Vector(0.0, 0.0) && dragged == Vector(0.0, 0.0)
    {
      this.size := size;
      this.worldSize := worldSize;
      x, y := 0.0, 0.0;
      movement := Vector(0.0, 0.0);
      this.speed := speed;
      this.dragSpeed := dragSpeed;
      dragged := Vector(0.0, 0.0);
    }

    /** The largest x and y that keep the view inside the world. */
    function MaxX(): real
    {
      worldSize.width - size.width
    }

    function MaxY(): real
    {
      worldSize.height - size.height
    }

    /** The view lies inside the world; every setter keeps it so. */
    ghost predicate InWorld()
      reads this
    {
      0.0 <= x <= MaxX() && 0.0 <= y <= MaxY()
    }

    /** The x property setter. */
    method SetX(v: real)
      modifies this`x
      ensures x == Clamp(v, MaxX())
    {
      x := v;
      x := if x > 0.0 then x else 0.0;
      x := if x < MaxX() then x else MaxX();
    }

    /** The y property setter. */
    method SetY(v: real)
      modifies this`y
      ensures y == Clamp(v, MaxY())
    {
      y := v;
      y := if y > 0.0 then y else 0.0;
      y := if y < MaxY() then y else MaxY();
    }

    /** move: shift by the vector through both setters. */
    method Move(v: Vector)
      modifies this`x, this`y
      ensures x == Clamp(old(x) + v.x, MaxX()) && y == Clamp(old(y) + v.y, MaxY())
    {
      SetX(x + v.x);
      SetY(y + v.y);
    }

    /** update: move by movement scaled by the frame time, then by the drag, and
        forget the drag; movement itself is left alone. */
    method Update(frameTime: real)
      modifies this`x, this`y, this`dragged
      ensures var step := Scale(old(movement), frameTime);
        var x1, y1 := Clamp(old(x) + step.x, MaxX()), Clamp(old(y) + step.y, MaxY());
        x == Clamp(x1 + old(dragged).x, MaxX()) && y == Clamp(y1 + old(dragged).y, MaxY())
      ensures dragged == Vector(0.0, 0.0)
    {
      Move(Scale(movement, frameTime));
      Move(dragged);
      dragged := Vector(0.0, 0.0);
    }

    /** translate: a screen point in world coordinates. */
    function Translate(px: real, py: real): (r: Vector)
      reads this
      ensures Sub(r, Vector(x, y)) == Vector(px, py)
    {
      Vector(x + px, y + py)
    }

    method KeyPressed(k: Key)
      modifies this`movement
      ensures movement == Pressed(old(movement), k, speed)
    {
      match k
      case Up => movement := Vector(movement.x, movement.y + speed);
      case Down => movement := Vector(movement.x, movement.y - speed);
      case Right => movement := Vector(movement.x + speed, movement.y);
      case Left => movement := Vector(movement.x - speed, movement.y);
      case Other(_) =>
    }

    method KeyReleased(k: Key)
      modifies this`movement
      ensures movement == Released(old(movement), k, speed)
    {
      match k
      case Up => movement := Vector(movement.x, movement.y - speed);
      case Down => movement := Vector(movement.x, movement.y + speed);
      case Right => movement := Vector(movement.x - speed, movement.y);
      case Left => movement := Vector(movement.x + speed, movement.y);
      case Other(_) =>
    }

    /** mouse_dragged: the drag is overwritten, not accumulated. */
    method MouseDragged(dx: real, dy: real)
      modifies this`dragged
      ensures dragged == Vector(dx * dragSpeed, dy * dragSpeed)
    {
      dragged := Vector(dx * dragSpeed, dy * dragSpeed);
    }

    /** clear: back to the origin, without the setters. */
    method Clear()
      modifies this`x, this`y
      ensures x == 0.0 && y == 0.0
    {
      x, y := 0.0, 0.0;
    }
  }

  /** Moving keeps a camera over a world at least as large as its view inside it. */
  lemma MoveStaysInWorld(hiX: real, hiY: real, x: real, y: real, v: Vector)
    requires 0.0 <= hiX && 0.0 <= hiY
    ensures 0.0 <= Clamp(x + v.x, hiX) <= hiX && 0.0 <= Clamp(y + v.y, hiY) <= hiY
  {
    ClampProperties(x + v.x, hiX);
    ClampProperties(y + v.y, hiY);
  }

  /** A movement inside the world is taken exactly. */
  lemma MoveWithinWorldIsExact(hiX: real, x: real, dx: real)
    requires 0.0 <= x + dx <= hiX
    ensures Clamp(x + dx, hiX) == x + dx
  {
  }

  /** The anchor-bearing part of a pyglet image. */
  class Image {
    const width: int
    const height: int
    var anchorX: int
    var anchorY: int

    constructor (width: int, height: int)
      ensures this.width == width && this.height == height
      ensures anchorX == 0 && anchorY == 0
    {
      this.width := width;
      this.height := height;
      anchorX, anchorY := 0, 0;
    }
  }

  /** centre_image: anchor the image at its centre (floor division by 2, as
      Python's // on ints) and hand back the same object. */
  method CentreImage(image: Image) returns (r: Image)
    modifies image
    ensures r == image
    ensures image.anchorX == image.width / 2 && image.anchorY == image.height / 2
  {
    image.anchorX := image.width / 2;
    image.anchorY := image.height / 2;
    return image;
  }

  /** The centred anchor lies within the image and splits it as evenly as integers allow. */
  lemma CentredAnchor(width: int)
    requires 0 <= width
    ensures 0 <= width / 2 <= width
    ensures width - 2 * (width / 2) == width % 2
    ensures width / 2 <= width - width / 2 <= width / 2 + 1
  {
  }
}

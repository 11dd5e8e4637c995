/**
 * Engine-wide constants, the six world directions and the render-distance
 * settings (scripts/GlobalVars.cs), plus the exact models of Godot's
 * Vector2/Vector3 value types that the rest of the world code computes with.
 */
module Globals {

  /** C#'s `uint`. */
  newtype uint32 = x: int | 0 <= x < 0x1_0000_0000

  /** The size of a chunk along the X and Z axes. */
  const ChunkSize: int := 16

  /** The height of a chunk (Y axis). */
  const ChunkHeight: int := 256

  /** Godot's Vector3, with exact real components instead of floats. */
  datatype Vector3 = Vector3(x: real, y: real, z: real)
  {
    function Plus(o: Vector3): Vector3 { Vector3(x + o.x, y + o.y, z + o.z) }
    function Minus(o: Vector3): Vector3 { Vector3(x - o.x, y - o.y, z - o.z) }
    function Scale(k: real): Vector3 { Vector3(x * k, y * k, z * k) }
    function Negate(): Vector3 { Vector3(-x, -y, -z) }
  }

  /** Adding a vector and then its negation is the identity. */
  lemma PlusNegate(a: Vector3, v: Vector3)
    ensures a.Plus(v).Plus(v.Negate()) == a
  {
  }

  /** Godot's Vector2, with exact real components. */
  datatype Vector2 = Vector2(x: real, y: real)

  // Godot's named unit vectors (Godot 3: -Z is "forward", +X is "right").
  const GodotBack := Vector3(0.0, 0.0, 1.0)
  const GodotForward := Vector3(0.0, 0.0, -1.0)
  const GodotRight := Vector3(1.0, 0.0, 0.0)
  const GodotLeft := Vector3(-1.0, 0.0, 0.0)
  const GodotUp := Vector3(0.0, 1.0, 0.0)
  const GodotDown := Vector3(0.0, -1.0, 0.0)

  /** The six axis directions of the world, in declaration order. */
  datatype WorldDirection = Forward | Backward | Left | Right | Up | Down

  /** The position of a direction in the enum (its underlying integer value). */
  function DirectionIndex(d: WorldDirection): (i: nat)
    ensures i < 6
  {
    match d
    case Forward => 0
    case Backward => 1
    case Left => 2
    case Right => 3
    case Up => 4
    case Down => 5
  }

  /** The direction whose enum value is `i`. */
  function DirectionOfIndex(i: nat): (d: WorldDirection)
    requires i < 6
    ensures DirectionIndex(d) == i
  {
    if i == 0 then Forward
    else if i == 1 then Backward
    else if i == 2 then Left
    else if i == 3 then Right
    else if i == 4 then Up
    else Down
  }

  /** Numbering a direction and reading the number back gives the direction. */
  lemma DirectionIndexInverse(d: WorldDirection)
    ensures DirectionOfIndex(DirectionIndex(d)) == d
  {
  }

  /** The direction pointing the other way along the same axis. */
  function Opposite(d: WorldDirection): WorldDirection
  {
    match d
    case Forward => Backward
    case Backward => Forward
    case Left => Right
    case Right => Left
    case Up => Down
    case Down => Up
  }

  predicate IsHorizontal(d: WorldDirection) {
    d == Forward || d == Backward || d == Left || d == Right
  }

  /**
   * `Extensions.ToVector`: the world's X and Z axes are mirrored from
   * Godot's, so Forward is Godot's Back and Left is Godot's Right.
   */
  function ToVector(d: WorldDirection): (v: Vector3)
    ensures IsUnitAxis(v)
    ensures IsHorizontal(d) <==> v.y == 0.0
  {
    match d
    case Forward => GodotBack
    case Backward => GodotForward
    case Left => GodotRight
    case Right => GodotLeft
    case Up => GodotUp
    case Down => GodotDown
  }

  /** Exactly one component is non-zero, and it is +1 or -1. */
  predicate IsUnitAxis(v: Vector3) {
    (v.x == 0.0 && v.y == 0.0 && (v.z == 1.0 || v.z == -1.0)) ||
    (v.x == 0.0 && v.z == 0.0 && (v.y == 1.0 || v.y == -1.0)) ||
    (v.y == 0.0 && v.z == 0.0 && (v.x == 1.0 || v.x == -1.0))
  }

  /** The concrete vector of every direction; vertical directions move along Y only. */
  lemma ToVectorValues(d: WorldDirection)
    ensures IsUnitAxis(ToVector(d))
    ensures d == Forward ==> ToVector(d) == Vector3(0.0, 0.0, 1.0)
    ensures d == Backward ==> ToVector(d) == Vector3(0.0, 0.0, -1.0)
    ensures d == Left ==> ToVector(d) == Vector3(1.0, 0.0, 0.0)
    ensures d == Right ==> ToVector(d) == Vector3(-1.0, 0.0, 0.0)
    ensures d == Up ==> ToVector(d) == Vector3(0.0, 1.0, 0.0)
    ensures d == Down ==> ToVector(d) == Vector3(0.0, -1.0, 0.0)
    ensures IsHorizontal(d) <==> ToVector(d).y == 0.0
  {
  }

  /** Opposite directions map to negated vectors. */
  lemma ToVectorOpposite(d: WorldDirection)
    ensures ToVector(Opposite(d)) == ToVector(d).Negate()
  {
    match d
    case Forward =>
    case Backward =>
    case Left =>
    case Right =>
    case Up =>
    case Down =>
  }

  /** The six vectors are pairwise distinct, so ToVector is injective. */
  lemma ToVectorInjective(d1: WorldDirection, d2: WorldDirection)
    ensures ToVector(d1) == ToVector(d2) <==> d1 == d2
  {
  }

  /**
   * The static settings `RenderDistance` and `SimDistance` of GlobalVars,
   * held in one object whose methods update them in place.
   */
  class GlobalVars {
    var renderDistance: uint32
    var simDistance: uint32

    /** RenderDistance must be positive and SimDistance may not exceed it. */
    predicate Valid()
      reads this
    {
      0 < renderDistance && simDistance <= renderDistance
    }

    /** The initial values of the static properties. */
    constructor ()
      ensures Valid()
      ensures renderDistance == 12 && simDistance == 6
    {
      renderDistance := 12;
      simDistance := 6;
    }

    /**
     * A zero distance is ignored; otherwise RenderDistance takes it and
     * SimDistance is lowered to it if it was larger.
     */
    method SetRenderDistance(distance: uint32)
      modifies this
      ensures distance == 0 ==> renderDistance == old(renderDistance) && simDistance == old(simDistance)
      ensures distance > 0 ==> renderDistance == distance
      ensures distance > 0 && old(simDistance) > distance ==> simDistance == distance
      ensures distance > 0 && old(simDistance) <= distance ==> simDistance == old(simDistance)
      ensures distance > 0 ==> Valid()
      ensures old(Valid()) ==> Valid()
    {
      if distance == 0 {
        return;
      }
      renderDistance := distance;
      if simDistance > renderDistance {
        simDistance := renderDistance;
      }
    }
  }
}

/** The hexagonal-grid vocabulary of the hex2d crate that the turn engine
    uses: cells, facings, relative angles and positions. The crate's
    coordinate arithmetic is not modelled; only the rotation of a facing by
    an angle, which the melee branch of `act` computes, is written out. */
module Hex {
  /** A cell of the hexagonal grid. */
  datatype Coord = Coord(x: int, y: int)

  /** The six facings, in the crate's clockwise order. */
  datatype Direction = YZ | XZ | XY | ZY | ZX | YX

  /** A turn relative to the current facing, in the crate's clockwise order. */
  datatype Angle = Forward | Right | RightBack | Back | LeftBack | Left

  /** A cell together with a facing. */
  datatype Position = Position(coord: Coord, dir: Direction)

  function DirectionIndex(d: Direction): (i: nat)
    ensures i < 6
  {
    match d
    case YZ => 0 case XZ => 1 case XY => 2 case ZY => 3 case ZX => 4 case YX => 5
  }

  function DirectionOf(i: nat): (d: Direction)
    requires i < 6
    ensures DirectionIndex(d) == i
  {
    if i == 0 then YZ else if i == 1 then XZ else if i == 2 then XY
    else if i == 3 then ZY else if i == 4 then ZX else YX
  }

  function AngleIndex(a: Angle): (i: nat)
    ensures i < 6
  {
    match a
    case Forward => 0 case Right => 1 case RightBack => 2
    case Back => 3 case LeftBack => 4 case Left => 5
  }

  /** The facing `d + a`: the two clockwise indices add modulo six. */
  function Rotate(d: Direction, a: Angle): (r: Direction)
    ensures DirectionIndex(r) == (DirectionIndex(d) + AngleIndex(a)) % 6
  {
    DirectionOf((DirectionIndex(d) + AngleIndex(a)) % 6)
  }

  /** Facings are determined by their clockwise index. */
  lemma DirectionIndexInjective(d1: Direction, d2: Direction)
    requires DirectionIndex(d1) == DirectionIndex(d2)
    ensures d1 == d2
  {
  }

  /** Turning by `Forward` keeps the facing. */
  lemma RotateForward(d: Direction)
    ensures Rotate(d, Forward) == d
  {
    DirectionIndexInjective(Rotate(d, Forward), d);
  }

  /** Turning left and then right restores the facing. */
  lemma RotateLeftRight(d: Direction)
    ensures Rotate(Rotate(d, Left), Right) == d
  {
    var i := DirectionIndex(d);
    var j := DirectionIndex(Rotate(d, Left));
    if i == 0 { assert j == 5; } else { assert j == i - 1; }
    DirectionIndexInjective(Rotate(Rotate(d, Left), Right), d);
  }

  /** Turning back twice restores the facing. */
  lemma RotateBackBack(d: Direction)
    ensures Rotate(Rotate(d, Back), Back) == d
  {
    var i := DirectionIndex(d);
    var j := DirectionIndex(Rotate(d, Back));
    if i < 3 { assert j == i + 3; } else { assert j == i - 3; }
    DirectionIndexInjective(Rotate(Rotate(d, Back), Back), d);
  }
}

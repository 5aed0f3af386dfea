/** Terrain tiles. The tile catalogue lives in the game's tile module, which
    is not part of this model; a tile here is the part of it the turn engine
    looks at: passability, opaqueness, light emission and an optional
    feature. Tiles are values and are replaced, never changed in place. */
module Tiles {
  import opened Wrappers

  /** A tile overlay: a door (open or closed) or a staircase down. */
  datatype Feature = Door(open: bool) | Stairs

  /** `walkable` is the passability of the ground itself; a closed door on
      top of it blocks movement. */
  datatype Tile = Tile(walkable: bool, opaqueness: int, light: int, feature: Option<Feature>)
  {
    /** Whether an actor can stand here (`Tile::is_passable`). */
    predicate IsPassable()
    {
      walkable && feature != Some(Door(false))
    }

    /** The same tile carrying feature `f` instead of its former one. */
    function AddFeature(f: Feature): (t: Tile)
      ensures t.feature == Some(f)
      ensures t.walkable == walkable && t.opaqueness == opaqueness && t.light == light
    {
      this.(feature := Some(f))
    }
  }

  /** The closure `|t| t.feature == Some(Door(false))` of the door branch. */
  function IsClosedDoor(t: Tile): bool
  {
    t.feature == Some(Door(false))
  }

  /** The closure `|t| t.feature == Some(Feature::Stairs)` of `Descend`. */
  function HasStairs(t: Tile): bool
  {
    t.feature == Some(Stairs)
  }

  /** The closure `|t| t.is_passable()`. */
  function Passable(t: Tile): bool
  {
    t.IsPassable()
  }

  /** Opening a door on walkable ground makes the tile passable, and it is
      no longer a closed door; closing it again makes it impassable. */
  lemma OpenedDoorIsPassable(t: Tile)
    ensures t.walkable ==> Passable(t.AddFeature(Door(true)))
    ensures !IsClosedDoor(t.AddFeature(Door(true)))
    ensures !Passable(t.AddFeature(Door(false)))
    ensures IsClosedDoor(t.AddFeature(Door(false)))
  {
  }
}

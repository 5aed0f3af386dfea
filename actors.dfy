/** The actor record as the turn engine sees it. The actor module that
    defines it is not part of this model: the capability tests the engine
    calls (`is_dead`, `can_perform_action`, `can_attack`) are plain fields
    here, and its behaviour (movement projection, attacks, hooks) is passed
    to the engine as a `Game.Behavior`. */
module Actors {
  import opened Hex

  /** A ground or inventory item; the item catalogue is not modelled. */
  datatype Item = Item(name: string)

  /** The species of an actor; the catalogue beyond the two names the
      engine refers to is not modelled. */
  datatype Race = Human | Pony | Other(name: string)

  /** One creature. The two inventories are drained in sequence order. */
  datatype Actor = Actor(
    pos: Position,
    race: Race,
    player: bool,
    dead: bool,
    canAct: bool,
    canAttack: bool,
    backpack: seq<Item>,
    equipped: seq<Item>)
  {
    /** The record after its backpack and equipped slots were drained. */
    function Drained(): (a: Actor)
      ensures a.backpack == [] && a.equipped == []
      ensures a.pos == pos && a.dead == dead
      ensures a.(backpack := backpack, equipped := equipped) == this
    {
      this.(backpack := [], equipped := [])
    }
  }

  /** `actor::State::new(race, pos)` as far as the engine relies on it: a
      living, capable actor at `pos` with nothing in its inventories. */
  function NewActor(race: Race, pos: Position): (a: Actor)
    ensures a.pos == pos && a.race == race && !a.dead && !a.player
    ensures a.backpack == [] && a.equipped == []
  {
    Actor(pos, race, false, false, true, true, [], [])
  }
}

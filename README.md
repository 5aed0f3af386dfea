# rhex turn engine, modelled in Dafny

This project models the turn engine of the hex-grid roguelike rhex: the
`State` of `src/game/mod.rs`. That state holds the following:
- the actor registry (`actors`);
- the coordinate index that maps cells to actor ids (`actors_pos`);
- the set of actors whose death has been processed (`actors_dead`);
- the id counter;
- the terrain map;
- the ground items;
- the light map;
- the turn counter, the descend flag and the level number.

Each turn the engine runs three phases: a pre-turn hook for every living actor, the resolution of the actors' actions, and a post-turn cleanup. The cleanup processes new deaths, rebuilds the index, recomputes the light and advances the turn.

The model has two layers:

* `Game.World` holds the engine state as a value. The operations are functions on it:
  - the read-only cell queries of `At`;
  - the effect of `spawn`;
  - the branch `act` takes, `Resolve`, tried in the source's priority order;
  - the effect of each branch, combined in `Step`;
  - the effect of the post-turn phase, `CleanedUp`.
  
  Their contracts state what each operation promises, and the lemmas in `GameProperties` relate several operations.
* `Game.State` is the object the program mutates. Its fields are the source's fields. Its methods update them in place: the same loops over the registry, the same detach/update/reattach of an actor record, the same drain loops of the cleanup phase. The spawn, action and pre-turn methods are proved to leave the object exactly as the matching `World` function says. The post-turn phase is proved against `World.CleanedUp` for every field; the ground items it takes as a parameter, because where each dropped item lands depends on the order of a hash-map sweep. For the ground, `PostTick` states instead that it only grows, onto passable tiles, and only with items the newly dead carried.

The actor module, the tile module and the foreign libraries the engine calls are not part of this model. The engine depends on them through `Game.Behavior`, a record of opaque functions:
- an actor's position after an action;
- the cell ahead of it;
- `add_item` and `equip_switch`;
- an attack, which returns the new attacker and the new target;
- the pre- and post-turn hooks;
- the line-of-sight light flood;
- the breadth-first search for a drop site.

The only thing the model assumes about the search is its goal predicate (`FinderSound`, from `src/game/mod.rs:463`). The post-turn hook is assumed to keep an actor's cell and liveness only where a contract says so (`PostTickKeepsPlace`).

Three look-ups of the source panic on a missing key, and the model excludes each by a precondition:
- `act` on an id that is not registered panics at `src/game/mod.rs:268`; `Act` requires `id in actors`.
- The index rebuild of the cleanup phase panics at `src/game/mod.rs:368` on an entry that names no registered actor; `Valid` (through `World.WellFormed`) requires every entry to name a registered actor, and every operation keeps this.
- `act` on an actor whose stale index entry makes it attack itself removes the actor from the registry and then looks it up again, which panics at `src/game/mod.rs:314-315`. This is excluded by `SelfAttack`. `ConsistentIndexRulesOutSelfAttack` shows that it cannot happen while the index is as the cleanup phase leaves it.

Two details of the code that the model follows:
- **Facing-only actions:** the no-movement test compares whole positions, cell and facing. An action that only changes the facing, such as a turn, therefore takes the move branch, which re-indexes the actor's own cell. It does not take the no-movement branch.
- **`Fire`:** it has no branch of its own in the engine. When it leaves the position unchanged, it does nothing there.

## Model

| member | source | states |
|---|---|---|
| Game.ActionCouldBeAttack | src/game/mod.rs:54-62 | true exactly for a move to the left, right or straight ahead |
| Game.Take | src/game/mod.rs:478-484 | the item at exactly the cell is returned iff there is one, and it alone is removed; every other cell keeps its item |
| Game.Drop | src/game/mod.rs:459-476 | no existing item is moved or overwritten; when the search finds a cell, the item is put exactly there, and that cell is passable and was free; when the search finds nothing the ground is unchanged (the item is destroyed) |
| Game.DropAll | src/game/mod.rs:354-360 | draining an inventory keeps every existing item in place; every new item comes from the inventory and lies on a passable tile; an empty inventory changes nothing |
| GameProperties.DropAllBound | src/game/mod.rs:354-360 | draining an inventory occupies at most one new cell per item |
| GameProperties.DropAllPlacesEverything | src/game/mod.rs:354-360 | when the search has room for every item, draining occupies exactly one new cell per item, so nothing is destroyed |
| Game.MergeLight | src/game/mod.rs:200-212 | the cell takes the brighter of its old value and the new one; the other cells keep their values and the key set grows by the cell |
| Game.FilterIndex | src/game/mod.rs:367-369 | the rebuilt index keeps exactly the old entries whose actor is alive and stands on the entry's cell, unchanged |
| Game.NewlyDead | src/game/mod.rs:350-351 | an id is selected iff its actor is dead and not yet in the dead-set; `SecondSweepFindsNoDeaths` shows the selection is empty right after a cleanup |
| Game.Swept | src/game/mod.rs:350-364 | the newly dead have empty inventories; every actor differs from its old record at most in its inventories; the others are unchanged; no id is added or lost |
| Game.ApplyToAlive | src/game/mod.rs:374-378 | the hook touches no dead actor and no id is added or lost |
| Game.World.TileMapOr | src/game/mod.rs:410-414 | the default where no tile exists, the function of the tile otherwise; `ClosedDoorOpens` uses it to state what opening a door does |
| Game.World.IsOccupied | src/game/mod.rs:428-430 | true iff some actor is indexed at the cell; `SpawnOccupies` and `CommitOccupies` state which operations occupy a cell |
| Game.World.IsPassable | src/game/mod.rs:432-434 | true iff no actor is indexed there and a passable tile exists there; an occupied cell is never passable |
| Game.World.Light | src/game/mod.rs:436-438 | the light map's value, zero where it has none; `MergeLightBrightens` relates it to merging a source |
| Game.World.AliveIds | src/game/mod.rs:182-184 | exactly the registered ids whose actor is not dead; `SpawnAddsAlive` and `StepKeepsAliveOutsideHooks` state how spawning and acting change it |
| Game.World.Spawn | src/game/mod.rs:251-257 | the new actor is registered under the old counter value, the counter grows by one, the actor is indexed at its cell (overwriting that entry); nothing else changes; well-formedness is kept and the id was fresh |
| GameProperties.SpawnOccupies | src/game/mod.rs:251-257 | after spawning, the actor's cell is occupied and not passable, and every cell occupied before still is |
| GameProperties.SpawnAddsAlive | src/game/mod.rs:251-257 | spawning a living actor adds exactly its new id to the living ones |
| Game.World.Resolve | src/game/mod.rs:266-337 | the branch `act` takes: incapable iff the actor cannot act; no movement iff the position is unchanged; an attack only for a left/right/forward move into a different, indexed cell, targeting the indexed id and refused without the ability to attack; a door is opened only when the target holds a closed door; a move only onto the same cell or a passable one; blocked only when the target cell differs and is not passable |
| GameProperties.ResolveFollowsPriority | src/game/mod.rs:268-337 | once the actor can act and the position changes, the branch is fixed by the premises in the source's order: a bump into an indexed cell attacks (or is refused), else a closed door is opened, else a free or unchanged cell is moved onto, else the move is blocked |
| Game.World.Interacted | src/game/mod.rs:275-298 | `Descend` raises the flag iff the actor stands on stairs; `Pick` moves the item on the cell ahead into the backpack and removes it from the ground, or does nothing when there is none; `Equip` switches the slot; every other action changes nothing |
| Game.World.Attacked | src/game/mod.rs:299-316 | only the attacker's and the target's records change, to the attack's results in the facing turned by the move's angle |
| Game.World.DoorOpened | src/game/mod.rs:318-325 | only the tile at the cell changes, to the same tile with an open door |
| Game.World.Committed | src/game/mod.rs:327-336 | the actor stands at the new position and is indexed at its new cell; every other entry, including the one at its former cell, is kept |
| Game.World.Step | src/game/mod.rs:266-337 | well-formedness and the actor key set are kept; an actor that cannot act, a refused attack and a blocked move leave the world unchanged; the counter, dead-set, light, turn and level never change |
| Game.World.CleanedUp | src/game/mod.rs:348-381 | the dead-set grows by exactly the newly dead and afterwards holds every dead actor; the new index is a sub-map of the old one that drops exactly the stale or dead entries; it is consistent with the registry when the hooks keep place and liveness; the turn advances by one; well-formedness is kept |
| Game.State.Spawn | src/game/mod.rs:251-257 | the object becomes `World.Spawn` of its old value; validity is kept |
| Game.State.SpawnPlayer | src/game/mod.rs:259-263 | spawns a new human actor at the position, flagged as the player |
| GameProperties.SpawnedPlayerAlive | src/game/mod.rs:259-263 | the spawned player is alive, is a player and occupies its cell |
| Game.State.PickItem | src/game/mod.rs:478-484 | the returned item and the new ground are those of `Take` |
| Game.State.DropItem | src/game/mod.rs:459-476 | the new ground is that of `Drop` |
| Game.State.NoMove | src/game/mod.rs:275-298 | the object becomes `World.Interacted` of its old value, which is `Step` when the action resolves to no movement |
| Game.State.Melee | src/game/mod.rs:307-316 | the object becomes `World.Attacked` of its old value, which is `Step` when the action resolves to that attack |
| Game.State.OpenDoorAt | src/game/mod.rs:318-325 | the object becomes `World.DoorOpened` of its old value |
| Game.State.MoveTo | src/game/mod.rs:327-333 | the object becomes `World.Committed` of its old value |
| Game.State.Act | src/game/mod.rs:266-337 | the object becomes `World.Step` of its old value; validity is kept |
| Game.State.ApplyHookToAlive | src/game/mod.rs:340-344 | every actor alive when the loop starts has the hook applied once; the others are unchanged |
| Game.State.PreTick | src/game/mod.rs:339-345 | the registry becomes `ApplyToAlive` of the pre-turn hook; validity is kept |
| Game.State.DropInventory | src/game/mod.rs:354-360 | dropping the items one after another yields `DropAll` of the inventory |
| Game.State.ProcessDeath | src/game/mod.rs:351-364 | the actor is reattached with drained inventories; the backpack then the equipped slots are dropped at its cell; its id joins the dead-set |
| Game.State.SweepOne | src/game/mod.rs:350-364 | an actor is processed iff it is dead and not yet in the dead-set; then the ground is the backpack and then the equipped slots drained at its cell; the ground only grows, with items the actor carried |
| Game.State.SweepDeaths | src/game/mod.rs:350-365 | the registry becomes `Swept` of the newly dead; the dead-set grows by exactly them; for the order in which the sweep visited the newly dead, each exactly once, the ground is every one of them drained in turn (`DrainActors`): the backpack and then the equipped slots dropped at its cell; hence the ground only grows, onto passable tiles, only with items the newly dead carried, and is unchanged when nobody newly died |
| Game.State.SweepNext | src/game/mod.rs:350-364 | one turn of the sweep loop: the next actor is drained and recorded in the visiting order when it is newly dead, and the sweep's state is again the registry, dead-set and ground of the ids visited so far |
| Game.DrainActorsGrows | src/game/mod.rs:350-364 | draining the actors of any visiting order only grows the ground, onto passable tiles, with items those actors carried |
| Game.State.Refresh | src/game/mod.rs:367-380 | the index is rebuilt by `FilterIndex`, the light recomputed from the rebuilt index, the post-turn hooks applied and the turn advanced |
| Game.State.PostTick | src/game/mod.rs:348-381 | the object becomes `World.CleanedUp` of its old value for the new ground; the new ground is the old one with every newly dead actor's inventories drained, each actor once, in the order the sweep visited them; it therefore only grows, only with items the newly dead carried, and is unchanged when nobody newly died; validity is kept |
| Tiles.Tile.AddFeature | src/game/mod.rs:324 | the tile carries the new feature and keeps its ground, opaqueness and light |
| Tiles.OpenedDoorIsPassable | src/game/mod.rs:318-325 | an opened door on walkable ground is passable and no longer a closed door; a closed door is impassable |
| Actors.Actor.Drained | src/game/mod.rs:354-361 | both inventories are empty and nothing else of the record changes |
| Actors.NewActor | src/game/mod.rs:260 | a living non-player actor of the race at the position, with empty inventories; `SpawnAddsAlive` and `SpawnedPlayerAlive` use it |
| Hex.Rotate | src/game/mod.rs:307-310 | turning a facing by an angle advances its index by the angle's index, modulo six |
| Hex.RotateForward | src/game/mod.rs:307-310 | turning by `Forward` keeps the facing |
| Hex.RotateLeftRight | src/game/mod.rs:307-310 | turning left and then right restores the facing |
| Hex.RotateBackBack | src/game/mod.rs:307-310 | turning back twice restores the facing |
| GameProperties.DropAllWithoutSiteDestroys | src/game/mod.rs:470-471 | when no drop site exists, every item of a drained inventory is destroyed and the ground is unchanged |
| GameProperties.DropThenPick | src/game/mod.rs:459-484 | picking up at the cell a drop used returns the dropped item and restores the ground |
| GameProperties.MergeLightCommutes | src/game/mod.rs:200-212 | two light sources merge to the same map in either order, so the visiting order does not matter |
| GameProperties.MergeLightBrightens | src/game/mod.rs:200-212 | after merging a source, its cell is lit at least by the source's strength and no cell is darker than before |
| GameProperties.FilterIndexIdempotent | src/game/mod.rs:367-369 | rebuilding the index twice is rebuilding it once |
| GameProperties.SecondSweepFindsNoDeaths | src/game/mod.rs:350-365 | after a cleanup whose hooks keep liveness, no death is left to process, so no inventory is dropped twice |
| GameProperties.ConsistentIndexRulesOutSelfAttack | src/game/mod.rs:312-316 | while the index is consistent, no bump makes an actor attack itself |
| GameProperties.MovedActorIndexedTwiceUntilCleanup | src/game/mod.rs:330-333 | after a move, the actor is indexed at both its former and its new cell; the next rebuild drops only the former one |
| GameProperties.BumpAttacks | src/game/mod.rs:299-316 | a capable actor bumping into another indexed actor with a left, right or forward move attacks that actor, or changes nothing when it cannot attack |
| GameProperties.ClosedDoorOpens | src/game/mod.rs:318-325 | bumping a closed door that is not an attack opens it: the tile is no longer a closed door and is as passable as its ground, and nothing else changes |
| GameProperties.OpenedDoorLetsThrough | src/game/mod.rs:318-336 | bumping a closed door on a free walkable cell opens it without moving the actor, and the same action then moves the actor onto it |
| GameProperties.CommitOccupies | src/game/mod.rs:327-333 | a committed move puts the actor at its new position; the new cell is occupied and not passable, and every occupied cell stays occupied |
| GameProperties.StepKeepsAliveOutsideHooks | src/game/mod.rs:266-337 | outside an attack or an interaction, acting keeps the set of living actors |
| GameProperties.BlockedMoveChangesNothing | src/game/mod.rs:334-336 | a move toward a free, impassable cell without a closed door changes nothing |

## Left out

- `State::new` and `next_level` are left out. They build a level from the dungeon generator, which is not part of this model.
- The two line-of-sight flood loops of `recalculate_light_map` are not modelled; they are the `relight` function of `Behavior`. Only the rule by which a source enters the light map is modelled (`MergeLight`).
- MergeLight: light is a natural number. The source's cast `light as u32` of a possibly negative `i32` is not modelled.
- `recalculate_noise` is left out: it walks hex ranges, and `noise_hears` belongs to the actor module.
- PostTick: the noise pass runs between the light pass and the post-turn hooks. There it updates the noise memory of each actor that hears a sound. It is not part of the post-state the contract describes.
- PreTick, PostTick: the hooks are functions of the actor alone. In the source they also read the engine state, which makes what each hook sees depend on the actors processed before it.
- DropItem: the breadth-first search is not modelled. Its result is specified only by its goal predicate (`FinderSound`), not as the nearest such cell.
- SweepDeaths: the sweep visits ids in an arbitrary order, because the source iterates a hash map. The order is a ghost result of the method, so the contract pins the ground only up to that order. The order in which an inventory is drained is taken as its sequence order; the source drains its keyed inventory maps there, whose order the model does not fix.
- Act: an action after which an actor would attack itself through a stale index entry is excluded by `SelfAttack`. The source panics there.
- Act: `Arc::make_unique` copy-on-write of the terrain is modelled as replacing the terrain map.
- Game.World.Committed: the actor module's `moved` is modelled as setting the actor's position to the new one; whatever else it does belongs to the actor module, which is not part of this model.
- Hex.Rotate: the hex arithmetic of the foreign hex grid library is left out. Rotation is modelled as adding direction indices modulo six; coordinates and the cell ahead are opaque.
- Game.World.Spawn: the `u32` id counter and the `u64` turn counter are unbounded naturals. Wrap-around is not modelled.
- Tiles.Tile.AddFeature: the tile module is not part of this model. A tile's passability is modelled as walkable ground without a closed door.
- Actors.NewActor: the actor module is not part of this model, so `actor::State::new` is assumed to build a living, non-player actor that can act and attack and has empty inventories, and `set_player` is assumed to set the player flag and nothing else. That the spawned player is alive (`SpawnedPlayerAlive`) rests on these assumptions.
- The actor capability tests `is_dead`, `can_perform_action` and `can_attack` are plain fields of the actor record. The actor module's rules for them are not part of this model.
- `actors_ids`, `At::tile`, `At::actor_map_or`, `At::item_map_or` and `At::item` are plain map look-ups. They have no contract of their own beyond the queries above.

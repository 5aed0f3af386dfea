/** Properties of the turn engine that relate several operations. */
module GameProperties {
  import opened Wrappers
  import opened Hex
  import opened Tiles
  import opened Actors
  import opened Game

  /** When the search finds no site, draining any inventory leaves the
      ground as it was: every item is destroyed. */
  lemma {:induction false} DropAllWithoutSiteDestroys(terrain: Terrain, items: Items, at: Coord, inventory: seq<Item>, find: Finder)
    requires FinderSound(find)
    requires find(terrain, items, at).None?
    ensures DropAll(terrain, items, at, inventory, find) == items
    decreases |inventory|
  {
    if inventory != [] {
      assert Drop(terrain, items, at, inventory[0], find) == items;
      DropAllWithoutSiteDestroys(terrain, items, at, inventory[1..], find);
    }
  }

  /** Draining an inventory occupies at most one new cell per item. */
  lemma {:induction false} DropAllBound(terrain: Terrain, items: Items, at: Coord, inventory: seq<Item>, find: Finder)
    requires FinderSound(find)
    ensures |DropAll(terrain, items, at, inventory, find).Keys| <= |items.Keys| + |inventory|
    decreases |inventory|
  {
    if inventory != [] {
      var d := Drop(terrain, items, at, inventory[0], find);
      assert DropAll(terrain, items, at, inventory, find) == DropAll(terrain, d, at, inventory[1..], find);
      DropAllBound(terrain, d, at, inventory[1..], find);
      DropBound(terrain, items, at, inventory[0], find);
    }
  }

  /** One drop occupies at most one new cell. */
  lemma DropBound(terrain: Terrain, items: Items, at: Coord, item: Item, find: Finder)
    requires FinderSound(find)
    ensures |Drop(terrain, items, at, item, find).Keys| <= |items.Keys| + 1
  {
    match find(terrain, items, at)
    case None =>
    case Some(v) =>
      assert Drop(terrain, items, at, item, find).Keys == items.Keys + {v};
  }

  /** When the search has room for the whole inventory, draining it
      occupies exactly one new cell per item: nothing is destroyed. */
  lemma {:induction false} DropAllPlacesEverything(terrain: Terrain, items: Items, at: Coord, inventory: seq<Item>, find: Finder)
    requires FinderSound(find)
    requires SitesFor(terrain, items, at, |inventory|, find)
    ensures |DropAll(terrain, items, at, inventory, find).Keys| == |items.Keys| + |inventory|
    decreases |inventory|
  {
    if inventory != [] {
      assert find(terrain, items, at).Some? by {
        assert items.Keys - items.Keys == {};
      }
      var v := find(terrain, items, at).value;
      var d := Drop(terrain, items, at, inventory[0], find);
      assert DropAll(terrain, items, at, inventory, find) == DropAll(terrain, d, at, inventory[1..], find);
      assert v !in items && d.Keys == items.Keys + {v};
      SitesForAfterDrop(terrain, items, d, at, v, |inventory|, find);
      DropAllPlacesEverything(terrain, d, at, inventory[1..], find);
    }
  }

  /** Room for `n` items is room for `n - 1` once one more cell is taken. */
  lemma SitesForAfterDrop(terrain: Terrain, items: Items, d: Items, at: Coord, v: Coord, n: nat, find: Finder)
    requires v !in items && d.Keys == items.Keys + {v}
    requires n > 0 && SitesFor(terrain, items, at, n, find)
    ensures SitesFor(terrain, d, at, n - 1, find)
  {
    forall its: Items | d.Keys <= its.Keys && |its.Keys - d.Keys| < n - 1
      ensures find(terrain, its, at).Some?
    {
      DiffShrinksByOne(its.Keys, items.Keys, v);
    }
  }

  /** Taking one more cell out of a difference of sets shrinks it by one. */
  lemma DiffShrinksByOne(big: set<Coord>, small: set<Coord>, v: Coord)
    requires v !in small && small + {v} <= big
    ensures |big - small| == |big - (small + {v})| + 1
  {
    var extra := big - (small + {v});
    assert big - small == extra + {v};
  }

  /** Picking up at the cell a drop used returns that item and the ground
      as it was before the drop. */
  lemma DropThenPick(terrain: Terrain, items: Items, at: Coord, item: Item, find: Finder)
    requires FinderSound(find)
    requires find(terrain, items, at).Some?
    ensures var c := find(terrain, items, at).value;
      Take(Drop(terrain, items, at, item, find), c) == (Some(item), items)
  {
    var c := find(terrain, items, at).value;
    var dropped := Drop(terrain, items, at, item, find);
    assert c !in items && dropped == items[c := item];
    assert dropped - {c} == items;
  }

  /** Light sources may be merged in any order: the light map does not
      depend on the order in which the map and the actors are visited. */
  lemma MergeLightCommutes(lm: LightMap, c1: Coord, v1: nat, c2: Coord, v2: nat)
    ensures MergeLight(MergeLight(lm, c1, v1), c2, v2) == MergeLight(MergeLight(lm, c2, v2), c1, v1)
  {
  }

  /** Merging a source of strength `v` at `c` lights `c` at least that
      much and darkens no cell, as the world reads its light map. */
  lemma MergeLightBrightens(w: World, c: Coord, v: nat)
    ensures var w' := w.(lightMap := MergeLight(w.lightMap, c, v));
      && w'.Light(c) >= v
      && forall k :: w'.Light(k) >= w.Light(k)
  {
  }

  /** Rebuilding the coordinate index a second time removes nothing more. */
  lemma FilterIndexIdempotent(index: Index, actors: Registry)
    requires forall c :: c in index ==> index[c] in actors
    ensures FilterIndex(FilterIndex(index, actors), actors) == FilterIndex(index, actors)
  {
  }

  /** After a cleanup whose post-turn hooks leave deadness alone, a second
      sweep finds no death to process: inventories are dropped once. */
  lemma SecondSweepFindsNoDeaths(w: World, dropped: Items, b: Behavior)
    requires w.WellFormed() && b.PostTickKeepsPlace()
    ensures var w' := w.CleanedUp(dropped, b);
      NewlyDead(w'.actors, w'.actorsDead) == {}
  {
  }

  /** While the index is consistent (as the cleanup phase leaves it), no
      bump can make an actor attack itself. */
  lemma ConsistentIndexRulesOutSelfAttack(w: World, id: ActorId, action: Action, b: Behavior)
    requires id in w.actors && IndexConsistent(w.actorsPos, w.actors)
    ensures !w.SelfAttack(id, action, b)
  {
  }

  /** An actor that moves stays indexed at its former cell as well as its
      new one for the rest of the turn, and the next cleanup drops the
      former entry only. */
  lemma MovedActorIndexedTwiceUntilCleanup(w: World, id: ActorId, action: Action, b: Behavior)
    requires w.WellFormed() && id in w.actors && !w.SelfAttack(id, action, b)
    requires w.Resolve(id, action, b).Commit?
    requires var c0 := w.actors[id].pos.coord;
      c0 in w.actorsPos && w.actorsPos[c0] == id
    requires !w.actors[id].dead && b.posAfter(w.actors[id], action).coord != w.actors[id].pos.coord
    ensures var c0 := w.actors[id].pos.coord;
      var c1 := b.posAfter(w.actors[id], action).coord;
      var w' := w.Step(id, action, b);
      var rebuilt := FilterIndex(w'.actorsPos, w'.actors);
      && w'.actorsPos[c0] == id && w'.actorsPos[c1] == id
      && c0 !in rebuilt && c1 in rebuilt && rebuilt[c1] == id
  {
  }

  /** `act` tries its branches in a fixed order once the actor can act
      and the action changes its position: a bump into an indexed cell,
      then a closed door, then a free (or unchanged) cell, else blocked. */
  lemma ResolveFollowsPriority(w: World, id: ActorId, action: Action, b: Behavior)
    requires id in w.actors
    ensures var a := w.actors[id]; var np := b.posAfter(a, action);
      var r := w.Resolve(id, action, b);
      var bump := ActionCouldBeAttack(action) && a.pos.coord != np.coord && np.coord in w.actorsPos;
      var door := np.coord in w.terrain && w.terrain[np.coord].feature == Some(Door(false));
      var free := a.pos.coord == np.coord || w.IsPassable(np.coord);
      a.canAct && a.pos != np ==>
        && (bump ==> r == if a.canAttack then Attack(w.actorsPos[np.coord]) else AttackRefused)
        && (!bump && door ==> r == OpenDoor)
        && (!bump && !door && free ==> r == Commit(np))
        && (!bump && !door && !free ==> r == Blocked)
  {
  }

  /** A capable actor bumping into another indexed actor with a forward or
      sideways move attacks it, or does nothing when it cannot attack. */
  lemma BumpAttacks(w: World, id: ActorId, action: Action, b: Behavior)
    requires w.WellFormed() && id in w.actors
    requires var a := w.actors[id]; var np := b.posAfter(a, action);
      && a.canAct && ActionCouldBeAttack(action) && a.pos.coord != np.coord
      && np.coord in w.actorsPos && w.actorsPos[np.coord] != id
    ensures !w.SelfAttack(id, action, b)
    ensures var a := w.actors[id]; var np := b.posAfter(a, action);
      var w' := w.Step(id, action, b);
      && (a.canAttack ==> w' == w.Attacked(id, w.actorsPos[np.coord], action, b))
      && (!a.canAttack ==> w' == w)
  {
  }

  /** Bumping a closed door that no actor is indexed in front of opens it:
      the tile stops being a closed door and becomes as passable as its
      ground, and nothing else changes. */
  lemma ClosedDoorOpens(w: World, id: ActorId, action: Action, b: Behavior)
    requires w.WellFormed() && id in w.actors
    requires var a := w.actors[id]; var np := b.posAfter(a, action);
      && a.canAct && a.pos != np
      && !(ActionCouldBeAttack(action) && a.pos.coord != np.coord && np.coord in w.actorsPos)
      && np.coord in w.terrain && w.terrain[np.coord].feature == Some(Door(false))
    ensures !w.SelfAttack(id, action, b)
    ensures var c := b.posAfter(w.actors[id], action).coord;
      var w' := w.Step(id, action, b);
      && w' == w.DoorOpened(c)
      && !w'.TileMapOr(c, false, IsClosedDoor)
      && w'.TileMapOr(c, false, Passable) == w.terrain[c].walkable
  {
  }

  /** Bumping a closed door opens it without moving the actor; repeating
      the same action then moves the actor onto the door's cell, provided
      the ground there is walkable and no actor is indexed on it. */
  lemma OpenedDoorLetsThrough(w: World, id: ActorId, action: Action, b: Behavior)
    requires w.WellFormed() && id in w.actors
    requires var a := w.actors[id]; var c := b.posAfter(a, action).coord;
      && a.canAct && a.pos != b.posAfter(a, action)
      && c in w.terrain && w.terrain[c].feature == Some(Door(false))
      && w.terrain[c].walkable && c !in w.actorsPos
    ensures !w.SelfAttack(id, action, b)
    ensures var w' := w.Step(id, action, b);
      && id in w'.actors && w'.actors[id] == w.actors[id]
      && w'.Resolve(id, action, b) == Commit(b.posAfter(w.actors[id], action))
  {
  }

  /** A committed move occupies the new cell, so no other actor can step
      onto it, and leaves every cell occupied that was occupied before. */
  lemma CommitOccupies(w: World, id: ActorId, action: Action, b: Behavior)
    requires w.WellFormed() && id in w.actors && !w.SelfAttack(id, action, b)
    requires w.Resolve(id, action, b).Commit?
    ensures var np := b.posAfter(w.actors[id], action);
      var w' := w.Step(id, action, b);
      && w'.actors[id].pos == np
      && w'.IsOccupied(np.coord) && !w'.IsPassable(np.coord)
      && forall c :: w.IsOccupied(c) ==> w'.IsOccupied(c)
  {
  }

  /** Only an attack or an interaction can kill or revive an actor: every
      other branch of `act` keeps the set of living actors. */
  lemma StepKeepsAliveOutsideHooks(w: World, id: ActorId, action: Action, b: Behavior)
    requires w.WellFormed() && id in w.actors && !w.SelfAttack(id, action, b)
    requires var r := w.Resolve(id, action, b); !r.Attack? && r != Interact
    ensures w.Step(id, action, b).AliveIds() == w.AliveIds()
  {
  }

  /** Spawning occupies the actor's cell and keeps every occupied cell
      occupied. */
  lemma SpawnOccupies(w: World, a: Actor)
    ensures var w' := w.Spawn(a);
      && w'.IsOccupied(a.pos.coord) && !w'.IsPassable(a.pos.coord)
      && forall c :: w.IsOccupied(c) ==> w'.IsOccupied(c)
  {
  }

  /** Spawning a living actor adds exactly its new id to the living ones;
      a new actor, and the player in particular, is alive. */
  lemma SpawnAddsAlive(w: World, a: Actor)
    requires w.WellFormed() && !a.dead
    ensures w.Spawn(a).AliveIds() == w.AliveIds() + {w.actorsCounter}
  {
  }

  /** The spawned player is alive, is a player, and occupies its cell. */
  lemma SpawnedPlayerAlive(w: World, pos: Position)
    requires w.WellFormed()
    ensures var w' := w.Spawn(NewActor(Human, pos).(player := true));
      && w.actorsCounter in w'.AliveIds()
      && w'.actors[w.actorsCounter].player
      && w'.IsOccupied(pos.coord)
  {
  }

  /** Moving toward an unoccupied cell that is impassable and not a closed
      door changes nothing: the actor keeps its cell and its facing. */
  lemma BlockedMoveChangesNothing(w: World, id: ActorId, action: Action, b: Behavior)
    requires w.WellFormed() && id in w.actors && !w.SelfAttack(id, action, b)
    requires var a := w.actors[id]; var np := b.posAfter(a, action);
      && np.coord != a.pos.coord && np.coord !in w.actorsPos
      && (np.coord in w.terrain ==> !w.terrain[np.coord].IsPassable() && w.terrain[np.coord].feature != Some(Door(false)))
    ensures w.Step(id, action, b) == w
  {
  }
}

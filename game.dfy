/** The turn engine of one dungeon level (`game::State`): the actor registry
    and its coordinate index, the dead-set and id counter, the terrain map,
    the ground items, the light map and the turn and descend scalars.

    `World` is the engine's state as a value, with the spatial queries of
    `At` and the effect of `spawn` and `act` as functions on it; `State` is
    the object the program mutates, whose methods are proved to change their
    fields exactly as those functions say. */
module Game {
  import opened Wrappers
  import opened Hex
  import opened Tiles
  import opened Actors

  type ActorId = nat
  type Terrain = map<Coord, Tile>
  type Items = map<Coord, Item>
  type Index = map<Coord, ActorId>
  type Registry = map<ActorId, Actor>
  type LightMap = map<Coord, nat>

  /** One action an actor can take in a turn. */
  datatype Action =
    | Wait
    | Turn(angle: Angle)
    | Move(angle: Angle)
    | Spin(angle: Angle)
    | Equip(slot: char)
    | Fire(target: Coord)
    | Pick
    | Descend

  /** Whether `action` is one that bumping into an actor turns into a
      melee attack: a move to the left, right or straight ahead. */
  function ActionCouldBeAttack(action: Action): (r: bool)
    ensures r <==> action in {Move(Left), Move(Right), Move(Forward)}
  {
    match action
    case Move(angle) => angle == Left || angle == Right || angle == Forward
    case _ => false
  }

  /** The breadth-first search `drop_item` runs (a foreign library): given
      the terrain, the ground items and a start cell, a cell to put an item
      on, or none. */
  type Finder = (Terrain, Items, Coord) -> Option<Coord>

  /** The search's goal predicate: a passable tile with no item on it. */
  predicate DropTarget(terrain: Terrain, items: Items, c: Coord)
  {
    c in terrain && terrain[c].IsPassable() && c !in items
  }

  /** What the search promises: a cell it returns satisfies its goal. */
  ghost predicate FinderSound(find: Finder)
  {
    forall t, its, c :: find(t, its, c).Some? ==> DropTarget(t, its, find(t, its, c).value)
  }

  /** The parts of the actor module and of foreign code that the engine
      calls and that are not modelled: each is an opaque function. */
  datatype Behavior = Behavior(
    posAfter: (Actor, Action) -> Position,           // pos_after_action
    head: Actor -> Coord,                            // the cell ahead
    addItem: (Actor, Item) -> Actor,                  // add_item
    equipSwitch: (Actor, char) -> Actor,              // equip_switch
    attacks: (Actor, Direction, Actor) -> (Actor, Actor), // attacks: new attacker, new target
    preTick: Actor -> Actor,                         // the actor's pre-turn hook
    postTick: Actor -> Actor,                        // the actor's post-turn hook
    relight: (Terrain, Registry, Index) -> LightMap,  // the line-of-sight flood
    find: Finder)                                    // the drop-site search
  {
    /** The post-turn hook neither moves an actor nor changes whether it
        is dead. */
    ghost predicate PostTickKeepsPlace()
    {
      forall a: Actor :: postTick(a).pos == a.pos && postTick(a).dead == a.dead
    }
  }

  /* ---------------------------------------------------------------------
     Ground items
     --------------------------------------------------------------------- */

  /** `pick_item` on a value: the item at exactly `c`, and the items left. */
  function Take(items: Items, c: Coord): (r: (Option<Item>, Items))
    ensures r.0.Some? <==> c in items
    ensures r.0.Some? ==> r.0.value == items[c]
    ensures r.1.Keys == items.Keys - {c}
    ensures forall k :: k in r.1 ==> r.1[k] == items[k]
  {
    if c in items then (Some(items[c]), items - {c}) else (None, items)
  }

  /** `drop_item` on a value: `item` goes to the cell the search finds
      from `at`; when it finds none the item is destroyed. */
  function Drop(terrain: Terrain, items: Items, at: Coord, item: Item, find: Finder): (r: Items)
    requires FinderSound(find)
    ensures forall c :: c in items ==> c in r && r[c] == items[c]
    ensures forall c :: c in r && c !in items ==> DropTarget(terrain, items, c) && r[c] == item
    ensures find(terrain, items, at).Some? ==> r.Keys - items.Keys <= {find(terrain, items, at).value}
    ensures find(terrain, items, at).None? ==> r == items
    ensures find(terrain, items, at).Some? ==> r == items[find(terrain, items, at).value := item]
  {
    match find(terrain, items, at)
    case None => items
    case Some(c) => items[c := item]
  }

  /** Drains `inventory` onto the ground at `at`, one item after another. */
  function DropAll(terrain: Terrain, items: Items, at: Coord, inventory: seq<Item>, find: Finder): (r: Items)
    requires FinderSound(find)
    ensures forall c :: c in items ==> c in r && r[c] == items[c]
    ensures forall c :: c in r && c !in items ==> c in terrain && terrain[c].IsPassable() && r[c] in inventory
    ensures inventory == [] ==> r == items
    decreases |inventory|
  {
    if inventory == [] then items
    else DropAll(terrain, Drop(terrain, items, at, inventory[0], find), at, inventory[1..], find)
  }

  /** The search from `at` finds a site on every ground that grew from
      `items` by fewer than `n` cells: there is room for `n` more items. */
  ghost predicate SitesFor(terrain: Terrain, items: Items, at: Coord, n: nat, find: Finder)
  {
    forall its: Items {:trigger find(terrain, its, at)} ::
      items.Keys <= its.Keys && |its.Keys - items.Keys| < n ==> find(terrain, its, at).Some?
  }

  /** The items cells of `after` keep every item of `before`, and every new
      item lies on a passable tile. */
  ghost predicate ItemsGrow(before: Items, after: Items, terrain: Terrain)
  {
    && (forall c :: c in before ==> c in after && after[c] == before[c])
    && (forall c :: c in after && c !in before ==> c in terrain && terrain[c].IsPassable())
  }

  /** Growing the ground items twice is growing them once. */
  lemma ItemsGrowTransitive(a: Items, b: Items, c: Items, terrain: Terrain)
    requires ItemsGrow(a, b, terrain) && ItemsGrow(b, c, terrain)
    ensures ItemsGrow(a, c, terrain)
  {
  }

  /** The items actor `a` carries, in the backpack or in an equipped slot. */
  ghost function Carried(a: Actor): set<Item>
  {
    set it | it in a.backpack + a.equipped
  }

  /** The items that actors `ids` of `actors` carry. */
  ghost function Belongings(actors: Registry, ids: set<ActorId>): set<Item>
  {
    set id, it | id in ids && id in actors && it in Carried(actors[id]) :: it
  }

  /** Every item `after` holds on a cell that `before` left empty comes
      from `pool`. */
  ghost predicate ItemsFrom(before: Items, after: Items, pool: set<Item>)
  {
    forall c :: c in after && c !in before ==> after[c] in pool
  }

  /** Draining actor `a`'s inventories onto the ground adds only items it
      carried. */
  lemma DrainedFromCarried(terrain: Terrain, items: Items, a: Actor, find: Finder)
    requires FinderSound(find)
    ensures ItemsFrom(items, DropAll(terrain, DropAll(terrain, items, a.pos.coord, a.backpack, find), a.pos.coord, a.equipped, find),
      Carried(a))
  {
    var mid := DropAll(terrain, items, a.pos.coord, a.backpack, find);
    var r := DropAll(terrain, mid, a.pos.coord, a.equipped, find);
    forall k | k in r && k !in items
      ensures r[k] in Carried(a)
    {
      assert r[k] in a.backpack + a.equipped;
    }
  }

  /** The ground grown from the belongings of `ids` and then from what
      `id` carried has grown from the belongings of `ids + {id}`. */
  lemma ItemsFromAddOne(a: Items, b: Items, c: Items, terrain: Terrain, actors: Registry, ids: set<ActorId>, id: ActorId)
    requires id in actors
    requires ItemsFrom(a, b, Belongings(actors, ids))
    requires ItemsGrow(b, c, terrain) && ItemsFrom(b, c, Carried(actors[id]))
    ensures ItemsFrom(a, c, Belongings(actors, ids + {id}))
  {
    forall k | k in c && k !in a
      ensures c[k] in Belongings(actors, ids + {id})
    {
      if k in b {
        var w, it :| w in ids && w in actors && it in Carried(actors[w]) && it == b[k];
        assert w in ids + {id};
      } else {
        assert id in ids + {id} && c[k] in Carried(actors[id]);
      }
    }
  }

  /** No id occurs twice in `order`. */
  predicate Distinct(order: seq<ActorId>)
  {
    forall i, j :: 0 <= i < j < |order| ==> order[i] != order[j]
  }

  /** The ground after the death sweep has processed the actors of `order`,
      in that order: each one's backpack and then its equipped slots are
      drained at its cell. */
  ghost function DrainActors(terrain: Terrain, items: Items, actors: Registry, order: seq<ActorId>, find: Finder): Items
    requires FinderSound(find)
    decreases |order|
  {
    if order == [] then items
    else
      var id := order[|order| - 1];
      var ground := DrainActors(terrain, items, actors, order[..|order| - 1], find);
      if id in actors then
        var a := actors[id];
        DropAll(terrain, DropAll(terrain, ground, a.pos.coord, a.backpack, find), a.pos.coord, a.equipped, find)
      else ground
  }

  /** Visiting one more newly dead id keeps the visiting order free of
      repetitions and equal, as a set, to the newly dead visited. */
  lemma OrderAddOne(order: seq<ActorId>, newly: set<ActorId>, remaining: set<ActorId>, id: ActorId)
    requires Distinct(order) && forall k :: k in order <==> k in newly - remaining
    requires id in remaining && id in newly
    ensures Distinct(order + [id])
    ensures forall k :: k in order + [id] <==> k in newly - (remaining - {id})
  {
    assert id !in order;
  }

  /** Appending an actor to the order drains that actor last. */
  lemma DrainActorsAppend(terrain: Terrain, items: Items, actors: Registry, order: seq<ActorId>, id: ActorId, find: Finder)
    requires FinderSound(find) && id in actors
    ensures var a := actors[id]; var ground := DrainActors(terrain, items, actors, order, find);
      DrainActors(terrain, items, actors, order + [id], find)
        == DropAll(terrain, DropAll(terrain, ground, a.pos.coord, a.backpack, find), a.pos.coord, a.equipped, find)
  {
    assert (order + [id])[..|order|] == order;
  }

  /** Draining the actors of `order` only grows the ground, onto passable
      tiles, with items those actors carried. */
  lemma {:induction false} DrainActorsGrows(terrain: Terrain, items: Items, actors: Registry, order: seq<ActorId>, ids: set<ActorId>, find: Finder)
    requires FinderSound(find)
    requires forall id :: id in order ==> id in ids
    ensures ItemsGrow(items, DrainActors(terrain, items, actors, order, find), terrain)
    ensures ItemsFrom(items, DrainActors(terrain, items, actors, order, find), Belongings(actors, ids))
    decreases |order|
  {
    if order != [] {
      var prefix := order[..|order| - 1];
      var id := order[|order| - 1];
      assert forall k :: k in prefix ==> k in order;
      DrainActorsGrows(terrain, items, actors, prefix, ids, find);
      var ground := DrainActors(terrain, items, actors, prefix, find);
      if id in actors {
        var a := actors[id];
        var mid := DropAll(terrain, ground, a.pos.coord, a.backpack, find);
        var r := DropAll(terrain, mid, a.pos.coord, a.equipped, find);
        assert ItemsGrow(ground, mid, terrain) && ItemsGrow(mid, r, terrain);
        ItemsGrowTransitive(ground, mid, r, terrain);
        DrainedFromCarried(terrain, ground, a, find);
        ItemsFromAddOne(items, ground, r, terrain, actors, ids, id);
        assert ids + {id} == ids;
        ItemsGrowTransitive(items, ground, r, terrain);
      }
    }
  }

  /* ---------------------------------------------------------------------
     Light
     --------------------------------------------------------------------- */

  /** The rule by which one source's light `v` enters the light map at `c`:
      a cell keeps the brightest value any source gave it. */
  function MergeLight(lm: LightMap, c: Coord, v: nat): (r: LightMap)
    ensures r.Keys == lm.Keys + {c}
    ensures r[c] >= v && (c in lm ==> r[c] >= lm[c])
    ensures r[c] == v || (c in lm && r[c] == lm[c])
    ensures forall k :: k in lm && k != c ==> r[k] == lm[k]
  {
    if c in lm && v <= lm[c] then lm else lm[c := v]
  }

  /* ---------------------------------------------------------------------
     Registry bookkeeping
     --------------------------------------------------------------------- */

  /** Every index entry names a living registered actor standing on it. */
  ghost predicate IndexConsistent(index: Index, actors: Registry)
  {
    forall c :: c in index ==> index[c] in actors && !actors[index[c]].dead && actors[index[c]].pos.coord == c
  }

  /** The index rebuild of the cleanup phase: keep exactly the entries
      whose actor is alive and stands on the entry's cell. */
  function FilterIndex(index: Index, actors: Registry): (r: Index)
    requires forall c :: c in index ==> index[c] in actors
    ensures IndexConsistent(r, actors)
    ensures forall c :: c in r ==> c in index && r[c] == index[c]
    ensures forall c :: c in index && !actors[index[c]].dead && actors[index[c]].pos.coord == c ==> c in r
  {
    map c | c in index && !actors[index[c]].dead && actors[index[c]].pos.coord == c :: index[c]
  }

  /** The actors that are dead but whose death has not been processed. */
  function NewlyDead(actors: Registry, dead: set<ActorId>): (r: set<ActorId>)
    ensures forall id :: id in r <==> id in actors && actors[id].dead && id !in dead
  {
    set id | id in actors && actors[id].dead && id !in dead
  }

  /** The registry after the actors in `newly` had their inventories
      drained. */
  function Swept(actors: Registry, newly: set<ActorId>): (r: Registry)
    ensures r.Keys == actors.Keys
    ensures forall id :: id in r ==> r[id].pos == actors[id].pos && r[id].dead == actors[id].dead
    ensures forall id :: id in r && id in newly ==> r[id].backpack == [] && r[id].equipped == []
    ensures forall id :: id in r && id !in newly ==> r[id] == actors[id]
    ensures forall id :: id in r ==>
      r[id].(backpack := actors[id].backpack, equipped := actors[id].equipped) == actors[id]
  {
    map id | id in actors :: if id in newly then actors[id].Drained() else actors[id]
  }

  /** Sweeping one more actor drains exactly that actor. */
  lemma SweptAddOne(actors: Registry, newly: set<ActorId>, id: ActorId)
    requires id in actors && id !in newly
    ensures Swept(actors, newly + {id}) == Swept(actors, newly)[id := actors[id].Drained()]
  {
  }

  /** The registry after `hook` ran once on each actor that was alive. */
  function ApplyToAlive(actors: Registry, hook: Actor -> Actor): (r: Registry)
    ensures r.Keys == actors.Keys
    ensures forall id :: id in r && actors[id].dead ==> r[id] == actors[id]
  {
    map id | id in actors :: if actors[id].dead then actors[id] else hook(actors[id])
  }

  /** A post-turn hook that keeps each actor's place and liveness keeps a
      consistent index consistent. */
  lemma HooksKeepIndexConsistent(index: Index, actors: Registry, b: Behavior)
    requires IndexConsistent(index, actors)
    ensures b.PostTickKeepsPlace() ==> IndexConsistent(index, ApplyToAlive(actors, b.postTick))
  {
  }

  /** Which of the priority-ordered branches of `act` an action takes. */
  datatype Resolution =
    | Incapable                  // the actor cannot act
    | Interact                   // no change of position
    | AttackRefused              // bump into an actor without the ability to attack
    | Attack(target: ActorId)    // bump into an actor: melee
    | OpenDoor                   // bump into a closed door
    | Commit(to: Position)       // the move happens
    | Blocked                    // bump into something impassable

  /** The engine state as a value. */
  datatype World = World(
    actors: Registry,
    actorsPos: Index,
    actorsDead: set<ActorId>,
    actorsCounter: nat,
    terrain: Terrain,
    items: Items,
    lightMap: LightMap,
    turn: nat,
    descend: bool,
    level: int)
  {
    /** Ids are fresh, and the index names registered actors only. */
    ghost predicate WellFormed()
    {
      && (forall id :: id in actors ==> id < actorsCounter)
      && (forall c :: c in actorsPos ==> actorsPos[c] in actors)
    }

    /* At: the read-only view of one cell */

    function TileAt(c: Coord): Option<Tile>
    {
      if c in terrain then Some(terrain[c]) else None
    }

    /** `f` of the tile at `c`, or `def` where there is no tile. */
    function TileMapOr<R>(c: Coord, def: R, f: Tile -> R): (r: R)
      ensures c !in terrain ==> r == def
      ensures c in terrain ==> r == f(terrain[c])
    {
      match TileAt(c)
      case None => def
      case Some(t) => f(t)
    }

    /** Some actor is indexed at `c`. */
    function IsOccupied(c: Coord): (r: bool)
      ensures r <==> c in actorsPos
    {
      c in actorsPos
    }

    /** An actor can step onto `c`: a tile is there, it is passable, and
        no actor is indexed there. */
    function IsPassable(c: Coord): (r: bool)
      ensures r ==> !IsOccupied(c) && c in terrain
      ensures r <==> c !in actorsPos && c in terrain && terrain[c].IsPassable()
    {
      !IsOccupied(c) && TileMapOr(c, false, Passable)
    }

    /** The light at `c`; zero where the light map has no entry. */
    function Light(c: Coord): (r: nat)
      ensures c in lightMap ==> r == lightMap[c]
      ensures c !in lightMap ==> r == 0
    {
      if c in lightMap then lightMap[c] else 0
    }

    /** The ids of the living actors. */
    function AliveIds(): (r: set<ActorId>)
      ensures r <= actors.Keys
      ensures forall id :: id in actors ==> (id in r <==> !actors[id].dead)
    {
      set id | id in actors && !actors[id].dead
    }

    /* spawn */

    /** The world after `a` was registered under the next id. */
    function Spawn(a: Actor): (w: World)
      ensures w.actorsCounter == actorsCounter + 1
      ensures w.actors.Keys == actors.Keys + {actorsCounter}
      ensures w.actors[actorsCounter] == a
      ensures forall id :: id in actors && id != actorsCounter ==> w.actors[id] == actors[id]
      ensures w.actorsPos.Keys == actorsPos.Keys + {a.pos.coord}
      ensures w.actorsPos[a.pos.coord] == actorsCounter
      ensures forall c :: c in actorsPos && c != a.pos.coord ==> w.actorsPos[c] == actorsPos[c]
      ensures WellFormed() ==> actorsCounter !in actors && w.WellFormed()
      ensures w.(actors := actors, actorsPos := actorsPos, actorsCounter := actorsCounter) == this
    {
      this.(actors := actors[actorsCounter := a],
            actorsPos := actorsPos[a.pos.coord := actorsCounter],
            actorsCounter := actorsCounter + 1)
    }

    /* act */

    /** The branch `act` takes, tried in the source's priority order. */
    function Resolve(id: ActorId, action: Action, b: Behavior): (r: Resolution)
      requires id in actors
      ensures r == Incapable <==> !actors[id].canAct
      ensures r == Interact <==> actors[id].canAct && actors[id].pos == b.posAfter(actors[id], action)
      ensures r.Attack? || r == AttackRefused ==>
        var a := actors[id]; var np := b.posAfter(a, action);
        ActionCouldBeAttack(action) && a.pos.coord != np.coord && np.coord in actorsPos
      ensures r == AttackRefused ==> !actors[id].canAttack
      ensures r.Attack? ==> actors[id].canAttack && r.target == actorsPos[b.posAfter(actors[id], action).coord]
      ensures r == OpenDoor ==>
        var np := b.posAfter(actors[id], action);
        actors[id].pos != np && np.coord in terrain && terrain[np.coord].feature == Some(Door(false))
      ensures r.Commit? ==>
        var a := actors[id]; var np := b.posAfter(a, action);
        r.to == np && a.pos != np && (a.pos.coord == np.coord || IsPassable(np.coord))
      ensures r == Blocked ==>
        var a := actors[id]; var np := b.posAfter(a, action);
        a.pos.coord != np.coord && !IsPassable(np.coord)
    {
      var a := actors[id];
      var np := b.posAfter(a, action);
      if !a.canAct then Incapable
      else if a.pos == np then Interact
      else if ActionCouldBeAttack(action) && a.pos.coord != np.coord && np.coord in actorsPos then
        (if a.canAttack then Attack(actorsPos[np.coord]) else AttackRefused)
      else if TileMapOr(np.coord, false, IsClosedDoor) then OpenDoor
      else if a.pos.coord == np.coord || IsPassable(np.coord) then Commit(np)
      else Blocked
    }

    /** The melee branch would have the actor attack itself through a stale
        index entry: the source then looks the actor up after removing it
        from the registry and panics. */
    predicate SelfAttack(id: ActorId, action: Action, b: Behavior)
      requires id in actors
    {
      var r := Resolve(id, action, b);
      r.Attack? && r.target == id
    }

    /** The no-movement branch: `Pick` moves the item on the cell ahead
        into the backpack, `Equip` switches a slot, `Descend` raises the
        descend flag when the actor stands on stairs; the rest do nothing. */
    function Interacted(id: ActorId, action: Action, b: Behavior): (w: World)
      requires WellFormed() && id in actors
      ensures w.WellFormed() && w.actors.Keys == actors.Keys
      ensures var a := actors[id];
        && (action == Descend ==>
              w == this.(descend := descend || (a.pos.coord in terrain && terrain[a.pos.coord].feature == Some(Stairs))))
        && (action == Pick ==>
              var h := b.head(a);
              if h in items then w == this.(items := items - {h}, actors := actors[id := b.addItem(a, items[h])])
              else w == this)
        && (action.Equip? ==> w == this.(actors := actors[id := b.equipSwitch(a, action.slot)]))
        && (!action.Descend? && !action.Pick? && !action.Equip? ==> w == this)
    {
      var a := actors[id];
      match action
      case Pick =>
        var (item, rest) := Take(items, b.head(a));
        if item.Some? then this.(items := rest, actors := actors[id := b.addItem(a, item.value)]) else this
      case Equip(ch) => this.(actors := actors[id := b.equipSwitch(a, ch)])
      case Descend => if TileMapOr(a.pos.coord, false, HasStairs) then this.(descend := true) else this
      case _ => this
    }

    /** The melee branch: the target is detached, the attacker attacks it in
        the direction of its facing turned by the move's angle, and the
        target is reattached; only those two records change. */
    function Attacked(id: ActorId, t: ActorId, action: Action, b: Behavior): (w: World)
      requires WellFormed() && id in actors && t in actors && t != id
      ensures w.WellFormed()
      ensures w == this.(actors := w.actors)
      ensures w.actors.Keys == actors.Keys
      ensures var a := actors[id];
        var dir := if action.Move? then Rotate(a.pos.dir, action.angle) else a.pos.dir;
        var res := b.attacks(a, dir, actors[t]);
        w.actors[id] == res.0 && w.actors[t] == res.1
      ensures forall other :: other in actors && other != id && other != t ==> w.actors[other] == actors[other]
    {
      var a := actors[id];
      var dir := if action.Move? then Rotate(a.pos.dir, action.angle) else a.pos.dir;
      var res := b.attacks(a, dir, actors[t]);
      var detached := actors - {t};
      this.(actors := detached[id := res.0][t := res.1])
    }

    /** The door branch: only the tile at `c` changes, to the same tile with
        an open door. */
    function DoorOpened(c: Coord): (w: World)
      requires WellFormed() && c in terrain
      ensures w.WellFormed()
      ensures w == this.(terrain := w.terrain)
      ensures w.terrain.Keys == terrain.Keys
      ensures w.terrain[c] == terrain[c].AddFeature(Door(true))
      ensures forall k :: k in terrain && k != c ==> w.terrain[k] == terrain[k]
    {
      this.(terrain := terrain[c := terrain[c].AddFeature(Door(true))])
    }

    /** The move branch: the actor stands at `p` and is indexed there too;
        the entry at its former cell is kept until the cleanup phase. */
    function Committed(id: ActorId, p: Position): (w: World)
      requires WellFormed() && id in actors
      ensures w.WellFormed()
      ensures w == this.(actors := w.actors, actorsPos := w.actorsPos)
      ensures w.actors.Keys == actors.Keys
      ensures w.actors[id] == actors[id].(pos := p)
      ensures forall other :: other in actors && other != id ==> w.actors[other] == actors[other]
      ensures w.actorsPos.Keys == actorsPos.Keys + {p.coord}
      ensures w.actorsPos[p.coord] == id
      ensures forall c :: c in actorsPos && c != p.coord ==> w.actorsPos[c] == actorsPos[c]
    {
      this.(actors := actors[id := actors[id].(pos := p)], actorsPos := actorsPos[p.coord := id])
    }

    /** The world after actor `id` took `action`. */
    function Step(id: ActorId, action: Action, b: Behavior): (w: World)
      requires WellFormed() && id in actors && !SelfAttack(id, action, b)
      ensures w.WellFormed()
      ensures w.actors.Keys == actors.Keys
      ensures w.(actors := actors, actorsPos := actorsPos, terrain := terrain, items := items, descend := descend) == this
      ensures !actors[id].canAct ==> w == this
      ensures Resolve(id, action, b) in {Incapable, AttackRefused, Blocked} ==> w == this
    {
      match Resolve(id, action, b)
      case Incapable => this
      case AttackRefused => this
      case Blocked => this
      case Interact => Interacted(id, action, b)
      case Attack(t) => Attacked(id, t, action, b)
      case OpenDoor => DoorOpened(b.posAfter(actors[id], action).coord)
      case Commit(p) => Committed(id, p)
    }

    /** `CleanedUp` field by field, from the intermediate registry
        `swept` the death sweep leaves behind. */
    lemma CleanedUpFields(dropped: Items, b: Behavior, swept: Registry, index: Index, hooked: Registry, lm: LightMap)
      requires WellFormed()
      requires swept == Swept(actors, NewlyDead(actors, actorsDead))
      requires index == FilterIndex(actorsPos, swept)
      requires hooked == ApplyToAlive(swept, b.postTick)
      requires lm == b.relight(terrain, swept, index)
      ensures CleanedUp(dropped, b) == this.(actors := hooked, actorsPos := index,
        actorsDead := actorsDead + NewlyDead(actors, actorsDead), items := dropped, lightMap := lm, turn := turn + 1)
    {
    }

    /** The world after the post-turn phase, given the item map `dropped`
        the death sweep left behind: the dead set grown by the newly dead,
        their inventories drained, the index rebuilt from the entries still
        true, the light map recomputed, each living actor's post-turn hook
        applied and the turn advanced. */
    function CleanedUp(dropped: Items, b: Behavior): (w: World)
      requires WellFormed()
      ensures w.WellFormed()
      ensures w.actors.Keys == actors.Keys
      ensures w.actorsDead == actorsDead + NewlyDead(actors, actorsDead)
      ensures forall id :: id in actors && actors[id].dead ==> id in w.actorsDead
      ensures forall c :: c in w.actorsPos ==> c in actorsPos && w.actorsPos[c] == actorsPos[c]
      ensures forall c :: c in w.actorsPos ==> !actors[actorsPos[c]].dead && actors[actorsPos[c]].pos.coord == c
      ensures forall c :: c in actorsPos && c !in w.actorsPos ==>
        actors[actorsPos[c]].dead || actors[actorsPos[c]].pos.coord != c
      ensures b.PostTickKeepsPlace() ==> IndexConsistent(w.actorsPos, w.actors)
      ensures w.items == dropped && w.turn == turn + 1
      ensures w.(actors := actors, actorsPos := actorsPos, actorsDead := actorsDead, items := items,
                 lightMap := lightMap, turn := turn) == this
    {
      var swept := Swept(actors, NewlyDead(actors, actorsDead));
      var index := FilterIndex(actorsPos, swept);
      var w := this.(actors := ApplyToAlive(swept, b.postTick), actorsPos := index,
                     actorsDead := actorsDead + NewlyDead(actors, actorsDead), items := dropped,
                     lightMap := b.relight(terrain, swept, index), turn := turn + 1);
      HooksKeepIndexConsistent(index, swept, b);
      w
    }
  }

  /* ---------------------------------------------------------------------
     The engine object
     --------------------------------------------------------------------- */

  /** `game::State`: the maps and scalars the turn engine updates in place.
      `terrain` is the map `Arc<Map>` points to; replacing it models the
      copy-on-write update. */
  class State {
    var actors: Registry
    var actorsPos: Index
    var actorsDead: set<ActorId>
    var actorsCounter: nat
    var terrain: Terrain
    var items: Items
    var lightMap: LightMap
    var turn: nat
    var descend: bool
    var level: int

    /** The state as a value. */
    function Snapshot(): World
      reads this
    {
      World(actors, actorsPos, actorsDead, actorsCounter, terrain, items, lightMap, turn, descend, level)
    }

    ghost predicate Valid()
      reads this
    {
      Snapshot().WellFormed()
    }

    /** Registers `a` under the next id and indexes it at its cell. */
    method Spawn(a: Actor)
      modifies this`actors, this`actorsPos, this`actorsCounter
      ensures Snapshot() == old(Snapshot()).Spawn(a)
      ensures old(Valid()) ==> Valid()
    {
      var id := actorsCounter;
      actorsCounter := actorsCounter + 1;
      actorsPos := actorsPos[a.pos.coord := id];
      actors := actors[id := a];
    }

    /** Spawns a fresh human actor at `pos`, flagged as the player. */
    method SpawnPlayer(pos: Position)
      modifies this`actors, this`actorsPos, this`actorsCounter
      ensures Snapshot() == old(Snapshot()).Spawn(NewActor(Human, pos).(player := true))
      ensures old(Valid()) ==> Valid()
    {
      var actor := NewActor(Human, pos);
      actor := actor.(player := true);
      Spawn(actor);
    }

    /** `AtMut::pick_item`: removes and returns the item at exactly `c`. */
    method PickItem(c: Coord) returns (item: Option<Item>)
      modifies this`items
      ensures (item, items) == Take(old(items), c)
    {
      if c in items {
        item := Some(items[c]);
        items := items - {c};
      } else {
        item := None;
      }
    }

    /** `AtMut::drop_item`: puts `item` on the cell the search finds from
        `at`, or destroys it when there is none. */
    method DropItem(at: Coord, item: Item, find: Finder)
      requires FinderSound(find)
      modifies this`items
      ensures items == Drop(terrain, old(items), at, item, find)
    {
      var target := find(terrain, items, at);
      match target
      case None =>
      case Some(c) =>
        items := items[c := item];
    }

    /** The no-movement branch of `act`. */
    method NoMove(id: ActorId, action: Action, b: Behavior)
      requires Valid() && id in actors
      modifies this`actors, this`items, this`descend
      ensures Snapshot() == old(Snapshot()).Interacted(id, action, b)
      ensures old(Snapshot()).Resolve(id, action, b) == Interact ==>
        Snapshot() == old(Snapshot()).Step(id, action, b)
    {
      match action {
        case Pick =>
          var head := b.head(actors[id]);
          var item := PickItem(head);
          if item.Some? {
            actors := actors[id := b.addItem(actors[id], item.value)];
          }
        case Equip(ch) =>
          actors := actors[id := b.equipSwitch(actors[id], ch)];
        case Descend =>
          if Snapshot().TileMapOr(actors[id].pos.coord, false, HasStairs) {
            descend := true;
          }
        case _ =>
      }
    }

    /** The melee branch of `act`: the target is detached while the
        attacker attacks it, then reattached. */
    method Melee(id: ActorId, targetId: ActorId, action: Action, b: Behavior)
      requires Valid() && id in actors && targetId in actors && targetId != id
      modifies this`actors
      ensures Snapshot() == old(Snapshot()).Attacked(id, targetId, action, b)
      ensures old(Snapshot()).Resolve(id, action, b) == Attack(targetId) ==>
        Snapshot() == old(Snapshot()).Step(id, action, b)
    {
      var oldPos := actors[id].pos;
      var dir := if action.Move? then Rotate(oldPos.dir, action.angle) else oldPos.dir;
      var target := actors[targetId];
      actors := actors - {targetId};
      var res := b.attacks(actors[id], dir, target);
      actors := actors[id := res.0];
      actors := actors[targetId := res.1];
    }

    /** The door branch of `act`: the tile at `c` is replaced by the same
        tile with an open door. */
    method OpenDoorAt(c: Coord)
      requires Valid() && c in terrain
      modifies this`terrain
      ensures Snapshot() == old(Snapshot()).DoorOpened(c)
    {
      var tile := terrain[c];
      terrain := terrain[c := tile.AddFeature(Door(true))];
    }

    /** The move branch of `act`. */
    method MoveTo(id: ActorId, p: Position)
      requires Valid() && id in actors
      modifies this`actors, this`actorsPos
      ensures Snapshot() == old(Snapshot()).Committed(id, p)
    {
      actors := actors[id := actors[id].(pos := p)];
      // the entry at the former cell stays until the cleanup phase
      actorsPos := actorsPos[p.coord := id];
    }

    /** Resolves one action of actor `id`. */
    method Act(id: ActorId, action: Action, b: Behavior)
      requires Valid() && id in actors
      requires !Snapshot().SelfAttack(id, action, b)
      modifies this`actors, this`actorsPos, this`terrain, this`items, this`descend
      ensures Valid()
      ensures Snapshot() == old(Snapshot()).Step(id, action, b)
    {
      var here := Snapshot();
      if !here.actors[id].canAct {
        assert here.Resolve(id, action, b) == Incapable;
        return;
      }
      var oldPos := here.actors[id].pos;
      var newPos := b.posAfter(here.actors[id], action);
      if oldPos == newPos {
        assert here.Resolve(id, action, b) == Interact;
        NoMove(id, action, b);
      } else if ActionCouldBeAttack(action) && oldPos.coord != newPos.coord && newPos.coord in here.actorsPos {
        if !here.actors[id].canAttack {
          assert here.Resolve(id, action, b) == AttackRefused;
          return;
        }
        var targetId := here.actorsPos[newPos.coord];
        assert here.Resolve(id, action, b) == Attack(targetId);
        Melee(id, targetId, action, b);
      } else if here.TileMapOr(newPos.coord, false, IsClosedDoor) {
        assert here.Resolve(id, action, b) == OpenDoor;
        OpenDoorAt(newPos.coord);
        assert Snapshot() == here.Step(id, action, b);
      } else if oldPos.coord == newPos.coord || here.IsPassable(newPos.coord) {
        assert here.Resolve(id, action, b) == Commit(newPos);
        MoveTo(id, newPos);
        assert Snapshot() == here.Step(id, action, b);
      } else {
        // hit a wall or something like it
        assert here.Resolve(id, action, b) == Blocked;
      }
    }

    /** Runs `hook` once on every actor alive when the loop starts,
        detaching each record while its hook runs. */
    method ApplyHookToAlive(hook: Actor -> Actor)
      modifies this`actors
      ensures actors == ApplyToAlive(old(actors), hook)
    {
      var ids := Snapshot().AliveIds();
      var remaining := ids;
      while remaining != {}
        invariant remaining <= ids
        invariant actors.Keys == old(actors).Keys
        invariant forall id :: id in old(actors) ==>
          actors[id] == if id in ids && id !in remaining then hook(old(actors)[id]) else old(actors)[id]
        decreases remaining
      {
        var id :| id in remaining;
        var actor := actors[id];
        actors := actors - {id};
        actor := hook(actor);
        actors := actors[id := actor];
        remaining := remaining - {id};
      }
    }

    /** The pre-turn phase: every living actor's pre-turn hook. */
    method PreTick(b: Behavior)
      modifies this`actors
      ensures actors == ApplyToAlive(old(actors), b.preTick)
      ensures old(Valid()) ==> Valid()
    {
      ApplyHookToAlive(b.preTick);
    }

    /** Drops each item of `inventory` at `at`, in order (one of the two
        drain loops of the cleanup phase). */
    method DropInventory(at: Coord, inventory: seq<Item>, find: Finder)
      requires FinderSound(find)
      modifies this`items
      ensures items == DropAll(terrain, old(items), at, inventory, find)
    {
      var k := 0;
      while k < |inventory|
        invariant 0 <= k <= |inventory|
        invariant DropAll(terrain, items, at, inventory[k..], find) == DropAll(terrain, old(items), at, inventory, find)
      {
        DropItem(at, inventory[k], find);
        k := k + 1;
      }
    }

    /** One death of the sweep: the actor is detached, its backpack and
        then its equipped slots are dropped at its cell, it is reattached
        with empty inventories and its id joins the dead-set. */
    method ProcessDeath(id: ActorId, find: Finder)
      requires FinderSound(find) && id in actors
      modifies this`actors, this`actorsDead, this`items
      ensures actors == old(actors)[id := old(actors)[id].Drained()]
      ensures actorsDead == old(actorsDead) + {id}
      ensures var a := old(actors)[id];
        items == DropAll(terrain, DropAll(terrain, old(items), a.pos.coord, a.backpack, find), a.pos.coord, a.equipped, find)
      ensures ItemsGrow(old(items), items, terrain)
      ensures ItemsFrom(old(items), items, Carried(old(actors)[id]))
    {
      DrainedFromCarried(terrain, items, actors[id], find);
      var a := actors[id];
      actors := actors - {id};
      DropInventory(a.pos.coord, a.backpack, find);
      DropInventory(a.pos.coord, a.equipped, find);
      actors := actors[id := a.Drained()];
      actorsDead := actorsDead + {id};
    }

    /** One iteration of the death sweep: actor `id` is processed when it
        is dead and its death has not been processed yet. */
    method SweepOne(id: ActorId, find: Finder)
      requires FinderSound(find) && id in actors
      modifies this`actors, this`actorsDead, this`items
      ensures var unprocessed := old(actors)[id].dead && id !in old(actorsDead);
        && actors == (if unprocessed then old(actors)[id := old(actors)[id].Drained()] else old(actors))
        && actorsDead == (if unprocessed then old(actorsDead) + {id} else old(actorsDead))
      ensures var a := old(actors)[id];
        old(actors)[id].dead && id !in old(actorsDead) ==>
          items == DropAll(terrain, DropAll(terrain, old(items), a.pos.coord, a.backpack, find), a.pos.coord, a.equipped, find)
      ensures ItemsGrow(old(items), items, terrain)
      ensures ItemsFrom(old(items), items, Carried(old(actors)[id]))
      ensures !(old(actors)[id].dead && id !in old(actorsDead)) ==> items == old(items)
    {
      if actors[id].dead && id !in actorsDead {
        ProcessDeath(id, find);
      }
    }

    /** One turn of the death-sweep loop, from the state the sweep reached
        after the ids outside `remaining`: actor `id` is swept next. */
    method SweepNext(id: ActorId, find: Finder, ghost start: Registry, ghost startDead: set<ActorId>,
                     ghost startItems: Items, ghost remaining: set<ActorId>, ghost order: seq<ActorId>)
        returns (ghost order': seq<ActorId>)
      requires FinderSound(find) && id in remaining && remaining <= start.Keys
      requires var newly := NewlyDead(start, startDead);
        && actors == Swept(start, newly - remaining)
        && actorsDead == startDead + (newly - remaining)
        && Distinct(order) && (forall k :: k in order <==> k in newly - remaining)
        && items == DrainActors(terrain, startItems, start, order, find)
      modifies this`actors, this`actorsDead, this`items
      ensures var newly := NewlyDead(start, startDead); var rest := remaining - {id};
        && actors == Swept(start, newly - rest)
        && actorsDead == startDead + (newly - rest)
        && Distinct(order') && (forall k :: k in order' <==> k in newly - rest)
        && items == DrainActors(terrain, startItems, start, order', find)
    {
      ghost var newly := NewlyDead(start, startDead);
      assert actors[id] == start[id];
      assert id in actorsDead <==> id in startDead;
      assert actors[id].dead && id !in actorsDead <==> id in newly;
      SweepOne(id, find);
      if id in newly {
        assert newly - (remaining - {id}) == (newly - remaining) + {id};
        SweptAddOne(start, newly - remaining, id);
        OrderAddOne(order, newly, remaining, id);
        DrainActorsAppend(terrain, startItems, start, order, id, find);
        order' := order + [id];
      } else {
        assert newly - (remaining - {id}) == newly - remaining;
        order' := order;
      }
    }

    /** The death sweep of the cleanup phase: each actor found dead and not
        yet in the dead-set is processed once. The ghost `order` is the
        order in which the sweep happened to visit them. */
    method SweepDeaths(find: Finder) returns (ghost order: seq<ActorId>)
      requires FinderSound(find)
      modifies this`actors, this`actorsDead, this`items
      ensures var newly := NewlyDead(old(actors), old(actorsDead));
        && actors == Swept(old(actors), newly)
        && actorsDead == old(actorsDead) + newly
        && Distinct(order) && (forall id :: id in order <==> id in newly)
        && items == DrainActors(terrain, old(items), old(actors), order, find)
        && ItemsGrow(old(items), items, terrain)
        && ItemsFrom(old(items), items, Belongings(old(actors), newly))
        && (newly == {} ==> items == old(items))
    {
      ghost var newly := NewlyDead(actors, actorsDead);
      var ids := actors.Keys;
      var remaining := ids;
      order := [];
      while remaining != {}
        invariant remaining <= ids == old(actors).Keys
        invariant actors == Swept(old(actors), newly - remaining)
        invariant actorsDead == old(actorsDead) + (newly - remaining)
        invariant Distinct(order) && forall k :: k in order <==> k in newly - remaining
        invariant items == DrainActors(terrain, old(items), old(actors), order, find)
        decreases remaining
      {
        var id :| id in remaining;
        order := SweepNext(id, find, old(actors), old(actorsDead), old(items), remaining, order);
        remaining := remaining - {id};
      }
      DrainActorsGrows(terrain, old(items), old(actors), order, newly, find);
      assert newly == {} ==> order == [];
    }

    /** The part of the post-turn phase after the death sweep: the index
        rebuilt, the light map recomputed, the post-turn hooks run and the
        turn advanced. */
    method Refresh(b: Behavior)
      requires forall c :: c in actorsPos ==> actorsPos[c] in actors
      modifies this`actors, this`actorsPos, this`lightMap, this`turn
      ensures actorsPos == FilterIndex(old(actorsPos), old(actors))
      ensures lightMap == b.relight(terrain, old(actors), actorsPos)
      ensures actors == ApplyToAlive(old(actors), b.postTick)
      ensures turn == old(turn) + 1
    {
      var index := FilterIndex(actorsPos, actors);
      var light := b.relight(terrain, actors, index);
      ApplyHookToAlive(b.postTick);
      actorsPos, lightMap, turn := index, light, turn + 1;
    }

    /** The post-turn phase: the death sweep; the coordinate index rebuilt
        from the entries still true; the light map recomputed; every living
        actor's post-turn hook; the turn advanced. */
    method PostTick(b: Behavior) returns (ghost order: seq<ActorId>)
      requires Valid() && FinderSound(b.find)
      modifies this`actors, this`actorsPos, this`actorsDead, this`items, this`lightMap, this`turn
      ensures Valid()
      ensures Snapshot() == old(Snapshot()).CleanedUp(items, b)
      ensures Distinct(order) && forall id :: id in order <==> id in NewlyDead(old(actors), old(actorsDead))
      ensures items == DrainActors(terrain, old(items), old(actors), order, b.find)
      ensures ItemsGrow(old(items), items, terrain)
      ensures ItemsFrom(old(items), items, Belongings(old(actors), NewlyDead(old(actors), old(actorsDead))))
      ensures NewlyDead(old(actors), old(actorsDead)) == {} ==> items == old(items)
    {
      ghost var here := Snapshot();
      order := SweepDeaths(b.find);
      ghost var swept := actors;
      Refresh(b);
      here.CleanedUpFields(items, b, swept, actorsPos, actors, lightMap);
    }
  }
}

/**
  The parts of the entity-component store that the spawn drain writes to:
  entity identities and their allocator, the component tables (one map per
  storage), and the append-only channel of spawn events.

  Positions, velocities and item stacks are opaque: they are the type
  parameters P, V and S throughout, and only equality and copying matter.
 */
module Ecs {

  /** An entity identity. Identities are handed out by a counter and never reused. */
  type Entity = nat

  datatype Option<T> = None | Some(value: T)

  /** The kind of an entity. Only `Item` is spelled out; every other kind is an opaque tag. */
  datatype EntityType = Item | OtherKind(tag: nat)

  /** Item metadata: the stack the item entity carries (unset by default). */
  datatype ItemMetadata<S> = ItemMetadata(item: Option<S>)

  /** Kind-tagged metadata; the non-item variants are opaque tags. */
  datatype Metadata<S> = MetaItem(item: ItemMetadata<S>) | MetaOther(tag: nat)

  /** Current and previous position, kept for interpolation between ticks. */
  datatype PositionComponent<P> = PositionComponent(current: P, previous: P)

  datatype VelocityComponent<V> = VelocityComponent(velocity: V)

  /** Zero-data component marking an entity as an item entity. */
  datatype ItemMarker = ItemMarker

  /** Published once per spawned entity. */
  datatype EntitySpawnEvent = EntitySpawnEvent(entity: Entity, ty: EntityType)

  /**
    Outcome of inserting a component: either the updated table together with
    the component it replaced, if any, or the failure reported when the
    entity is not alive.
   */
  datatype InsertResult<C> = Inserted(storage: map<Entity, C>, replaced: Option<C>) | WrongGeneration

  /** Inserting component `c` for entity `e` into a component table. */
  function Insert<C>(storage: map<Entity, C>, alive: set<Entity>, e: Entity, c: C): (r: InsertResult<C>)
    ensures r.Inserted? <==> e in alive
    ensures r.Inserted? ==> r.storage == storage[e := c]
    ensures r.Inserted? ==> r.replaced == if e in storage then Some(storage[e]) else None
  {
    if e !in alive then WrongGeneration
    else Inserted(storage[e := c], if e in storage then Some(storage[e]) else None)
  }

  /**
    Inserting into a table none of whose keys has reached the allocator's
    counter, for the identity the allocator has just handed out, always
    succeeds and replaces nothing: the entity is alive and has no component yet.
   */
  lemma InsertForNewEntity<C>(storage: map<Entity, C>, alive: set<Entity>, next: Entity, c: C)
    requires KeysBelow(storage, next)
    ensures Insert(storage, alive + {next}, next, c) == Inserted(storage[next := c], None)
  {
  }

  /** Every key of `m` is below `bound`. */
  ghost predicate KeysBelow<C>(m: map<Entity, C>, bound: Entity) {
    forall e :: e in m ==> e < bound
  }

  /** `m'` keeps every entry of `m` unchanged and adds keys only from `lo` up to `hi`. */
  ghost predicate Grows<C>(m: map<Entity, C>, m': map<Entity, C>, lo: Entity, hi: Entity) {
    (forall e :: e in m ==> e in m' && m'[e] == m[e]) &&
    (forall e :: e in m' ==> e in m || lo <= e < hi)
  }

  /** The abstract value of the store: allocator, component tables and event channel. */
  datatype Store<P, V, S> = Store(
    next: Entity,
    alive: set<Entity>,
    positions: map<Entity, PositionComponent<P>>,
    velocities: map<Entity, VelocityComponent<V>>,
    metadatas: map<Entity, Metadata<S>>,
    types: map<Entity, EntityType>,
    itemMarkers: map<Entity, ItemMarker>,
    events: seq<EntitySpawnEvent>)
  {
    /** Nothing has been created at or above `next`: no alive entity, no component. */
    ghost predicate Valid() {
      (forall e :: e in alive ==> e < next) &&
      KeysBelow(positions, next) && KeysBelow(velocities, next) && KeysBelow(metadatas, next) &&
      KeysBelow(types, next) && KeysBelow(itemMarkers, next)
    }

    /**
      `after` only adds to this store: the allocator moved forward, alive
      entities stay alive, every existing component is untouched, new
      components belong to newly allocated entities, and the event channel
      was only appended to.
     */
    ghost predicate OnlyAdds(after: Store<P, V, S>) {
      var (lo, hi) := (next, after.next);
      lo <= hi && alive <= after.alive &&
      Grows(positions, after.positions, lo, hi) && Grows(velocities, after.velocities, lo, hi) &&
      Grows(metadatas, after.metadatas, lo, hi) && Grows(types, after.types, lo, hi) &&
      Grows(itemMarkers, after.itemMarkers, lo, hi) &&
      events <= after.events
    }
  }

  /** The resources the spawn drain has write access to. */
  class World<P, V, S> {
    var next: Entity
    var alive: set<Entity>
    var positions: map<Entity, PositionComponent<P>>
    var velocities: map<Entity, VelocityComponent<V>>
    var metadatas: map<Entity, Metadata<S>>
    var types: map<Entity, EntityType>
    var itemMarkers: map<Entity, ItemMarker>
    var spawnEvents: seq<EntitySpawnEvent>

    function Contents(): Store<P, V, S>
      reads this
    {
      Store(next, alive, positions, velocities, metadatas, types, itemMarkers, spawnEvents)
    }

    ghost predicate Valid()
      reads this
    {
      Contents().Valid()
    }

    /** An empty world: no entities, no components, no events. */
    constructor ()
      ensures Valid()
      ensures Contents() == Store(0, {}, map[], map[], map[], map[], map[], [])
    {
      next, alive := 0, {};
      positions, velocities, metadatas, types, itemMarkers := map[], map[], map[], map[], map[];
      spawnEvents := [];
    }

    /** Allocates an identity that was never alive before and makes it alive. */
    method Create() returns (e: Entity)
      requires Valid()
      modifies this
      ensures Valid()
      ensures e !in old(alive) && e !in old(positions) && e !in old(velocities)
      ensures e !in old(metadatas) && e !in old(types) && e !in old(itemMarkers)
      ensures e == old(next)
      ensures Contents() == old(Contents()).(next := e + 1, alive := old(alive) + {e})
    {
      e := next;
      next := next + 1;
      alive := alive + {e};
    }
  }
}

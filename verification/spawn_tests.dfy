/**
  The two unit tests of the spawn module, stated as methods whose
  postconditions are the tests' assertions.
 */
module SpawnTests {
  import opened Ecs
  import opened Spawn

  /** Queue one item and pop it straight back: the request carries the inputs unchanged. */
  method TestSpawnItem<P, V, S>(position: P, velocity: V, item: S) returns (request: SpawnRequest<P, V, S>)
    ensures request.ty == Item
    ensures request.position == position && request.velocity == velocity
    ensures request.meta == MetaItem(ItemMetadata(Some(item))) && request.extra == ExtraItem(item)
  {
    var spawner := new Spawner<P, V, S>();
    spawner.SpawnItem(position, velocity, item);
    var popped := spawner.Pop();
    request := popped.value;
  }

  /**
    Queue one item on a fresh world and run the system once: exactly one
    event is read back, and it is for an item. The body also checks that the
    entity the event names holds the requested components; that fact is not
    part of the postcondition.
   */
  method TestSpawnerSystem<P, V, S>(position: P, velocity: V, item: S) returns (events: seq<EntitySpawnEvent>)
    ensures |events| == 1 && events[0].ty == Item
  {
    var world := new World<P, V, S>();
    var system := new SpawnerSystem();
    var spawner := new Spawner<P, V, S>();
    var reader := |world.spawnEvents|;

    spawner.SpawnItem(position, velocity, item);
    ghost var queued := spawner.queue;
    ghost var before := world.Contents();
    var outcome := system.Run(spawner, world);

    DrainAppendsEvents(before, queued);
    events := world.spawnEvents[reader..];
    assert outcome == Completed && spawner.queue == [];
    DrainInsertsComponents(before, queued);
    assert Materialised(world.Contents(), events[0].entity, ItemRequest(position, velocity, item));
  }
}

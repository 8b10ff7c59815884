# Deferred entity spawning

A model of the deferred spawn mechanism of the feather server
(`server/src/entity/spawn.rs`). Simulation systems that hold only read access
to the world queue spawn requests on a `Spawner`; once per tick the
`SpawnerSystem` drains that queue. For every request it creates an entity,
inserts the entity's position, velocity, metadata and type components, attaches
an item marker for item entities, and writes one `EntitySpawnEvent` to the
event channel.

Layout:

- `ecs.dfy`, module `Ecs`: the parts of the entity-component store the drain
  writes to. Entity identities come from a counter (`World.Create`). Each
  component storage is a `map` from entity to component. `Insert` models a
  storage insertion, which fails for an entity that is not alive. The event
  channel is an append-only `seq`. `Store` is the abstract value of a `World`;
  `Store.Valid` says nothing exists at or above the allocator's counter, and
  `Store.OnlyAdds` says one store only adds to another.
- `spawn.dfy`, module `Spawn`: `SpawnRequest` and `Extra`, the request built by
  `spawn_item` (`ItemRequest`), and the `Spawner` class whose `queue` field is a
  FIFO sequence. `SpawnOne` specifies one iteration of the drain loop
  (`server/src/entity/spawn.rs:98-127`) and `Drain` the whole loop; the lemmas about `Drain` state what the drain does. `SpawnerSystem.Run`
  is the loop itself, proved equal to `Drain`. `SpawnerSystem.Materialise` is
  its body for one request.
- `spawn_tests.dfy`, module `SpawnTests`: the file's two unit tests, stated as
  methods whose postconditions are the tests' assertions.

Positions, velocities and item stacks are the type parameters `P`, `V` and `S`.
Only equality and copying of them matter. `EntityType` is `Item`, and every
other kind is an opaque tag.

How the code's failure paths are modelled:

- Each `insert(..).unwrap()` in `run` becomes a call of `Insert` followed by an
  `assert` that the insertion succeeded. This proves the unwraps cannot panic,
  because the entity was created just before.
- `unimplemented!()` for a non-item type becomes the outcome
  `Unimplemented(ty)`. The drain stops there.

The fail-fast branch is meant to keep half-built entities out of the store, but
for a request of an unsupported kind the code inserts position, velocity,
metadata and type before it reaches `unimplemented!()`
(`server/src/entity/spawn.rs:100-120`). The model follows the code: on that outcome the last created entity has those four
components, no item marker and no spawn event.

## Model

| member | source | states |
|---|---|---|
| `Ecs.InsertForNewEntity` | server/src/entity/spawn.rs:100-117 | inserting a component for the identity just allocated on a valid store succeeds and replaces nothing, so each `insert(..)` returns `Ok(None)` and its `unwrap` cannot panic |
| `Ecs.World.Create` | server/src/entity/spawn.rs:98 | the created identity was not alive before and has no components; it becomes alive and the allocator moves past it; validity is kept |
| `Spawn.ItemRequest` | server/src/entity/spawn.rs:36-48 | the item request is well formed: kind `Item`, item metadata holding `Some(item)`, and `Extra::Item` holding the same stack; position and velocity are stored unchanged |
| `Spawn.Spawner.constructor` | server/src/entity/spawn.rs:27-31 | a new spawner has an empty queue |
| `Spawn.Spawner.SpawnItem` | server/src/entity/spawn.rs:35-51 | exactly one request, the item request for the arguments, is appended at the back and earlier entries are unchanged; a queue of well-formed item requests stays one |
| `Spawn.Spawner.Pop` | server/src/entity/spawn.rs:97 | an empty queue yields nothing and stays empty; otherwise the front request is returned and removed |
| `Spawn.Drain` | server/src/entity/spawn.rs:97-128 | a drain of a non-empty queue pops at least one request; a drain that completes leaves the queue empty |
| `Spawn.DrainLeavesSuffix` | server/src/entity/spawn.rs:97 | requests are popped from the front only: what remains queued is a suffix of the original queue |
| `Spawn.DrainCompletesIffAllItems` | server/src/entity/spawn.rs:115-120 | the drain completes if and only if every queued request is of the item kind |
| `Spawn.DrainStopsAtFirstUnsupported` | server/src/entity/spawn.rs:115-120 | the first request of another kind stops the drain with that kind as the error; it is consumed and every later request stays queued |
| `Spawn.SpawnOneOnlyAdds` | server/src/entity/spawn.rs:98-127 | handling one request allocates exactly the next identity, which was not alive, keeps the store valid and only adds to it |
| `Spawn.DrainOnlyAdds` | server/src/entity/spawn.rs:97-128 | a drain keeps the store valid, advances the allocator by one per popped request and only adds: existing components and alive entities are untouched, new components belong to new entities, events are only appended |
| `Spawn.DrainAllocatesFreshEntities` | server/src/entity/spawn.rs:97-98 | K popped requests give exactly K new alive identities, pairwise distinct and distinct from every identity alive before |
| `Spawn.DrainInsertsComponents` | server/src/entity/spawn.rs:100-120 | the i-th popped request becomes entity `next + i`, whose position has current and previous both equal to the requested position, whose velocity, metadata and type are the request's, and which has the item marker exactly when the request is for an item |
| `Spawn.DrainAppendsEvents` | server/src/entity/spawn.rs:122-127 | one event per spawned item is appended after the existing events, in pop order, naming the created entity and the request's kind; a request that stops the drain gets no event |
| `Spawn.SpawnerSystem.Materialise` | server/src/entity/spawn.rs:98-127 | one loop iteration: every unwrap succeeds, the store becomes `SpawnOne` of the old store, and the outcome is an error exactly for a non-item request |
| `Spawn.SpawnerSystem.Run` | server/src/entity/spawn.rs:84-129 | the new store, remaining queue and outcome are those of `Drain` on the old store and queue; a queue filled by `SpawnItem` alone is drained completely without error; an empty queue changes nothing |
| `SpawnTests.TestSpawnItem` | server/src/entity/spawn.rs:139-153 | a request queued by `SpawnItem` and popped back has kind `Item`, the given position and velocity, and the given stack in its metadata and extra |
| `SpawnTests.TestSpawnerSystem` | server/src/entity/spawn.rs:155-177 | after one item is queued and the system runs once, the reader sees exactly one spawn event, of kind `Item` |

## Left out

- The lock-free multi-producer behaviour of the crossbeam queue: the queue is a sequential FIFO sequence, so concurrent `spawn_item` calls are not modelled.
- The specs store internals: generation counters of `Entities::create`, storage engines, and the `System`/dispatcher scheduling. Identities come from a counter that never reuses an id, and a storage is a map.
- Reader cursors and multiple subscribers of the shrev event channel: the channel is a sequence that is only appended to; the test's reader is an index into it.
- The contents of `Position`, `Vec3`, `ItemStack` and item metadata: they are opaque type parameters. Item metadata keeps only the carried stack, and the other metadata variants and entity kinds are opaque tags.
- The test harness (`t::builder`, `d.dispatch`): the test model builds an empty world and calls `Run` once.
- A panic aborts the whole tick in the code. The model returns the `Unimplemented` outcome together with the partial store, and does not model what the dispatcher does next.

/**
  Deferred entity spawning: producers queue spawn requests on a `Spawner`
  without write access to the store, and `SpawnerSystem.Run` later drains the
  queue, creating one entity and publishing one spawn event per request.

  The lock-free queue is modelled as a sequential FIFO sequence.
 */
module Spawn {
  import opened Ecs

  /** Kind-specific data needed to attach components after creation. */
  datatype Extra<S> = ExtraItem(stack: S)

  datatype SpawnRequest<P, V, S> = SpawnRequest(
    ty: EntityType,
    position: P,
    velocity: V,
    meta: Metadata<S>,
    extra: Extra<S>)

  /**
    The request's kind, metadata tag and extra tag agree, and the metadata
    carries the very stack held in `extra`.
   */
  ghost predicate WellFormed<P, V, S>(r: SpawnRequest<P, V, S>) {
    r.ty == Item && r.meta.MetaItem? && r.meta.item.item == Some(r.extra.stack)
  }

  /** The item-flavoured request that `spawn_item` queues. */
  function ItemRequest<P, V, S>(position: P, velocity: V, item: S): (r: SpawnRequest<P, V, S>)
    ensures WellFormed(r)
    ensures r.position == position && r.velocity == velocity && r.extra.stack == item
  {
    var meta := MetaItem(ItemMetadata(None).(item := Some(item)));
    SpawnRequest(Item, position, velocity, meta, ExtraItem(item))
  }

  /** The queue of pending spawn requests. */
  class Spawner<P, V, S> {
    var queue: seq<SpawnRequest<P, V, S>>

    /** Every queued request was built by `SpawnItem`'s constructor. */
    ghost predicate OnlyItemRequests()
      reads this
    {
      forall i :: 0 <= i < |queue| ==> WellFormed(queue[i])
    }

    constructor ()
      ensures queue == [] && OnlyItemRequests()
    {
      queue := [];
    }

    /** Queues an item entity to be spawned. */
    method SpawnItem(position: P, velocity: V, item: S)
      modifies this
      ensures queue == old(queue) + [ItemRequest(position, velocity, item)]
      ensures old(OnlyItemRequests()) ==> OnlyItemRequests()
    {
      var request := ItemRequest(position, velocity, item);
      queue := queue + [request];
    }

    /** Removes and returns the oldest request, or nothing once the queue is empty. */
    method Pop() returns (r: Option<SpawnRequest<P, V, S>>)
      modifies this
      ensures old(queue) == [] ==> r == None && queue == []
      ensures old(queue) != [] ==> r == Some(old(queue)[0]) && queue == old(queue)[1..]
    {
      if queue == [] {
        r := None;
      } else {
        r := Some(queue[0]);
        queue := queue[1..];
      }
    }
  }

  /** How a drain ended: the queue ran dry, or a request of an unsupported kind was met. */
  datatype Outcome = Completed | Unimplemented(ty: EntityType)

  /** The outcome of a drain, the store it leaves and the requests still queued. */
  datatype Drained<P, V, S> = Drained(outcome: Outcome, store: Store<P, V, S>, queue: seq<SpawnRequest<P, V, S>>)

  /**
    One request handled against store `w`: allocate the next identity, insert
    position (current and previous both the requested position), velocity,
    metadata and type; for an item also the item marker and the spawn event.
    For any other kind the store is left with the four components only, as
    the drain stops right there. This is one iteration of the loop in
    server/src/entity/spawn.rs:98-127.
   */
  ghost function SpawnOne<P, V, S>(w: Store<P, V, S>, r: SpawnRequest<P, V, S>): Store<P, V, S> {
    var e := w.next;
    var created := w.(
      next := e + 1,
      alive := w.alive + {e},
      positions := w.positions[e := PositionComponent(r.position, r.position)],
      velocities := w.velocities[e := VelocityComponent(r.velocity)],
      metadatas := w.metadatas[e := r.meta],
      types := w.types[e := r.ty]);
    if r.ty == Item then
      created.(itemMarkers := created.itemMarkers[e := ItemMarker],
               events := created.events + [EntitySpawnEvent(e, r.ty)])
    else
      created
  }

  /**
    Draining queue `q` against store `w`: requests are handled in order until
    the queue is empty, or until one of an unsupported kind has been popped.
   */
  ghost function Drain<P, V, S>(w: Store<P, V, S>, q: seq<SpawnRequest<P, V, S>>): (r: Drained<P, V, S>)
    ensures q != [] ==> |r.queue| < |q|
    ensures r.outcome == Completed ==> r.queue == []
    decreases |q|
  {
    if q == [] then Drained(Completed, w, [])
    else
      var after := SpawnOne(w, q[0]);
      if q[0].ty == Item then Drain(after, q[1..])
      else Drained(Unimplemented(q[0].ty), after, q[1..])
  }

  /** The requests left queued after a drain are the original queue minus the popped prefix. */
  lemma {:induction false} DrainLeavesSuffix<P, V, S>(w: Store<P, V, S>, q: seq<SpawnRequest<P, V, S>>)
    ensures |Drain(w, q).queue| <= |q|
    ensures Drain(w, q).queue == q[|q| - |Drain(w, q).queue|..]
    decreases |q|
  {
    if q != [] && q[0].ty == Item {
      var rest := Drain(SpawnOne(w, q[0]), q[1..]);
      DrainLeavesSuffix(SpawnOne(w, q[0]), q[1..]);
      assert q[1..][|q| - 1 - |rest.queue|..] == q[|q| - |rest.queue|..];
    }
  }

  /** Unfolds one step of `Drain`. */
  lemma DrainStep<P, V, S>(w: Store<P, V, S>, q: seq<SpawnRequest<P, V, S>>)
    requires q != []
    ensures Drain(w, q) == if q[0].ty == Item then Drain(SpawnOne(w, q[0]), q[1..])
                           else Drained(Unimplemented(q[0].ty), SpawnOne(w, q[0]), q[1..])
  {
  }

  /** The drain completes exactly when every queued request is of the item kind. */
  lemma {:induction false} DrainCompletesIffAllItems<P, V, S>(w: Store<P, V, S>, q: seq<SpawnRequest<P, V, S>>)
    ensures Drain(w, q).outcome == Completed <==> forall i :: 0 <= i < |q| ==> q[i].ty == Item
    decreases |q|
  {
    if q != [] && q[0].ty == Item {
      DrainCompletesIffAllItems(SpawnOne(w, q[0]), q[1..]);
      assert forall i :: 1 <= i < |q| ==> q[i] == q[1..][i - 1];
    }
  }

  /**
    The first request of an unsupported kind stops the drain with that kind
    as the error; it has been popped and every later request is still queued.
   */
  lemma {:induction false} DrainStopsAtFirstUnsupported<P, V, S>(w: Store<P, V, S>, q: seq<SpawnRequest<P, V, S>>, k: nat)
    requires k < |q| && q[k].ty != Item
    requires forall i :: 0 <= i < k ==> q[i].ty == Item
    ensures Drain(w, q).outcome == Unimplemented(q[k].ty)
    ensures Drain(w, q).queue == q[k + 1..]
    decreases k
  {
    if k > 0 {
      DrainStopsAtFirstUnsupported(SpawnOne(w, q[0]), q[1..], k - 1);
      assert q[1..][k..] == q[k + 1..];
    }
  }

  /** Handling one request on a valid store allocates exactly `w.next` and only adds to the store. */
  lemma SpawnOneOnlyAdds<P, V, S>(w: Store<P, V, S>, r: SpawnRequest<P, V, S>)
    requires w.Valid()
    ensures var after := SpawnOne(w, r);
      after.Valid() && w.OnlyAdds(after) &&
      after.next == w.next + 1 && after.alive == w.alive + {w.next} && w.next !in w.alive
  {
  }

  /** Draining a valid store keeps it valid and only adds to it, one identity per popped request. */
  lemma {:induction false} DrainOnlyAdds<P, V, S>(w: Store<P, V, S>, q: seq<SpawnRequest<P, V, S>>)
    requires w.Valid()
    ensures var r := Drain(w, q);
      r.store.Valid() && w.OnlyAdds(r.store) && r.store.next == w.next + (|q| - |r.queue|)
    decreases |q|
  {
    if q != [] && q[0].ty == Item {
      var after := SpawnOne(w, q[0]);
      SpawnOneOnlyAdds(w, q[0]);
      DrainOnlyAdds(after, q[1..]);
      OnlyAddsTransitive(w, after, Drain(after, q[1..]).store);
    } else if q != [] {
      SpawnOneOnlyAdds(w, q[0]);
    }
  }

  lemma OnlyAddsTransitive<P, V, S>(a: Store<P, V, S>, b: Store<P, V, S>, c: Store<P, V, S>)
    requires a.OnlyAdds(b) && b.OnlyAdds(c)
    ensures a.OnlyAdds(c)
  {
  }

  /**
    The identities alive after a drain are those alive before plus one new
    identity per popped request; none of the new ones was alive before, so
    there are exactly that many more alive entities.
   */
  lemma {:induction false} DrainAllocatesFreshEntities<P, V, S>(w: Store<P, V, S>, q: seq<SpawnRequest<P, V, S>>)
    requires w.Valid()
    ensures var r := Drain(w, q);
      var spawned := |q| - |r.queue|;
      r.store.next == w.next + spawned &&
      (forall e :: e in r.store.alive <==> e in w.alive || w.next <= e < w.next + spawned) &&
      (forall e :: w.next <= e < w.next + spawned ==> e !in w.alive) &&
      |r.store.alive| == |w.alive| + spawned
    decreases |q|
  {
    if q != [] {
      var after := SpawnOne(w, q[0]);
      SpawnOneOnlyAdds(w, q[0]);
      if q[0].ty == Item {
        DrainAllocatesFreshEntities(after, q[1..]);
      }
    }
  }

  /**
    Entity `e` holds the components request `r` asks for: position with
    current and previous both the requested position, velocity, metadata and
    type copied verbatim, and the item marker exactly when `r` is for an item.
   */
  ghost predicate Materialised<P, V, S>(w: Store<P, V, S>, e: Entity, r: SpawnRequest<P, V, S>) {
    e in w.positions && w.positions[e] == PositionComponent(r.position, r.position) &&
    e in w.velocities && w.velocities[e] == VelocityComponent(r.velocity) &&
    e in w.metadatas && w.metadatas[e] == r.meta &&
    e in w.types && w.types[e] == r.ty &&
    (e in w.itemMarkers <==> r.ty == Item)
  }

  /** A store that only grows keeps what an already allocated entity was given. */
  lemma MaterialisedKept<P, V, S>(a: Store<P, V, S>, b: Store<P, V, S>, e: Entity, r: SpawnRequest<P, V, S>)
    requires a.OnlyAdds(b) && e < a.next && Materialised(a, e, r)
    ensures Materialised(b, e, r)
  {
  }

  /**
    The i-th popped request becomes entity `w.next + i`, which holds exactly
    the components that request asks for.
   */
  lemma {:induction false} DrainInsertsComponents<P, V, S>(w: Store<P, V, S>, q: seq<SpawnRequest<P, V, S>>)
    requires w.Valid()
    ensures var r := Drain(w, q);
      forall i :: 0 <= i < |q| - |r.queue| ==> Materialised(r.store, w.next + i, q[i])
    decreases |q|
  {
    var r := Drain(w, q);
    if q != [] {
      var after := SpawnOne(w, q[0]);
      assert after.Valid() && Materialised(after, w.next, q[0]) by {
        SpawnOneOnlyAdds(w, q[0]);
      }
      if q[0].ty == Item {
        assert Materialised(r.store, w.next, q[0]) by {
          SpawnOneOnlyAdds(w, q[0]);
          DrainOnlyAdds(after, q[1..]);
          MaterialisedKept(after, r.store, w.next, q[0]);
        }
        DrainInsertsComponents(after, q[1..]);
        forall i | 0 < i < |q| - |r.queue|
          ensures Materialised(r.store, w.next + i, q[i])
        {
          assert q[i] == q[1..][i - 1];
          assert w.next + i == after.next + (i - 1);
        }
      }
    }
  }

  /**
    One spawn event per spawned item, appended after the events already in
    the channel, in pop order, naming the entity created for the request and
    the request's kind. A request that stops the drain gets no event.
   */
  lemma {:induction false} DrainAppendsEvents<P, V, S>(w: Store<P, V, S>, q: seq<SpawnRequest<P, V, S>>)
    ensures var r := Drain(w, q);
      var spawned := if r.outcome == Completed then |q| - |r.queue| else |q| - |r.queue| - 1;
      0 <= spawned && |r.store.events| == |w.events| + spawned &&
      r.store.events[..|w.events|] == w.events &&
      forall i :: 0 <= i < spawned ==> r.store.events[|w.events| + i] == EntitySpawnEvent(w.next + i, q[i].ty)
    decreases |q|
  {
    var r := Drain(w, q);
    if q != [] && q[0].ty == Item {
      var after := SpawnOne(w, q[0]);
      DrainAppendsEvents(after, q[1..]);
      var spawned := if r.outcome == Completed then |q| - |r.queue| else |q| - |r.queue| - 1;
      assert after.events == w.events + [EntitySpawnEvent(w.next, q[0].ty)];
      assert r.store.events[..|after.events|] == after.events;
      forall i | 0 <= i < spawned
        ensures r.store.events[|w.events| + i] == EntitySpawnEvent(w.next + i, q[i].ty)
      {
        if i > 0 {
          assert q[i] == q[1..][i - 1];
          assert |w.events| + i == |after.events| + (i - 1);
        } else {
          assert r.store.events[|w.events|] == r.store.events[..|after.events|][|w.events|];
        }
      }
    }
  }

  /** The system that materialises queued spawn requests. */
  class SpawnerSystem {
    constructor () {}

    /**
      Drains `spawner` into `world`. With a queue built by `SpawnItem` alone
      the drain always completes and leaves the queue empty.
     */
    method Run<P, V, S>(spawner: Spawner<P, V, S>, world: World<P, V, S>) returns (outcome: Outcome)
      requires world.Valid()
      modifies spawner, world
      ensures world.Valid()
      ensures Drained(outcome, world.Contents(), spawner.queue) == Drain(old(world.Contents()), old(spawner.queue))
      ensures old(spawner.OnlyItemRequests()) ==> outcome == Completed && spawner.queue == []
      ensures old(spawner.queue) == [] ==> world.Contents() == old(world.Contents())
    {
      DrainCompletesIffAllItems(world.Contents(), spawner.queue);
      outcome := Completed;
      while true
        invariant world.Valid() && outcome == Completed
        invariant Drain(world.Contents(), spawner.queue) == Drain(old(world.Contents()), old(spawner.queue))
        decreases |spawner.queue|
      {
        ghost var before, pending := world.Contents(), spawner.queue;
        var popped := spawner.Pop();
        if popped == None {
          assert Drain(before, pending) == Drained(Completed, before, []);
          return;
        }
        var request := popped.value;
        outcome := Materialise(world, request);
        DrainStep(before, pending);
        if outcome != Completed {
          return;
        }
      }
    }

    /**
      The body of the drain loop for one popped request: creates the entity,
      inserts its components and, for an item, its marker and spawn event.
      Every `unwrap` of an insertion is proved not to panic.
     */
    method Materialise<P, V, S>(world: World<P, V, S>, request: SpawnRequest<P, V, S>) returns (outcome: Outcome)
      requires world.Valid()
      modifies world
      ensures world.Valid()
      ensures world.Contents() == SpawnOne(old(world.Contents()), request)
      ensures outcome == if request.ty == Item then Completed else Unimplemented(request.ty)
    {
      var entity := world.Create();

      var position := Insert(world.positions, world.alive, entity, PositionComponent(request.position, request.position));
      assert position.Inserted?;  // the unwrap cannot fail: `entity` was just created
      world.positions := position.storage;
      var velocity := Insert(world.velocities, world.alive, entity, VelocityComponent(request.velocity));
      assert velocity.Inserted?;
      world.velocities := velocity.storage;
      var meta := Insert(world.metadatas, world.alive, entity, request.meta);
      assert meta.Inserted?;
      world.metadatas := meta.storage;
      var ty := Insert(world.types, world.alive, entity, request.ty);
      assert ty.Inserted?;
      world.types := ty.storage;

      match request.ty {
        case Item =>
          var marker := Insert(world.itemMarkers, world.alive, entity, ItemMarker);
          assert marker.Inserted?;
          world.itemMarkers := marker.storage;
        case OtherKind(_) =>
          return Unimplemented(request.ty);
      }

      world.spawnEvents := world.spawnEvents + [EntitySpawnEvent(entity, request.ty)];
      outcome := Completed;
    }
  }
}

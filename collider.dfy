/**
 * Collider identity, collision-event listeners and physics registration
 * (src/engine/components/physics/Collider.ts).
 *
 * Each collider owns an event emitter that keeps one listener list per event
 * name; the three collision kinds use three distinct names. Listeners are
 * callback identities. The emitter follows the Node.js `events` module:
 * `addListener` appends, `removeListener` removes at most one entry, the most
 * recently added one, and drops the name once its list is empty; `emit`
 * calls the listeners present when it starts, in the order they were added.
 */
module Collider {

  type ColliderId = nat

  /** Identity of a listener function. */
  type CallbackId = nat

  datatype CollisionEvent = CollisionEnter | CollisionStay | CollisionExit

  /** The emitter's state: the listener list of every event name that has one. */
  type Emitter = map<string, seq<CallbackId>>

  /** The names `COLLISION_ENTER`, `COLLISION_STAY` and `COLLISION_EXIT`. */
  function EventName(kind: CollisionEvent): string
  {
    match kind
    case CollisionEnter => "Collision Enter"
    case CollisionStay => "Collision Stay"
    case CollisionExit => "Collision Exit"
  }

  /** The emitter never keeps an empty list under a name. */
  ghost predicate WellFormed(e: Emitter)
  {
    forall name :: name in e ==> e[name] != []
  }

  /** The listeners registered under `name`, oldest first. */
  function ListenersOf(e: Emitter, name: string): seq<CallbackId>
  {
    if name in e then e[name] else []
  }

  /** `addListener`: append `cb` to the list of `name`; every other name keeps its list. */
  function AddListener(e: Emitter, name: string, cb: CallbackId): (r: Emitter)
    ensures ListenersOf(r, name) == ListenersOf(e, name) + [cb]
    ensures forall other :: other != name ==> ListenersOf(r, other) == ListenersOf(e, other)
    ensures WellFormed(e) ==> WellFormed(r)
  {
    e[name := ListenersOf(e, name) + [cb]]
  }

  /** Position of the most recent `cb` in `list`, or -1 when it is absent. */
  function LastIndexOf(list: seq<CallbackId>, cb: CallbackId): (i: int)
    ensures -1 <= i < |list|
    ensures i == -1 <==> cb !in list
    ensures 0 <= i ==> list[i] == cb && cb !in list[i + 1..]
  {
    if list == [] then -1
    else if list[|list| - 1] == cb then |list| - 1
    else
      var i := LastIndexOf(list[..|list| - 1], cb);
      assert list[i + 1..] == list[..|list| - 1][i + 1..] + [list[|list| - 1]] by {
        assert 0 <= i + 1 <= |list| - 1;
      }
      i
  }

  /**
   * The list without its most recent `cb`; unchanged when `cb` is absent. The
   * other listeners keep their order.
   */
  function RemoveLast(list: seq<CallbackId>, cb: CallbackId): (r: seq<CallbackId>)
    ensures cb !in list ==> r == list
    ensures multiset(r) == multiset(list) - multiset{cb}
  {
    var i := LastIndexOf(list, cb);
    if i < 0 then list
    else
      assert list == list[..i] + [list[i]] + list[i + 1..];
      list[..i] + list[i + 1..]
  }

  /**
   * When `cb` is present, what goes is its most recent occurrence, and the
   * listeners before and after it keep their order.
   */
  lemma RemoveLastDropsMostRecent(list: seq<CallbackId>, cb: CallbackId)
    requires cb in list
    ensures exists i :: 0 <= i < |list| && list[i] == cb && cb !in list[i + 1..]
                        && RemoveLast(list, cb) == list[..i] + list[i + 1..]
  {
    var i := LastIndexOf(list, cb);
    assert 0 <= i < |list| && list[i] == cb && cb !in list[i + 1..];
  }

  /** `removeListener`: drop the most recent `cb` under `name`, if any; nothing else changes. */
  function RemoveListener(e: Emitter, name: string, cb: CallbackId): (r: Emitter)
    ensures ListenersOf(r, name) == RemoveLast(ListenersOf(e, name), cb)
    ensures forall other :: other != name ==> ListenersOf(r, other) == ListenersOf(e, other)
    ensures cb !in ListenersOf(e, name) ==> r == e
    ensures WellFormed(e) ==> WellFormed(r)
  {
    var list := ListenersOf(e, name);
    if cb !in list then e
    else
      var rest := RemoveLast(list, cb);
      if rest == [] then e - {name} else e[name := rest]
  }

  /** Removing the most recent `cb` right after appending it gives back the list. */
  lemma RemoveLastAfterAppend(list: seq<CallbackId>, cb: CallbackId)
    ensures RemoveLast(list + [cb], cb) == list
  {
    var extended := list + [cb];
    assert LastIndexOf(extended, cb) == |list|;
    assert extended[..|list|] + extended[|list| + 1..] == list;
  }

  /** Removing a listener right after adding it restores the emitter exactly. */
  lemma AddThenRemove(e: Emitter, name: string, cb: CallbackId)
    requires WellFormed(e)
    ensures RemoveListener(AddListener(e, name, cb), name, cb) == e
  {
    var list := ListenersOf(e, name);
    var added := AddListener(e, name, cb);
    RemoveLastAfterAppend(list, cb);
    assert ListenersOf(added, name) == list + [cb];
    assert cb in list + [cb];
    var r := RemoveListener(added, name, cb);
    if name in e {
      assert r == e[name := list];
      assert e[name := list] == e;
    } else {
      assert list == [];
      assert r == added - {name};
      assert added - {name} == e;
    }
  }

  /** The three kinds are kept under three different names, so their lists are independent. */
  lemma EventNamesDistinct(a: CollisionEvent, b: CollisionEvent)
    ensures a != b ==> EventName(a) != EventName(b)
  {
  }

  /** The module-level `idCounter`, with the ids it has handed out so far. */
  class IdCounter {
    var next: nat
    ghost var issued: seq<ColliderId>

    /** Ids handed out are strictly increasing in order of issue, and all below `next`. */
    ghost predicate Valid()
      reads this
    {
      && (forall i, j :: 0 <= i < j < |issued| ==> issued[i] < issued[j])
      && (forall i :: 0 <= i < |issued| ==> issued[i] < next)
    }

    constructor ()
      ensures Valid() && next == 0 && issued == []
    {
      next := 0;
      issued := [];
    }

    /** `idCounter++`: yields the current value and moves past it. */
    method Take() returns (id: ColliderId)
      requires Valid()
      modifies this
      ensures id == old(next) && next == old(next) + 1
      ensures issued == old(issued) + [id] && Valid()
    {
      id := next;
      next := next + 1;
      issued := issued + [id];
    }
  }

  /** `PhysicManager`'s registration list, seen as the set of registered collider ids. */
  class PhysicsRegistry {
    var colliders: set<ColliderId>

    constructor ()
      ensures colliders == {}
    {
      colliders := {};
    }
  }

  /** One listener call made by an `invoke…`: the callback and the collider passed to it. */
  datatype Invocation = Invocation(callback: CallbackId, other: Collider)

  class Collider {
    const id: ColliderId
    var isTrigger: bool
    var isEnable: bool
    var onCollisionEvent: Emitter

    /** A new collider takes the next id and starts enabled with no listeners. */
    constructor (isTrigger: bool, ids: IdCounter)
      requires ids.Valid()
      modifies ids
      ensures id == old(ids.next) && ids.next == old(ids.next) + 1
      ensures ids.issued == old(ids.issued) + [id] && ids.Valid()
      ensures this.isTrigger == isTrigger && isEnable
      ensures onCollisionEvent == map[]
    {
      var taken := ids.Take();
      id := taken;
      this.isTrigger := isTrigger;
      isEnable := true;
      onCollisionEvent := map[];
    }

    function Listeners(kind: CollisionEvent): seq<CallbackId>
      reads this
    {
      ListenersOf(onCollisionEvent, EventName(kind))
    }

    /** `awake`: register with the physics registry. */
    method Awake(registry: PhysicsRegistry)
      modifies registry
      ensures registry.colliders == old(registry.colliders) + {id}
    {
      registry.colliders := registry.colliders + {id};
    }

    /** `destroy`: deregister; after `Awake` then `Destroy` the collider is no longer registered. */
    method Destroy(registry: PhysicsRegistry)
      modifies registry
      ensures registry.colliders == old(registry.colliders) - {id}
      ensures id !in registry.colliders
    {
      registry.colliders := registry.colliders - {id};
    }

    /** `subcribeToCollisionEnter/Stay/Exit`: append `cb` to the list of one kind only. */
    method Subscribe(kind: CollisionEvent, cb: CallbackId)
      modifies this`onCollisionEvent
      ensures onCollisionEvent == AddListener(old(onCollisionEvent), EventName(kind), cb)
      ensures Listeners(kind) == old(Listeners(kind)) + [cb]
      ensures forall k :: k != kind ==> Listeners(k) == old(Listeners(k))
    {
      onCollisionEvent := AddListener(onCollisionEvent, EventName(kind), cb);
    }

    /** `unsubcribeToCollisionEnter/Stay/Exit`: drop the most recent `cb` from one kind only. */
    method Unsubscribe(kind: CollisionEvent, cb: CallbackId)
      modifies this`onCollisionEvent
      ensures onCollisionEvent == RemoveListener(old(onCollisionEvent), EventName(kind), cb)
      ensures Listeners(kind) == RemoveLast(old(Listeners(kind)), cb)
      ensures forall k :: k != kind ==> Listeners(k) == old(Listeners(k))
      ensures cb !in old(Listeners(kind)) ==> onCollisionEvent == old(onCollisionEvent)
    {
      onCollisionEvent := RemoveListener(onCollisionEvent, EventName(kind), cb);
    }

    /** `invokeCollisionEnter/Stay/Exit`: call exactly the current listeners of one kind, oldest first, with `other`. */
    method Invoke(kind: CollisionEvent, other: Collider) returns (calls: seq<Invocation>)
      ensures |calls| == |Listeners(kind)|
      ensures forall i :: 0 <= i < |calls| ==> calls[i] == Invocation(Listeners(kind)[i], other)
    {
      var listeners := Listeners(kind);
      calls := [];
      for i := 0 to |listeners|
        invariant |calls| == i
        invariant forall m :: 0 <= m < i ==> calls[m] == Invocation(listeners[m], other)
      {
        calls := calls + [Invocation(listeners[i], other)];
      }
    }

    /** `collidesWith`: a stub that reports no collision, enabled or not. */
    function CollidesWith(other: Collider): (r: bool)
      reads this
      ensures !r
    {
      if isEnable then false else false
    }

    /** `clone`: a new collider with the same trigger flag, a later id, and no listeners. */
    method Clone(ids: IdCounter) returns (c: Collider)
      requires ids.Valid() && id < ids.next
      modifies ids
      ensures fresh(c)
      ensures c.isTrigger == isTrigger && c.isEnable && c.onCollisionEvent == map[]
      ensures c.id == old(ids.next) && c.id > id
      ensures ids.next == old(ids.next) + 1 && ids.issued == old(ids.issued) + [c.id] && ids.Valid()
    {
      c := new Collider(isTrigger, ids);
    }
  }
}

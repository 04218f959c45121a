/**
 The per-conversation lock registries: a weak-valued dictionary that creates a lock on demand and forgets
 it once nobody refers to it (dataworks_agent/agent/core.py, dataworks_agent/agent/conversation_graph.py).
 Locks are numbered by creation.
 */
module LockRegistry {
  datatype Registry = Registry(locks: map<string, nat>, created: nat)

  /** Get the lock of a key, or create and register one. */
  function GetOrCreate(r: Registry, key: string): (Registry, nat) {
    if key in r.locks then (r, r.locks[key])
    else (Registry(r.locks[key := r.created], r.created + 1), r.created)
  }

  /** The module-level dictionary. */
  class LockTable {
    var locks: map<string, nat>
    var created: nat

    constructor ()
      ensures locks == map[] && created == 0
    {
      locks, created := map[], 0;
    }

    method TurnLock(conversationId: string) returns (lock: nat)
      modifies this
      ensures (Registry(locks, created), lock) == GetOrCreate(Registry(old(locks), old(created)), conversationId)
      ensures conversationId in locks && locks[conversationId] == lock
      ensures conversationId in old(locks) ==> unchanged(this)
    {
      if conversationId in locks {
        return locks[conversationId];
      }
      lock := created;
      created := created + 1;
      locks := locks[conversationId := lock];
    }
  }

  // ----- tasks that use the registry -----

  /** A task between turns, one that refers to a lock and waits for it, and one inside the critical section. */
  datatype Task = Away | Waiting(key: string, lock: nat) | Inside(key: string, lock: nat)

  datatype World = World(registry: Registry, tasks: seq<Task>)

  datatype Event =
    | Lookup(task: nat, key: string)
    | Enter(task: nat)
    | Leave(task: nat)
    | Abandon(task: nat)
    | Collect(key: string)

  predicate RefersTo(t: Task, lock: nat) {
    !t.Away? && t.lock == lock
  }

  /** A lock admits a task when nobody is inside with it; an entry is dropped when nobody refers to its lock. */
  predicate Enabled(w: World, e: Event) {
    match e
    case Lookup(task, _) => task < |w.tasks| && w.tasks[task].Away?
    case Enter(task) =>
      && task < |w.tasks| && w.tasks[task].Waiting?
      && forall i :: 0 <= i < |w.tasks| && w.tasks[i].Inside? ==> w.tasks[i].lock != w.tasks[task].lock
    case Leave(task) => task < |w.tasks| && w.tasks[task].Inside?
    case Abandon(task) => task < |w.tasks| && w.tasks[task].Waiting?
    case Collect(key) =>
      && key in w.registry.locks
      && forall i :: 0 <= i < |w.tasks| ==> !RefersTo(w.tasks[i], w.registry.locks[key])
  }

  function Forget(w: World, key: string): World {
    w.(registry := w.registry.(locks := w.registry.locks - {key}))
  }

  /** An event that is not enabled does not happen. */
  function Next(w: World, e: Event): (next: World)
    ensures |next.tasks| == |w.tasks|
  {
    if !Enabled(w, e) then w
    else
      match e
      case Lookup(task, key) =>
        var (registry, lock) := GetOrCreate(w.registry, key);
        World(registry, w.tasks[task := Waiting(key, lock)])
      case Enter(task) => w.(tasks := w.tasks[task := Inside(w.tasks[task].key, w.tasks[task].lock)])
      case Leave(task) => w.(tasks := w.tasks[task := Away])
      case Abandon(task) => w.(tasks := w.tasks[task := Away])
      case Collect(key) => Forget(w, key)
  }

  function Run(w: World, events: seq<Event>): (last: World)
    ensures |last.tasks| == |w.tasks|
    decreases |events|
  {
    if events == [] then w else Run(Next(w, events[0]), events[1..])
  }

  function Start(n: nat): World {
    World(Registry(map[], 0), seq(n, i => Away))
  }

  ghost predicate RegistryInv(r: Registry) {
    && (forall key :: key in r.locks ==> r.locks[key] < r.created)
    && (forall key, other :: key in r.locks && other in r.locks && r.locks[key] == r.locks[other] ==> key == other)
  }

  /** Every lock in use is the registered lock of its key, and no lock has two tasks inside. */
  ghost predicate Inv(w: World) {
    && RegistryInv(w.registry)
    && (forall i :: 0 <= i < |w.tasks| && !w.tasks[i].Away? ==>
          w.tasks[i].key in w.registry.locks && w.registry.locks[w.tasks[i].key] == w.tasks[i].lock)
    && (forall i, j :: 0 <= i < j < |w.tasks| && w.tasks[i].Inside? && w.tasks[j].Inside? ==>
          w.tasks[i].lock != w.tasks[j].lock)
  }

  lemma GetOrCreateKeepsInv(r: Registry, key: string)
    requires RegistryInv(r)
    ensures var (next, lock) := GetOrCreate(r, key);
            && RegistryInv(next) && key in next.locks && next.locks[key] == lock
            && (forall other :: other in r.locks ==> other in next.locks && next.locks[other] == r.locks[other])
  {
  }

  lemma NextKeepsInv(w: World, e: Event)
    requires Inv(w)
    ensures Inv(Next(w, e))
  {
    match e
    case Lookup(task, key) => GetOrCreateKeepsInv(w.registry, key);
    case _ =>
  }

  lemma {:induction false} RunKeepsInv(w: World, events: seq<Event>)
    requires Inv(w)
    ensures Inv(Run(w, events))
    decreases |events|
  {
    if events != [] {
      NextKeepsInv(w, events[0]);
      RunKeepsInv(Next(w, events[0]), events[1..]);
    }
  }

  /** Whatever is looked up, awaited, left and collected: one lock per key, and one turn per conversation. */
  lemma TurnsAreExclusive(n: nat, events: seq<Event>, i: nat, j: nat)
    requires var w := Run(Start(n), events);
             i < |w.tasks| && j < |w.tasks| && i != j && !w.tasks[i].Away? && !w.tasks[j].Away?
    ensures var w := Run(Start(n), events);
            && (w.tasks[i].key == w.tasks[j].key <==> w.tasks[i].lock == w.tasks[j].lock)
            && (w.tasks[i].Inside? && w.tasks[j].Inside? ==> w.tasks[i].key != w.tasks[j].key)
  {
    RunKeepsInv(Start(n), events);
  }

  /** A waiting task is let in exactly when no turn of its own conversation is inside: others never block it. */
  lemma OnlyOwnConversationBlocks(n: nat, events: seq<Event>, i: nat)
    requires var w := Run(Start(n), events); i < |w.tasks| && w.tasks[i].Waiting?
    ensures var w := Run(Start(n), events);
            Enabled(w, Enter(i))
            <==> forall j :: 0 <= j < |w.tasks| && w.tasks[j].Inside? ==> w.tasks[j].key != w.tasks[i].key
  {
    RunKeepsInv(Start(n), events);
  }

  /** Why only unreferenced locks may go: dropping one in use lets a second turn of the conversation in. */
  lemma DroppingAUsedLockBreaksExclusion(w: World, i: nat, j: nat, key: string)
    requires Inv(w) && i < |w.tasks| && j < |w.tasks| && i != j
    requires w.tasks[i].Inside? && w.tasks[i].key == key && w.tasks[j].Away?
    ensures var broken := Run(Forget(w, key), [Lookup(j, key), Enter(j)]);
            broken.tasks[i].Inside? && broken.tasks[j].Inside? && broken.tasks[i].key == broken.tasks[j].key
  {
    var events := [Lookup(j, key), Enter(j)];
    var dropped := Forget(w, key);
    var waiting := Next(dropped, events[0]);
    assert waiting.tasks[j] == Waiting(key, w.registry.created);
    assert Enabled(waiting, events[1]);
    assert events[1..][0] == events[1] && events[1..][1..] == [];
    assert Run(dropped, events) == Run(waiting, events[1..]) == Next(waiting, events[1]);
  }
}

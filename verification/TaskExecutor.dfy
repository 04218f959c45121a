/**
 The asynchronous task executor: a semaphore bounds what runs, failed tasks go back to pending until their
 retries are used up (dataworks_agent/async_utils/executor.py). Each method below is one step between two
 awaits, so every interleaving of coroutines is a sequence of calls.
 */
module TaskExecutor {
  datatype TaskState = Pending | Running | Completed | Failed | Cancelled

  datatype Task = Task(id: string, state: TaskState, retries: nat, maxRetries: int)

  /** How the awaited function ends: a value, an Exception, or another BaseException. */
  datatype Outcome = Returns | Raises | Interrupts

  /** What the end of an execution makes of the task; the state it finds does not matter unless interrupted. */
  function Settled(t: Task, outcome: Outcome): Task {
    match outcome
    case Returns => t.(state := Completed)
    case Raises => t.(retries := t.retries + 1, state := if t.retries + 1 < t.maxRetries then Pending else Failed)
    case Interrupts => t
  }

  function Cancel(t: Task): Task {
    if t.state == Running then t.(state := Cancelled) else t
  }

  /** Cancelling a running task lasts exactly when its function is interrupted rather than allowed to end. */
  lemma CancelLastsIffInterrupted(t: Task, outcome: Outcome)
    requires t.state == Running
    ensures Settled(Cancel(t), outcome).state == Cancelled <==> outcome == Interrupts
    ensures outcome != Interrupts ==> Settled(Cancel(t), outcome) == Settled(t, outcome)
  {
  }

  class AsyncTask {
    const id: string
    const maxRetries: int
    var state: TaskState
    var retries: nat
    /** How many tasks had been submitted before. */
    ghost const number: nat

    constructor (id: string, maxRetries: int, ghost number: nat)
      ensures Value() == Task(id, Pending, 0, maxRetries) && this.number == number
    {
      this.id, this.maxRetries, this.state, this.retries := id, maxRetries, Pending, 0;
      this.number := number;
    }

    function Value(): Task
      reads this
    {
      Task(id, state, retries, maxRetries)
    }
  }

  /** All tasks are listed by number, and the dictionary holds one of them per registered id. */
  ghost predicate Registers(tasks: seq<AsyncTask>, all: seq<AsyncTask>, registered: map<string, nat>) {
    && (forall n :: 0 <= n < |all| ==> all[n].number == n)
    && (forall k :: 0 <= k < |tasks| ==> tasks[k].number < |all| && all[tasks[k].number] == tasks[k])
    && (forall k :: 0 <= k < |tasks| ==> tasks[k].id in registered && registered[tasks[k].id] == tasks[k].number)
    && (forall id :: id in registered ==> exists k :: 0 <= k < |tasks| && tasks[k].id == id)
    && (forall i, j :: 0 <= i < j < |tasks| ==> tasks[i].id != tasks[j].id)
  }

  /** The dictionary after a task has taken the place of the one with its id, or the place after the last. */
  function Placed(tasks: seq<AsyncTask>, i: nat, task: AsyncTask): seq<AsyncTask>
    requires i <= |tasks|
  {
    if i < |tasks| then tasks[i := task] else tasks + [task]
  }

  /** The index of the task with the id, or one past the last. */
  ghost predicate IsIndexOf(tasks: seq<AsyncTask>, i: nat, id: string) {
    && i <= |tasks| && (i < |tasks| ==> tasks[i].id == id)
    && forall k :: 0 <= k < |tasks| && k != i ==> tasks[k].id != id
  }

  lemma Replaced(tasks: seq<AsyncTask>, i: nat, task: AsyncTask)
    requires IsIndexOf(tasks, i, task.id)
    ensures var placed := Placed(tasks, i, task);
            && task in placed
            && (forall t :: t in placed && t != task ==> t in tasks && t.id != task.id)
            && (forall t :: t in tasks && t.id != task.id ==> t in placed)
  {
    var placed := Placed(tasks, i, task);
    assert placed[i] == task;
    forall t | t in tasks && t.id != task.id ensures t in placed {
      var k :| 0 <= k < |tasks| && tasks[k] == t;
      assert placed[k] == t;
    }
  }

  lemma RegistersReplaced(tasks: seq<AsyncTask>, all: seq<AsyncTask>, registered: map<string, nat>, i: nat,
                          task: AsyncTask)
    requires Registers(tasks, all, registered) && IsIndexOf(tasks, i, task.id) && task.number == |all|
    ensures Registers(Placed(tasks, i, task), all + [task], registered[task.id := |all|])
  {
    var placed := Placed(tasks, i, task);
    var updated := registered[task.id := |all|];
    forall id | id in updated ensures exists k :: 0 <= k < |placed| && placed[k].id == id {
      if id == task.id {
        assert placed[i].id == id;
      } else {
        var k :| 0 <= k < |tasks| && tasks[k].id == id;
        assert placed[k].id == id;
      }
    }
  }

  class AsyncTaskExecutor {
    const maxConcurrent: nat
    var permits: nat
    /** The task dictionary in insertion order. */
    var tasks: seq<AsyncTask>
    var running: set<string>
    /** Every task ever submitted, by number. */
    ghost var all: seq<AsyncTask>
    /** The dictionary from ids to task numbers. */
    ghost var registered: map<string, nat>
    /** The executions between their two ends; one task may be executed more than once at a time. */
    ghost var inFlight: multiset<nat>

    /** The records of all tasks, by number. */
    ghost function Records(): (r: seq<Task>)
      reads this, all
      ensures |r| == |all|
      ensures forall n :: 0 <= n < |all| ==> r[n] == all[n].Value()
    {
      seq(|all|, n requires 0 <= n < |all| reads this, all => all[n].Value())
    }

    /** The state of the executor as the interleavings below see it. */
    ghost function Abs(): World
      reads this, all
    {
      World(permits, Records(), registered, running, inFlight)
    }

    ghost predicate Knows(task: AsyncTask)
      reads this
    {
      task.number < |all| && all[task.number] == task
    }

    ghost predicate Valid()
      reads this, all
    {
      && Conserved(Abs(), maxConcurrent)
      && Registers(tasks, all, registered)
    }

    lemma Revalidated(w: World)
      requires Conserved(w, maxConcurrent) && Abs() == w && Registers(tasks, all, registered)
      ensures Valid()
    {
    }

    /** The records of the dictionary, in order. */
    ghost function Contents(): (r: seq<Task>)
      reads this, tasks
      ensures |r| == |tasks|
      ensures forall i :: 0 <= i < |tasks| ==> r[i] == tasks[i].Value()
    {
      seq(|tasks|, i requires 0 <= i < |tasks| reads this, tasks => tasks[i].Value())
    }

    constructor (maxConcurrent: nat)
      ensures Valid() && Abs() == Start(maxConcurrent) && tasks == []
      ensures this.maxConcurrent == maxConcurrent
    {
      this.maxConcurrent, permits, tasks, running := maxConcurrent, maxConcurrent, [], {};
      all, registered, inFlight := [], map[], multiset{};
    }

    /** A task submitted under a known id takes the place of the old one; an old execution keeps the old task. */
    method Submit(id: string, maxRetries: int) returns (task: AsyncTask)
      requires Valid()
      modifies this`tasks, this`all, this`registered
      ensures Valid() && fresh(task) && task.Value() == Task(id, Pending, 0, maxRetries)
      ensures all == old(all) + [task] && Abs() == Next(old(Abs()), Submitted(id, maxRetries))
      ensures task in tasks
      ensures forall t :: t in tasks && t != task ==> t in old(tasks) && t.id != id
      ensures forall t :: t in old(tasks) && t.id != id ==> t in tasks
    {
      task := new AsyncTask(id, maxRetries, |all|);
      ghost var before := tasks;
      ghost var i := Register(task);
      Replaced(before, i, task);
    }

    method Register(task: AsyncTask) returns (ghost i: nat)
      requires Valid() && task.number == |all| && task.Value() == Task(task.id, Pending, 0, task.maxRetries)
      modifies this`tasks, this`all, this`registered
      ensures Valid() && all == old(all) + [task]
      ensures Abs() == Next(old(Abs()), Submitted(task.id, task.maxRetries))
      ensures IsIndexOf(old(tasks), i, task.id) && tasks == Placed(old(tasks), i, task)
    {
      var place := Find(task.id);
      i := place;
      RegistersReplaced(tasks, all, registered, i, task);
      ghost var next := Next(Abs(), Submitted(task.id, task.maxRetries));
      NextConserves(Abs(), Submitted(task.id, task.maxRetries), maxConcurrent);
      tasks := Placed(tasks, place, task);
      all, registered := all + [task], registered[task.id := |all|];
      assert Records() == old(Records()) + [task.Value()];
      Revalidated(next);
    }

    /** The index of the task registered under the id, or one past the last. */
    method Find(id: string) returns (i: nat)
      requires forall i, j :: 0 <= i < j < |tasks| ==> tasks[i].id != tasks[j].id
      ensures IsIndexOf(tasks, i, id)
    {
      i := 0;
      while i < |tasks| && tasks[i].id != id
        invariant i <= |tasks| && forall k :: 0 <= k < i ==> tasks[k].id != id
      {
        i := i + 1;
      }
    }

    /** execute, up to the await: needs a free permit. */
    method Begin(task: AsyncTask)
      requires Valid() && Knows(task) && permits > 0
      modifies this`permits, this`running, this`inFlight, task
      ensures Valid() && Abs() == Next(old(Abs()), Began(task.number))
      ensures permits == old(permits) - 1 && inFlight == old(inFlight) + multiset{task.number}
      ensures running == old(running) + {task.id}
      ensures task.Value() == old(task.Value()).(state := Running)
    {
      ghost var next := Next(Abs(), Began(task.number));
      NextConserves(Abs(), Began(task.number), maxConcurrent);
      permits := permits - 1;
      task.state := Running;
      running := running + {task.id};
      inFlight := inFlight + multiset{task.number};
      assert Records() == old(Records())[task.number := task.Value()];
      Revalidated(next);
    }

    /** execute, from the await on: the permit is returned whatever happened. */
    method End(task: AsyncTask, outcome: Outcome)
      requires Valid() && Knows(task) && task.number in inFlight
      modifies this`permits, this`running, this`inFlight, task
      ensures Valid() && Abs() == Next(old(Abs()), Ended(task.number, outcome))
      ensures permits == old(permits) + 1 && inFlight == old(inFlight) - multiset{task.number}
      ensures running == old(running) - {task.id}
      ensures task.Value() == Settled(old(task.Value()), outcome)
    {
      ghost var next := Next(Abs(), Ended(task.number, outcome));
      NextConserves(Abs(), Ended(task.number, outcome), maxConcurrent);
      Settle(task, outcome);
      running := running - {task.id};
      permits := permits + 1;
      inFlight := inFlight - multiset{task.number};
      assert Records() == old(Records())[task.number := task.Value()];
      Revalidated(next);
    }

    method Settle(task: AsyncTask, outcome: Outcome)
      modifies task
      ensures task.Value() == Settled(old(task.Value()), outcome)
    {
      match outcome {
        case Returns =>
          task.state := Completed;
        case Raises =>
          task.retries := task.retries + 1;
          task.state := if task.retries < task.maxRetries then Pending else Failed;
        case Interrupts =>
      }
    }

    method Execute(task: AsyncTask, outcome: Outcome)
      requires Valid() && Knows(task) && permits > 0
      modifies this`permits, this`running, this`inFlight, task
      ensures Valid() && Abs() == Run(old(Abs()), [Began(task.number), Ended(task.number, outcome)])
      ensures permits == old(permits) && inFlight == old(inFlight)
      ensures running == old(running) - {task.id}
      ensures task.Value() == Settled(old(task.Value()).(state := Running), outcome)
    {
      RunTwo(Abs(), Began(task.number), Ended(task.number, outcome));
      Begin(task);
      End(task, outcome);
      assert old(inFlight) + multiset{task.number} - multiset{task.number} == old(inFlight);
    }

    method PendingTasks() returns (pending: seq<nat>)
      ensures forall a :: 0 <= a < |pending| ==> pending[a] < |tasks|
      ensures forall i: nat :: i < |tasks| ==> (i in pending <==> tasks[i].state == Pending)
      ensures forall a, b :: 0 <= a < b < |pending| ==> pending[a] != pending[b]
    {
      pending := [];
      for i := 0 to |tasks|
        invariant forall a :: 0 <= a < |pending| ==> pending[a] < i
        invariant forall k: nat :: k < i ==> (k in pending <==> tasks[k].state == Pending)
        invariant forall a, b :: 0 <= a < b < |pending| ==> pending[a] != pending[b]
      {
        if tasks[i].state == Pending {
          pending := pending + [i];
        }
      }
    }

    /** One execution of a round; whatever it raises is swallowed. */
    method ExecuteAt(i: nat, succeeds: bool) returns (ghost events: seq<Event>)
      requires Valid() && permits > 0 && i < |tasks| && tasks[i].state == Pending
      modifies this`permits, this`running, this`inFlight, tasks[i]
      ensures Valid() && Abs() == Run(old(Abs()), events)
      ensures permits == old(permits) && inFlight == old(inFlight)
      ensures Contents() == old(Contents())[i := RoundOf(old(Contents())[i], succeeds)]
    {
      var outcome := if succeeds then Returns else Raises;
      ghost var before := Contents();
      events := [Began(tasks[i].number), Ended(tasks[i].number, outcome)];
      assert forall k :: 0 <= k < |tasks| && k != i ==> tasks[k] != tasks[i];
      Execute(tasks[i], outcome);
      assert tasks[i].Value() == RoundOf(before[i], succeeds);
    }

    /** Collect the pending tasks, then execute them one after the other. */
    method ExecuteAll(succeeds: nat -> bool) returns (ghost events: seq<Event>)
      requires Valid() && (permits > 0 || forall t :: t in tasks ==> t.state != Pending)
      modifies this`permits, this`running, this`inFlight, tasks
      ensures Valid() && Abs() == Run(old(Abs()), events)
      ensures permits == old(permits) && inFlight == old(inFlight)
      ensures Contents() == Round(old(Contents()), succeeds)
    {
      ghost var before := Contents();
      var pending := PendingTasks();
      events := [];
      for k := 0 to |pending|
        invariant Valid() && permits == old(permits) && inFlight == old(inFlight)
        invariant Abs() == Run(old(Abs()), events)
        invariant InProgress(before, Contents(), pending[..k], succeeds)
      {
        InProgressNext(before, Contents(), pending, k, succeeds);
        assert tasks[pending[k]] in tasks && Contents()[pending[k]] == before[pending[k]];
        ghost var more := ExecuteAt(pending[k], succeeds(pending[k]));
        RunAppend(old(Abs()), events, more);
        events := events + more;
      }
      assert pending[..|pending|] == pending;
    }

    method CancelTask(id: string) returns (cancelled: bool)
      requires Valid()
      modifies tasks
      ensures Valid() && Abs() == Next(old(Abs()), CancelAsked(id))
      ensures forall i :: 0 <= i < |tasks| ==>
                tasks[i].Value() == if tasks[i].id == id then Cancel(old(tasks[i].Value())) else old(tasks[i].Value())
      ensures cancelled <==> exists i :: 0 <= i < |tasks| && tasks[i].id == id && old(tasks[i].state) == Running
    {
      ghost var next := Next(Abs(), CancelAsked(id));
      NextConserves(Abs(), CancelAsked(id), maxConcurrent);
      var i := Find(id);
      if i < |tasks| && tasks[i].state == Running {
        tasks[i].state := Cancelled;
        cancelled := true;
      } else {
        cancelled := false;
      }
      assert Abs() == next;
      Revalidated(next);
    }

    /** Forgets the tasks, not the executions: they still hold their permits. */
    method Clear()
      requires Valid()
      modifies this`tasks, this`running, this`registered
      ensures Valid() && tasks == [] && Abs() == Next(old(Abs()), Cleared)
    {
      ghost var next := Next(Abs(), Cleared);
      NextConserves(Abs(), Cleared, maxConcurrent);
      tasks, running, registered := [], {}, map[];
      assert Abs() == next;
      Revalidated(next);
    }

    /** Never more running ids than executions, and never more executions than permits. */
    lemma RunningIsBounded()
      requires Valid()
      ensures |running| <= |inFlight| == maxConcurrent - permits <= maxConcurrent
    {
      RunningBounded(Abs());
    }

    method Stats() returns (total: nat, counts: map<TaskState, nat>)
      ensures total == |tasks|
      ensures counts.Keys == {Pending, Running, Completed, Failed}
      ensures forall s :: s in counts.Keys ==> counts[s] == Count(Contents(), s)
    {
      total := |tasks|;
      var pending := CountTasks(Pending);
      var active := CountTasks(Running);
      var completed := CountTasks(Completed);
      var failed := CountTasks(Failed);
      counts := map[Pending := pending, Running := active, Completed := completed, Failed := failed];
    }

    method CountTasks(state: TaskState) returns (count: nat)
      ensures count == Count(Contents(), state)
    {
      count := 0;
      for i := 0 to |tasks|
        invariant count == Count(Contents()[..i], state)
      {
        assert Contents()[..i + 1][..i] == Contents()[..i];
        if tasks[i].state == state {
          count := count + 1;
        }
      }
      assert Contents()[..|tasks|] == Contents();
    }
  }

  lemma {:induction false} IdsBounded<X>(ids: set<string>, executions: multiset<X>, idOf: X -> string)
    requires forall id :: id in ids ==> exists x :: x in executions && idOf(x) == id
    ensures |ids| <= |executions|
    decreases |ids|
  {
    if ids != {} {
      var id :| id in ids;
      var x :| x in executions && idOf(x) == id;
      var rest := executions - multiset{x};
      forall other | other in ids - {id} ensures exists u :: u in rest && idOf(u) == other {
        var u :| u in executions && idOf(u) == other;
        assert u in rest;
      }
      IdsBounded(ids - {id}, rest, idOf);
      assert |executions| == |rest| + 1;
    }
  }

  function Count(ts: seq<Task>, state: TaskState): nat {
    if ts == [] then 0 else Count(ts[..|ts| - 1], state) + (if ts[|ts| - 1].state == state then 1 else 0)
  }

  /** Every task is in exactly one state; the published counts leave out the cancelled ones. */
  lemma {:induction false} CountsPartition(ts: seq<Task>)
    ensures Count(ts, Pending) + Count(ts, Running) + Count(ts, Completed) + Count(ts, Failed) + Count(ts, Cancelled)
         == |ts|
  {
    if ts != [] {
      CountsPartition(ts[..|ts| - 1]);
    }
  }

  // ----- every interleaving -----

  /**
   All tasks ever submitted, numbered; the dictionary from ids to registered tasks; and the executions between
   their two ends, by task number.
   */
  datatype World = World(permits: nat, tasks: seq<Task>, registered: map<string, nat>, running: set<string>,
                         inFlight: multiset<nat>)

  datatype Event =
    | Submitted(id: string, maxRetries: int)
    | Began(task: nat)
    | Ended(task: nat, outcome: Outcome)
    | CancelAsked(id: string)
    | Cleared

  /** An execution begins when a permit is free, and ends if it has begun. */
  predicate Enabled(w: World, e: Event) {
    match e
    case Began(task) => task < |w.tasks| && w.permits > 0
    case Ended(task, _) => task < |w.tasks| && task in w.inFlight
    case CancelAsked(id) => id in w.registered ==> w.registered[id] < |w.tasks|
    case _ => true
  }

  /** An event that is not enabled does not happen. */
  function Next(w: World, e: Event): World {
    if !Enabled(w, e) then w
    else
      match e
      case Submitted(id, maxRetries) =>
        w.(tasks := w.tasks + [Task(id, Pending, 0, maxRetries)], registered := w.registered[id := |w.tasks|])
      case Began(task) =>
        World(w.permits - 1, w.tasks[task := w.tasks[task].(state := Running)], w.registered,
              w.running + {w.tasks[task].id}, w.inFlight + multiset{task})
      case Ended(task, outcome) =>
        World(w.permits + 1, w.tasks[task := Settled(w.tasks[task], outcome)], w.registered,
              w.running - {w.tasks[task].id}, w.inFlight - multiset{task})
      case CancelAsked(id) =>
        if id !in w.registered then w
        else w.(tasks := w.tasks[w.registered[id] := Cancel(w.tasks[w.registered[id]])])
      case Cleared => w.(registered := map[], running := {})
  }

  function Run(w: World, events: seq<Event>): World
    decreases |events|
  {
    if events == [] then w else Run(Next(w, events[0]), events[1..])
  }

  lemma {:induction false} RunAppend(w: World, events: seq<Event>, more: seq<Event>)
    ensures Run(w, events + more) == Run(Run(w, events), more)
    decreases |events|
  {
    if events == [] {
      assert events + more == more;
    } else {
      assert (events + more)[1..] == events[1..] + more;
      RunAppend(Next(w, events[0]), events[1..], more);
    }
  }

  lemma RunTwo(w: World, first: Event, second: Event)
    ensures Run(w, [first, second]) == Next(Next(w, first), second)
  {
    assert [first, second][1..] == [second] && [second][1..] == [];
    assert Run(Next(w, first), [second]) == Run(Next(Next(w, first), second), []);
  }

  function Start(maxConcurrent: nat): World {
    World(maxConcurrent, [], map[], {}, multiset{})
  }

  ghost predicate KnownTasks(w: World) {
    && (forall t :: t in w.inFlight ==> t < |w.tasks|)
    && (forall id :: id in w.registered ==> w.registered[id] < |w.tasks|)
  }

  ghost predicate Executing(w: World, id: string) {
    exists t :: t in w.inFlight && t < |w.tasks| && w.tasks[t].id == id
  }

  /** Permits are conserved, executions are of known tasks, and a running id has an execution. */
  ghost predicate Conserved(w: World, maxConcurrent: nat) {
    && w.permits + |w.inFlight| == maxConcurrent
    && KnownTasks(w)
    && (forall id :: id in w.running ==> Executing(w, id))
  }

  /** A task in state running is being executed. */
  ghost predicate RunningIsInFlight(w: World) {
    forall t :: 0 <= t < |w.tasks| && w.tasks[t].state == Running ==> t in w.inFlight
  }

  lemma NextKnowsTasks(w: World, e: Event)
    requires KnownTasks(w)
    ensures KnownTasks(Next(w, e)) && |w.tasks| <= |Next(w, e).tasks|
    ensures forall t :: 0 <= t < |w.tasks| ==> Next(w, e).tasks[t].id == w.tasks[t].id
  {
  }

  /** Only the end of an execution of the id itself can leave it without one, and that drops the id. */
  lemma StaysExecuting(w: World, e: Event, id: string)
    requires KnownTasks(w) && Executing(w, id) && id in Next(w, e).running
    ensures Executing(Next(w, e), id)
  {
    var t :| t in w.inFlight && t < |w.tasks| && w.tasks[t].id == id;
    NextKnowsTasks(w, e);
    var next := Next(w, e);
    assert t in next.inFlight && next.tasks[t].id == id;
  }

  lemma NextKeepsExecuting(w: World, e: Event)
    requires KnownTasks(w) && forall id :: id in w.running ==> Executing(w, id)
    ensures forall id :: id in Next(w, e).running ==> Executing(Next(w, e), id)
  {
    var next := Next(w, e);
    forall id | id in next.running ensures Executing(next, id) {
      if id in w.running {
        StaysExecuting(w, e, id);
      } else {
        assert e.task in next.inFlight && next.tasks[e.task].id == id;
      }
    }
  }

  lemma NextConserves(w: World, e: Event, maxConcurrent: nat)
    requires Conserved(w, maxConcurrent)
    ensures Conserved(Next(w, e), maxConcurrent)
  {
    NextKnowsTasks(w, e);
    NextKeepsExecuting(w, e);
  }

  lemma NextKeepsRunningInFlight(w: World, e: Event)
    requires KnownTasks(w) && RunningIsInFlight(w) && !Interruption(e)
    ensures RunningIsInFlight(Next(w, e))
  {
    var next := Next(w, e);
    forall t | 0 <= t < |next.tasks| && next.tasks[t].state == Running ensures t in next.inFlight {
      if t < |w.tasks| && w.tasks[t].state != Running {
        assert e.Began?;
      }
    }
  }

  predicate Interruption(e: Event) {
    e.Ended? && e.outcome == Interrupts
  }

  lemma {:induction false} RunConserves(w: World, events: seq<Event>, maxConcurrent: nat)
    requires Conserved(w, maxConcurrent)
    ensures Conserved(Run(w, events), maxConcurrent)
    ensures RunningIsInFlight(w) && (forall i :: 0 <= i < |events| ==> !Interruption(events[i]))
            ==> RunningIsInFlight(Run(w, events))
    decreases |events|
  {
    if events != [] {
      NextConserves(w, events[0], maxConcurrent);
      if RunningIsInFlight(w) && !Interruption(events[0]) {
        NextKeepsRunningInFlight(w, events[0]);
      }
      RunConserves(Next(w, events[0]), events[1..], maxConcurrent);
    }
  }

  lemma RunningBounded(w: World)
    requires KnownTasks(w) && forall id :: id in w.running ==> Executing(w, id)
    ensures |w.running| <= |w.inFlight|
  {
    var idOf := (t: nat) => if t < |w.tasks| then w.tasks[t].id else "";
    forall id | id in w.running ensures exists t :: t in w.inFlight && idOf(t) == id {
      var t :| t in w.inFlight && t < |w.tasks| && w.tasks[t].id == id;
      assert idOf(t) == id;
    }
    IdsBounded(w.running, w.inFlight, idOf);
  }

  /**
   However submissions, executions, cancellations and clearings interleave: free permits and executions make up the
   limit, no more ids are running than that, and without interruptions every task in state running is executing.
   */
  lemma PermitsAreConserved(maxConcurrent: nat, events: seq<Event>)
    ensures var w := Run(Start(maxConcurrent), events);
            && w.permits + |w.inFlight| == maxConcurrent
            && |w.running| <= |w.inFlight|
            && ((forall i :: 0 <= i < |events| ==> !Interruption(events[i])) ==> RunningIsInFlight(w))
  {
    RunConserves(Start(maxConcurrent), events, maxConcurrent);
    RunningBounded(Run(Start(maxConcurrent), events));
  }

  /** Whether the id is marked as running after the event: a beginning marks it, an end and clearing do not. */
  predicate Marked(w: World, e: Event, id: string, before: bool) {
    match e
    case Began(task) => if Enabled(w, e) && w.tasks[task].id == id then true else before
    case Ended(task, _) => if Enabled(w, e) && w.tasks[task].id == id then false else before
    case Cleared => false
    case _ => before
  }

  predicate LastMarked(w: World, events: seq<Event>, id: string, before: bool)
    decreases |events|
  {
    if events == [] then before else LastMarked(Next(w, events[0]), events[1..], id, Marked(w, events[0], id, before))
  }

  /** Over every interleaving the running ids are those whose last beginning or end was a beginning, since clearing. */
  lemma {:induction false} RunningIsLastMarked(w: World, events: seq<Event>, id: string)
    ensures id in Run(w, events).running <==> LastMarked(w, events, id, id in w.running)
    decreases |events|
  {
    if events != [] {
      RunningIsLastMarked(Next(w, events[0]), events[1..], id);
    }
  }

  /** The event starts the task again, or asks to cancel it. */
  predicate Revives(w: World, task: nat, e: Event) {
    (e.Began? && e.task == task) || (e.CancelAsked? && e.id in w.registered && w.registered[e.id] == task)
  }

  /** Nothing of the kind happens in the run. */
  predicate NeverRevived(w: World, task: nat, events: seq<Event>)
    decreases |events|
  {
    events == [] || (!Revives(w, task, events[0]) && NeverRevived(Next(w, events[0]), task, events[1..]))
  }

  /** The condition is needed: an interrupted task stays running, not executing, until it is started or cancelled. */
  lemma {:induction false} InterruptedTaskStaysRunning(w: World, task: nat, events: seq<Event>)
    requires task < |w.tasks| && w.tasks[task].state == Running && task !in w.inFlight
    requires NeverRevived(w, task, events)
    ensures var last := Run(w, events);
            task < |last.tasks| && last.tasks[task].state == Running && task !in last.inFlight
    decreases |events|
  {
    if events != [] {
      InterruptedTaskStaysRunning(Next(w, events[0]), task, events[1..]);
    }
  }

  lemma InterruptionLeavesRunning(w: World, task: nat)
    requires task < |w.tasks| && w.tasks[task].state == Running && w.inFlight[task] == 1
    ensures var next := Next(w, Ended(task, Interrupts));
            next.tasks[task].state == Running && task !in next.inFlight
  {
  }

  // ----- repeated rounds of execute_all -----

  function RoundOf(t: Task, succeeds: bool): Task {
    if t.state == Pending then Settled(t, if succeeds then Returns else Raises) else t
  }

  function Round(ts: seq<Task>, succeeds: nat -> bool): (r: seq<Task>)
    ensures |r| == |ts| && forall i :: 0 <= i < |ts| ==> r[i] == RoundOf(ts[i], succeeds(i))
  {
    seq(|ts|, i requires 0 <= i < |ts| => RoundOf(ts[i], succeeds(i)))
  }

  /** A round of which the listed tasks have been executed. */
  predicate InProgress(before: seq<Task>, now: seq<Task>, done: seq<nat>, succeeds: nat -> bool) {
    && |now| == |before|
    && forall i :: 0 <= i < |now| ==> now[i] == if i in done then RoundOf(before[i], succeeds(i)) else before[i]
  }

  lemma InProgressNext(before: seq<Task>, now: seq<Task>, pending: seq<nat>, k: nat, succeeds: nat -> bool)
    requires k < |pending| && pending[k] < |before| && InProgress(before, now, pending[..k], succeeds)
    requires forall a, b :: 0 <= a < b < |pending| ==> pending[a] != pending[b]
    ensures var i := pending[k];
            && now[i] == before[i]
            && InProgress(before, now[i := RoundOf(now[i], succeeds(i))], pending[..k + 1], succeeds)
  {
    assert pending[..k + 1] == pending[..k] + [pending[k]];
    assert pending[k] !in pending[..k];
  }

  /** outcomes[k](i) says whether task i succeeds in round k. */
  function Rounds(ts: seq<Task>, outcomes: seq<nat -> bool>): (r: seq<Task>)
    ensures |r| == |ts|
    decreases |outcomes|
  {
    if outcomes == [] then ts else Rounds(Round(ts, outcomes[0]), outcomes[1..])
  }

  /** The executions a pending task has left if it keeps failing. */
  function Budget(t: Task): nat {
    if t.state != Pending then 0
    else if t.maxRetries - t.retries > 1 then t.maxRetries - t.retries else 1
  }

  /** A task is pending after k rounds only if its budget exceeds k. */
  lemma {:induction false} RoundsUseTheBudget(ts: seq<Task>, outcomes: seq<nat -> bool>, i: nat)
    requires i < |ts|
    ensures Budget(Rounds(ts, outcomes)[i]) <= if Budget(ts[i]) > |outcomes| then Budget(ts[i]) - |outcomes| else 0
    decreases |outcomes|
  {
    if outcomes != [] {
      RoundsUseTheBudget(Round(ts, outcomes[0]), outcomes[1..], i);
    }
  }

  /** As many rounds as the largest budget leave nothing pending. */
  lemma NothingPendingAfterEnoughRounds(ts: seq<Task>, outcomes: seq<nat -> bool>)
    requires forall i :: 0 <= i < |ts| ==> Budget(ts[i]) <= |outcomes|
    ensures forall i :: 0 <= i < |ts| ==> Rounds(ts, outcomes)[i].state != Pending
  {
    forall i | 0 <= i < |ts| ensures Rounds(ts, outcomes)[i].state != Pending {
      RoundsUseTheBudget(ts, outcomes, i);
    }
  }

  /** The bound is exact: a task that always fails stays pending until its budget is used up. */
  lemma {:induction false} FailingTaskUsesItsWholeBudget(ts: seq<Task>, outcomes: seq<nat -> bool>, i: nat)
    requires i < |ts| && ts[i].state == Pending
    requires forall k :: 0 <= k < |outcomes| ==> !outcomes[k](i)
    ensures Rounds(ts, outcomes)[i].state == Pending <==> |outcomes| < Budget(ts[i])
    decreases |outcomes|
  {
    if outcomes != [] {
      var next := Round(ts, outcomes[0]);
      if next[i].state == Pending {
        FailingTaskUsesItsWholeBudget(next, outcomes[1..], i);
      } else {
        RoundsUseTheBudget(next, outcomes[1..], i);
      }
    }
  }
}

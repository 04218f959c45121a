/** How tasks end over repeated rounds of execute_all (dataworks_agent/async_utils/executor.py). */
module TaskOutcomes {
  import opened TaskExecutor

  /** The rounds in which a task pending at the start may be attempted. */
  function Attempts(t: Task, rounds: nat): nat {
    if rounds < Budget(t) then rounds else Budget(t)
  }

  /** The first k attempts of task i raise. */
  predicate RaisesFirst(outcomes: seq<nat -> bool>, i: nat, k: nat)
    requires k <= |outcomes|
  {
    forall j :: 0 <= j < k ==> !outcomes[j](i)
  }

  /** One of the attempts of task i within its budget succeeds. */
  predicate Succeeds(t: Task, outcomes: seq<nat -> bool>, i: nat) {
    exists k :: 0 <= k < Attempts(t, |outcomes|) && outcomes[k](i)
  }

  lemma {:induction false} SettledStays(ts: seq<Task>, outcomes: seq<nat -> bool>, i: nat)
    requires i < |ts| && ts[i].state != Pending
    ensures Rounds(ts, outcomes)[i] == ts[i]
    decreases |outcomes|
  {
    if outcomes != [] {
      SettledStays(Round(ts, outcomes[0]), outcomes[1..], i);
    }
  }

  /** After k raising attempts, of which the budget allows more, the task is pending with k more retries. */
  lemma {:induction false} AfterRaising(ts: seq<Task>, outcomes: seq<nat -> bool>, i: nat, k: nat)
    requires i < |ts| && ts[i].state == Pending
    requires k <= Attempts(ts[i], |outcomes|) && RaisesFirst(outcomes, i, k)
    requires k == Attempts(ts[i], |outcomes|) || outcomes[k](i)
    ensures Rounds(ts, outcomes)[i]
         == ts[i].(retries := ts[i].retries + k,
                   state := if k < Attempts(ts[i], |outcomes|) then Completed
                            else if k < Budget(ts[i]) then Pending else Failed)
    decreases |outcomes|
  {
    if outcomes != [] {
      var next := Round(ts, outcomes[0]);
      if k == 0 || next[i].state != Pending {
        SettledStays(next, outcomes[1..], i);
      } else {
        assert Budget(next[i]) == Budget(ts[i]) - 1;
        assert forall j :: 0 <= j < k - 1 ==> outcomes[1..][j] == outcomes[j + 1];
        assert RaisesFirst(outcomes[1..], i, k - 1);
        AfterRaising(next, outcomes[1..], i, k - 1);
      }
    }
  }

  /** The number of attempts before the first that succeeds, or all of them. */
  lemma {:induction false} RaisingAttempts(outcomes: seq<nat -> bool>, i: nat, bound: nat) returns (k: nat)
    requires bound <= |outcomes|
    ensures k <= bound && RaisesFirst(outcomes, i, k) && (k == bound || outcomes[k](i))
  {
    if bound == 0 {
      k := 0;
    } else {
      k := RaisingAttempts(outcomes, i, bound - 1);
      if k == bound - 1 && !outcomes[k](i) {
        k := bound;
      }
    }
  }

  /**
   A task pending at the start is completed exactly when one of the attempts within its budget succeeds, and failed
   exactly when the budget is used up and every attempt raised; its retries count the attempts that raised.
   */
  lemma HowTasksEnd(ts: seq<Task>, outcomes: seq<nat -> bool>, i: nat) returns (raised: nat)
    requires i < |ts| && ts[i].state == Pending
    ensures var t := Rounds(ts, outcomes)[i];
            && (t.state == Completed <==> Succeeds(ts[i], outcomes, i))
            && (t.state == Failed <==> Budget(ts[i]) <= |outcomes| && RaisesFirst(outcomes, i, Budget(ts[i])))
            && (t.state == Pending <==> |outcomes| < Budget(ts[i]) && RaisesFirst(outcomes, i, |outcomes|))
            && t.id == ts[i].id && t.retries == ts[i].retries + raised
    ensures raised <= Attempts(ts[i], |outcomes|) && RaisesFirst(outcomes, i, raised)
    ensures raised < Attempts(ts[i], |outcomes|) ==> outcomes[raised](i)
  {
    raised := RaisingAttempts(outcomes, i, Attempts(ts[i], |outcomes|));
    AfterRaising(ts, outcomes, i, raised);
  }

  /** A submitted task has as many attempts as its limit, and at least one. */
  lemma SubmittedTaskHasItsBudget(w: World, id: string, maxRetries: int)
    ensures var next := Next(w, Submitted(id, maxRetries));
            && |next.tasks| == |w.tasks| + 1 && id in next.registered && next.registered[id] == |w.tasks|
            && next.tasks[|w.tasks|].id == id && next.tasks[|w.tasks|].state == Pending
            && Budget(next.tasks[|w.tasks|]) == if maxRetries > 1 then maxRetries else 1
  {
  }

  // ----- the published numbers -----

  function InState(ts: seq<Task>, state: TaskState): (r: set<nat>) {
    set i: nat | i < |ts| && ts[i].state == state
  }

  lemma InStateSnoc(ts: seq<Task>, state: TaskState)
    requires ts != []
    ensures var n := |ts| - 1;
            InState(ts, state) == InState(ts[..n], state) + if ts[n].state == state then {n} else {}
    ensures |ts| - 1 !in InState(ts[..|ts| - 1], state)
  {
    var n := |ts| - 1;
    forall i: nat ensures i in InState(ts[..n], state) <==> i in InState(ts, state) && i != n {
      if i < n {
        assert ts[..n][i] == ts[i];
      }
    }
  }

  lemma {:induction false} CountIsCardinality(ts: seq<Task>, state: TaskState)
    ensures Count(ts, state) == |InState(ts, state)|
  {
    if ts != [] {
      InStateSnoc(ts, state);
      CountIsCardinality(ts[..|ts| - 1], state);
    }
  }

  /**
   When everything was pending and no budget is larger than the number of rounds, the completed and the failed number
   count the tasks of which an attempt in the budget succeeds and the others.
   */
  lemma StatsCountOutcomes(ts: seq<Task>, outcomes: seq<nat -> bool>)
    requires forall i :: 0 <= i < |ts| ==> ts[i].state == Pending && Budget(ts[i]) <= |outcomes|
    ensures var last := Rounds(ts, outcomes);
            && Count(last, Completed) == |set i: nat | i < |ts| && Succeeds(ts[i], outcomes, i)|
            && Count(last, Failed) == |set i: nat | i < |ts| && RaisesFirst(outcomes, i, Budget(ts[i]))|
            && Count(last, Completed) + Count(last, Failed) == |ts|
  {
    var last := Rounds(ts, outcomes);
    forall i: nat | i < |ts|
      ensures last[i].state == Completed <==> Succeeds(ts[i], outcomes, i)
      ensures last[i].state == Failed <==> RaisesFirst(outcomes, i, Budget(ts[i]))
      ensures last[i].state == Completed || last[i].state == Failed
    {
      var raised := HowTasksEnd(ts, outcomes, i);
    }
    CountIsCardinality(last, Completed);
    CountIsCardinality(last, Failed);
    assert InState(last, Completed) == set i: nat | i < |ts| && Succeeds(ts[i], outcomes, i);
    assert InState(last, Failed) == set i: nat | i < |ts| && RaisesFirst(outcomes, i, Budget(ts[i]));
    SettledCounts(last);
  }

  lemma {:induction false} SettledCounts(ts: seq<Task>)
    requires forall i :: 0 <= i < |ts| ==> ts[i].state == Completed || ts[i].state == Failed
    ensures Count(ts, Completed) + Count(ts, Failed) == |ts|
  {
    if ts != [] {
      SettledCounts(ts[..|ts| - 1]);
    }
  }
}

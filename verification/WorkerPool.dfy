/**
 The worker pool of the translation script (script/translate-app.ts, runPool): workers share one iterator
 over the items and record each result under its index.
 */
module WorkerPool {
  import opened Values

  /** A task either resolves or rejects. */
  datatype Outcome<+R> = Resolved(result: R) | Rejected

  datatype Worker = Ready | Busy(index: nat) | Done | Failed

  datatype Recorded<+R> = Recorded(index: nat, result: R)

  /** The iterator position, the workers, and the results map in insertion order. */
  datatype Pool<R> = Pool(next: nat, workers: seq<Worker>, results: seq<Recorded<R>>)

  function Min(a: int, b: int): int {
    if a < b then a else b
  }

  /** Array.from({ length }) makes no worker for a length below one. */
  function WorkerCount(concurrency: int, n: nat): nat {
    if Min(concurrency, n) < 0 then 0 else Min(concurrency, n)
  }

  function Start<R>(concurrency: int, n: nat): Pool<R> {
    Pool(0, seq(WorkerCount(concurrency, n), i => Ready), [])
  }

  predicate Unfinished(w: Worker) {
    w.Ready? || w.Busy?
  }

  /** One move of worker w: take the next item, or stop, or settle the task it awaits. */
  function Move<T, R>(p: Pool<R>, items: seq<T>, task: T -> Outcome<R>, w: nat): Pool<R>
    requires w < |p.workers| && Unfinished(p.workers[w])
    requires p.workers[w].Busy? ==> p.workers[w].index < |items|
  {
    match p.workers[w]
    case Ready =>
      if p.next < |items| then p.(next := p.next + 1, workers := p.workers[w := Busy(p.next)])
      else p.(workers := p.workers[w := Done])
    case Busy(index) =>
      (match task(items[index])
       case Resolved(r) => p.(workers := p.workers[w := Ready], results := p.results + [Recorded(index, r)])
       case Rejected => p.(workers := p.workers[w := Failed]))
  }

  /** How often an index is in progress, recorded, or lost to a failed worker. */
  function BusyOn(workers: seq<Worker>, index: nat): nat {
    if workers == [] then 0 else (if workers[0] == Busy(index) then 1 else 0) + BusyOn(workers[1..], index)
  }

  function RecordedFor<R>(results: seq<Recorded<R>>, index: nat): nat {
    if results == [] then 0
    else RecordedFor(results[..|results| - 1], index) + (if results[|results| - 1].index == index then 1 else 0)
  }

  function InFlight(workers: seq<Worker>): nat {
    if workers == [] then 0 else (if workers[0].Busy? then 1 else 0) + InFlight(workers[1..])
  }

  function FailedCount(workers: seq<Worker>): nat {
    if workers == [] then 0 else (if workers[0].Failed? then 1 else 0) + FailedCount(workers[1..])
  }

  function Weight(w: Worker): nat {
    match w case Ready => 1 case Busy(_) => 2 case _ => 0
  }

  /** A measure that every move decreases. */
  function Load(workers: seq<Worker>): nat {
    if workers == [] then 0 else Weight(workers[0]) + Load(workers[1..])
  }

  function Remaining<R>(p: Pool<R>, n: nat): int {
    2 * (n - p.next) + Load(p.workers)
  }

  lemma {:induction false} Replace(workers: seq<Worker>, w: nat, now: Worker, index: nat)
    requires w < |workers|
    ensures BusyOn(workers[w := now], index)
         == BusyOn(workers, index) - (if workers[w] == Busy(index) then 1 else 0)
            + (if now == Busy(index) then 1 else 0)
    ensures InFlight(workers[w := now])
         == InFlight(workers) - (if workers[w].Busy? then 1 else 0) + (if now.Busy? then 1 else 0)
    ensures FailedCount(workers[w := now])
         == FailedCount(workers) - (if workers[w].Failed? then 1 else 0) + (if now.Failed? then 1 else 0)
    ensures Load(workers[w := now]) - Weight(now) == Load(workers) - Weight(workers[w])
  {
    if w == 0 {
      assert workers[0 := now][1..] == workers[1..];
    } else {
      assert workers[w := now][1..] == workers[1..][w - 1 := now];
      Replace(workers[1..], w - 1, now, index);
    }
  }

  lemma {:induction false} BusyIsCounted(workers: seq<Worker>, w: nat, index: nat)
    requires w < |workers| && workers[w] == Busy(index)
    ensures BusyOn(workers, index) >= 1 && InFlight(workers) >= 1
  {
    if w > 0 {
      BusyIsCounted(workers[1..], w - 1, index);
    }
  }

  /** The invariant of every schedule. */
  ghost predicate Inv<T, R>(p: Pool<R>, items: seq<T>, task: T -> Outcome<R>) {
    && p.next <= |items|
    && (forall w :: 0 <= w < |p.workers| && p.workers[w].Busy? ==> p.workers[w].index < p.next)
    && (forall k :: 0 <= k < |p.results| ==>
          p.results[k].index < p.next && task(items[p.results[k].index]) == Resolved(p.results[k].result))
    && (forall index :: 0 <= index < |items| ==> Dispatched(p, items, task, index))
    && (FailedCount(p.workers) == 0 ==> NoneLost(p))
    && (FailedCount(p.workers) > 0 ==> exists i :: 0 <= i < p.next && task(items[i]) == Rejected)
    && (forall w :: 0 <= w < |p.workers| && p.workers[w] == Done ==> p.next == |items|)
  }

  /** An index that was handed out is in exactly one place, unless its task rejected; others are nowhere. */
  ghost predicate Dispatched<T, R>(p: Pool<R>, items: seq<T>, task: T -> Outcome<R>, index: nat)
    requires index < |items|
  {
    && BusyOn(p.workers, index) + RecordedFor(p.results, index) <= 1
    && (index >= p.next ==> BusyOn(p.workers, index) + RecordedFor(p.results, index) == 0)
    && (task(items[index]).Resolved? && index < p.next ==>
          BusyOn(p.workers, index) + RecordedFor(p.results, index) == 1)
  }

  ghost predicate NoneLost<R>(p: Pool<R>) {
    forall index :: 0 <= index < p.next ==> BusyOn(p.workers, index) + RecordedFor(p.results, index) == 1
  }

  lemma {:induction false} StartIdle(k: nat, index: nat)
    ensures var workers := seq(k, i => Ready);
            BusyOn(workers, index) == 0 && InFlight(workers) == 0 && FailedCount(workers) == 0 && Load(workers) == k
  {
    if k > 0 {
      var workers: seq<Worker> := seq(k, i => Ready);
      var rest: seq<Worker> := seq(k - 1, i => Ready);
      assert workers[1..] == rest;
      StartIdle(k - 1, index);
    }
  }

  lemma StartInv<T, R>(concurrency: int, items: seq<T>, task: T -> Outcome<R>)
    ensures Inv(Start<R>(concurrency, |items|), items, task)
    ensures Remaining(Start<R>(concurrency, |items|), |items|) >= 0
  {
    var p := Start<R>(concurrency, |items|);
    StartIdle(|p.workers|, 0);
    forall index | 0 <= index < |items| ensures Dispatched(p, items, task, index) {
      StartIdle(|p.workers|, index);
    }
  }

  lemma {:induction false} InFlightBounded(workers: seq<Worker>)
    ensures InFlight(workers) <= |workers|
  {
    if workers != [] {
      InFlightBounded(workers[1..]);
    }
  }

  lemma {:induction false} FailedIsCounted(workers: seq<Worker>, w: nat)
    requires w < |workers| && workers[w].Failed?
    ensures FailedCount(workers) >= 1
  {
    if w > 0 {
      FailedIsCounted(workers[1..], w - 1);
    }
  }

  /** What one move does to the bookkeeping of every index. */
  lemma Changes<R>(p: Pool<R>, q: Pool<R>, w: nat, now: Worker)
    requires w < |p.workers| && q.workers == p.workers[w := now]
    requires q.results == p.results || (|q.results| == |p.results| + 1 && q.results[..|p.results|] == p.results)
    ensures forall index: nat ::
              BusyOn(q.workers, index) == BusyOn(p.workers, index) - (if p.workers[w] == Busy(index) then 1 else 0)
                                          + (if now == Busy(index) then 1 else 0)
    ensures forall index: nat ::
              RecordedFor(q.results, index) == RecordedFor(p.results, index)
                + (if q.results != p.results && q.results[|p.results|].index == index then 1 else 0)
    ensures FailedCount(q.workers) == FailedCount(p.workers) - (if p.workers[w].Failed? then 1 else 0)
                                      + (if now.Failed? then 1 else 0)
    ensures Load(q.workers) - Weight(now) == Load(p.workers) - Weight(p.workers[w])
  {
    forall index: nat
      ensures BusyOn(q.workers, index) == BusyOn(p.workers, index) - (if p.workers[w] == Busy(index) then 1 else 0)
                                          + (if now == Busy(index) then 1 else 0)
    {
      Replace(p.workers, w, now, index);
    }
    Replace(p.workers, w, now, 0);
  }

  lemma TakeKeepsInv<T, R>(p: Pool<R>, items: seq<T>, task: T -> Outcome<R>, w: nat)
    requires Inv(p, items, task) && w < |p.workers| && p.workers[w].Ready? && p.next < |items|
    ensures Inv(Move(p, items, task, w), items, task)
  {
    var q := Move(p, items, task, w);
    Changes(p, q, w, Busy(p.next));
    forall index | 0 <= index < |items| ensures Dispatched(q, items, task, index) {
      assert Dispatched(p, items, task, index);
    }
    if FailedCount(q.workers) == 0 {
      forall index: nat | index < q.next ensures BusyOn(q.workers, index) + RecordedFor(q.results, index) == 1 {
        assert Dispatched(p, items, task, index);
      }
    }
  }

  lemma StopKeepsInv<T, R>(p: Pool<R>, items: seq<T>, task: T -> Outcome<R>, w: nat)
    requires Inv(p, items, task) && w < |p.workers| && p.workers[w].Ready? && p.next >= |items|
    ensures Inv(Move(p, items, task, w), items, task)
  {
    var q := Move(p, items, task, w);
    Changes(p, q, w, Done);
    forall index | 0 <= index < |items| ensures Dispatched(q, items, task, index) {
      assert Dispatched(p, items, task, index);
    }
  }

  lemma SettleKeepsInv<T, R>(p: Pool<R>, items: seq<T>, task: T -> Outcome<R>, w: nat)
    requires Inv(p, items, task) && w < |p.workers| && p.workers[w].Busy?
    ensures Inv(Move(p, items, task, w), items, task)
  {
    var q := Move(p, items, task, w);
    var i := p.workers[w].index;
    BusyIsCounted(p.workers, w, i);
    if task(items[i]).Resolved? {
      assert q.results[..|p.results|] == p.results;
      Changes(p, q, w, Ready);
    } else {
      Changes(p, q, w, Failed);
    }
    forall index | 0 <= index < |items| ensures Dispatched(q, items, task, index) {
      assert Dispatched(p, items, task, index);
    }
  }

  /** Every move of every worker keeps the invariant and shortens what is left. */
  lemma MoveKeepsInv<T, R>(p: Pool<R>, items: seq<T>, task: T -> Outcome<R>, w: nat)
    requires Inv(p, items, task) && w < |p.workers| && Unfinished(p.workers[w])
    ensures Inv(Move(p, items, task, w), items, task)
    ensures 0 <= Remaining(Move(p, items, task, w), |items|) < Remaining(p, |items|)
    ensures |Move(p, items, task, w).workers| == |p.workers|
  {
    Replace(p.workers, w, Move(p, items, task, w).workers[w], 0);
    if p.workers[w].Busy? {
      SettleKeepsInv(p, items, task, w);
    } else if p.next < |items| {
      TakeKeepsInv(p, items, task, w);
    } else {
      StopKeepsInv(p, items, task, w);
    }
  }

  // ----- the end of a run -----

  predicate AllStopped(workers: seq<Worker>) {
    forall w :: 0 <= w < |workers| ==> !Unfinished(workers[w])
  }

  lemma {:induction false} StoppedCounts(workers: seq<Worker>, index: nat)
    requires AllStopped(workers)
    ensures BusyOn(workers, index) == 0
    ensures FailedCount(workers) == 0 && workers != [] ==> workers[0] == Done
  {
    if workers != [] {
      StoppedCounts(workers[1..], index);
    }
  }

  /** Array.prototype.sort by index, as an insertion sort. */
  function Insert<R>(entry: Recorded<R>, sorted: seq<Recorded<R>>): seq<Recorded<R>> {
    if sorted == [] || entry.index < sorted[0].index then [entry] + sorted else [sorted[0]] + Insert(entry, sorted[1..])
  }

  function SortByIndex<R>(results: seq<Recorded<R>>): seq<Recorded<R>> {
    if results == [] then []
    else Insert(results[|results| - 1], SortByIndex(results[..|results| - 1]))
  }

  function Payloads<R>(sorted: seq<Recorded<R>>): seq<R> {
    seq(|sorted|, i requires 0 <= i < |sorted| => sorted[i].result)
  }

  ghost predicate AllAbove<R(!new)>(s: seq<Recorded<R>>, bound: int) {
    forall x :: x in s ==> bound < x.index
  }

  ghost predicate Increasing<R(!new)>(s: seq<Recorded<R>>) {
    s == [] || (AllAbove(s[1..], s[0].index) && Increasing(s[1..]))
  }

  lemma {:induction false} InsertSpec<R(!new)>(entry: Recorded<R>, sorted: seq<Recorded<R>>)
    requires Increasing(sorted) && forall x :: x in sorted ==> x.index != entry.index
    ensures Increasing(Insert(entry, sorted))
    ensures forall x :: x in Insert(entry, sorted) <==> x == entry || x in sorted
  {
    if sorted == [] {
      assert [entry] + sorted == [entry] && [entry][1..] == [];
    } else {
      assert sorted == [sorted[0]] + sorted[1..];
      if entry.index < sorted[0].index {
        assert ([entry] + sorted)[1..] == sorted;
      } else {
        InsertSpec(entry, sorted[1..]);
        var rest := Insert(entry, sorted[1..]);
        assert ([sorted[0]] + rest)[1..] == rest;
      }
    }
  }

  ghost predicate RecordedOnce<R(!new)>(results: seq<Recorded<R>>) {
    forall index: nat :: RecordedFor(results, index) <= 1
  }

  lemma {:induction false} SortSpec<R(!new)>(results: seq<Recorded<R>>)
    requires RecordedOnce(results)
    ensures Increasing(SortByIndex(results))
    ensures forall x :: x in SortByIndex(results) <==> x in results
  {
    if results != [] {
      var before, last := results[..|results| - 1], results[|results| - 1];
      assert results == before + [last];
      assert forall index: nat :: RecordedFor(before, index) <= RecordedFor(results, index);
      SortSpec(before);
      var sorted := SortByIndex(before);
      forall k | 0 <= k < |sorted| ensures sorted[k].index != last.index {
        assert sorted[k] in sorted;
        RecordedMember(before, sorted[k]);
        assert RecordedFor(results, sorted[k].index) <= 1;
      }
      InsertSpec(last, sorted);
    }
  }

  lemma {:induction false} RecordedMember<R>(results: seq<Recorded<R>>, x: Recorded<R>)
    requires x in results
    ensures RecordedFor(results, x.index) >= 1
  {
    var before, last := results[..|results| - 1], results[|results| - 1];
    assert results == before + [last];
    if x in before {
      RecordedMember(before, x);
    }
  }

  lemma {:induction false} RecordedSomewhere<R>(results: seq<Recorded<R>>, index: nat) returns (x: Recorded<R>)
    requires RecordedFor(results, index) >= 1
    ensures x in results && x.index == index
  {
    var n := |results| - 1;
    x := results[n];
    if x.index != index {
      x := RecordedSomewhere(results[..n], index);
    }
  }

  lemma RecordedBelow<R>(results: seq<Recorded<R>>, index: nat, bound: nat)
    requires index >= bound && forall k :: 0 <= k < |results| ==> results[k].index < bound
    ensures RecordedFor(results, index) == 0
  {
  }

  lemma HeadIn<X>(s: seq<X>)
    ensures s != [] ==> s[0] in s
  {
  }

  /** Increasing sequences with the same members are equal. */
  lemma {:induction false} SortedUnique<R(!new)>(s: seq<Recorded<R>>, t: seq<Recorded<R>>)
    requires Increasing(s) && Increasing(t)
    requires forall x :: x in s <==> x in t
    ensures s == t
  {
    HeadIn(s);
    HeadIn(t);
    if s != [] && t != [] {
      assert s == [s[0]] + s[1..] && t == [t[0]] + t[1..];
      assert s[0] == t[0];
      assert s[0] !in s[1..] && t[0] !in t[1..];
      forall x ensures x in s[1..] <==> x in t[1..] {
        assert x in s <==> x in t;
      }
      SortedUnique(s[1..], t[1..]);
    }
  }

  function Results<T, R>(items: seq<T>, task: T -> Outcome<R>): seq<R>
    requires forall i :: 0 <= i < |items| ==> task(items[i]).Resolved?
  {
    seq(|items|, i requires 0 <= i < |items| => task(items[i]).result)
  }

  ghost predicate AllResolve<T, R>(items: seq<T>, task: T -> Outcome<R>) {
    forall i :: 0 <= i < |items| ==> task(items[i]).Resolved?
  }

  /** A pool that ran to its end: fulfilled exactly when every task resolves, and then it is the map in order. */
  lemma StoppedPool<T, R(!new)>(p: Pool<R>, items: seq<T>, task: T -> Outcome<R>)
    requires Inv(p, items, task) && AllStopped(p.workers) && (p.workers == [] ==> items == [])
    ensures FailedCount(p.workers) == 0 <==> AllResolve(items, task)
    ensures AllResolve(items, task) ==> Payloads(SortByIndex(p.results)) == Results(items, task)
  {
    StoppedCounts(p.workers, 0);
    if FailedCount(p.workers) == 0 {
      assert p.next == |items|;
      forall index: nat | index < |items|
        ensures RecordedFor(p.results, index) == 1 && task(items[index]).Resolved?
      {
        StoppedCounts(p.workers, index);
        var x := RecordedSomewhere(p.results, index);
      }
      forall index: nat ensures RecordedFor(p.results, index) <= 1 {
        if index >= |items| {
          RecordedBelow(p.results, index, |items|);
        }
      }
      InOrder(p.results, items, task);
    }
  }

  /** The indexed results from position i on. */
  ghost function Indexed<T, R>(items: seq<T>, task: T -> Outcome<R>, i: nat): seq<Recorded<R>>
    requires i <= |items| && AllResolve(items, task)
  {
    seq(|items| - i, k requires 0 <= k < |items| - i => Recorded(i + k, task(items[i + k]).result))
  }

  lemma {:induction false} IndexedIncreasing<T, R(!new)>(items: seq<T>, task: T -> Outcome<R>, i: nat)
    requires i <= |items| && AllResolve(items, task)
    ensures Increasing(Indexed(items, task, i))
    decreases |items| - i
  {
    if i < |items| {
      IndexedIncreasing(items, task, i + 1);
      assert Indexed(items, task, i)[1..] == Indexed(items, task, i + 1);
    }
  }

  lemma InOrder<T, R(!new)>(results: seq<Recorded<R>>, items: seq<T>, task: T -> Outcome<R>)
    requires forall x :: x in results ==> x.index < |items| && task(items[x.index]) == Resolved(x.result)
    requires forall index: nat :: index < |items| ==> RecordedFor(results, index) == 1
    requires RecordedOnce(results) && AllResolve(items, task)
    ensures Payloads(SortByIndex(results)) == Results(items, task)
  {
    SortSpec(results);
    var target := Indexed(items, task, 0);
    IndexedIncreasing(items, task, 0);
    forall x | x in target ensures x in results {
      var y := RecordedSomewhere(results, x.index);
    }
    forall x | x in results ensures x in target {
      assert target[x.index] == x;
    }
    SortedUnique(SortByIndex(results), target);
  }

  /** The workers that can still move. */
  function Runnable(workers: seq<Worker>): set<nat> {
    set w: nat | w < |workers| && Unfinished(workers[w])
  }

  /** At every point of every schedule: at most min(concurrency, n) tasks in flight, each index in one place. */
  ghost predicate InSchedule<T, R>(p: Pool<R>, items: seq<T>, task: T -> Outcome<R>, concurrency: int) {
    && Inv(p, items, task)
    && |p.workers| == WorkerCount(concurrency, |items|)
    && InFlight(p.workers) <= WorkerCount(concurrency, |items|)
  }

  /** The pool after the workers moved in the given order, and how many moves that took; others are skipped. */
  ghost function After<T, R>(p: Pool<R>, items: seq<T>, task: T -> Outcome<R>, picks: seq<nat>): (r: (Pool<R>, nat))
    requires Inv(p, items, task)
    decreases |picks|
  {
    if picks == [] then (p, 0)
    else if picks[0] < |p.workers| && Unfinished(p.workers[picks[0]]) then
      MoveKeepsInv(p, items, task, picks[0]);
      var (last, moves) := After(Move(p, items, task, picks[0]), items, task, picks[1..]);
      (last, moves + 1)
    else After(p, items, task, picks[1..])
  }

  lemma {:induction false} AfterKeepsInv<T, R>(p: Pool<R>, items: seq<T>, task: T -> Outcome<R>, picks: seq<nat>)
    requires Inv(p, items, task) && Remaining(p, |items|) >= 0
    ensures var (last, moves) := After(p, items, task, picks);
            && Inv(last, items, task) && |last.workers| == |p.workers|
            && 0 <= Remaining(last, |items|) <= Remaining(p, |items|) - moves
    decreases |picks|
  {
    if picks != [] {
      if picks[0] < |p.workers| && Unfinished(p.workers[picks[0]]) {
        MoveKeepsInv(p, items, task, picks[0]);
        AfterKeepsInv(Move(p, items, task, picks[0]), items, task, picks[1..]);
      } else {
        AfterKeepsInv(p, items, task, picks[1..]);
      }
    }
  }

  ghost function FromStart<T, R>(concurrency: int, items: seq<T>, task: T -> Outcome<R>, picks: seq<nat>)
    : (Pool<R>, nat)
  {
    StartInv(concurrency, items, task);
    After(Start<R>(concurrency, |items|), items, task, picks)
  }

  /** Whoever moves whenever: the bound and the bookkeeping hold, and no schedule makes more than 2n + workers moves. */
  lemma EverySchedule<T, R>(concurrency: int, items: seq<T>, task: T -> Outcome<R>, picks: seq<nat>)
    ensures var (last, moves) := FromStart<T, R>(concurrency, items, task, picks);
            && InSchedule(last, items, task, concurrency)
            && moves <= 2 * |items| + WorkerCount(concurrency, |items|)
  {
    var start := Start<R>(concurrency, |items|);
    StartInv(concurrency, items, task);
    StartIdle(|start.workers|, 0);
    AfterKeepsInv(start, items, task, picks);
    InFlightBounded(FromStart<T, R>(concurrency, items, task, picks).0.workers);
  }

  predicate AnyFailed(workers: seq<Worker>) {
    exists w | 0 <= w < |workers| :: workers[w].Failed?
  }

  /**
   runPool under an arbitrary scheduler: any worker that can move may move next. The first rejection settles the
   pool; the other workers go on as in EverySchedule, without effect on the result.
   */
  method RunPool<T, R(!new)>(items: seq<T>, concurrency: int, task: T -> Outcome<R>) returns (r: Option<seq<R>>)
    ensures r.Some? <==> AllResolve(items, task) || concurrency < 1
    ensures r.Some? && concurrency >= 1 ==> r.value == Results(items, task)
    ensures r.Some? && concurrency < 1 ==> r.value == []
  {
    var pool := Start<R>(concurrency, |items|);
    StartInv(concurrency, items, task);
    InFlightBounded(pool.workers);
    if concurrency < 1 { return Some([]); }
    while !AnyFailed(pool.workers) && Runnable(pool.workers) != {}
      invariant InSchedule(pool, items, task, concurrency) && Remaining(pool, |items|) >= 0
      decreases Remaining(pool, |items|)
    {
      var w :| w in Runnable(pool.workers);
      MoveKeepsInv(pool, items, task, w);
      pool := Move(pool, items, task, w);
      InFlightBounded(pool.workers);
    }
    FailedCountPositive(pool.workers);
    if AnyFailed(pool.workers) { return None; }
    NoneRunnable(pool.workers);
    StoppedPool(pool, items, task);
    r := Some(Payloads(SortByIndex(pool.results)));
  }

  lemma NoneRunnable(workers: seq<Worker>)
    requires Runnable(workers) == {}
    ensures AllStopped(workers)
  {
    forall w: nat | w < |workers| ensures !Unfinished(workers[w]) {
      assert w !in Runnable(workers);
    }
  }

  lemma FailedCountPositive(workers: seq<Worker>)
    ensures FailedCount(workers) > 0 <==> AnyFailed(workers)
  {
    if w: nat :| w < |workers| && workers[w].Failed? {
      FailedIsCounted(workers, w);
    } else {
      NoneFailed(workers);
    }
  }

  lemma {:induction false} NoneFailed(workers: seq<Worker>)
    requires forall w :: 0 <= w < |workers| ==> !workers[w].Failed?
    ensures FailedCount(workers) == 0
  {
    if workers != [] {
      NoneFailed(workers[1..]);
    }
  }
}

/**
 The resumable batch driver (scripts/run_add_partitions.py): cut the plan into batches, run the ones not
 yet completed in order, save the progress after each, stop at the first failure.
 */
module Batches {
  import opened Values

  function Chunked<T>(items: seq<T>, size: nat): (r: seq<seq<T>>)
    requires size > 0
    decreases |items|
  {
    if items == [] then []
    else if |items| <= size then [items]
    else [items[..size]] + Chunked(items[size..], size)
  }

  function Concat<T>(batches: seq<seq<T>>): seq<T> {
    if batches == [] then [] else batches[0] + Concat(batches[1..])
  }

  /** count is ceil(n / size). */
  predicate IsCeiling(count: nat, n: nat, size: nat) {
    size * count >= n && (n > 0 ==> count > 0 && size * (count - 1) < n) && (n == 0 ==> count == 0)
  }

  lemma MulSucc(size: nat, k: nat)
    ensures size * (k + 1) == size * k + size
  {
  }

  /** No item is lost, doubled or reordered, there are ceil(n / size) batches, and only the last may be short. */
  lemma {:induction false} ChunkedSpec<T>(items: seq<T>, size: nat)
    requires size > 0
    ensures Concat(Chunked(items, size)) == items
    ensures forall i :: 0 <= i < |Chunked(items, size)| ==> 1 <= |Chunked(items, size)[i]| <= size
    ensures forall i :: 0 <= i < |Chunked(items, size)| - 1 ==> |Chunked(items, size)[i]| == size
    decreases |items|
  {
    if items == [] {
    } else if |items| <= size {
      assert Concat([items]) == items + Concat([]);
    } else {
      var rest := Chunked(items[size..], size);
      ChunkedSpec(items[size..], size);
      assert ([items[..size]] + rest)[1..] == rest;
      assert items == items[..size] + items[size..];
    }
  }

  lemma {:induction false} ChunkedCount<T>(items: seq<T>, size: nat)
    requires size > 0
    ensures IsCeiling(|Chunked(items, size)|, |items|, size)
    decreases |items|
  {
    if items == [] {
    } else if |items| <= size {
      assert |Chunked(items, size)| == 1;
    } else {
      var count := |Chunked(items[size..], size)|;
      ChunkedCount(items[size..], size);
      MulSucc(size, count);
      MulSucc(size, count - 1);
    }
  }

  /** The first k batches hold the first min(k * size, n) items. */
  lemma {:induction false} ConcatPrefix<T>(items: seq<T>, size: nat, k: nat)
    requires size > 0 && k <= |Chunked(items, size)|
    ensures Concat(Chunked(items, size)[..k]) == items[..Covered(|items|, size, k)]
    decreases |items|
  {
    var batches := Chunked(items, size);
    if k > 0 {
      if |items| <= size {
        assert batches[..1] == [items] && k == 1;
        assert Concat([items]) == items + Concat([]);
        assert size * 1 >= |items|;
      } else {
        var rest := Chunked(items[size..], size);
        assert batches[1..] == rest && batches[..k][1..] == rest[..k - 1] && batches[..k][0] == items[..size];
        ConcatPrefix(items[size..], size, k - 1);
        MulSucc(size, k - 1);
        assert items[size..][..Covered(|items| - size, size, k - 1)] == items[size..Covered(|items|, size, k)];
      }
    } else {
      assert batches[..0] == [];
    }
  }

  function Covered(n: nat, size: nat, k: nat): nat {
    if size * k < n then size * k else n
  }

  // ----- runs -----

  /**
   What an attempt at a batch ends in: done; a reported failure, where the job of a batch given up as too slow may
   take effect all the same; or an exception before or after the batch took effect.
   */
  datatype Attempt = Succeeds | SubmitFails | JobFails | FailsLate | CrashesBefore | CrashesAfter

  datatype Progress = Progress(completed: seq<nat>, failedBatch: Option<nat>)

  const NO_PROGRESS := Progress([], None)

  datatype Exit = AllDone | Failed | Crashed

  /** The progress file, and all batches that took effect, in order. */
  datatype Disk<T> = Disk(file: Option<Progress>, effects: seq<seq<T>>)

  function Members(s: seq<nat>): set<nat> {
    set k | k in s
  }

  function Upto(k: nat): seq<nat> {
    seq(k, i => i + 1)
  }

  /** From batch number i + 1 on, with the progress record in memory. */
  function RunFrom<T>(batches: seq<seq<T>>, i: nat, progress: Progress, skip: set<nat>, disk: Disk<T>,
                      attempt: nat -> Attempt): (Disk<T>, Exit)
    requires i <= |batches|
    decreases |batches| - i
  {
    if i == |batches| then (disk, AllDone)
    else if i + 1 in skip then RunFrom(batches, i + 1, progress, skip, disk, attempt)
    else
      match attempt(i + 1)
      case Succeeds =>
        var next := progress.(completed := progress.completed + [i + 1]);
        RunFrom(batches, i + 1, next, skip, Disk(Some(next), disk.effects + [batches[i]]), attempt)
      case CrashesBefore => (disk, Crashed)
      case CrashesAfter => (disk.(effects := disk.effects + [batches[i]]), Crashed)
      case FailsLate => (Disk(Some(progress.(failedBatch := Some(i + 1))), disk.effects + [batches[i]]), Failed)
      case _ => (disk.(file := Some(progress.(failedBatch := Some(i + 1)))), Failed)
  }

  function Loaded<T>(disk: Disk<T>, resume: bool): Progress {
    if resume && disk.file.Some? then disk.file.value else NO_PROGRESS
  }

  function RunSpec<T>(plan: seq<T>, size: nat, resume: bool, disk: Disk<T>, attempt: nat -> Attempt): (Disk<T>, Exit)
    requires size > 0
  {
    var progress := Loaded(disk, resume);
    RunFrom(Chunked(plan, size), 0, progress, Members(progress.completed), disk, attempt)
  }

  /** The script with its progress file; `effects` is what the warehouse has executed. */
  class BatchRunner<T> {
    var file: Option<Progress>
    ghost var effects: seq<seq<T>>

    ghost function Contents(): Disk<T>
      reads this
    {
      Disk(file, effects)
    }

    constructor ()
      ensures Contents() == Disk(None, [])
    {
      file, effects := None, [];
    }

    /** items[i : i + size] for i in range(0, n, size) */
    method MakeChunks(items: seq<T>, size: nat) returns (batches: seq<seq<T>>)
      requires size > 0
      ensures batches == Chunked(items, size)
    {
      batches := [];
      var i := 0;
      while i < |items|
        invariant 0 <= i
        invariant Chunked(items, size) == batches + if i < |items| then Chunked(items[i..], size) else []
      {
        var end := if i + size < |items| then i + size else |items|;
        assert items[i..][..end - i] == items[i..end];
        if i + size < |items| {
          assert items[i..][size..] == items[i + size..];
        } else {
          assert items[i..] == items[i..end];
        }
        batches := batches + [items[i..end]];
        i := i + size;
      }
    }

    method Run(plan: seq<T>, size: nat, resume: bool, dryRun: bool, attempt: nat -> Attempt) returns (exit: Exit)
      requires 1 <= size <= 100
      modifies this
      ensures dryRun ==> Contents() == old(Contents()) && exit == AllDone
      ensures !dryRun ==> (Contents(), exit) == RunSpec(plan, size, resume, old(Contents()), attempt)
    {
      var progress := if resume && file.Some? then file.value else NO_PROGRESS;
      var done := Members(progress.completed);
      var batches := MakeChunks(plan, size);
      if dryRun {
        return AllDone;
      }
      for i := 0 to |batches|
        invariant RunFrom(batches, i, progress, done, Contents(), attempt)
               == RunSpec(plan, size, resume, old(Contents()), attempt)
      {
        if i + 1 in done { continue; }
        match attempt(i + 1) {
          case Succeeds =>
            effects := effects + [batches[i]];
            progress := progress.(completed := progress.completed + [i + 1]);
            file := Some(progress);
          case CrashesBefore =>
            return Crashed;
          case CrashesAfter =>
            effects := effects + [batches[i]];
            return Crashed;
          case FailsLate =>
            effects := effects + [batches[i]];
            progress := progress.(failedBatch := Some(i + 1));
            file := Some(progress);
            return Failed;
          case _ =>
            progress := progress.(failedBatch := Some(i + 1));
            file := Some(progress);
            return Failed;
        }
      }
      exit := AllDone;
    }
  }

  // ----- chains of runs with one plan and one batch size -----

  datatype Launch = Launch(resume: bool, attempt: nat -> Attempt)

  function RunChain<T>(plan: seq<T>, size: nat, disk: Disk<T>, launches: seq<Launch>): Disk<T>
    requires size > 0
    decreases |launches|
  {
    if launches == [] then disk
    else RunChain(plan, size, RunSpec(plan, size, launches[0].resume, disk, launches[0].attempt).0, launches[1..])
  }

  /** The file, if there is one, lists batches 1..k, and blames no other than the next one or an earlier one. */
  ghost predicate InOrder(p: Progress, total: nat) {
    && |p.completed| <= total && p.completed == Upto(|p.completed|)
    && (p.failedBatch.Some? ==> 1 <= p.failedBatch.value <= |p.completed| + 1)
  }

  ghost predicate FileInOrder<T>(disk: Disk<T>, total: nat) {
    disk.file.Some? ==> InOrder(disk.file.value, total)
  }

  /** The attempt takes effect without being recorded as completed. */
  predicate Stray(a: Attempt) {
    a == CrashesAfter || a == FailsLate
  }

  predicate NeverStrays(attempt: nat -> Attempt, total: nat) {
    forall k :: 1 <= k <= total ==> !Stray(attempt(k))
  }

  lemma UptoSnoc(k: nat)
    ensures Upto(k) + [k + 1] == Upto(k + 1)
    ensures forall i :: i in Upto(k) <==> 1 <= i <= k
  {
    forall i | 1 <= i <= k ensures i in Upto(k) {
      assert Upto(k)[i - 1] == i;
    }
  }

  /** A run that reaches batch i + 1 with exactly 1..k completed, where k is the larger of i and what it skips. */
  lemma {:induction false} RunFromInOrder<T>(batches: seq<seq<T>>, i: nat, progress: Progress, skipped: nat,
                                              disk: Disk<T>, attempt: nat -> Attempt)
    requires i <= |batches| && skipped <= |batches| && InOrder(progress, |batches|)
    requires |progress.completed| == if i < skipped then skipped else i
    requires FileInOrder(disk, |batches|)
    ensures var (after, exit) := RunFrom(batches, i, progress, Members(Upto(skipped)), disk, attempt);
            && FileInOrder(after, |batches|)
            && (exit == Failed ==> after.file.Some? && after.file.value.failedBatch.Some?
                                   && after.file.value.failedBatch.value == |after.file.value.completed| + 1
                                   && |after.file.value.completed| >= |progress.completed|)
    decreases |batches| - i
  {
    UptoSnoc(skipped);
    UptoSnoc(|progress.completed|);
    if i < |batches| {
      if i + 1 in Upto(skipped) {
        RunFromInOrder(batches, i + 1, progress, skipped, disk, attempt);
      } else if attempt(i + 1) == Succeeds {
        var next := progress.(completed := progress.completed + [i + 1]);
        RunFromInOrder(batches, i + 1, next, skipped, Disk(Some(next), disk.effects + [batches[i]]), attempt);
      }
    }
  }

  lemma RunKeepsOrder<T>(plan: seq<T>, size: nat, resume: bool, disk: Disk<T>, attempt: nat -> Attempt)
    requires size > 0 && FileInOrder(disk, |Chunked(plan, size)|)
    ensures var (after, exit) := RunSpec(plan, size, resume, disk, attempt);
            && FileInOrder(after, |Chunked(plan, size)|)
            && (exit == Failed ==> after.file.Some?
                                   && after.file.value.failedBatch == Some(|after.file.value.completed| + 1))
  {
    var progress := Loaded(disk, resume);
    RunFromInOrder(Chunked(plan, size), 0, progress, |progress.completed|, disk, attempt);
  }

  /** Over any chain of failing, crashing, resumed and restarted runs the file always says 1..k. */
  lemma {:induction false} ChainsKeepOrder<T>(plan: seq<T>, size: nat, disk: Disk<T>, launches: seq<Launch>)
    requires size > 0 && FileInOrder(disk, |Chunked(plan, size)|)
    ensures FileInOrder(RunChain(plan, size, disk, launches), |Chunked(plan, size)|)
    decreases |launches|
  {
    if launches != [] {
      RunKeepsOrder(plan, size, launches[0].resume, disk, launches[0].attempt);
      ChainsKeepOrder(plan, size, RunSpec(plan, size, launches[0].resume, disk, launches[0].attempt).0, launches[1..]);
    }
  }

  /** The batches that took effect are exactly the completed ones, each once and in order. */
  ghost predicate Exact<T>(batches: seq<seq<T>>, progress: Progress, effects: seq<seq<T>>) {
    InOrder(progress, |batches|) && effects == batches[..|progress.completed|]
  }

  lemma {:induction false} RunFromExact<T>(batches: seq<seq<T>>, i: nat, progress: Progress, skipped: nat,
                                            disk: Disk<T>, attempt: nat -> Attempt)
    requires i <= |batches| && skipped <= |batches| && Exact(batches, progress, disk.effects)
    requires |progress.completed| == if i < skipped then skipped else i
    requires disk.file == Some(progress) || (disk.file.None? && progress == NO_PROGRESS)
    requires NeverStrays(attempt, |batches|)
    ensures var (after, exit) := RunFrom(batches, i, progress, Members(Upto(skipped)), disk, attempt);
            && (after.file.Some? ==> Exact(batches, after.file.value, after.effects))
            && (after.file.None? ==> after == disk)
            && (exit == AllDone ==> after.effects == batches)
    decreases |batches| - i
  {
    UptoSnoc(skipped);
    UptoSnoc(|progress.completed|);
    if i < |batches| {
      if i + 1 in Upto(skipped) {
        RunFromExact(batches, i + 1, progress, skipped, disk, attempt);
      } else if attempt(i + 1) == Succeeds {
        var next := progress.(completed := progress.completed + [i + 1]);
        assert batches[..i + 1] == batches[..i] + [batches[i]];
        RunFromExact(batches, i + 1, next, skipped, Disk(Some(next), disk.effects + [batches[i]]), attempt);
      }
    } else {
      assert batches[..|batches|] == batches;
    }
  }

  /** The last run of a chain of resumed runs, and how it ended. */
  function LastExit<T>(plan: seq<T>, size: nat, disk: Disk<T>, launches: seq<Launch>): Exit
    requires size > 0 && launches != []
    decreases |launches|
  {
    var (after, exit) := RunSpec(plan, size, launches[0].resume, disk, launches[0].attempt);
    if |launches| == 1 then exit else LastExit(plan, size, after, launches[1..])
  }

  /**
   When nothing takes effect unrecorded, resuming until a run returns 0 has executed the whole plan, in order, each
   item once. Only a first run without a progress file may do without the resume flag.
   */
  lemma {:induction false} ResumedChainsExecuteThePlan<T>(plan: seq<T>, size: nat, disk: Disk<T>, launches: seq<Launch>)
    requires size > 0 && launches != []
    requires disk.file.Some? ==> Exact(Chunked(plan, size), disk.file.value, disk.effects)
    requires disk.file.None? ==> disk.effects == []
    requires forall i :: 0 <= i < |launches| ==>
               && (launches[i].resume || (i == 0 && disk.file.None?))
               && NeverStrays(launches[i].attempt, |Chunked(plan, size)|)
    ensures var after := RunChain(plan, size, disk, launches);
            && (after.file.Some? ==> Exact(Chunked(plan, size), after.file.value, after.effects))
            && (after.file.None? ==> after.effects == [])
            && (LastExit(plan, size, disk, launches) == AllDone ==> Concat(after.effects) == plan)
    decreases |launches|
  {
    var progress := Loaded(disk, true);
    var batches := Chunked(plan, size);
    assert Loaded(disk, launches[0].resume) == progress;
    RunFromExact(batches, 0, progress, |progress.completed|, disk, launches[0].attempt);
    ChunkedSpec(plan, size);
    var after := RunSpec(plan, size, launches[0].resume, disk, launches[0].attempt).0;
    if |launches| > 1 {
      ResumedChainsExecuteThePlan(plan, size, after, launches[1..]);
    } else {
      assert launches[1..] == [];
    }
  }

  // ----- batches that take effect unrecorded -----

  /** The first sequence, with elements of the second left out in between. */
  ghost predicate Subsequence<T(!new)>(s: seq<T>, t: seq<T>) {
    || s == []
    || (t != []
        && ((s[|s| - 1] == t[|t| - 1] && Subsequence(s[..|s| - 1], t[..|t| - 1])) || Subsequence(s, t[..|t| - 1])))
  }

  lemma SubsequenceSnoc<T(!new)>(s: seq<T>, t: seq<T>, x: T)
    requires Subsequence(s, t)
    ensures Subsequence(s, t + [x]) && Subsequence(s + [x], t + [x])
  {
    assert (t + [x])[..|t|] == t && (s + [x])[..|s|] == s;
  }

  /** The run ends with an attempt that took effect unrecorded. */
  predicate EndsAstray(total: nat, i: nat, skip: set<nat>, attempt: nat -> Attempt)
    requires i <= total
    decreases total - i
  {
    i < total && if i + 1 in skip || attempt(i + 1) == Succeeds then EndsAstray(total, i + 1, skip, attempt)
                 else Stray(attempt(i + 1))
  }

  function RunStrays<T>(plan: seq<T>, size: nat, resume: bool, disk: Disk<T>, attempt: nat -> Attempt): nat
    requires size > 0
  {
    if EndsAstray(|Chunked(plan, size)|, 0, Members(Loaded(disk, resume).completed), attempt) then 1 else 0
  }

  function ChainStrays<T>(plan: seq<T>, size: nat, disk: Disk<T>, launches: seq<Launch>): nat
    requires size > 0
    decreases |launches|
  {
    if launches == [] then 0
    else
      RunStrays(plan, size, launches[0].resume, disk, launches[0].attempt)
      + ChainStrays(plan, size, RunSpec(plan, size, launches[0].resume, disk, launches[0].attempt).0, launches[1..])
  }

  /** The recorded batches took effect in order, and so many further ones besides. */
  ghost predicate ExactBut<T(!new)>(batches: seq<seq<T>>, progress: Progress, effects: seq<seq<T>>, strays: nat) {
    && InOrder(progress, |batches|)
    && Subsequence(batches[..|progress.completed|], effects)
    && |effects| == |progress.completed| + strays
  }

  lemma ExactButNext<T(!new)>(batches: seq<seq<T>>, progress: Progress, effects: seq<seq<T>>, strays: nat)
    requires ExactBut(batches, progress, effects, strays) && |progress.completed| < |batches|
    ensures var i := |progress.completed|;
            ExactBut(batches, progress.(completed := progress.completed + [i + 1]), effects + [batches[i]], strays)
  {
    var i := |progress.completed|;
    UptoSnoc(i);
    SubsequenceSnoc(batches[..i], effects, batches[i]);
    assert batches[..i + 1] == batches[..i] + [batches[i]];
  }

  lemma ExactButStray<T(!new)>(batches: seq<seq<T>>, progress: Progress, effects: seq<seq<T>>, strays: nat, x: seq<T>)
    requires ExactBut(batches, progress, effects, strays)
    ensures ExactBut(batches, progress, effects + [x], strays + 1)
  {
    SubsequenceSnoc(batches[..|progress.completed|], effects, x);
  }

  lemma ExactButFailed<T(!new)>(batches: seq<seq<T>>, progress: Progress, effects: seq<seq<T>>, strays: nat, k: nat)
    requires ExactBut(batches, progress, effects, strays) && k == |progress.completed| + 1 <= |batches|
    ensures ExactBut(batches, progress.(failedBatch := Some(k)), effects, strays)
  {
  }

  /** The end of a run at an attempt that does not succeed. */
  lemma StopsExactBut<T(!new)>(batches: seq<seq<T>>, i: nat, progress: Progress, skipped: nat, disk: Disk<T>,
                               attempt: nat -> Attempt, strays: nat)
    requires i < |batches| && ExactBut(batches, progress, disk.effects, strays) && |progress.completed| == i
    requires disk.file == Some(progress) || (disk.file.None? && progress == NO_PROGRESS)
    requires i + 1 !in Upto(skipped) && attempt(i + 1) != Succeeds
    ensures var (after, exit) := RunFrom(batches, i, progress, Members(Upto(skipped)), disk, attempt);
            && ExactBut(batches, Loaded(after, true), after.effects, strays + if Stray(attempt(i + 1)) then 1 else 0)
            && exit != AllDone
  {
    ExactButFailed(batches, progress, disk.effects, strays, i + 1);
    ExactButStray(batches, progress, disk.effects, strays, batches[i]);
    ExactButFailed(batches, progress, disk.effects + [batches[i]], strays + 1, i + 1);
  }

  lemma {:induction false} RunFromExactBut<T(!new)>(batches: seq<seq<T>>, i: nat, progress: Progress, skipped: nat,
                                                    disk: Disk<T>, attempt: nat -> Attempt, strays: nat)
    requires i <= |batches| && skipped <= |batches| && ExactBut(batches, progress, disk.effects, strays)
    requires |progress.completed| == if i < skipped then skipped else i
    requires disk.file == Some(progress) || (disk.file.None? && progress == NO_PROGRESS)
    ensures var (after, exit) := RunFrom(batches, i, progress, Members(Upto(skipped)), disk, attempt);
            var more := if EndsAstray(|batches|, i, Members(Upto(skipped)), attempt) then 1 else 0;
            && ExactBut(batches, Loaded(after, true), after.effects, strays + more)
            && (exit == AllDone ==> |Loaded(after, true).completed| == |batches| && more == 0)
    decreases |batches| - i
  {
    UptoSnoc(skipped);
    if i < |batches| {
      if i + 1 in Upto(skipped) {
        RunFromExactBut(batches, i + 1, progress, skipped, disk, attempt, strays);
      } else if attempt(i + 1) == Succeeds {
        ExactButNext(batches, progress, disk.effects, strays);
        var next := progress.(completed := progress.completed + [i + 1]);
        RunFromExactBut(batches, i + 1, next, skipped, Disk(Some(next), disk.effects + [batches[i]]), attempt, strays);
      } else {
        StopsExactBut(batches, i, progress, skipped, disk, attempt, strays);
      }
    }
  }

  /**
   Over any chain of resumed runs, crashes and late jobs included, the recorded batches have taken effect in order,
   and besides them exactly as many as there were attempts that took effect unrecorded; after a run that returns 0
   every batch has.
   */
  lemma {:induction false} RepeatsAreStrays<T(!new)>(plan: seq<T>, size: nat, disk: Disk<T>, launches: seq<Launch>,
                                                     strays: nat)
    requires size > 0 && launches != []
    requires ExactBut(Chunked(plan, size), Loaded(disk, true), disk.effects, strays)
    requires forall i :: 0 <= i < |launches| ==> launches[i].resume || (i == 0 && disk.file.None?)
    ensures var after := RunChain(plan, size, disk, launches);
            && ExactBut(Chunked(plan, size), Loaded(after, true), after.effects,
                        strays + ChainStrays(plan, size, disk, launches))
            && (LastExit(plan, size, disk, launches) == AllDone ==>
                  Subsequence(Chunked(plan, size), after.effects)
                  && |after.effects| == |Chunked(plan, size)| + strays + ChainStrays(plan, size, disk, launches))
    decreases |launches|
  {
    var batches, progress := Chunked(plan, size), Loaded(disk, true);
    assert Loaded(disk, launches[0].resume) == progress;
    RunFromExactBut(batches, 0, progress, |progress.completed|, disk, launches[0].attempt, strays);
    var after := RunSpec(plan, size, launches[0].resume, disk, launches[0].attempt).0;
    assert batches[..|batches|] == batches;
    if |launches| > 1 {
      var more := RunStrays(plan, size, launches[0].resume, disk, launches[0].attempt);
      RepeatsAreStrays(plan, size, after, launches[1..], strays + more);
    } else {
      assert launches[1..] == [];
    }
  }

  // ----- resuming with another batch size -----

  lemma MulMonotone(a: nat, b: nat, k: nat)
    requires a <= b
    ensures a * k <= b * k
  {
  }

  /** Where a run that skips the batches 1..skipped starts working. */
  function Resumes(i: nat, skipped: nat, total: nat): (r: nat)
    requires i <= total
    ensures i <= r <= total
  {
    if skipped <= i then i else if skipped <= total then skipped else total
  }

  /** A resumed run returns 0 exactly when all it does not skip succeeds, and then it has executed just that. */
  lemma {:induction false} ResumeExecutesTheRest<T>(batches: seq<seq<T>>, i: nat, progress: Progress, skipped: nat,
                                                     disk: Disk<T>, attempt: nat -> Attempt)
    requires i <= |batches|
    ensures var (after, exit) := RunFrom(batches, i, progress, Members(Upto(skipped)), disk, attempt);
            && (exit == AllDone <==>
                  forall j :: Resumes(i, skipped, |batches|) < j <= |batches| ==> attempt(j) == Succeeds)
            && (exit == AllDone ==> after.effects == disk.effects + batches[Resumes(i, skipped, |batches|)..])
    decreases |batches| - i
  {
    UptoSnoc(skipped);
    if i < |batches| {
      if i + 1 in Upto(skipped) {
        ResumeExecutesTheRest(batches, i + 1, progress, skipped, disk, attempt);
      } else {
        var next := progress.(completed := progress.completed + [i + 1]);
        assert batches[i..] == [batches[i]] + batches[i + 1..];
        ResumeExecutesTheRest(batches, i + 1, next, skipped, Disk(Some(next), disk.effects + [batches[i]]), attempt);
      }
    }
  }

  /** A run that is not resumed starts over, whatever is recorded: it returns 0 exactly when it executed every batch. */
  lemma RestartExecutesEverything<T>(plan: seq<T>, size: nat, disk: Disk<T>, attempt: nat -> Attempt)
    requires size > 0
    ensures var (after, exit) := RunSpec(plan, size, false, disk, attempt);
            && (exit == AllDone <==> forall j :: 0 < j <= |Chunked(plan, size)| ==> attempt(j) == Succeeds)
            && (exit == AllDone ==> after.effects == disk.effects + Chunked(plan, size))
  {
    var batches := Chunked(plan, size);
    assert Members([]) == {} && Members(Upto(0)) == {};
    assert batches[0..] == batches;
    ResumeExecutesTheRest(batches, 0, NO_PROGRESS, 0, disk, attempt);
  }

  lemma {:induction false} ConcatAppend<T>(a: seq<seq<T>>, b: seq<seq<T>>)
    ensures Concat(a + b) == Concat(a) + Concat(b)
  {
    if a == [] {
      assert a + b == b;
    } else {
      assert (a + b)[1..] == a[1..] + b;
      ConcatAppend(a[1..], b);
    }
  }

  lemma SuffixOfSplit<T>(s: seq<T>, c: nat, suffix: seq<T>)
    requires c <= |s| && s[..c] + suffix == s
    ensures suffix == s[c..]
  {
    assert (s[..c] + suffix)[c..] == suffix;
  }

  /** Skipping k batches, or all if there are fewer, leaves the items from size * k on. */
  lemma {:induction false} ConcatSuffix<T>(items: seq<T>, size: nat, k: nat)
    requires size > 0
    ensures Concat(Chunked(items, size)[Resumes(0, k, |Chunked(items, size)|)..])
         == items[Covered(|items|, size, k)..]
  {
    var batches := Chunked(items, size);
    var j := Resumes(0, k, |batches|);
    ConcatPrefix(items, size, j);
    ChunkedSpec(items, size);
    ChunkedCount(items, size);
    if k > |batches| {
      MulMonotone(|batches|, k, size);
    }
    assert Covered(|items|, size, j) == Covered(|items|, size, k);
    assert batches == batches[..j] + batches[j..];
    ConcatAppend(batches[..j], batches[j..]);
    SuffixOfSplit(items, Covered(|items|, size, k), Concat(batches[j..]));
  }

  /** The disk after k batches of a given size, whichever batch the record blames. */
  function DoneWith<T>(plan: seq<T>, size: nat, k: nat, failedBatch: Option<nat>): Disk<T>
    requires size > 0 && k <= |Chunked(plan, size)|
  {
    Disk(Some(Progress(Upto(k), failedBatch)), Chunked(plan, size)[..k])
  }

  /**
   With another batch size the recorded numbers mean other items: when a run resumed with batches of size q after
   k batches of size p returns 0, it has executed exactly the items from q * k on.
   */
  lemma {:induction false} ResumeWithOtherSize<T>(plan: seq<T>, p: nat, q: nat, k: nat, failedBatch: Option<nat>,
                                                  attempt: nat -> Attempt)
    requires p > 0 && q > 0 && k <= |Chunked(plan, p)|
    ensures var (after, exit) := RunSpec(plan, q, true, DoneWith(plan, p, k, failedBatch), attempt);
            exit == AllDone ==>
              Concat(after.effects) == plan[..Covered(|plan|, p, k)] + plan[Covered(|plan|, q, k)..]
  {
    var disk := DoneWith(plan, p, k, failedBatch);
    var batches := Chunked(plan, q);
    ResumeExecutesTheRest(batches, 0, disk.file.value, k, disk, attempt);
    ConcatPrefix(plan, p, k);
    ConcatSuffix(plan, q, k);
    ConcatAppend(disk.effects, batches[Resumes(0, k, |batches|)..]);
  }

  lemma CoversIff(n: nat, p: nat, q: nat, k: nat)
    requires p > 0 && q > 0
    ensures Covered(n, q, k) <= Covered(n, p, k) <==> k == 0 || q <= p || n <= p * k
    ensures Covered(n, q, k) == Covered(n, p, k) <==> k == 0 || q == p || (n <= p * k && n <= q * k)
  {
    if q <= p {
      MulMonotone(q, p, k);
    }
    if p <= q {
      MulMonotone(p, q, k);
    }
    if p < q {
      MulMonotone(p + 1, q, k);
      MulSucc(k, p);
    }
    if q < p {
      MulMonotone(q + 1, p, k);
      MulSucc(k, q);
    }
  }

  predicate DistinctItems<T(==)>(items: seq<T>) {
    forall i, j :: 0 <= i < j < |items| ==> items[i] != items[j]
  }

  /**
   So a resumed run that returns 0 has left nothing out exactly when nothing was recorded, the new batches are no
   larger, or the old ones already covered the plan; and it has executed the plan as such exactly when the sizes
   agree as far as they matter.
   */
  lemma {:induction false} OtherSizeCoversIff<T>(plan: seq<T>, p: nat, q: nat, k: nat, failedBatch: Option<nat>,
                                                 attempt: nat -> Attempt)
    requires p > 0 && q > 0 && k <= |Chunked(plan, p)|
    requires RunSpec(plan, q, true, DoneWith(plan, p, k, failedBatch), attempt).1 == AllDone
    ensures var executed := Concat(RunSpec(plan, q, true, DoneWith(plan, p, k, failedBatch), attempt).0.effects);
            && (|executed| >= |plan| <==> k == 0 || q <= p || |plan| <= p * k)
            && (DistinctItems(plan) ==>
                  ((forall x :: x in plan ==> x in executed) <==> k == 0 || q <= p || |plan| <= p * k))
            && (executed == plan <==> k == 0 || q == p || (|plan| <= p * k && |plan| <= q * k))
  {
    ResumeWithOtherSize(plan, p, q, k, failedBatch, attempt);
    CoversIff(|plan|, p, q, k);
    SplitCovers(plan, Covered(|plan|, p, k), Covered(|plan|, q, k));
  }

  lemma SplitCovers<T>(s: seq<T>, a: nat, b: nat)
    requires a <= |s| && b <= |s|
    ensures b <= a ==> forall x :: x in s ==> x in s[..a] + s[b..]
    ensures b > a && DistinctItems(s) ==> s[a] in s && s[a] !in s[..a] + s[b..]
    ensures s[..a] + s[b..] == s <==> a == b
  {
    if b <= a {
      forall x | x in s ensures x in s[..a] + s[b..] {
        var i :| 0 <= i < |s| && s[i] == x;
        if i < a {
          assert s[..a][i] == x;
        } else {
          assert s[b..][i - b] == x;
        }
      }
    }
    assert a == b ==> s[..a] + s[b..] == s;
  }
}

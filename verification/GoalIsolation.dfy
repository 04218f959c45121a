/**
 Starting a goal forgets the past: two conversations with any histories whatsoever that start the
 same goal and then receive the same operations show the same, except that versions differ by a constant.
 */
module GoalIsolation {
  import opened Values
  import opened Interactions
  import opened Conversation
  import opened ConversationRuns

  ghost predicate SameCard(a: Card, b: Card, d: int) {
    || (a.None? && b.None?)
    || (a.Some? && b.Some? && b.value == a.value.(stateVersion := b.value.stateVersion)
        && b.value.stateVersion == a.value.stateVersion + d)
  }

  ghost predicate SameContext(a: Context, b: Context, d: int) {
    && b == a.(stateVersion := b.stateVersion, pendingInteraction := b.pendingInteraction)
    && b.stateVersion == a.stateVersion + d
    && SameCard(a.pendingInteraction, b.pendingInteraction, d)
  }

  /** The same call, with the version tokens the other conversation would hand out. */
  ghost predicate SameOp(a: Op, b: Op, d: int) {
    match (a, b)
    case (Answer(x), Answer(y)) => y == x.(stateVersion := y.stateVersion) && y.stateVersion == x.stateVersion + d
    case (Remember(x), Remember(y)) =>
      && y == x.(expectedVersion := y.expectedVersion, pendingInteraction := y.pendingInteraction)
      && x.expectedVersion.Some? == y.expectedVersion.Some?
      && (x.expectedVersion.Some? ==> y.expectedVersion.value == x.expectedVersion.value + d)
      && x.pendingInteraction.Some? == y.pendingInteraction.Some?
      && (x.pendingInteraction.Some? ==> Stamp(x.pendingInteraction.value, 0) == Stamp(y.pendingInteraction.value, 0))
    case _ => a == b
  }

  ghost predicate SameReason(a: AnswerError, b: AnswerError, d: int) {
    match (a, b)
    case (InteractionExpired(x), InteractionExpired(y)) => SameCard(x, y, d)
    case _ => a == b
  }

  ghost predicate SameOutcome(a: Outcome, b: Outcome, d: int) {
    match (a, b)
    case (Saw(x), Saw(y)) => SameContext(x, y, d)
    case (Accepted(p, v), Accepted(q, w)) => p == q && w == v + d
    case (Failed(StateConflict(x)), Failed(StateConflict(y))) => SameContext(x, y, d)
    case (Failed(AnswerRefused(x)), Failed(AnswerRefused(y))) => SameReason(x, y, d)
    case _ => a == b
  }

  /** Alike to every later operation; the stored incoming message, resolved message and updates are free. */
  ghost predicate Alike(a: Checkpoint, b: Checkpoint, d: int) {
    && Consistent(a) && Consistent(b)
    && a.stateVersion > 0 && b.stateVersion > 0
    && b == a.(incomingMessage := b.incomingMessage, resolvedMessage := b.resolvedMessage,
               contextUpdates := b.contextUpdates, pendingInteraction := b.pendingInteraction,
               stateVersion := b.stateVersion)
    && b.stateVersion == a.stateVersion + d
    && SameCard(a.pendingInteraction, b.pendingInteraction, d)
  }

  lemma AnswersResolveAlike(p: PendingInteraction, q: PendingInteraction, x: InteractionAnswer, y: InteractionAnswer,
                            d: int)
    requires SameCard(Some(p), Some(q), d) && SameOp(Answer(x), Answer(y), d)
    ensures ValidCard(p) == ValidCard(q)
    ensures match (ResolveInteractionAnswer(p, x), ResolveInteractionAnswer(q, y))
            case (Ok(r), Ok(s)) => r == s
            case (Err(e), Err(f)) => SameReason(e, f, d)
            case _ => false
  {
    assert p.options == q.options;
  }

  lemma AnswerAlike(a: Checkpoint, b: Checkpoint, x: InteractionAnswer, y: InteractionAnswer, d: int)
    requires Alike(a, b, d) && SameOp(Answer(x), Answer(y), d)
    ensures match (AnswerStep(a, x), AnswerStep(b, y))
            case (Ok(r), Ok(s)) => Alike(r.0, s.0, d) && r.1 == s.1
            case (Err(AnswerRefused(e)), Err(AnswerRefused(f))) => SameReason(e, f, d)
            case _ => false
  {
    if a.pendingInteraction.Some? {
      AnswersResolveAlike(a.pendingInteraction.value, b.pendingInteraction.value, x, y, d);
    }
  }

  lemma RememberAlike(a: Checkpoint, b: Checkpoint, x: RememberArgs, y: RememberArgs, d: int)
    requires Alike(a, b, d) && SameOp(Remember(x), Remember(y), d)
    ensures match (RememberStep(a, x), RememberStep(b, y))
            case (Ok(r), Ok(s)) => Alike(r, s, d)
            case (Err(e), Err(f)) => e == StateConflict(View(a)) && f == StateConflict(View(b))
            case _ => false
  {
  }

  lemma MergeAlike(a: Checkpoint, b: Checkpoint, message: string, updates: ContextUpdates, d: int)
    requires Alike(a, b, d)
    ensures Alike(MergeStep(a, message, updates).0, MergeStep(b, message, updates).0, d)
    ensures MergeStep(a, message, updates).1 == MergeStep(b, message, updates).1
  {
  }

  lemma ResetAlike(a: Checkpoint, b: Checkpoint, message: string, updates: ContextUpdates, d: int)
    requires Alike(a, b, d)
    ensures Alike(ResetStep(a, message, updates), ResetStep(b, message, updates), d)
  {
  }

  lemma ResolveAlike(a: Checkpoint, b: Checkpoint, message: string, updates: ContextUpdates, d: int)
    requires Alike(a, b, d)
    ensures Alike(ResolveStep(a, message, updates).0, ResolveStep(b, message, updates).0, d)
    ensures ResolveStep(a, message, updates).1 == ResolveStep(b, message, updates).1
  {
    ResolveResetsOrMerges(a, message, updates);
    ResolveResetsOrMerges(b, message, updates);
    MergeAlike(a, b, message, updates, d);
    ResetAlike(a, b, message, updates, d);
  }

  lemma StepAlike(a: Checkpoint, b: Checkpoint, x: Op, y: Op, d: int)
    requires Alike(a, b, d) && SameOp(x, y, d)
    ensures Alike(Step(a, x).0, Step(b, y).0, d)
    ensures SameOutcome(Step(a, x).1, Step(b, y).1, d)
  {
    match x
    case Answer(answer) => AnswerAlike(a, b, answer, y.answer, d);
    case Remember(args) => RememberAlike(a, b, args, y.args, d);
    case Resolve(message, updates) => ResolveAlike(a, b, message, updates, d);
    case _ =>
  }

  /** What the callers get back, and the context they would read, after each operation. */
  function Visible(c: Checkpoint, ops: seq<Op>): (r: seq<(Outcome, Context)>)
    ensures |r| == |ops|
    decreases |ops|
  {
    if ops == [] then []
    else
      var (next, outcome) := Step(c, ops[0]);
      [(outcome, View(next))] + Visible(next, ops[1..])
  }

  ghost predicate SameOps(xs: seq<Op>, ys: seq<Op>, d: int) {
    |xs| == |ys| && forall i :: 0 <= i < |xs| ==> SameOp(xs[i], ys[i], d)
  }

  ghost predicate SameTrace(s: seq<(Outcome, Context)>, t: seq<(Outcome, Context)>, d: int) {
    |s| == |t| && forall i :: 0 <= i < |s| ==> SameOutcome(s[i].0, t[i].0, d) && SameContext(s[i].1, t[i].1, d)
  }

  lemma {:induction false} RunsAlike(a: Checkpoint, b: Checkpoint, xs: seq<Op>, ys: seq<Op>, d: int)
    requires Alike(a, b, d) && SameOps(xs, ys, d)
    ensures SameTrace(Visible(a, xs), Visible(b, ys), d)
    decreases |xs|
  {
    if xs != [] {
      StepAlike(a, b, xs[0], ys[0], d);
      RunsAlike(Step(a, xs[0]).0, Step(b, ys[0]).0, xs[1..], ys[1..], d);
    }
  }

  lemma PrependTrace(x: Context, y: Context, s: seq<(Outcome, Context)>, t: seq<(Outcome, Context)>, d: int)
    requires SameContext(x, y, d) && SameTrace(s, t, d)
    ensures SameTrace([(Saw(x), x)] + s, [(Saw(y), y)] + t, d)
  {
  }

  /** The trace of a new goal: its start, then the operations on the fresh checkpoint. */
  function GoalTrace(c: Checkpoint, goal: string, ops: seq<Op>): seq<(Outcome, Context)> {
    var next := StartGoalStep(c, goal);
    [(Saw(View(next)), View(next))] + Visible(next, ops)
  }

  lemma {:induction false} VisibleStart(c: Checkpoint, goal: string, ops: seq<Op>)
    ensures Visible(c, [StartGoal(goal)] + ops) == GoalTrace(c, goal, ops)
  {
    assert ([StartGoal(goal)] + ops)[1..] == ops;
  }

  lemma {:induction false} GoalTracesAlike(a: Checkpoint, b: Checkpoint, goal: string, xs: seq<Op>, ys: seq<Op>, d: int)
    requires d == b.stateVersion - a.stateVersion && SameOps(xs, ys, d)
    ensures SameTrace(GoalTrace(a, goal, xs), GoalTrace(b, goal, ys), d)
  {
    var p, q := StartGoalStep(a, goal), StartGoalStep(b, goal);
    StartsAlike(a, b, goal);
    RunsAlike(p, q, xs, ys, d);
    PrependTrace(View(p), View(q), Visible(p, xs), Visible(q, ys), d);
  }

  /** Nothing of the old tasks leaks: no assumption is made on the two checkpoints before the goal. */
  lemma {:induction false} GoalsAreIsolated(a: Checkpoint, b: Checkpoint, goal: string, xs: seq<Op>, ys: seq<Op>)
    requires SameOps(xs, ys, b.stateVersion - a.stateVersion)
    ensures SameTrace(Visible(a, [StartGoal(goal)] + xs), Visible(b, [StartGoal(goal)] + ys),
                      b.stateVersion - a.stateVersion)
  {
    VisibleStart(a, goal, xs);
    VisibleStart(b, goal, ys);
    GoalTracesAlike(a, b, goal, xs, ys, b.stateVersion - a.stateVersion);
  }

  lemma StartsAlike(a: Checkpoint, b: Checkpoint, goal: string)
    ensures var d := b.stateVersion - a.stateVersion;
            && Alike(StartGoalStep(a, goal), StartGoalStep(b, goal), d)
            && SameContext(View(StartGoalStep(a, goal)), View(StartGoalStep(b, goal)), d)
  {
  }
}

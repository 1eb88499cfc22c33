/**
 * `syncer.Group`: tasks that run independently, the first error kept once and for all, cancellation, and `Wait`,
 * in every interleaving.
 */
module ErrorGroup {
  import opened Bytes
  import opened Sums

  /**
   * Where a goroutine started by `Go` is: in `f`; about to enter `errOnce.Do` with `f`'s error; inside, about to write
   * `err`, to cancel, or to leave; about to run its deferred `wg.Done`; or gone.
   */
  datatype Pc = Running | Entering | Writing | Cancelling | LeavingOnce | Deferred | Gone

  /** A task, and what its `f` returned. */
  datatype Task = Task(pc: Pc, result: Option<Error>)

  /** `sync.Once`: `Do` blocks its callers from the time one enters until that one leaves. */
  datatype Once = Fresh | Busy | Over

  /** Where the caller of `Wait` is: not there yet; in `wg.Wait`; about to cancel; about to read `err`; or back. */
  datatype Waiter = Away | Blocked | ToCancel | ToRead | Back(err: Error)

  /** `winner` is history: the task that entered `errOnce` first. */
  datatype State = State(
    hasCancel: bool, cancelled: bool, wg: nat, once: Once, err: Error, waiter: Waiter, tasks: seq<Task>,
    winner: Option<nat>, panicked: bool)

  datatype Step =
    | Go | Wait
    | Returns(c: nat, result: Error) | Enter(c: nat) | Write(c: nat) | Cancel(c: nat) | Leave(c: nat) | Done(c: nat)
    | WaitEnds | WaiterCancels | WaiterReads
    | ParentCancels

  /** A zero `Group` has no cancel function; one from `WithContext` does. */
  function Init(hasCancel: bool): State {
    State(hasCancel, false, 0, Fresh, Nil, Away, [], None, false)
  }

  ghost predicate At(s: State, c: nat, pc: Pc) {
    c < |s.tasks| && s.tasks[c].pc == pc
  }

  /** `Go` may be called while a task is running, or before `Wait`: the wait group's own rule for `Add`. */
  ghost predicate Enabled(s: State, step: Step) {
    && !s.panicked
    && match step
       case Go => s.waiter == Away || s.wg > 0
       case Wait => s.waiter == Away
       case Returns(c, _) => At(s, c, Running)
       case Enter(c) => At(s, c, Entering) && s.once != Busy
       case Write(c) => At(s, c, Writing)
       case Cancel(c) => At(s, c, Cancelling)
       case Leave(c) => At(s, c, LeavingOnce)
       case Done(c) => At(s, c, Deferred)
       case WaitEnds => s.waiter == Blocked && s.wg == 0
       case WaiterCancels => s.waiter == ToCancel
       case WaiterReads => s.waiter == ToRead
       case ParentCancels => s.hasCancel
  }

  function Goto(s: State, c: nat, pc: Pc): State
    requires c < |s.tasks|
  {
    s.(tasks := s.tasks[c := s.tasks[c].(pc := pc)])
  }

  ghost function Apply(s: State, step: Step): State
    requires Enabled(s, step)
  {
    match step
    case Go => s.(tasks := s.tasks + [Task(Running, None)], wg := s.wg + 1)
    case Wait => s.(waiter := Blocked)
    case Returns(c, result) =>
      s.(tasks := s.tasks[c := Task(if result == Nil then Deferred else Entering, Some(result))])
    case Enter(c) =>
      if s.once == Fresh then Goto(s, c, Writing).(once := Busy, winner := Some(c)) else Goto(s, c, Deferred)
    case Write(c) => Goto(s, c, Cancelling).(err := if s.tasks[c].result.Some? then s.tasks[c].result.value else Nil)
    case Cancel(c) => Goto(s, c, LeavingOnce).(cancelled := s.cancelled || s.hasCancel)
    case Leave(c) => Goto(s, c, Deferred).(once := Over)
    case Done(c) => if s.wg == 0 then s.(panicked := true) else Goto(s, c, Gone).(wg := s.wg - 1)
    case WaitEnds => s.(waiter := ToCancel)
    case WaiterCancels => s.(waiter := ToRead, cancelled := s.cancelled || s.hasCancel)
    case WaiterReads => s.(waiter := Back(s.err))
    case ParentCancels => s.(cancelled := true)
  }

  ghost function Run(s: State, steps: seq<Step>): Option<State>
    decreases |steps|
  {
    if steps == [] then
      Some(s)
    else
      match Run(s, steps[..|steps| - 1])
      case None => None
      case Some(m) => if Enabled(m, steps[|steps| - 1]) then Some(Apply(m, steps[|steps| - 1])) else None
  }

  ghost predicate Reachable(s: State) {
    exists hasCancel, steps :: Run(Init(hasCancel), steps) == Some(s)
  }

  // ---------------------------------------------------------------------------------------------
  // The invariant
  // ---------------------------------------------------------------------------------------------

  ghost function Live(t: Task): nat {
    if t.pc.Gone? then 0 else 1
  }

  ghost predicate Failed(t: Task) {
    t.result.Some? && t.result.value != Nil
  }

  predicate Inside(pc: Pc) {
    pc.Writing? || pc.Cancelling? || pc.LeavingOnce?
  }

  /** What a task's place says about its result, the `Once`, and who won. */
  ghost predicate TaskRight(s: State, c: nat, t: Task) {
    match t.pc
    case Running => t.result == None
    case Entering => Failed(t)
    case Deferred => t.result.Some? && (Failed(t) ==> s.once == Over)
    case Gone => t.result.Some? && (Failed(t) ==> s.once == Over)
    case _ => Failed(t) && s.once == Busy && s.winner == Some(c)
  }

  /** What the `Once` says about the winner, the stored error, and cancellation. */
  ghost predicate OnceRight(s: State) {
    match s.once
    case Fresh => s.winner == None && s.err == Nil
    case Busy =>
      && s.winner.Some? && s.winner.value < |s.tasks|
      && var t := s.tasks[s.winner.value];
         && Inside(t.pc) && Failed(t)
         && s.err == (if t.pc.Writing? then Nil else t.result.value)
         && (t.pc.LeavingOnce? && s.hasCancel ==> s.cancelled)
    case Over =>
      && s.winner.Some? && s.winner.value < |s.tasks|
      && var t := s.tasks[s.winner.value];
         && Failed(t) && s.err == t.result.value
         && (s.hasCancel ==> s.cancelled)
  }

  ghost predicate WaiterRight(s: State) {
    match s.waiter
    case Away => true
    case Blocked => true
    case ToCancel => s.wg == 0
    case ToRead => s.wg == 0 && (s.hasCancel ==> s.cancelled)
    case Back(e) => s.wg == 0 && (s.hasCancel ==> s.cancelled) && e == s.err
  }

  ghost predicate Inv(s: State) {
    && !s.panicked && s.wg == Sum(Live, s.tasks)
    && OnceRight(s) && WaiterRight(s)
    && (forall c :: 0 <= c < |s.tasks| ==> TaskRight(s, c, s.tasks[c]))
  }

  lemma InitInv(hasCancel: bool)
    ensures Inv(Init(hasCancel))
  {
  }

  /** While a task is not gone, nobody is past `wg.Wait`. */
  lemma StillLive(s: State, c: nat)
    requires Inv(s) && c < |s.tasks| && !s.tasks[c].pc.Gone?
    ensures s.wg > 0 && (s.waiter == Away || s.waiter == Blocked)
  {
    SumAtLeast(Live, s.tasks, c);
  }

  lemma GoKeepsInv(s: State)
    requires Inv(s) && Enabled(s, Go)
    ensures Inv(Apply(s, Go))
  {
    var u := Apply(s, Go);
    SumAppend(Live, s.tasks, Task(Running, None));
    forall k | 0 <= k < |u.tasks|
      ensures TaskRight(u, k, u.tasks[k])
    {
      if k < |s.tasks| {
        assert TaskRight(s, k, s.tasks[k]);
      }
    }
  }

  predicate OfTask(step: Step) {
    step.Returns? || step.Enter? || step.Write? || step.Cancel? || step.Leave? || step.Done?
  }

  lemma TaskStepCounts(s: State, step: Step)
    requires Inv(s) && Enabled(s, step) && OfTask(step)
    ensures !Apply(s, step).panicked && Apply(s, step).wg == Sum(Live, Apply(s, step).tasks)
    ensures Apply(s, step).waiter == s.waiter && WaiterRight(Apply(s, step))
  {
    StillLive(s, step.c);
    SumUpdate(Live, s.tasks, step.c, Apply(s, step).tasks[step.c]);
  }

  lemma TaskStepOnce(s: State, step: Step)
    requires Inv(s) && Enabled(s, step) && OfTask(step)
    ensures OnceRight(Apply(s, step))
  {
    assert TaskRight(s, step.c, s.tasks[step.c]);
    StillLive(s, step.c);
  }

  lemma TaskStepTasks(s: State, step: Step, k: nat)
    requires Inv(s) && Enabled(s, step) && OfTask(step) && k < |s.tasks|
    ensures k < |Apply(s, step).tasks| && TaskRight(Apply(s, step), k, Apply(s, step).tasks[k])
  {
    assert TaskRight(s, step.c, s.tasks[step.c]);
    assert TaskRight(s, k, s.tasks[k]);
    StillLive(s, step.c);
  }

  lemma StepKeepsInv(s: State, step: Step)
    requires Inv(s) && Enabled(s, step)
    ensures Inv(Apply(s, step))
  {
    var u := Apply(s, step);
    if step.Go? {
      GoKeepsInv(s);
    } else if OfTask(step) {
      TaskStepCounts(s, step);
      TaskStepOnce(s, step);
      forall k | 0 <= k < |u.tasks|
        ensures TaskRight(u, k, u.tasks[k])
      {
        TaskStepTasks(s, step, k);
      }
    } else {
      forall k | 0 <= k < |u.tasks|
        ensures TaskRight(u, k, u.tasks[k])
      {
        assert TaskRight(s, k, s.tasks[k]);
      }
    }
  }

  lemma {:induction false} RunKeepsInv(s: State, steps: seq<Step>, t: State)
    requires Inv(s) && Run(s, steps) == Some(t)
    ensures Inv(t)
    decreases |steps|
  {
    if steps != [] {
      var m := Run(s, steps[..|steps| - 1]).value;
      RunKeepsInv(s, steps[..|steps| - 1], m);
      StepKeepsInv(m, steps[|steps| - 1]);
    }
  }

  lemma ReachableInv(s: State)
    requires Reachable(s)
    ensures Inv(s)
  {
    var hasCancel, steps :| Run(Init(hasCancel), steps) == Some(s);
    InitInv(hasCancel);
    RunKeepsInv(Init(hasCancel), steps, s);
  }

  // ---------------------------------------------------------------------------------------------
  // What `Wait` returns
  // ---------------------------------------------------------------------------------------------

  /**
   * `Wait` returns nil exactly when every task returned nil, and otherwise the error of the one task that won
   * `errOnce`; all tasks are gone by then, and the context is cancelled.
   */
  lemma WaitReturnsFirstError(s: State)
    requires Reachable(s) && s.waiter.Back?
    ensures forall c :: 0 <= c < |s.tasks| ==> s.tasks[c].pc == Gone && s.tasks[c].result.Some?
    ensures s.waiter.err == Nil <==> forall c :: 0 <= c < |s.tasks| ==> s.tasks[c].result == Some(Nil)
    ensures s.waiter.err != Nil ==>
            s.winner.Some? && s.winner.value < |s.tasks| && s.tasks[s.winner.value].result == Some(s.waiter.err)
    ensures s.hasCancel ==> s.cancelled
  {
    ReachableInv(s);
    forall c | 0 <= c < |s.tasks|
      ensures s.tasks[c].pc == Gone && s.tasks[c].result.Some? && (Failed(s.tasks[c]) ==> s.once == Over)
    {
      assert TaskRight(s, c, s.tasks[c]);
      SumAtLeast(Live, s.tasks, c);
    }
  }

  /** A failing task's `Done` comes after the first error is stored and the context cancelled. */
  lemma DoneComesAfterError(s: State, c: nat)
    requires Reachable(s) && Enabled(s, Done(c)) && Failed(s.tasks[c])
    ensures s.err != Nil && s.winner.Some? && s.winner.value < |s.tasks| &&
            s.tasks[s.winner.value].result == Some(s.err)
    ensures s.hasCancel ==> s.cancelled
  {
    ReachableInv(s);
    assert TaskRight(s, c, s.tasks[c]);
  }

  lemma StepKeepsError(s: State, step: Step)
    requires Inv(s) && Enabled(s, step)
    ensures s.err != Nil ==> Apply(s, step).err == s.err
    ensures s.winner.Some? ==> Apply(s, step).winner == s.winner
    ensures s.waiter.Back? ==> Apply(s, step).waiter == s.waiter
  {
    if step.Write? || step.Enter? {
      assert TaskRight(s, step.c, s.tasks[step.c]);
    }
  }

  /** Once stored, the error never changes, nor does the winner, nor what `Wait` returned. */
  lemma {:induction false} ErrorIsStable(s: State, steps: seq<Step>, t: State)
    requires Inv(s) && Run(s, steps) == Some(t)
    ensures s.err != Nil ==> t.err == s.err
    ensures s.winner.Some? ==> t.winner == s.winner
    ensures s.waiter.Back? ==> t.waiter == s.waiter
    decreases |steps|
  {
    if steps != [] {
      var before := steps[..|steps| - 1];
      var m := Run(s, before).value;
      ErrorIsStable(s, before, m);
      RunKeepsInv(s, before, m);
      StepKeepsError(m, steps[|steps| - 1]);
    }
  }

  // ---------------------------------------------------------------------------------------------
  // `Wait` returns
  // ---------------------------------------------------------------------------------------------

  ghost function TaskRank(t: Task): nat {
    match t.pc
    case Running => 6
    case Entering => 5
    case Writing => 4
    case Cancelling => 3
    case LeavingOnce => 2
    case Deferred => 1
    case Gone => 0
  }

  ghost function Rank(s: State): nat {
    Sum(TaskRank, s.tasks) +
    match s.waiter
    case Away => 4
    case Blocked => 3
    case ToCancel => 2
    case ToRead => 1
    case Back(_) => 0
  }

  lemma TaskGoesOn(s: State, step: Step)
    requires Inv(s) && Enabled(s, step) && OfTask(step)
    ensures var u := Apply(s, step);
            && step.c < |s.tasks| == |u.tasks| && u.waiter == s.waiter
            && u.tasks == s.tasks[step.c := u.tasks[step.c]]
            && TaskRank(u.tasks[step.c]) < TaskRank(s.tasks[step.c])
  {
    StillLive(s, step.c);
  }

  lemma TaskRankFalls(s: State, step: Step)
    requires Inv(s) && Enabled(s, step) && OfTask(step)
    ensures Rank(Apply(s, step)) < Rank(s)
  {
    TaskGoesOn(s, step);
    SumUpdate(TaskRank, s.tasks, step.c, Apply(s, step).tasks[step.c]);
  }

  lemma RankFalls(s: State, step: Step)
    requires Inv(s) && Enabled(s, step) && !step.Go? && !step.ParentCancels?
    ensures Rank(Apply(s, step)) < Rank(s)
  {
    if OfTask(step) {
      TaskRankFalls(s, step);
    }
  }

  /** A step that waits for no task's `f`: only `errOnce`'s losers ever wait, and then the winner can go on. */
  predicate Prompt(step: Step) {
    !step.Go? && !step.ParentCancels? && !step.Returns? && !step.Wait?
  }

  /** A task whose `f` has returned can go on, or its place in `errOnce` is held by one that can; nobody need wait. */
  lemma TasksNeverStick(s: State, c: nat) returns (step: Step)
    requires Reachable(s) && c < |s.tasks| && s.tasks[c].pc != Running && s.tasks[c].pc != Gone
    ensures OfTask(step) && Prompt(step) && Enabled(s, step) && Rank(Apply(s, step)) < Rank(s)
  {
    ReachableInv(s);
    assert TaskRight(s, c, s.tasks[c]);
    var k: nat := c;
    if s.tasks[c].pc == Entering && s.once == Busy {
      k := s.winner.value;
    }
    var pc := s.tasks[k].pc;
    step := if pc == Entering then Enter(k)
            else if pc == Writing then Write(k)
            else if pc == Cancelling then Cancel(k)
            else if pc == LeavingOnce then Leave(k)
            else Done(k);
    RankFalls(s, step);
  }

  /** While somebody is in `Wait` and every `f` has returned, `Wait` or a task can take a step. */
  lemma WaitNeverSticks(s: State) returns (step: Step)
    requires Reachable(s) && s.waiter != Away && !s.waiter.Back?
    requires forall c :: 0 <= c < |s.tasks| ==> s.tasks[c].pc != Running
    ensures Prompt(step) && Enabled(s, step) && Rank(Apply(s, step)) < Rank(s)
  {
    ReachableInv(s);
    if s.waiter == Blocked && s.wg > 0 {
      var c := SumPositive(Live, s.tasks);
      step := TasksNeverStick(s, c);
    } else {
      step := if s.waiter == ToCancel then WaiterCancels else if s.waiter == ToRead then WaiterReads else WaitEnds;
      RankFalls(s, step);
    }
  }

  // ---------------------------------------------------------------------------------------------
  // The steps of a run, and what the group makes of them
  // ---------------------------------------------------------------------------------------------

  /** The first task to enter `errOnce`. */
  ghost function FirstEntered(steps: seq<Step>): Option<nat> {
    if steps == [] then None
    else
      var earlier := FirstEntered(steps[..|steps| - 1]);
      var step := steps[|steps| - 1];
      if earlier == None && step.Enter? then Some(step.c) else earlier
  }

  /** Every `Go` has its task, and every task the error that its `f` returned, if it did. */
  ghost predicate ResultsKept(steps: seq<Step>, s: State) {
    && |s.tasks| == multiset(steps)[Go]
    && forall c: nat, e :: Returns(c, e) in steps <==> c < |s.tasks| && s.tasks[c].result == Some(e)
  }

  ghost predicate SomeFailed(steps: seq<Step>) {
    exists c: nat, e :: e != Nil && Returns(c, e) in steps
  }

  /** The context is cancelled by its parent, by an error, or by `Wait` at its end; and by its parent at once. */
  ghost predicate CancelledRightly(steps: seq<Step>, s: State) {
    && (ParentCancels in steps ==> s.cancelled)
    && (s.cancelled ==>
          s.hasCancel && (ParentCancels in steps || SomeFailed(steps) || s.waiter.ToRead? || s.waiter.Back?))
  }

  lemma StepKeepsResults(steps: seq<Step>, s: State, step: Step)
    requires Inv(s) && ResultsKept(steps, s) && Enabled(s, step)
    ensures ResultsKept(steps + [step], Apply(s, step))
  {
    var u := Apply(s, step);
    assert multiset(steps + [step]) == multiset(steps) + multiset{step};
    forall c: nat, e
      ensures Returns(c, e) in steps + [step] <==> c < |u.tasks| && u.tasks[c].result == Some(e)
    {
      assert Returns(c, e) in steps + [step] <==> Returns(c, e) in steps || step == Returns(c, e);
      if step.Returns? {
        assert TaskRight(s, step.c, s.tasks[step.c]);
      }
    }
  }

  lemma StepKeepsWinner(steps: seq<Step>, s: State, step: Step)
    requires Inv(s) && s.winner == FirstEntered(steps) && Enabled(s, step)
    ensures Apply(s, step).winner == FirstEntered(steps + [step]) && Apply(s, step).hasCancel == s.hasCancel
  {
    assert (steps + [step])[..|steps|] == steps;
  }

  lemma StepKeepsCancelled(steps: seq<Step>, s: State, step: Step)
    requires Inv(s) && ResultsKept(steps, s) && CancelledRightly(steps, s) && Enabled(s, step)
    ensures CancelledRightly(steps + [step], Apply(s, step))
  {
    assert forall x :: x in steps + [step] <==> x in steps || x == step;
    if step.Cancel? {
      assert TaskRight(s, step.c, s.tasks[step.c]);
      assert Returns(step.c, s.tasks[step.c].result.value) in steps;
    }
  }

  ghost predicate DonesGone(steps: seq<Step>, s: State) {
    forall c: nat :: Done(c) in steps ==> c < |s.tasks| && s.tasks[c].pc == Gone
  }

  lemma StepKeepsGone(steps: seq<Step>, s: State, step: Step)
    requires Inv(s) && DonesGone(steps, s) && Enabled(s, step)
    ensures DonesGone(steps + [step], Apply(s, step))
  {
    assert forall x :: x in steps + [step] <==> x in steps || x == step;
    if step.Done? {
      StillLive(s, step.c);
    }
  }

  /** What holds after the steps of a run from the start. */
  ghost predicate Kept(hasCancel: bool, steps: seq<Step>, s: State) {
    && Inv(s) && s.hasCancel == hasCancel && s.winner == FirstEntered(steps)
    && ResultsKept(steps, s) && CancelledRightly(steps, s) && DonesGone(steps, s)
  }

  lemma StepKeeps(hasCancel: bool, steps: seq<Step>, s: State, step: Step)
    requires Kept(hasCancel, steps, s) && Enabled(s, step)
    ensures Kept(hasCancel, steps + [step], Apply(s, step))
  {
    StepKeepsInv(s, step);
    StepKeepsResults(steps, s, step);
    StepKeepsWinner(steps, s, step);
    StepKeepsCancelled(steps, s, step);
    StepKeepsGone(steps, s, step);
  }

  lemma NothingKept(hasCancel: bool)
    ensures Kept(hasCancel, [], Init(hasCancel))
  {
    assert FirstEntered([]) == None;
  }

  /** What holds at the start, and is kept by every step, holds after every run. */
  lemma {:induction false} RunInduction(start: State, steps: seq<Step>, s: State, good: (seq<Step>, State) -> bool)
    requires good([], start) && Run(start, steps) == Some(s)
    requires forall before, m, step :: good(before, m) && Enabled(m, step) ==> good(before + [step], Apply(m, step))
    ensures good(steps, s)
    decreases |steps|
  {
    if steps != [] {
      var before, step := steps[..|steps| - 1], steps[|steps| - 1];
      RunInduction(start, before, Run(start, before).value, good);
      assert before + [step] == steps;
    }
  }

  lemma RunKept(hasCancel: bool, steps: seq<Step>, s: State)
    requires Run(Init(hasCancel), steps) == Some(s)
    ensures Kept(hasCancel, steps, s)
  {
    var good := (before: seq<Step>, m: State) => Kept(hasCancel, before, m);
    NothingKept(hasCancel);
    forall before, m, step | good(before, m) && Enabled(m, step)
      ensures good(before + [step], Apply(m, step))
    {
      StepKeeps(hasCancel, before, m, step);
    }
    RunInduction(Init(hasCancel), steps, s, good);
  }

  ghost predicate HasReturned(steps: seq<Step>, c: nat) {
    exists e :: Returns(c, e) in steps
  }

  /**
   * `Wait`, told by the steps alone: when it is back, the `f` of every `Go` has returned; it returned nil exactly if
   * all of them did, and otherwise what the `f` of the first task to enter `errOnce` returned.
   */
  lemma WaitReturnsWhatFReturned(hasCancel: bool, steps: seq<Step>, s: State)
    requires Run(Init(hasCancel), steps) == Some(s) && s.waiter.Back?
    ensures forall c: nat :: c < multiset(steps)[Go] ==> HasReturned(steps, c)
    ensures s.waiter.err == Nil <==> !SomeFailed(steps)
    ensures s.waiter.err != Nil ==>
            FirstEntered(steps).Some? && Returns(FirstEntered(steps).value, s.waiter.err) in steps
    ensures hasCancel ==> s.cancelled
  {
    RunKept(hasCancel, steps, s);
    assert Reachable(s);
    WaitReturnsFirstError(s);
    FromResults(steps, s);
  }

  lemma FromResults(steps: seq<Step>, s: State)
    requires ResultsKept(steps, s)
    requires forall c :: 0 <= c < |s.tasks| ==> s.tasks[c].result.Some?
    ensures forall c: nat :: c < multiset(steps)[Go] ==> HasReturned(steps, c)
    ensures SomeFailed(steps) <==> exists c :: 0 <= c < |s.tasks| && s.tasks[c].result != Some(Nil)
  {
    forall c: nat | c < |s.tasks|
      ensures Returns(c, s.tasks[c].result.value) in steps && HasReturned(steps, c)
    {
    }
  }

  /** `Wait` does come back: when every `f` has returned and no task and no `Wait` can go on by itself, it has. */
  lemma WaitComesBack(hasCancel: bool, steps: seq<Step>, s: State)
    requires Run(Init(hasCancel), steps) == Some(s) && s.waiter != Away
    requires forall c: nat :: c < multiset(steps)[Go] ==> HasReturned(steps, c)
    requires forall step :: Prompt(step) ==> !Enabled(s, step)
    ensures s.waiter.Back?
  {
    RunKept(hasCancel, steps, s);
    assert Reachable(s);
    forall c | 0 <= c < |s.tasks|
      ensures s.tasks[c].pc != Running
    {
      assert HasReturned(steps, c);
      assert TaskRight(s, c, s.tasks[c]);
    }
    if !s.waiter.Back? {
      var step := WaitNeverSticks(s);
      assert false;
    }
  }

  /** What callers, tasks and the parent context may do at any time is never held up. */
  lemma CallersAreFree(s: State)
    requires Reachable(s)
    ensures forall c, e :: 0 <= c < |s.tasks| && s.tasks[c].pc == Running ==> Enabled(s, Returns(c, e))
    ensures s.waiter == Away ==> Enabled(s, Go) && Enabled(s, Wait)
    ensures forall c :: 0 <= c < |s.tasks| && s.tasks[c].pc != Gone ==> Enabled(s, Go)
    ensures s.hasCancel ==> Enabled(s, ParentCancels)
  {
    ReachableInv(s);
    forall c | 0 <= c < |s.tasks| && s.tasks[c].pc != Gone
      ensures Enabled(s, Go)
    {
      StillLive(s, c);
    }
  }

  /** The context is never cancelled without a reason, and not late: a failing task's `Done` comes after it. */
  lemma CancelledForAReason(hasCancel: bool, steps: seq<Step>, s: State)
    requires Run(Init(hasCancel), steps) == Some(s)
    ensures CancelledRightly(steps, s)
    ensures forall c: nat, e :: hasCancel && e != Nil && Returns(c, e) in steps && Done(c) in steps ==> s.cancelled
  {
    RunKept(hasCancel, steps, s);
    forall c: nat, e | hasCancel && e != Nil && Returns(c, e) in steps && Done(c) in steps
      ensures s.cancelled
    {
      assert TaskRight(s, c, s.tasks[c]);
    }
  }

}

/**
 * `AsyncWithContext`: a check run in the background, its latest result kept in a channel of capacity one that serves
 * as both lock and register, for one updater and any number of readers, in every interleaving.
 */
module AsyncCell {
  import opened Bytes
  import opened Sums

  /** `ErrNoData`, what the channel holds before the first update. */
  const ErrNoData: Error := Other(0)

  /**
   * Where the updater is: running the check; about to take the old value out (`<-result`); about to put its own in;
   * at the `select` between ticker and context; or gone.
   */
  datatype Updater = Checking | Taking(v: Error) | Putting(v: Error) | Selecting | Exited

  /**
   * A call of the returned `Check`: before its receive; between receive and put-back; after the put-back; or returned.
   * `inv`, `pos` and `ret` are positions in the history: its length at the call, the read itself, its length at
   * the return.
   */
  datatype Call =
    | Waiting(inv: nat)
    | Holding(inv: nat, pos: nat, v: Error)
    | Leaving(inv: nat, pos: nat, v: Error)
    | Returned(inv: nat, pos: nat, ret: nat, v: Error)

  /** The register operations in the order they took effect. */
  datatype Op = Wrote(v: Error) | Read(call: nat, v: Error)

  /** `checked` and `history` are history: the results of the checks so far, and the register operations. */
  datatype State = State(
    cell: Option<Error>, updater: Updater, cancelled: bool, calls: seq<Call>, checked: seq<Error>, history: seq<Op>)

  datatype Step =
    | CheckReturns(v: Error) | UpdaterTakes | UpdaterPuts | Tick | Exit
    | Cancel
    | Begin | Take(r: nat) | PutBack(r: nat) | Return(r: nat)

  function Init(): State {
    State(Some(ErrNoData), Checking, false, [], [], [])
  }

  /** A receive needs a value in the channel, a send needs room for one. */
  predicate Enabled(s: State, step: Step) {
    match step
    case CheckReturns(_) => s.updater == Checking
    case UpdaterTakes => s.updater.Taking? && s.cell.Some?
    case UpdaterPuts => s.updater.Putting? && s.cell.None?
    case Tick => s.updater == Selecting
    case Exit => s.updater == Selecting && s.cancelled
    case Cancel => true
    case Begin => true
    case Take(r) => r < |s.calls| && s.calls[r].Waiting? && s.cell.Some?
    case PutBack(r) => r < |s.calls| && s.calls[r].Holding? && s.cell.None?
    case Return(r) => r < |s.calls| && s.calls[r].Leaving?
  }

  function Apply(s: State, step: Step): State
    requires Enabled(s, step)
  {
    match step
    case CheckReturns(v) => s.(updater := Taking(v), checked := s.checked + [v])
    case UpdaterTakes => s.(cell := None, updater := Putting(s.updater.v))
    case UpdaterPuts => s.(cell := Some(s.updater.v), updater := Selecting, history := s.history + [Wrote(s.updater.v)])
    case Tick => s.(updater := Checking)
    case Exit => s.(updater := Exited)
    case Cancel => s.(cancelled := true)
    case Begin => s.(calls := s.calls + [Waiting(|s.history|)])
    case Take(r) =>
      var v := s.cell.value;
      s.(cell := None, calls := s.calls[r := Holding(s.calls[r].inv, |s.history|, v)],
         history := s.history + [Read(r, v)])
    case PutBack(r) =>
      var c := s.calls[r];
      s.(cell := Some(c.v), calls := s.calls[r := Leaving(c.inv, c.pos, c.v)])
    case Return(r) =>
      var c := s.calls[r];
      s.(calls := s.calls[r := Returned(c.inv, c.pos, |s.history|, c.v)])
  }

  ghost function Run(s: State, steps: seq<Step>): Option<State>
    decreases |steps|
  {
    if steps == [] then
      Some(s)
    else
      match Run(s, steps[..|steps| - 1])
      case None => None
      case Some(m) => if Enabled(m, steps[|steps| - 1]) then Some(Apply(m, steps[|steps| - 1])) else None
  }

  ghost predicate Reachable(s: State) {
    exists steps :: Run(Init(), steps) == Some(s)
  }

  // ---------------------------------------------------------------------------------------------
  // The sequential register
  // ---------------------------------------------------------------------------------------------

  /** The value the register holds after a history, and how many updates that took. */
  function Latest(history: seq<Op>): Error {
    if history == [] then ErrNoData
    else match history[|history| - 1]
      case Wrote(v) => v
      case Read(_, _) => Latest(history[..|history| - 1])
  }

  ghost function Updates(history: seq<Op>): nat {
    if history == [] then 0
    else Updates(history[..|history| - 1]) + (if history[|history| - 1].Wrote? then 1 else 0)
  }

  /** The values written, in order. */
  ghost function Written(history: seq<Op>): seq<Error> {
    if history == [] then []
    else Written(history[..|history| - 1]) +
         (if history[|history| - 1].Wrote? then [history[|history| - 1].v] else [])
  }

  /** The register holds the last value written. */
  lemma {:induction false} LatestIsLastWritten(history: seq<Op>)
    ensures |Written(history)| == Updates(history)
    ensures Latest(history) ==
            if Updates(history) == 0 then ErrNoData else Written(history)[Updates(history) - 1]
    decreases |history|
  {
    if history != [] {
      LatestIsLastWritten(history[..|history| - 1]);
    }
  }

  lemma {:induction false} WrittenPrefix(history: seq<Op>, i: nat)
    requires i <= |history|
    ensures Written(history[..i]) <= Written(history)
    decreases |history|
  {
    if i < |history| {
      WrittenPrefix(history[..|history| - 1], i);
      assert history[..|history| - 1][..i] == history[..i];
    } else {
      assert history[..i] == history;
    }
  }

  /** The number of updates made before position `pos`. */
  ghost function UpdatesBefore(history: seq<Op>, pos: nat): nat {
    Updates(if pos <= |history| then history[..pos] else history)
  }

  /** A history of a register: every read returns what the latest write before it wrote. */
  ghost predicate Legal(history: seq<Op>) {
    forall i :: 0 <= i < |history| && history[i].Read? ==> history[i].v == Latest(history[..i])
  }

  lemma LatestAppend(history: seq<Op>, op: Op)
    ensures Latest(history + [op]) == if op.Wrote? then op.v else Latest(history)
  {
    assert (history + [op])[..|history|] == history;
  }

  lemma LegalAppend(history: seq<Op>, op: Op)
    requires Legal(history) && (op.Read? ==> op.v == Latest(history))
    ensures Legal(history + [op])
  {
    var h := history + [op];
    assert h[..|history|] == history;
    forall i | 0 <= i < |h| && h[i].Read?
      ensures h[i].v == Latest(h[..i])
    {
      if i < |history| {
        assert h[..i] == history[..i];
      }
    }
  }

  lemma {:induction false} UpdatesGrow(history: seq<Op>, i: nat, j: nat)
    requires i <= j <= |history|
    ensures Updates(history[..i]) <= Updates(history[..j])
    decreases j
  {
    if i < j {
      UpdatesGrow(history, i, j - 1);
      assert history[..j][..j - 1] == history[..j - 1];
    }
  }

  // ---------------------------------------------------------------------------------------------
  // The invariant
  // ---------------------------------------------------------------------------------------------

  ghost function Holds(c: Call): nat {
    if c.Holding? then 1 else 0
  }

  /** The value in the channel plus those in some process's hands. */
  ghost function Tokens(s: State): nat {
    (if s.cell.Some? then 1 else 0) + (if s.updater.Putting? then 1 else 0) + Sum(Holds, s.calls)
  }

  ghost predicate CallRight(history: seq<Op>, r: nat, c: Call) {
    && c.inv <= |history|
    && (c.Waiting? || (c.inv <= c.pos < |history| && history[c.pos] == Read(r, c.v)))
    && (c.Holding? ==> c.v == Latest(history))
    && (c.Returned? ==> c.pos < c.ret <= |history|)
  }

  /** Every read in the history belongs to a call that has taken effect there, and nowhere else. */
  ghost predicate ReadsOnce(s: State) {
    forall i :: 0 <= i < |s.history| ==> OwnRead(s, i)
  }

  ghost predicate OwnRead(s: State, i: nat)
    requires i < |s.history|
  {
    s.history[i].Read? ==>
      var r := s.history[i].call;
      r < |s.calls| && !s.calls[r].Waiting? && s.calls[r].pos == i
  }

  /** What was written, and then what the updater has in hand, are the results of the checks. */
  ghost predicate ResultsInOrder(s: State) {
    s.checked == if s.updater.Taking? || s.updater.Putting? then Written(s.history) + [s.updater.v]
                 else Written(s.history)
  }

  /** One token; the history is a register's and holds the checks' results; the channel holds the latest value. */
  ghost predicate Register(s: State) {
    && Tokens(s) == 1
    && ResultsInOrder(s)
    && (s.updater == Exited ==> s.cancelled)
    && Legal(s.history)
    && (s.cell.Some? ==> s.cell.value == Latest(s.history))
  }

  ghost predicate CallsRight(s: State) {
    forall r :: 0 <= r < |s.calls| ==> CallRight(s.history, r, s.calls[r])
  }

  ghost predicate Inv(s: State) {
    Register(s) && CallsRight(s) && ReadsOnce(s)
  }

  lemma OnlyHolder(s: State, r: nat)
    requires Inv(s) && r < |s.calls| && s.calls[r].Holding?
    ensures s.cell.None? && !s.updater.Putting?
  {
    SumAtLeast(Holds, s.calls, r);
  }

  lemma WrittenAppend(history: seq<Op>, op: Op)
    ensures Written(history + [op]) == if op.Wrote? then Written(history) + [op.v] else Written(history)
  {
    assert (history + [op])[..|history|] == history;
  }

  lemma StepKeepsTokens(s: State, step: Step)
    requires Tokens(s) == 1 && Enabled(s, step)
    ensures Tokens(Apply(s, step)) == 1
  {
    if step.Begin? {
      SumAppend(Holds, s.calls, Waiting(|s.history|));
    } else if step.Take? || step.PutBack? || step.Return? {
      SumUpdate(Holds, s.calls, step.r, Apply(s, step).calls[step.r]);
    }
  }

  lemma StepKeepsResults(s: State, step: Step)
    requires ResultsInOrder(s) && Enabled(s, step)
    ensures ResultsInOrder(Apply(s, step))
  {
    match step
    case UpdaterPuts => WrittenAppend(s.history, Wrote(s.updater.v));
    case Take(r) => WrittenAppend(s.history, Read(r, s.cell.value));
    case _ =>
  }

  lemma StepKeepsRegister(s: State, step: Step)
    requires Inv(s) && Enabled(s, step)
    ensures Register(Apply(s, step))
  {
    StepKeepsTokens(s, step);
    StepKeepsResults(s, step);
    match step
    case Take(r) => LegalAppend(s.history, Read(r, s.cell.value));
    case UpdaterPuts =>
      LegalAppend(s.history, Wrote(s.updater.v));
      LatestAppend(s.history, Wrote(s.updater.v));
    case PutBack(r) => assert CallRight(s.history, r, s.calls[r]);
    case _ =>
  }

  /** While a call holds the token, nothing new is written. */
  lemma StepKeepsCall(s: State, step: Step, k: nat)
    requires Inv(s) && Enabled(s, step) && k < |s.calls|
    ensures CallRight(Apply(s, step).history, k, Apply(s, step).calls[k])
  {
    assert CallRight(s.history, k, s.calls[k]);
    if s.calls[k].Holding? {
      OnlyHolder(s, k);
    } else if step == Take(k) {
      LatestAppend(s.history, Read(k, s.cell.value));
    }
  }

  lemma StepKeepsCalls(s: State, step: Step)
    requires Inv(s) && Enabled(s, step)
    ensures CallsRight(Apply(s, step))
  {
    var u := Apply(s, step);
    forall k | 0 <= k < |u.calls|
      ensures CallRight(u.history, k, u.calls[k])
    {
      if k < |s.calls| {
        StepKeepsCall(s, step, k);
      }
    }
  }

  /** A read enters the history only with the call that makes it, and that call never reads again. */
  lemma StepKeepsReadsOnce(s: State, step: Step)
    requires ReadsOnce(s) && Enabled(s, step)
    ensures ReadsOnce(Apply(s, step))
  {
    var u := Apply(s, step);
    forall i | 0 <= i < |u.history|
      ensures OwnRead(u, i)
    {
      if i < |s.history| {
        assert OwnRead(s, i);
      }
    }
  }

  lemma StepKeepsInv(s: State, step: Step)
    requires Inv(s) && Enabled(s, step)
    ensures Inv(Apply(s, step))
  {
    StepKeepsRegister(s, step);
    StepKeepsCalls(s, step);
    StepKeepsReadsOnce(s, step);
  }

  lemma {:induction false} RunKeepsInv(s: State, steps: seq<Step>, t: State)
    requires Inv(s) && Run(s, steps) == Some(t)
    ensures Inv(t)
    decreases |steps|
  {
    if steps != [] {
      var m := Run(s, steps[..|steps| - 1]).value;
      RunKeepsInv(s, steps[..|steps| - 1], m);
      StepKeepsInv(m, steps[|steps| - 1]);
    }
  }

  lemma ReachableInv(s: State)
    requires Reachable(s)
    ensures Inv(s)
  {
    var steps :| Run(Init(), steps) == Some(s);
    RunKeepsInv(Init(), steps, s);
  }

  // ---------------------------------------------------------------------------------------------
  // The steps of a run, and what the cell makes of them
  // ---------------------------------------------------------------------------------------------

  /** What the check returned, time after time. */
  ghost function Results(steps: seq<Step>): seq<Error> {
    if steps == [] then []
    else
      var earlier := Results(steps[..|steps| - 1]);
      var step := steps[|steps| - 1];
      if step.CheckReturns? then earlier + [step.v] else earlier
  }

  /** One check at the start and one for each tick; updates, calls, returns and cancellation come from their steps. */
  ghost predicate EventsKept(steps: seq<Step>, s: State) {
    && |s.checked| + (if s.updater == Checking then 1 else 0) == 1 + multiset(steps)[Tick]
    && UpdatesKept(steps, s)
    && |s.calls| == multiset(steps)[Begin]
    && (s.cancelled <==> Cancel in steps) && ReturnsKept(steps, s)
  }

  ghost predicate UpdatesKept(steps: seq<Step>, s: State) {
    Updates(s.history) == multiset(steps)[UpdaterPuts]
  }

  ghost predicate ReturnsKept(steps: seq<Step>, s: State) {
    forall r: nat :: Return(r) in steps <==> r < |s.calls| && s.calls[r].Returned?
  }

  lemma StepKeepsReturns(steps: seq<Step>, s: State, step: Step)
    requires ReturnsKept(steps, s) && Enabled(s, step)
    ensures ReturnsKept(steps + [step], Apply(s, step))
  {
    assert forall x :: x in steps + [step] <==> x in steps || x == step;
  }

  lemma OneMoreStep(steps: seq<Step>, step: Step, x: Step)
    ensures multiset(steps + [step])[x] == multiset(steps)[x] + (if step == x then 1 else 0)
    ensures x in steps + [step] <==> x in steps || x == step
  {
    assert multiset(steps + [step]) == multiset(steps) + multiset{step};
  }

  ghost predicate Kept(steps: seq<Step>, s: State) {
    Inv(s) && s.checked == Results(steps) && EventsKept(steps, s)
  }

  lemma UpdatesAppend(history: seq<Op>, op: Op)
    ensures Updates(history + [op]) == Updates(history) + (if op.Wrote? then 1 else 0)
  {
    assert (history + [op])[..|history|] == history;
  }

  lemma StepKeepsUpdates(steps: seq<Step>, s: State, step: Step)
    requires UpdatesKept(steps, s) && Enabled(s, step)
    ensures UpdatesKept(steps + [step], Apply(s, step))
  {
    OneMoreStep(steps, step, UpdaterPuts);
    if step.UpdaterPuts? {
      UpdatesAppend(s.history, Wrote(s.updater.v));
    } else if step.Take? {
      UpdatesAppend(s.history, Read(step.r, s.cell.value));
    }
  }

  lemma StepKeepsEvents(steps: seq<Step>, s: State, step: Step)
    requires EventsKept(steps, s) && Enabled(s, step)
    ensures EventsKept(steps + [step], Apply(s, step))
  {
    OneMoreStep(steps, step, Tick);
    OneMoreStep(steps, step, Begin);
    OneMoreStep(steps, step, Cancel);
    StepKeepsUpdates(steps, s, step);
    StepKeepsReturns(steps, s, step);
  }

  lemma StepKeeps(steps: seq<Step>, s: State, step: Step)
    requires Kept(steps, s) && Enabled(s, step)
    ensures Kept(steps + [step], Apply(s, step))
  {
    StepKeepsInv(s, step);
    StepKeepsEvents(steps, s, step);
    assert (steps + [step])[..|steps|] == steps;
  }

  lemma NothingKept()
    ensures Kept([], Init())
  {
  }

  /** What holds at the start, and is kept by every step, holds after every run. */
  lemma {:induction false} RunInduction(start: State, steps: seq<Step>, s: State, good: (seq<Step>, State) -> bool)
    requires good([], start) && Run(start, steps) == Some(s)
    requires forall before, m, step :: good(before, m) && Enabled(m, step) ==> good(before + [step], Apply(m, step))
    ensures good(steps, s)
    decreases |steps|
  {
    if steps != [] {
      var before, step := steps[..|steps| - 1], steps[|steps| - 1];
      RunInduction(start, before, Run(start, before).value, good);
      assert before + [step] == steps;
    }
  }

  lemma RunKept(steps: seq<Step>, s: State)
    requires Run(Init(), steps) == Some(s)
    ensures Kept(steps, s)
  {
    var good := (before: seq<Step>, m: State) => Kept(before, m);
    NothingKept();
    forall before, m, step | good(before, m) && Enabled(m, step)
      ensures good(before + [step], Apply(m, step))
    {
      StepKeeps(before, m, step);
    }
    RunInduction(Init(), steps, s, good);
  }

  /** Checks come from ticks, each result is one that the check returned, and `Begin` and `Return` from the callers. */
  lemma ChecksFollowTicks(steps: seq<Step>, s: State)
    requires Run(Init(), steps) == Some(s)
    ensures s.checked == Results(steps) && EventsKept(steps, s)
  {
    RunKept(steps, s);
  }

  // ---------------------------------------------------------------------------------------------
  // A linearizable register
  // ---------------------------------------------------------------------------------------------

  /**
   * The history is a legal one, and every call that has returned took effect in it exactly once, after it was made and
   * before it returned: it returned the updater's latest completed put.
   */
  lemma ReadsAreLinearizable(s: State, r: nat)
    requires Reachable(s) && r < |s.calls| && s.calls[r].Returned?
    ensures var c := s.calls[r];
            && Legal(s.history)
            && c.inv <= c.pos < c.ret <= |s.history| && s.history[c.pos] == Read(r, c.v)
            && (forall i :: 0 <= i < |s.history| && s.history[i].Read? && s.history[i].call == r ==> i == c.pos)
            && c.v == Latest(s.history[..c.pos])
            && UpdatesBefore(s.history, c.inv) <= UpdatesBefore(s.history, c.pos) <= UpdatesBefore(s.history, c.ret)
  {
    ReachableInv(s);
    var c := s.calls[r];
    assert CallRight(s.history, r, c);
    forall i | 0 <= i < |s.history| && s.history[i].Read? && s.history[i].call == r
      ensures i == c.pos
    {
      assert OwnRead(s, i);
    }
    UpdatesGrow(s.history, c.inv, c.pos);
    UpdatesGrow(s.history, c.pos, c.ret);
  }

  /**
   * What that is: the result of the `n`th check that returned, if `n` updates had been made by then, and `ErrNoData`,
   * which is not nil, if none had.
   */
  lemma ReadsReturnCheckResults(steps: seq<Step>, s: State, r: nat)
    requires Run(Init(), steps) == Some(s) && r < |s.calls| && s.calls[r].Returned?
    ensures var n, v := UpdatesBefore(s.history, s.calls[r].pos), s.calls[r].v;
            && n <= |Results(steps)|
            && (n == 0 ==> v == ErrNoData && v != Nil)
            && (n > 0 ==> v == Results(steps)[n - 1])
  {
    ReturnedRead(steps, s, r);
    LatestSoFar(s, s.calls[r].pos);
  }

  lemma ReturnedRead(steps: seq<Step>, s: State, r: nat)
    requires Run(Init(), steps) == Some(s) && r < |s.calls| && s.calls[r].Returned?
    ensures ResultsInOrder(s) && s.checked == Results(steps)
    ensures s.calls[r].pos <= |s.history| && s.calls[r].v == Latest(s.history[..s.calls[r].pos])
  {
    assert Reachable(s);
    RunKept(steps, s);
    ReadsAreLinearizable(s, r);
  }

  lemma LatestSoFar(s: State, pos: nat)
    requires ResultsInOrder(s) && pos <= |s.history|
    ensures var n := UpdatesBefore(s.history, pos);
            n <= |s.checked| && Latest(s.history[..pos]) == if n == 0 then ErrNoData else s.checked[n - 1]
  {
    WrittenPrefix(s.history, pos);
    LatestFromChecks(s.history[..pos], s.checked);
  }

  lemma LatestFromChecks(history: seq<Op>, checked: seq<Error>)
    requires Written(history) <= checked
    ensures var n := Updates(history);
            n <= |checked| && Latest(history) == if n == 0 then ErrNoData else checked[n - 1]
  {
    LatestIsLastWritten(history);
  }

  /** The updater stops only when its context is cancelled, and with every check's result put into the channel. */
  lemma ExitLosesNothing(steps: seq<Step>, s: State)
    requires Run(Init(), steps) == Some(s) && s.updater == Exited
    ensures Cancel in steps && Written(s.history) == Results(steps)
    ensures Latest(s.history) == if Results(steps) == [] then ErrNoData else Results(steps)[|Results(steps)| - 1]
  {
    RunKept(steps, s);
    LatestIsLastWritten(s.history);
  }

  /** Calls that do not overlap see updates in order. */
  lemma ReadsNeverGoBack(s: State, a: nat, b: nat)
    requires Reachable(s) && a < |s.calls| && b < |s.calls| && s.calls[a].Returned? && s.calls[b].Returned?
    requires s.calls[a].ret <= s.calls[b].inv
    ensures UpdatesBefore(s.history, s.calls[a].pos) <= UpdatesBefore(s.history, s.calls[b].pos)
  {
    ReadsAreLinearizable(s, a);
    ReadsAreLinearizable(s, b);
    UpdatesGrow(s.history, s.calls[a].pos, s.calls[b].pos);
  }

  // ---------------------------------------------------------------------------------------------
  // In real time
  // ---------------------------------------------------------------------------------------------

  lemma RunOneMore(s: State, steps: seq<Step>, m: State, step: Step)
    requires Run(s, steps) == Some(m) && Enabled(m, step)
    ensures Run(s, steps + [step]) == Some(Apply(m, step))
  {
    assert (steps + [step])[..|steps|] == steps;
  }

  lemma RunGrows(a: State, first: seq<Step>, before: seq<Step>, m: State, step: Step)
    requires Run(a, first + before) == Some(m) && Enabled(m, step)
    ensures Run(a, first + (before + [step])) == Some(Apply(m, step))
  {
    RunOneMore(a, first + before, m, step);
    assert (first + before) + [step] == first + (before + [step]);
  }

  lemma RunAppend(a: State, first: seq<Step>, b: State, rest: seq<Step>, c: State)
    requires Run(a, first) == Some(b) && Run(b, rest) == Some(c)
    ensures Run(a, first + rest) == Some(c)
  {
    var good := (before: seq<Step>, m: State) => Run(a, first + before) == Some(m);
    assert first + [] == first;
    forall before, m, step | good(before, m) && Enabled(m, step)
      ensures good(before + [step], Apply(m, step))
    {
      RunGrows(a, first, before, m, step);
    }
    RunInduction(b, rest, c, good);
  }

  /**
   * From `s` to `t` the history has grown; calls made since were made and have read in what was added; calls that were
   * open have returned there, if they have; and old returns stand.
   */
  ghost predicate Since(s: State, t: State) {
    && s.history <= t.history && |s.calls| <= |t.calls|
    && (forall r :: |s.calls| <= r < |t.calls| ==> MadeSince(s, t.calls[r]))
    && (forall r :: 0 <= r < |s.calls| ==> OpenOrSame(s, s.calls[r], t.calls[r]))
  }

  ghost predicate MadeSince(s: State, c: Call) {
    && |s.history| <= c.inv && (c.Waiting? || |s.history| <= c.pos)
    && (c.Returned? ==> |s.history| <= c.ret)
  }

  ghost predicate OpenOrSame(s: State, c: Call, c': Call) {
    && c'.inv == c.inv && (c.Returned? ==> c' == c) && (!c.Waiting? ==> !c'.Waiting? && c'.pos == c.pos)
    && (!c.Returned? && c'.Returned? ==> |s.history| <= c'.ret)
  }

  lemma StepKeepsSince(s: State, m: State, step: Step)
    requires Since(s, m) && Enabled(m, step)
    ensures Since(s, Apply(m, step))
  {
    var u := Apply(m, step);
    forall r | 0 <= r < |s.calls|
      ensures OpenOrSame(s, s.calls[r], u.calls[r])
    {
      assert OpenOrSame(s, s.calls[r], m.calls[r]);
    }
    forall r | |s.calls| <= r < |u.calls|
      ensures MadeSince(s, u.calls[r])
    {
      assert r < |m.calls| ==> MadeSince(s, m.calls[r]);
    }
  }

  lemma RunSince(s: State, steps: seq<Step>, t: State)
    requires Run(s, steps) == Some(t)
    ensures Since(s, t)
  {
    var good := (before: seq<Step>, m: State) => Since(s, m);
    forall before, m, step | good(before, m) && Enabled(m, step)
      ensures good(before + [step], Apply(m, step))
    {
      StepKeepsSince(s, m, step);
    }
    RunInduction(s, steps, t, good);
  }

  /**
   * A call made after the steps `first` returns a result at least as new as every update they completed: the `n`th
   * check's, where `n` is no less than the number of puts among them.
   */
  lemma ReadsAreFresh(first: seq<Step>, s: State, rest: seq<Step>, t: State, b: nat)
    requires Run(Init(), first) == Some(s) && Run(s, rest) == Some(t)
    requires |s.calls| <= b < |t.calls| && t.calls[b].Returned?
    ensures var n := UpdatesBefore(t.history, t.calls[b].pos);
            && multiset(first)[UpdaterPuts] <= n <= |Results(first + rest)|
            && t.calls[b].v == if n == 0 then ErrNoData else Results(first + rest)[n - 1]
  {
    RunAppend(Init(), first, s, rest, t);
    ReadsReturnCheckResults(first + rest, t, b);
    RunSince(s, rest, t);
    ChecksFollowTicks(first, s);
    PositionIsIn(first + rest, t, b);
    UpdatesUpTo(s.history, t.history, t.calls[b].pos);
  }

  lemma PositionIsIn(steps: seq<Step>, t: State, b: nat)
    requires Run(Init(), steps) == Some(t) && b < |t.calls| && t.calls[b].Returned?
    ensures t.calls[b].pos < |t.history|
  {
    assert Reachable(t);
    ReadsAreLinearizable(t, b);
  }

  lemma UpdatesUpTo(earlier: seq<Op>, history: seq<Op>, pos: nat)
    requires earlier <= history && |earlier| <= pos <= |history|
    ensures Updates(earlier) <= UpdatesBefore(history, pos)
  {
    UpdatesGrow(history, |earlier|, pos);
    assert history[..|earlier|] == earlier;
  }

  /** A call made after another has returned never sees an older update. */
  lemma LaterCallsSeeLater(first: seq<Step>, s: State, rest: seq<Step>, t: State, a: nat, b: nat)
    requires Run(Init(), first) == Some(s) && Run(s, rest) == Some(t)
    requires a < |s.calls| && s.calls[a].Returned? && |s.calls| <= b < |t.calls| && t.calls[b].Returned?
    ensures t.calls[a] == s.calls[a]
    ensures UpdatesBefore(t.history, t.calls[a].pos) <= UpdatesBefore(t.history, t.calls[b].pos)
  {
    RunAppend(Init(), first, s, rest, t);
    RunSince(s, rest, t);
    PositionIsIn(first, s, a);
    PositionIsIn(first + rest, t, b);
    UpdatesGrow(t.history, t.calls[a].pos, t.calls[b].pos);
  }

  /** A put-back restores the latest value: it never overwrites a newer one. */
  lemma PutBackIsFresh(s: State, r: nat)
    requires Reachable(s) && Enabled(s, PutBack(r))
    ensures Apply(s, PutBack(r)).cell == Some(Latest(s.history))
  {
    ReachableInv(s);
    assert CallRight(s.history, r, s.calls[r]);
  }

  // ---------------------------------------------------------------------------------------------
  // One token, and no deadlock
  // ---------------------------------------------------------------------------------------------

  /** There is always exactly one value, in the channel or in hand, so no send ever finds the channel full. */
  lemma PutsNeverBlock(s: State)
    requires Reachable(s)
    ensures Tokens(s) == 1
    ensures s.updater.Putting? ==> Enabled(s, UpdaterPuts)
    ensures forall r :: 0 <= r < |s.calls| && s.calls[r].Holding? ==> Enabled(s, PutBack(r))
  {
    ReachableInv(s);
    forall r | 0 <= r < |s.calls| && s.calls[r].Holding?
      ensures Enabled(s, PutBack(r))
    {
      OnlyHolder(s, r);
    }
  }

  ghost function CallRank(c: Call): nat {
    match c
    case Waiting(_) => 3
    case Holding(_, _, _) => 2
    case Leaving(_, _, _) => 1
    case Returned(_, _, _, _) => 0
  }

  /** The steps that open calls, and a put under way, still need. */
  ghost function Rank(s: State): nat {
    Sum(CallRank, s.calls) + (if s.updater.Putting? then 1 else 0)
  }

  predicate Settles(step: Step) {
    step.UpdaterPuts? || step.Take? || step.PutBack? || step.Return?
  }

  lemma SettlingRankFalls(s: State, step: Step)
    requires Enabled(s, step) && Settles(step)
    ensures Rank(Apply(s, step)) < Rank(s)
  {
    if !step.UpdaterPuts? {
      SumUpdate(CallRank, s.calls, step.r, Apply(s, step).calls[step.r]);
    }
  }

  /**
   * While a call is open, some receive or put or return can happen that brings the calls closer to their end, without
   * waiting for the check, the ticker or the context: a check that hangs never blocks a reader.
   */
  lemma CallsNeverStick(s: State) returns (step: Step)
    requires Reachable(s) && exists r :: 0 <= r < |s.calls| && !s.calls[r].Returned?
    ensures Settles(step) && Enabled(s, step) && Rank(Apply(s, step)) < Rank(s)
  {
    ReachableInv(s);
    PutsNeverBlock(s);
    var r :| 0 <= r < |s.calls| && !s.calls[r].Returned?;
    if s.calls[r].Leaving? {
      step := Return(r);
    } else if s.calls[r].Holding? {
      step := PutBack(r);
    } else if s.cell.Some? {
      step := Take(r);
    } else if s.updater.Putting? {
      step := UpdaterPuts;
    } else {
      var k := SumPositive(Holds, s.calls);
      step := PutBack(k);
    }
    SettlingRankFalls(s, step);
  }

  /** The updater's own steps, and the put-back it may have to wait for. */
  predicate OfUpdater(step: Step) {
    step.CheckReturns? || step.UpdaterTakes? || step.UpdaterPuts? || step.PutBack?
  }

  lemma OneStep(s: State, step: Step)
    requires Enabled(s, step)
    ensures Run(s, [step]) == Some(Apply(s, step))
  {
    assert Run(s, []) == Some(s);
    RunOneMore(s, [], s, step);
    assert [] + [step] == [step];
  }

  /** With the old value back in the channel, the updater takes it out and puts its own in. */
  lemma SwapsValues(s: State) returns (steps: seq<Step>, t: State)
    requires s.updater.Taking? && s.cell.Some?
    ensures steps == [UpdaterTakes, UpdaterPuts] && Run(s, steps) == Some(t)
    ensures t.updater == Selecting && t.cell == Some(s.updater.v) && t.history == s.history + [Wrote(s.updater.v)]
    ensures t.cancelled == s.cancelled && t.checked == s.checked
  {
    var m := Apply(s, UpdaterTakes);
    t := Apply(m, UpdaterPuts);
    steps := [UpdaterTakes] + [UpdaterPuts];
    OneStep(s, UpdaterTakes);
    RunOneMore(s, [UpdaterTakes], m, UpdaterPuts);
  }

  /** A result in the updater's hands can always be stored, after at most one reader has put the old value back. */
  lemma ResultGetsStored(s: State) returns (steps: seq<Step>, t: State)
    requires Reachable(s) && s.updater.Taking?
    ensures Run(s, steps) == Some(t) && |steps| <= 3 && forall i :: 0 <= i < |steps| ==> OfUpdater(steps[i])
    ensures t.updater == Selecting && t.cell == Some(s.updater.v) && t.history == s.history + [Wrote(s.updater.v)]
    ensures t.cancelled == s.cancelled && t.checked == s.checked
  {
    ReachableInv(s);
    if s.cell.Some? {
      steps, t := SwapsValues(s);
    } else {
      var k := SumPositive(Holds, s.calls);
      var m := PutsBack(s, k);
      var rest;
      rest, t := SwapsValues(m);
      RunAppend(s, [PutBack(k)], m, rest, t);
      steps := [PutBack(k)] + rest;
    }
  }

  lemma PutsBack(s: State, k: nat) returns (m: State)
    requires Reachable(s) && k < |s.calls| && s.calls[k].Holding?
    ensures Run(s, [PutBack(k)]) == Some(m)
    ensures m.cell.Some? && m == s.(cell := m.cell, calls := m.calls)
  {
    PutsNeverBlock(s);
    m := Apply(s, PutBack(k));
    OneStep(s, PutBack(k));
  }

  lemma RunOn(s: State, steps: seq<Step>, t: State)
    requires Reachable(s) && Run(s, steps) == Some(t)
    ensures Reachable(t)
  {
    var first :| Run(Init(), first) == Some(s);
    RunAppend(Init(), first, s, steps, t);
  }

  /** Unless it is gone, the updater can get back to its `select`, whatever the check returns, without any tick. */
  lemma UpdaterComesRound(s: State, v: Error) returns (steps: seq<Step>, t: State)
    requires Reachable(s) && s.updater != Exited
    ensures Run(s, steps) == Some(t) && t.updater == Selecting && t.cancelled == s.cancelled
    ensures forall i :: 0 <= i < |steps| ==> OfUpdater(steps[i])
    ensures s.updater == Checking ==> t.cell == Some(v) && t.checked == s.checked + [v]
  {
    steps, t := [], s;
    assert Run(s, []) == Some(s);
    if s.updater == Checking {
      var m := Apply(s, CheckReturns(v));
      OneStep(s, CheckReturns(v));
      RunOn(s, [CheckReturns(v)], m);
      var rest;
      rest, t := ResultGetsStored(m);
      RunAppend(s, [CheckReturns(v)], m, rest, t);
      steps := [CheckReturns(v)] + rest;
    } else if s.updater.Taking? {
      steps, t := ResultGetsStored(s);
    } else if s.updater.Putting? {
      PutsNeverBlock(s);
      OneStep(s, UpdaterPuts);
      steps, t := [UpdaterPuts], Apply(s, UpdaterPuts);
    }
  }

  /** As long as the updater is there, the next tick can bring another check, and any result of it into the channel. */
  lemma NextCheckGetsStored(s: State, v: Error) returns (steps: seq<Step>, t: State)
    requires Reachable(s) && s.updater == Selecting
    ensures Run(s, steps) == Some(t) && t.cell == Some(v) && t.checked == s.checked + [v] && t.updater == Selecting
    ensures forall i :: 0 <= i < |steps| ==> OfUpdater(steps[i]) || steps[i] == Tick
  {
    var m := Apply(s, Tick);
    OneStep(s, Tick);
    RunOn(s, [Tick], m);
    var rest;
    rest, t := UpdaterComesRound(m, v);
    RunAppend(s, [Tick], m, rest, t);
    steps := [Tick] + rest;
  }

  /** Once its context is cancelled the updater can stop, without waiting for a tick. */
  lemma CancelledUpdaterCanStop(s: State, v: Error) returns (steps: seq<Step>, t: State)
    requires Reachable(s) && s.cancelled && s.updater != Exited
    ensures Run(s, steps) == Some(t) && t.updater == Exited
    ensures forall i :: 0 <= i < |steps| ==> OfUpdater(steps[i]) || steps[i] == Exit
  {
    var first, m := UpdaterComesRound(s, v);
    t := Apply(m, Exit);
    RunOneMore(s, first, m, Exit);
    steps := first + [Exit];
  }

  /** The calls that had yet to read in `s` have, if they did so by `t`, read the value the register held in `s`. */
  ghost predicate LaterCallsRead(s: State, t: State) {
    forall r :: 0 <= r < |t.calls| && !t.calls[r].Waiting? && (r >= |s.calls| || s.calls[r].Waiting?) ==>
      t.calls[r].v == Latest(s.history)
  }

  /** Once the updater is gone, nothing is written any more, and every later read returns the last value. */
  lemma {:induction false} ExitFreezesValue(s: State, steps: seq<Step>, t: State)
    requires Inv(s) && s.updater == Exited && Run(s, steps) == Some(t)
    ensures Inv(t) && t.updater == Exited && |s.calls| <= |t.calls|
    ensures Latest(t.history) == Latest(s.history) && LaterCallsRead(s, t)
    decreases |steps|
  {
    if steps != [] {
      var before, step := steps[..|steps| - 1], steps[|steps| - 1];
      var m := Run(s, before).value;
      ExitFreezesValue(s, before, m);
      StepKeepsInv(m, step);
      FrozenStep(s, m, step);
    }
  }

  lemma FrozenStep(s: State, m: State, step: Step)
    requires Inv(m) && m.updater == Exited && Enabled(m, step)
    requires |s.calls| <= |m.calls| && Latest(m.history) == Latest(s.history) && LaterCallsRead(s, m)
    ensures Apply(m, step).updater == Exited && |s.calls| <= |Apply(m, step).calls|
    ensures Latest(Apply(m, step).history) == Latest(s.history) && LaterCallsRead(s, Apply(m, step))
  {
    if step.Take? {
      LatestAppend(m.history, Read(step.r, m.cell.value));
    }
  }
}

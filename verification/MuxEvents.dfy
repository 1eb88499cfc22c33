/** What a run of the multiplexer keeps of the steps it took: what was accepted and delivered, and when it stops. */
module MuxEvents {
  import opened Bytes
  import opened Sniffing
  import opened Routing
  import opened Sums
  import opened MuxProtocol
  import opened MuxSafety
  import opened MuxTheorems

  /** How many of some receives were made by `Accept` callers. */
  ghost function Handed(receipts: seq<Receipt>): nat {
    if receipts == [] then 0
    else Handed(receipts[..|receipts| - 1]) + (if receipts[|receipts| - 1].Delivered? then 1 else 0)
  }

  /** Some unmatched connection was reported to an error handler that does not tolerate it. */
  ghost predicate SomeRejected(steps: seq<Step>) {
    exists c: nat :: Report(c, false) in steps
  }

  ghost predicate ServerKept(steps: seq<Step>, s: State) {
    && |s.tasks| == multiset(steps)[Accept]
    && (s.server == Accepting <==> AcceptError(false) !in steps)
    && (s.rootClosed <==> SomeRejected(steps))
  }

  ghost predicate DeliveriesKept(steps: seq<Step>, s: State) {
    forall l :: 0 <= l < |s.chans| ==> Handed(s.chans[l].receipts) == multiset(steps)[Deliver(l)]
  }

  lemma OneMoreStep(steps: seq<Step>, step: Step, x: Step)
    ensures multiset(steps + [step])[x] == multiset(steps)[x] + (if step == x then 1 else 0)
    ensures x in steps + [step] <==> x in steps || x == step
  {
    assert multiset(steps + [step]) == multiset(steps) + multiset{step};
  }

  lemma OneMoreRejected(steps: seq<Step>, step: Step)
    ensures SomeRejected(steps + [step]) <==> SomeRejected(steps) || (step.Report? && !step.handled)
  {
    assert forall x :: x in steps + [step] <==> x in steps || x == step;
    if step.Report? && !step.handled {
      assert Report(step.c, false) in steps + [step];
    }
  }

  lemma AloneKeepsServer(cfg: Config, steps: seq<Step>, s: State, step: Step)
    requires Orderly(cfg, s) && ServerKept(steps, s) && Alone(step) && Enabled(cfg, s, step)
    ensures ServerKept(steps + [step], Apply(cfg, s, step))
  {
    AloneEffect(cfg, s, step);
    OneMoreStep(steps, step, Accept);
    OneMoreStep(steps, step, AcceptError(false));
    OneMoreRejected(steps, step);
  }

  lemma OthersKeepServer(cfg: Config, steps: seq<Step>, s: State, step: Step)
    requires Orderly(cfg, s) && ServerKept(steps, s) && !Alone(step) && Enabled(cfg, s, step)
    ensures ServerKept(steps + [step], Apply(cfg, s, step))
  {
    if step.Enqueue? {
      EnqueueEffect(cfg, s, step.c);
    }
    OneMoreStep(steps, step, Accept);
    OneMoreStep(steps, step, AcceptError(false));
    OneMoreRejected(steps, step);
  }

  lemma HandedOneMore(receipts: seq<Receipt>, receipt: Receipt)
    ensures Handed(receipts + [receipt]) == Handed(receipts) + (if receipt.Delivered? then 1 else 0)
  {
    assert (receipts + [receipt])[..|receipts|] == receipts;
  }

  lemma ReceiveKeepsDeliveries(steps: seq<Step>, s: State, l: nat, receipt: Receipt, step: Step)
    requires DeliveriesKept(steps, s) && l < |s.chans| && s.chans[l].queue != []
    requires if receipt.Delivered? then step == Deliver(l) else !step.Deliver?
    ensures DeliveriesKept(steps + [step], Receive(s, l, receipt))
  {
    HandedOneMore(s.chans[l].receipts, receipt);
    var u := Receive(s, l, receipt);
    forall k | 0 <= k < |u.chans|
      ensures Handed(u.chans[k].receipts) == multiset(steps + [step])[Deliver(k)]
    {
      OneMoreStep(steps, step, Deliver(k));
      assert Handed(s.chans[k].receipts) == multiset(steps)[Deliver(k)];
      assert k != l ==> u.chans[k] == s.chans[k];
    }
  }

  lemma SameReceipts(steps: seq<Step>, s: State, u: State, step: Step)
    requires DeliveriesKept(steps, s) && |u.chans| == |s.chans| && !step.Deliver?
    requires forall l :: 0 <= l < |s.chans| ==> u.chans[l].receipts == s.chans[l].receipts
    ensures DeliveriesKept(steps + [step], u)
  {
    forall l | 0 <= l < |u.chans|
      ensures Handed(u.chans[l].receipts) == multiset(steps + [step])[Deliver(l)]
    {
      OneMoreStep(steps, step, Deliver(l));
    }
  }

  lemma StepKeepsDeliveries(cfg: Config, steps: seq<Step>, s: State, step: Step)
    requires Orderly(cfg, s) && DeliveriesKept(steps, s) && Enabled(cfg, s, step)
    ensures DeliveriesKept(steps + [step], Apply(cfg, s, step))
  {
    if step.Deliver? {
      ReceiveKeepsDeliveries(steps, s, step.l, Delivered(s.chans[step.l].queue[0]), step);
    } else if step.DrainNext? {
      ReceiveKeepsDeliveries(steps, s, s.server.k, Drained(s.chans[s.server.k].queue[0]), step);
    } else {
      ReceiptsStay(cfg, s, step);
      SameReceipts(steps, s, Apply(cfg, s, step), step);
    }
  }

  lemma ReceiptsStay(cfg: Config, s: State, step: Step)
    requires Orderly(cfg, s) && Enabled(cfg, s, step) && !step.Deliver? && !step.DrainNext?
    ensures var u := Apply(cfg, s, step);
            |u.chans| == |s.chans| && forall l :: 0 <= l < |s.chans| ==> u.chans[l].receipts == s.chans[l].receipts
  {
    if step.Enqueue? {
      EnqueueEffect(cfg, s, step.c);
    } else if !step.CloseChan? {
      ChansStay(cfg, s, step);
    }
  }

  ghost predicate Kept(cfg: Config, steps: seq<Step>, s: State) {
    Inv(cfg, s) && ServerKept(steps, s) && DeliveriesKept(steps, s)
  }

  lemma StepKeeps(cfg: Config, steps: seq<Step>, s: State, step: Step)
    requires Kept(cfg, steps, s) && Enabled(cfg, s, step)
    ensures Kept(cfg, steps + [step], Apply(cfg, s, step))
  {
    StepKeepsInv(cfg, s, step);
    StepKeepsDeliveries(cfg, steps, s, step);
    if Alone(step) {
      AloneKeepsServer(cfg, steps, s, step);
    } else {
      OthersKeepServer(cfg, steps, s, step);
    }
  }

  lemma NothingKept(cfg: Config)
    ensures Kept(cfg, [], Init(cfg))
  {
    InitOrderly(cfg);
    InitConserved(cfg);
  }

  /** The step keeps what is `good` of a run and the state it leads to. */
  ghost predicate Carries(cfg: Config, good: (seq<Step>, State) -> bool, before: seq<Step>, m: State, step: Step) {
    good(before, m) && Enabled(cfg, m, step) ==> good(before + [step], Apply(cfg, m, step))
  }

  lemma Carried(
    cfg: Config, good: (seq<Step>, State) -> bool, before: seq<Step>, m: State, step: Step, s: State)
    requires good(before, m) && Enabled(cfg, m, step) && s == Apply(cfg, m, step)
    requires Carries(cfg, good, before, m, step)
    ensures good(before + [step], s)
  {
  }

  lemma LastStep(cfg: Config, start: State, before: seq<Step>, m: State, step: Step, s: State)
    requires Run(cfg, start, before) == Some(m) && Run(cfg, start, before + [step]) == Some(s)
    ensures Enabled(cfg, m, step) && s == Apply(cfg, m, step)
  {
    assert (before + [step])[..|before|] == before;
  }

  /** What holds at the start, and is kept by every step, holds after every run. */
  lemma {:induction false} RunInduction(
    cfg: Config, start: State, steps: seq<Step>, s: State, good: (seq<Step>, State) -> bool)
    requires good([], start) && Run(cfg, start, steps) == Some(s)
    requires forall before, m, step :: Carries(cfg, good, before, m, step)
    ensures good(steps, s)
    decreases |steps|
  {
    if steps != [] {
      var before, step := steps[..|steps| - 1], steps[|steps| - 1];
      var m := Run(cfg, start, before).value;
      RunInduction(cfg, start, before, m, good);
      assert before + [step] == steps;
      LastStep(cfg, start, before, m, step, s);
      Carried(cfg, good, before, m, step, s);
    }
  }

  lemma RunKept(cfg: Config, steps: seq<Step>, s: State)
    requires Run(cfg, Init(cfg), steps) == Some(s)
    ensures Kept(cfg, steps, s)
  {
    var good := (before: seq<Step>, m: State) => Kept(cfg, before, m);
    NothingKept(cfg);
    forall before, m, step
      ensures Carries(cfg, good, before, m, step)
    {
      if good(before, m) && Enabled(cfg, m, step) {
        StepKeeps(cfg, before, m, step);
      }
    }
    RunInduction(cfg, Init(cfg), steps, s, good);
  }

  /**
   * The accept loop: `Serve` goes on accepting, through every error the handler tolerates, until the first one that it
   * does not; and it can accept as long as no unmatched connection has had the root listener closed either.
   */
  lemma AcceptsUntilStopped(cfg: Config, steps: seq<Step>, s: State)
    requires Run(cfg, Init(cfg), steps) == Some(s)
    ensures s.server == Accepting <==> AcceptError(false) !in steps
    ensures |s.tasks| == multiset(steps)[Accept]
    ensures Enabled(cfg, s, Accept) <==> AcceptError(false) !in steps && !SomeRejected(steps)
    ensures forall handled :: Enabled(cfg, s, AcceptError(handled)) <==> AcceptError(false) !in steps
    ensures s.rootClosed <==> SomeRejected(steps)
  {
    RunKept(cfg, steps, s);
  }

  /** A listener has handed out a connection for each receive that an `Accept` caller made, and none otherwise. */
  lemma DeliveriesAreAccepts(cfg: Config, steps: seq<Step>, s: State, l: nat)
    requires Run(cfg, Init(cfg), steps) == Some(s) && l < |s.chans|
    ensures Handed(s.chans[l].receipts) == multiset(steps)[Deliver(l)]
  {
    RunKept(cfg, steps, s);
  }

  /** `Accept` reports `ErrListenerClosed` only after shutdown began and every task is gone. */
  lemma RefusedAtTheEnd(cfg: Config, steps: seq<Step>, s: State, l: nat)
    requires Run(cfg, Init(cfg), steps) == Some(s) && Enabled(cfg, s, Refuse(l))
    ensures AcceptError(false) in steps && s.donec
    ensures forall c :: 0 <= c < |s.tasks| ==> s.tasks[c].pc == Finished
  {
    RunKept(cfg, steps, s);
    forall c | 0 <= c < |s.tasks|
      ensures s.tasks[c].pc == Finished
    {
      if s.tasks[c].pc != Finished {
        NobodyLive(cfg, s, c);
      }
    }
  }

  /** Once `Serve` has returned, that is all that `Accept` can do, on every listener. */
  lemma ReturnedRefuses(cfg: Config, s: State, l: nat)
    requires Reachable(cfg, s) && s.server.Returned? && l < |cfg.sls|
    ensures Enabled(cfg, s, Refuse(l)) && !Enabled(cfg, s, Deliver(l))
  {
    ReachableInv(cfg, s);
  }
}

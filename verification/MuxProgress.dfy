/** While the multiplexer serves: a matched connection can get to an `Accept` caller, an unmatched one is seen off. */
module MuxProgress {
  import opened Bytes
  import opened Sniffing
  import opened Reading
  import opened Matchers
  import opened Routing
  import opened MuxProtocol
  import opened MuxSafety
  import opened MuxTheorems
  import opened MuxEvents

  /** A step of the task of connection `c`. */
  predicate OfTask(step: Step, c: nat) {
    (Alone(step) || step.Enqueue?) && step.c == c
  }

  /** A step of that task or, if a listener is given, of an `Accept` caller of it. */
  ghost predicate Allowed(step: Step, c: nat, l: Option<nat>) {
    OfTask(step, c) || (l.Some? && step == Deliver(l.value))
  }

  /** Some run of allowed steps leads from `s` to `t`. */
  ghost predicate Leads(cfg: Config, s: State, t: State, c: nat, l: Option<nat>) {
    exists steps :: Run(cfg, s, steps) == Some(t) && forall i :: 0 <= i < |steps| ==> Allowed(steps[i], c, l)
  }

  lemma RunOneMore(cfg: Config, s: State, steps: seq<Step>, m: State, step: Step)
    requires Run(cfg, s, steps) == Some(m) && Enabled(cfg, m, step)
    ensures Run(cfg, s, steps + [step]) == Some(Apply(cfg, m, step))
  {
    assert (steps + [step])[..|steps|] == steps;
  }

  lemma RunGrows(cfg: Config, a: State, first: seq<Step>, before: seq<Step>, m: State, step: Step)
    requires Run(cfg, a, first + before) == Some(m) && Enabled(cfg, m, step)
    ensures Run(cfg, a, first + (before + [step])) == Some(Apply(cfg, m, step))
  {
    RunOneMore(cfg, a, first + before, m, step);
    assert (first + before) + [step] == first + (before + [step]);
  }

  lemma RunAppend(cfg: Config, a: State, first: seq<Step>, b: State, rest: seq<Step>, t: State)
    requires Run(cfg, a, first) == Some(b) && Run(cfg, b, rest) == Some(t)
    ensures Run(cfg, a, first + rest) == Some(t)
  {
    var good := (before: seq<Step>, m: State) => Run(cfg, a, first + before) == Some(m);
    assert first + [] == first;
    forall before, m, step
      ensures Carries(cfg, good, before, m, step)
    {
      if good(before, m) && Enabled(cfg, m, step) {
        RunGrows(cfg, a, first, before, m, step);
      }
    }
    RunInduction(cfg, b, rest, t, good);
  }

  lemma LeadsNowhere(cfg: Config, s: State, c: nat, l: Option<nat>)
    ensures Leads(cfg, s, s, c, l)
  {
    assert Run(cfg, s, []) == Some(s);
  }

  lemma LeadsByStep(cfg: Config, s: State, step: Step, c: nat, l: Option<nat>)
    requires Enabled(cfg, s, step) && Allowed(step, c, l)
    ensures Leads(cfg, s, Apply(cfg, s, step), c, l)
  {
    assert Run(cfg, s, []) == Some(s);
    RunOneMore(cfg, s, [], s, step);
    assert [] + [step] == [step];
  }

  lemma LeadsThen(cfg: Config, s: State, m: State, t: State, c: nat, l: Option<nat>)
    requires Leads(cfg, s, m, c, l) && Leads(cfg, m, t, c, l)
    ensures Leads(cfg, s, t, c, l)
  {
    var first :| Run(cfg, s, first) == Some(m) && forall i :: 0 <= i < |first| ==> Allowed(first[i], c, l);
    var rest :| Run(cfg, m, rest) == Some(t) && forall i :: 0 <= i < |rest| ==> Allowed(rest[i], c, l);
    RunAppend(cfg, s, first, m, rest, t);
    assert forall i :: 0 <= i < |first + rest| ==> Allowed((first + rest)[i], c, l);
  }

  lemma LeadsWithMore(cfg: Config, s: State, t: State, c: nat, l: nat)
    requires Leads(cfg, s, t, c, None)
    ensures Leads(cfg, s, t, c, Some(l))
  {
    var steps :| Run(cfg, s, steps) == Some(t) && forall i :: 0 <= i < |steps| ==> Allowed(steps[i], c, None);
    assert forall i :: 0 <= i < |steps| ==> Allowed(steps[i], c, Some(l));
  }

  lemma LeadsKeepsInv(cfg: Config, s: State, t: State, c: nat, l: Option<nat>)
    requires Inv(cfg, s) && Routed(cfg, s) && Leads(cfg, s, t, c, l)
    ensures Inv(cfg, t) && Routed(cfg, t)
  {
    var steps :| Run(cfg, s, steps) == Some(t) && forall i :: 0 <= i < |steps| ==> Allowed(steps[i], c, l);
    RunKeepsInv(cfg, s, steps, t);
  }

  lemma LeadsOn(cfg: Config, s: State, t: State, c: nat, l: Option<nat>)
    requires Reachable(cfg, s) && Leads(cfg, s, t, c, l)
    ensures Reachable(cfg, t)
  {
    var first :| Run(cfg, Init(cfg), first) == Some(s);
    var steps :| Run(cfg, s, steps) == Some(t) && forall i :: 0 <= i < |steps| ==> Allowed(steps[i], c, l);
    RunAppend(cfg, Init(cfg), first, s, steps, t);
  }

  // ---------------------------------------------------------------------------------------------
  // The matching loops, as a run of one task
  // ---------------------------------------------------------------------------------------------

  /** A task's next turn of the matching loops. */
  ghost function NextTurn(sls: Table, c: nat, pc: Pc): Step
    requires pc.Matching? && pc.i < |sls|
  {
    if pc.j < |sls[pc.i]| then CallNext(c) else NextListener(c)
  }

  /** Nothing but the task of `c` differs. */
  ghost predicate OnlyTask(s: State, t: State, c: nat) {
    c < |s.tasks| == |t.tasks| && t == s.(tasks := s.tasks[c := t.tasks[c]])
  }

  lemma OnlyTaskTwice(s: State, m: State, t: State, c: nat)
    requires OnlyTask(s, m, c) && OnlyTask(m, t, c)
    ensures OnlyTask(s, t, c)
  {
    assert t.tasks == s.tasks[c := t.tasks[c]];
  }

  lemma CanTakeTurn(cfg: Config, s: State, c: nat) returns (m: State)
    requires Inv(cfg, s) && Routed(cfg, s) && c < |s.tasks|
    requires s.tasks[c].pc.Matching? && s.tasks[c].pc.i < |cfg.sls|
    ensures Leads(cfg, s, m, c, None) && OnlyTask(s, m, c) && Inv(cfg, m) && Routed(cfg, m)
    ensures TaskRank(cfg.sls)(m.tasks[c]) < TaskRank(cfg.sls)(s.tasks[c])
    ensures (m.tasks[c].pc.Matching? || m.tasks[c].pc.Enqueuing?) && m.tasks[c].closes == s.tasks[c].closes
  {
    var step := NextTurn(cfg.sls, c, s.tasks[c].pc);
    assert OnCourse(cfg, c, s.tasks[c]);
    AloneEffect(cfg, s, step);
    TurnsFall(cfg.sls, s.tasks[c], step);
    m := Apply(cfg, s, step);
    LeadsByStep(cfg, s, step, c, None);
    LeadsKeepsInv(cfg, s, m, c, None);
  }

  /** Where the matching loops end: at a listener's channel, or past the last listener. */
  ghost predicate LoopsDone(sls: Table, pc: Pc) {
    pc.Enqueuing? || (pc.Matching? && pc.i >= |sls|)
  }

  /** The turns of a task's loops bring it there, and change nothing else. */
  lemma {:induction false} TurnsEnd(cfg: Config, s: State, c: nat) returns (t: State)
    requires Inv(cfg, s) && Routed(cfg, s) && c < |s.tasks| && (s.tasks[c].pc.Matching? || s.tasks[c].pc.Enqueuing?)
    ensures Leads(cfg, s, t, c, None) && OnlyTask(s, t, c)
    ensures t.tasks[c].closes == s.tasks[c].closes && LoopsDone(cfg.sls, t.tasks[c].pc)
    decreases TaskRank(cfg.sls)(s.tasks[c])
  {
    if LoopsDone(cfg.sls, s.tasks[c].pc) {
      t := s;
      LeadsNowhere(cfg, s, c, None);
      assert s.tasks == s.tasks[c := s.tasks[c]];
    } else {
      var m := CanTakeTurn(cfg, s, c);
      t := TurnsEnd(cfg, m, c);
      LeadsThen(cfg, s, m, t, c, None);
      OnlyTaskTwice(s, m, t, c);
    }
  }

  /** If the loops decide for listener `l`, it is that listener's channel. */
  lemma ReachesChannel(cfg: Config, s: State, c: nat, l: nat) returns (t: State)
    requires Inv(cfg, s) && Routed(cfg, s) && c < |s.tasks| && (s.tasks[c].pc.Matching? || s.tasks[c].pc.Enqueuing?)
    requires Decided(cfg, c).choice == Some(l)
    ensures Leads(cfg, s, t, c, None) && Inv(cfg, t)
    ensures c < |t.tasks| && t.tasks[c].pc == Enqueuing(l) && t.chans == s.chans && l < |t.chans|
  {
    t := TurnsEnd(cfg, s, c);
    LeadsKeepsInv(cfg, s, t, c, None);
    assert OnCourse(cfg, c, t.tasks[c]);
  }

  lemma DecidedIs(cfg: Config, c: nat, choice: Option<nat>)
    requires TableWellBuilt(cfg.sls) && Routable(cfg.scripts(c))
    requires Routes(cfg.sls, Stream(cfg.scripts(c)), choice)
    ensures Decided(cfg, c).choice == choice
  {
    RoutingFollowsStream(cfg.sls, cfg.scripts(c));
    RouteIsUnique(cfg.sls, Stream(cfg.scripts(c)), choice, Decided(cfg, c).choice);
  }

  // ---------------------------------------------------------------------------------------------
  // Matched connections
  // ---------------------------------------------------------------------------------------------

  lemma CanEnqueue(cfg: Config, s: State, c: nat, l: nat) returns (t: State)
    requires Orderly(cfg, s) && c < |s.tasks| && s.tasks[c].pc == Enqueuing(l)
    requires l < |s.chans| && |s.chans[l].queue| < 1024
    ensures Leads(cfg, s, t, c, None) && Orderly(cfg, t)
    ensures |t.chans| == |s.chans| && t.chans[l].queue == s.chans[l].queue + [c]
  {
    EnqueueEffect(cfg, s, c);
    EnqueueKeepsOrder(cfg, s, c);
    t := Apply(cfg, s, Enqueue(c));
    LeadsByStep(cfg, s, Enqueue(c), c, None);
  }

  /**
   * While its listener's channel has room, a connection that the listener is the first to accept gets into that channel
   * by its task's own steps: nobody need accept, close or return for it.
   */
  lemma MatchedIsQueued(cfg: Config, s: State, c: nat, l: nat) returns (t: State)
    requires TableWellBuilt(cfg.sls) && Routable(cfg.scripts(c))
    requires Routes(cfg.sls, Stream(cfg.scripts(c)), Some(l))
    requires Reachable(cfg, s) && c < |s.tasks| && (s.tasks[c].pc.Matching? || s.tasks[c].pc.Enqueuing?)
    requires l < |s.chans| && |s.chans[l].queue| < 1024
    ensures Leads(cfg, s, t, c, None)
    ensures l < |t.chans| && t.chans[l].queue == s.chans[l].queue + [c]
  {
    ReachableInv(cfg, s);
    DecidedIs(cfg, c, Some(l));
    var m := ReachesChannel(cfg, s, c, l);
    t := CanEnqueue(cfg, m, c, l);
    LeadsThen(cfg, s, m, t, c, None);
  }

  lemma CanDeliver(cfg: Config, s: State, l: nat, c: nat) returns (t: State)
    requires Orderly(cfg, s) && l < |s.chans| && s.chans[l].queue != []
    ensures Leads(cfg, s, t, c, Some(l))
    ensures Orderly(cfg, t) && t.tasks == s.tasks && |t.chans| == |s.chans|
    ensures t.chans[l].queue == s.chans[l].queue[1..]
    ensures t.chans[l].receipts == s.chans[l].receipts + [Delivered(s.chans[l].queue[0])]
  {
    t := Apply(cfg, s, Deliver(l));
    ReceiveKeepsOrder(cfg, s, l, Delivered(s.chans[l].queue[0]));
    LeadsByStep(cfg, s, Deliver(l), c, Some(l));
  }

  /** `Accept` callers can take out of a channel whatever is in it. */
  lemma {:induction false} TakenOut(cfg: Config, s: State, l: nat, c: nat) returns (t: State)
    requires Orderly(cfg, s) && l < |s.chans| && c in s.chans[l].queue
    ensures Leads(cfg, s, t, c, Some(l))
    ensures |t.chans| == |s.chans| && Delivered(c) in t.chans[l].receipts
    decreases |s.chans[l].queue|
  {
    t := CanDeliver(cfg, s, l, c);
    if s.chans[l].queue[0] == c {
      assert t.chans[l].receipts[|s.chans[l].receipts|] == Delivered(c);
    } else {
      var m := t;
      t := TakenOut(cfg, m, l, c);
      LeadsThen(cfg, s, m, t, c, Some(l));
    }
  }

  /** A receive makes room in a full channel. */
  lemma MakesRoom(cfg: Config, s: State, c: nat, l: nat) returns (t: State)
    requires Inv(cfg, s) && l < |s.chans|
    ensures Leads(cfg, s, t, c, Some(l)) && Orderly(cfg, t)
    ensures t.tasks == s.tasks && |t.chans| == |s.chans| && |t.chans[l].queue| < 1024
  {
    assert InOrder(s.chans[l]);
    if |s.chans[l].queue| < 1024 {
      t := s;
      LeadsNowhere(cfg, s, c, Some(l));
    } else {
      t := CanDeliver(cfg, s, l, c);
    }
  }

  /** Into the channel, after one receive if it is full, and out of it. */
  lemma ThroughChannel(cfg: Config, s: State, c: nat, l: nat) returns (t: State)
    requires Inv(cfg, s) && c < |s.tasks| && s.tasks[c].pc == Enqueuing(l) && l < |s.chans|
    ensures Leads(cfg, s, t, c, Some(l))
    ensures |t.chans| == |s.chans| && Delivered(c) in t.chans[l].receipts
  {
    var a := MakesRoom(cfg, s, c, l);
    var b := CanEnqueue(cfg, a, c, l);
    LeadsWithMore(cfg, a, b, c, l);
    LeadsThen(cfg, s, a, b, c, Some(l));
    assert b.chans[l].queue[|a.chans[l].queue|] == c;
    t := TakenOut(cfg, b, l, c);
    LeadsThen(cfg, s, b, t, c, Some(l));
  }

  /**
   * A connection that listener `l` is the first to accept can always get to an `Accept` caller of that listener,
   * however full its channel is: by steps of the connection's own task and calls of `Accept` on `l`, and no others.
   */
  lemma MatchedCanBeDelivered(cfg: Config, s: State, c: nat, l: nat) returns (t: State)
    requires TableWellBuilt(cfg.sls) && Routable(cfg.scripts(c))
    requires Routes(cfg.sls, Stream(cfg.scripts(c)), Some(l))
    requires Reachable(cfg, s) && c < |s.tasks| && (s.tasks[c].pc.Matching? || s.tasks[c].pc.Enqueuing?)
    ensures Leads(cfg, s, t, c, Some(l))
    ensures l < |t.chans| && Delivered(c) in t.chans[l].receipts
    ensures c < |t.tasks| && Pending(t.tasks[c].reader) == Stream(cfg.scripts(c))
  {
    ReachableInv(cfg, s);
    DecidedIs(cfg, c, Some(l));
    var m := ReachesChannel(cfg, s, c, l);
    LeadsWithMore(cfg, s, m, c, l);
    t := ThroughChannel(cfg, m, c, l);
    LeadsThen(cfg, s, m, t, c, Some(l));
    LeadsOn(cfg, s, t, c, Some(l));
    DeliveredToFirstMatch(cfg, t, l, c);
  }

  // ---------------------------------------------------------------------------------------------
  // Unmatched connections
  // ---------------------------------------------------------------------------------------------

  /** One more step of the task of `c`, which touches nothing but itself, the wait group, and the root listener. */
  lemma TakesStep(cfg: Config, s: State, step: Step) returns (t: State)
    requires Orderly(cfg, s) && Alone(step) && Enabled(cfg, s, step)
    ensures Leads(cfg, s, t, step.c, None) && Orderly(cfg, t) && t.donec == s.donec
    ensures step.c < |s.tasks| == |t.tasks| && CanTurn(cfg.sls, true, s.tasks[step.c], step)
    ensures t.tasks[step.c] == Turn(cfg.sls, s.tasks[step.c], step)
    ensures t.rootClosed == (s.rootClosed || (step.Report? && !step.handled))
  {
    AloneEffect(cfg, s, step);
    AloneKeepsOrder(cfg, s, step);
    t := Apply(cfg, s, step);
    LeadsByStep(cfg, s, step, step.c, None);
  }

  /** A task past the last listener closes its connection, reports it, and is gone. */
  lemma SeenOff(cfg: Config, s: State, c: nat, handled: bool) returns (t: State)
    requires Orderly(cfg, s) && c < |s.tasks| && s.tasks[c].pc.Matching? && s.tasks[c].pc.i == |cfg.sls|
    ensures Leads(cfg, s, t, c, None)
    ensures c < |t.tasks| && t.tasks[c].pc == Finished && t.tasks[c].closes == s.tasks[c].closes + 1
    ensures t.rootClosed == (s.rootClosed || !handled)
  {
    var a := TakesStep(cfg, s, Reject(c));
    var b := TakesStep(cfg, a, Report(c, handled));
    t := TakesStep(cfg, b, Done(c));
    LeadsThen(cfg, s, a, b, c, None);
    LeadsThen(cfg, s, b, t, c, None);
  }

  /**
   * A connection that no listener accepts is closed once and reported, by its task's own steps and while the mux serves
   * on; whatever the error handler says to the report, the task can go on with that.
   */
  lemma UnmatchedIsSeenOff(cfg: Config, s: State, c: nat, handled: bool) returns (t: State)
    requires TableWellBuilt(cfg.sls) && Routable(cfg.scripts(c))
    requires Routes(cfg.sls, Stream(cfg.scripts(c)), None)
    requires Reachable(cfg, s) && c < |s.tasks| && s.tasks[c].pc.Matching?
    ensures Leads(cfg, s, t, c, None)
    ensures c < |t.tasks| && t.tasks[c].pc == Finished && t.tasks[c].closes == 1
    ensures t.rootClosed == (s.rootClosed || !handled)
  {
    ReachableInv(cfg, s);
    DecidedIs(cfg, c, None);
    var m := PastLastListener(cfg, s, c);
    t := SeenOff(cfg, m, c, handled);
    LeadsThen(cfg, s, m, t, c, None);
  }

  lemma PastLastListener(cfg: Config, s: State, c: nat) returns (t: State)
    requires Inv(cfg, s) && Routed(cfg, s) && c < |s.tasks| && s.tasks[c].pc.Matching?
    requires Decided(cfg, c).choice == None
    ensures Leads(cfg, s, t, c, None) && Orderly(cfg, t) && t.rootClosed == s.rootClosed
    ensures c < |t.tasks| && t.tasks[c].pc.Matching? && t.tasks[c].pc.i == |cfg.sls| && t.tasks[c].closes == 0
  {
    t := TurnsEnd(cfg, s, c);
    LeadsKeepsInv(cfg, s, t, c, None);
    assert OnCourse(cfg, c, t.tasks[c]);
    assert Places(t, c) == 1;
  }
}

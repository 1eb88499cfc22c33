/** What holds over whole runs of the multiplexer: conservation, routing, each listener's contract, and shutdown. */
module MuxTheorems {
  import opened Bytes
  import opened Sniffing
  import opened Reading
  import opened Matchers
  import opened Routing
  import opened Sums
  import opened MuxProtocol
  import opened MuxSafety

  ghost predicate Inv(cfg: Config, s: State) {
    Orderly(cfg, s) && Conserved(s) && AllInOrder(s)
  }

  lemma StepKeepsInv(cfg: Config, s: State, step: Step)
    requires Inv(cfg, s) && Enabled(cfg, s, step)
    ensures Inv(cfg, Apply(cfg, s, step))
  {
    StepKeepsOrder(cfg, s, step);
    StepConserves(cfg, s, step);
    StepKeepsOrderOfChans(cfg, s, step);
  }

  lemma {:induction false} RunKeepsInv(cfg: Config, s: State, steps: seq<Step>, t: State)
    requires Inv(cfg, s) && Run(cfg, s, steps) == Some(t)
    ensures Inv(cfg, t)
    ensures Routed(cfg, s) ==> Routed(cfg, t)
    decreases |steps|
  {
    if steps != [] {
      var m := Run(cfg, s, steps[..|steps| - 1]).value;
      RunKeepsInv(cfg, s, steps[..|steps| - 1], m);
      StepKeepsInv(cfg, m, steps[|steps| - 1]);
      if Routed(cfg, s) {
        StepKeepsRouted(cfg, m, steps[|steps| - 1]);
      }
    }
  }

  lemma ReachableInv(cfg: Config, s: State)
    requires Reachable(cfg, s)
    ensures Inv(cfg, s) && Routed(cfg, s)
  {
    var steps :| Run(cfg, Init(cfg), steps) == Some(s);
    InitOrderly(cfg);
    InitConserved(cfg);
    RunKeepsInv(cfg, Init(cfg), steps, s);
  }

  // ---------------------------------------------------------------------------------------------
  // Safety and conservation
  // ---------------------------------------------------------------------------------------------

  /**
   * In every reachable state nothing has panicked (no send on a closed channel, no channel closed twice, no negative
   * wait group), no channel is over its capacity, and every accepted connection is in exactly one place: in its
   * task's hands, in one queue, delivered once, or closed once.
   */
  lemma EveryConnectionIsSomewhere(cfg: Config, s: State, c: nat)
    requires Reachable(cfg, s)
    ensures !s.panicked
    ensures forall l :: 0 <= l < |s.chans| ==> |s.chans[l].queue| <= 1024
    ensures c < |s.tasks| ==>
            Held(s.tasks[c]) + s.tasks[c].closes + Sum(QueuedOn(c), s.chans) + Sum(DeliveredOn(c), s.chans) == 1
    ensures c >= |s.tasks| ==> Sum(QueuedOn(c), s.chans) + Sum(DeliveredOn(c), s.chans) == 0
  {
    ReachableInv(cfg, s);
    assert Places(s, c) == 1;
    forall l | 0 <= l < |s.chans|
      ensures |s.chans[l].queue| <= BUF_LEN
    {
      assert InOrder(s.chans[l]);
    }
  }

  /** Once `Serve` has returned, every accepted connection has been delivered once or closed once, and not both. */
  lemma NothingIsLeftBehind(cfg: Config, s: State, c: nat)
    requires Reachable(cfg, s) && s.server.Returned? && c < |s.tasks|
    ensures s.tasks[c].closes + Sum(DeliveredOn(c), s.chans) == 1
  {
    ReachableInv(cfg, s);
    AllSettled(cfg, s, c);
  }

  lemma AllSettled(cfg: Config, s: State, c: nat)
    requires Inv(cfg, s) && s.server.Returned? && c < |s.tasks|
    ensures s.tasks[c].closes + Sum(DeliveredOn(c), s.chans) == 1
  {
    assert Places(s, c) == 1;
    SumAtLeast(Live, s.tasks, c);
    forall l | 0 <= l < |s.chans|
      ensures QueuedOn(c)(s.chans[l]) == 0
    {
      assert s.chans[l].queue == [];
    }
    SumZero(QueuedOn(c), s.chans);
  }

  // ---------------------------------------------------------------------------------------------
  // End to end
  // ---------------------------------------------------------------------------------------------

  lemma ReceivedWasSent(ch: Chan, receipt: Receipt)
    requires InOrder(ch) && receipt in ch.receipts
    ensures receipt.conn in ch.sent
  {
    var i :| 0 <= i < |ch.receipts| && ch.receipts[i] == receipt;
    assert Conns(ch.receipts)[i] == receipt.conn;
    assert ch.sent[i] == receipt.conn;
  }

  /**
   * In every interleaving, and for every source, a connection is handed to the `Accept` callers of the listener that
   * the loops of `serve` choose for it, with the reader they leave; nowhere else, only once, and the mux never
   * closes it.
   */
  lemma DeliveredAsDecided(cfg: Config, s: State, l: nat, c: nat)
    requires Reachable(cfg, s) && l < |s.chans| && Delivered(c) in s.chans[l].receipts
    ensures c < |s.tasks| && s.tasks[c].closes == 0
    ensures Decision(s.tasks[c].reader, Some(l)) == Decide(cfg.sls, NewReader(cfg.scripts(c)), 0)
    ensures multiset(s.chans[l].receipts)[Delivered(c)] == 1 && Sum(DeliveredOn(c), s.chans) == 1
  {
    ReachableInv(cfg, s);
    assert InOrder(s.chans[l]);
    ReceivedWasSent(s.chans[l], Delivered(c));
    assert SentRight(cfg, s, l, c);
    SumAtLeast(DeliveredOn(c), s.chans, l);
    assert Places(s, c) == 1;
  }

  /**
   * Routing, end to end: however the source chunks its bytes and however the tasks are interleaved, a connection
   * handed to an `Accept` caller of listener `l` is one that `l` is the first listener to accept, which is true of no
   * other listener, and its reader yields its whole stream from byte zero.
   */
  lemma DeliveredToFirstMatch(cfg: Config, s: State, l: nat, c: nat)
    requires TableWellBuilt(cfg.sls) && Routable(cfg.scripts(c))
    requires Reachable(cfg, s) && l < |s.chans| && Delivered(c) in s.chans[l].receipts
    ensures Routes(cfg.sls, Stream(cfg.scripts(c)), Some(l))
    ensures forall choice :: Routes(cfg.sls, Stream(cfg.scripts(c)), choice) ==> choice == Some(l)
    ensures c < |s.tasks| && !s.tasks[c].reader.sniffing && Pending(s.tasks[c].reader) == Stream(cfg.scripts(c))
    ensures Calm(cfg.scripts(c)) ==> Quiet(s.tasks[c].reader)
  {
    DeliveredAsDecided(cfg, s, l, c);
    RoutingFollowsStream(cfg.sls, cfg.scripts(c));
    forall choice | Routes(cfg.sls, Stream(cfg.scripts(c)), choice)
      ensures choice == Some(l)
    {
      RouteIsUnique(cfg.sls, Stream(cfg.scripts(c)), choice, Some(l));
    }
  }

  /**
   * What the handler of such a connection gets, whatever the sizes of its reads: the stream's bytes from the first on,
   * none lost, repeated or out of order; and, if the source is calm, all of them before it gets any error.
   */
  lemma HandlerGetsStream(cfg: Config, s: State, l: nat, c: nat, sizes: seq<nat>, len: nat)
    requires TableWellBuilt(cfg.sls) && Routable(cfg.scripts(c))
    requires Reachable(cfg, s) && l < |s.chans| && Delivered(c) in s.chans[l].receipts
    ensures c < |s.tasks|
    ensures var run := Reads(s.tasks[c].reader, sizes);
            && run.1 + Pending(run.0) == Stream(cfg.scripts(c))
            && (Calm(cfg.scripts(c)) && ReadStep(run.0, len).err != Nil ==> run.1 == Stream(cfg.scripts(c)))
  {
    DeliveredToFirstMatch(cfg, s, l, c);
    ReadsOfPending(s.tasks[c].reader, sizes, len);
  }

  /** A connection that no listener accepts is closed once, and delivered to nobody, by the time `Serve` returns. */
  lemma UnmatchedIsClosed(cfg: Config, s: State, c: nat)
    requires TableWellBuilt(cfg.sls) && Routable(cfg.scripts(c))
    requires Reachable(cfg, s) && s.server.Returned? && c < |s.tasks|
    requires Routes(cfg.sls, Stream(cfg.scripts(c)), None)
    ensures s.tasks[c].closes == 1
    ensures forall l :: 0 <= l < |s.chans| ==> Delivered(c) !in s.chans[l].receipts
  {
    forall l | 0 <= l < |s.chans|
      ensures Delivered(c) !in s.chans[l].receipts && DeliveredOn(c)(s.chans[l]) == 0
    {
      UnmatchedIsNotDelivered(cfg, s, l, c);
    }
    SumZero(DeliveredOn(c), s.chans);
    NothingIsLeftBehind(cfg, s, c);
  }

  lemma UnmatchedIsNotDelivered(cfg: Config, s: State, l: nat, c: nat)
    requires TableWellBuilt(cfg.sls) && Routable(cfg.scripts(c))
    requires Reachable(cfg, s) && l < |s.chans| && Routes(cfg.sls, Stream(cfg.scripts(c)), None)
    ensures Delivered(c) !in s.chans[l].receipts
  {
    if Delivered(c) in s.chans[l].receipts {
      DeliveredToFirstMatch(cfg, s, l, c);
    }
  }

  /** Until shutdown begins, the mux closes only connections that no listener accepts. */
  lemma ClosedMeansUnmatched(cfg: Config, s: State, c: nat)
    requires TableWellBuilt(cfg.sls) && Routable(cfg.scripts(c))
    requires Reachable(cfg, s) && c < |s.tasks| && s.tasks[c].closes > 0 && !s.donec
    ensures Routes(cfg.sls, Stream(cfg.scripts(c)), None)
  {
    ReachableClosed(cfg, s);
    RoutingFollowsStream(cfg.sls, cfg.scripts(c));
  }

  /** Before `donec` is closed, the mux closes only connections the loops decide against. */
  ghost predicate ClosedRightly(cfg: Config, s: State) {
    !s.donec ==> forall c :: 0 <= c < |s.tasks| ==> NotClosedWrongly(cfg, c, s.tasks[c])
  }

  ghost predicate NotClosedWrongly(cfg: Config, c: nat, t: Task) {
    t.closes > 0 ==> Decided(cfg, c).choice == None
  }

  /** The first to close a connection is a task that no listener's matchers accept, or one that `donec` lets give up. */
  lemma TurnCloses(cfg: Config, c: nat, donec: bool, t: Task, step: Step)
    requires Alone(step) && CanTurn(cfg.sls, donec, t, step) && OnCourse(cfg, c, t) && !donec
    requires NotClosedWrongly(cfg, c, t)
    ensures CanTurn(cfg.sls, true, t, step) && NotClosedWrongly(cfg, c, Turn(cfg.sls, t, step))
  {
  }

  lemma AloneKeepsClosedRightly(cfg: Config, s: State, step: Step)
    requires Orderly(cfg, s) && Routed(cfg, s) && ClosedRightly(cfg, s) && Alone(step) && Enabled(cfg, s, step)
    ensures ClosedRightly(cfg, Apply(cfg, s, step))
  {
    AloneEffect(cfg, s, step);
    if !s.donec {
      TurnCloses(cfg, step.c, s.donec, s.tasks[step.c], step);
    }
  }

  lemma EnqueueKeepsClosedRightly(cfg: Config, s: State, c: nat)
    requires Orderly(cfg, s) && ClosedRightly(cfg, s) && Enabled(cfg, s, Enqueue(c))
    ensures ClosedRightly(cfg, Apply(cfg, s, Enqueue(c)))
  {
    EnqueueEffect(cfg, s, c);
  }

  lemma OthersKeepClosedRightly(cfg: Config, s: State, step: Step)
    requires Orderly(cfg, s) && ClosedRightly(cfg, s) && Enabled(cfg, s, step)
    requires !Alone(step) && !step.Enqueue?
    ensures ClosedRightly(cfg, Apply(cfg, s, step))
  {
  }

  lemma StepKeepsClosedRightly(cfg: Config, s: State, step: Step)
    requires Orderly(cfg, s) && Routed(cfg, s) && ClosedRightly(cfg, s) && Enabled(cfg, s, step)
    ensures ClosedRightly(cfg, Apply(cfg, s, step))
  {
    if Alone(step) {
      AloneKeepsClosedRightly(cfg, s, step);
    } else if step.Enqueue? {
      EnqueueKeepsClosedRightly(cfg, s, step.c);
    } else {
      OthersKeepClosedRightly(cfg, s, step);
    }
  }

  lemma {:induction false} RunKeepsClosedRightly(cfg: Config, s: State, steps: seq<Step>, t: State)
    requires Inv(cfg, s) && Routed(cfg, s) && ClosedRightly(cfg, s) && Run(cfg, s, steps) == Some(t)
    ensures ClosedRightly(cfg, t)
    decreases |steps|
  {
    if steps != [] {
      var before := steps[..|steps| - 1];
      var m := Run(cfg, s, before).value;
      RunKeepsClosedRightly(cfg, s, before, m);
      RunKeepsInv(cfg, s, before, m);
      StepKeepsClosedRightly(cfg, m, steps[|steps| - 1]);
    }
  }

  lemma ReachableClosed(cfg: Config, s: State)
    requires Reachable(cfg, s)
    ensures ClosedRightly(cfg, s)
  {
    var steps :| Run(cfg, Init(cfg), steps) == Some(s);
    InitOrderly(cfg);
    InitConserved(cfg);
    RunKeepsClosedRightly(cfg, Init(cfg), steps, s);
  }

  // ---------------------------------------------------------------------------------------------
  // The listeners' contract
  // ---------------------------------------------------------------------------------------------

  /** Receives take connections in the order they were enqueued, and only `Accept` callers receive before the close. */
  lemma ListenerIsFifo(cfg: Config, s: State, l: nat)
    requires Reachable(cfg, s) && l < |s.chans|
    ensures s.chans[l].sent == Conns(s.chans[l].receipts) + s.chans[l].queue
    ensures !s.chans[l].closed ==> forall i :: 0 <= i < |s.chans[l].receipts| ==> s.chans[l].receipts[i].Delivered?
  {
    ReachableInv(cfg, s);
    assert InOrder(s.chans[l]);
  }

  lemma ShutChanStays(cfg: Config, s: State, step: Step, l: nat)
    requires Orderly(cfg, s) && Enabled(cfg, s, step) && Enabled(cfg, s, Refuse(l))
    ensures |Apply(cfg, s, step).chans| == |s.chans| && Apply(cfg, s, step).chans[l] == s.chans[l]
  {
    if !OnChan(step) {
      ChansStay(cfg, s, step);
    } else if step.Enqueue? {
      EnqueueEffect(cfg, s, step.c);
    } else {
      ClosedChanKept(cfg, s, step, l);
    }
  }

  lemma ClosedChanKept(cfg: Config, s: State, step: Step, l: nat)
    requires Orderly(cfg, s) && Enabled(cfg, s, step) && Enabled(cfg, s, Refuse(l))
    requires step.CloseChan? || step.DrainNext? || step.Deliver?
    ensures |Apply(cfg, s, step).chans| == |s.chans| && Apply(cfg, s, step).chans[l] == s.chans[l]
  {
  }

  lemma StepKeepsShut(cfg: Config, s: State, step: Step, l: nat)
    requires Orderly(cfg, s) && Enabled(cfg, s, step) && Enabled(cfg, s, Refuse(l))
    ensures Orderly(cfg, Apply(cfg, s, step)) && Enabled(cfg, Apply(cfg, s, step), Refuse(l))
    ensures Apply(cfg, s, step).chans[l] == s.chans[l]
  {
    StepKeepsOrder(cfg, s, step);
    ShutChanStays(cfg, s, step, l);
  }

  lemma {:induction false} RunKeepsShut(cfg: Config, s: State, steps: seq<Step>, t: State, l: nat)
    requires Orderly(cfg, s) && Enabled(cfg, s, Refuse(l)) && Run(cfg, s, steps) == Some(t)
    ensures Orderly(cfg, t) && Enabled(cfg, t, Refuse(l))
    ensures t.chans[l] == s.chans[l]
    decreases |steps|
  {
    if steps != [] {
      var m := Run(cfg, s, steps[..|steps| - 1]).value;
      RunKeepsShut(cfg, s, steps[..|steps| - 1], m, l);
      StepKeepsShut(cfg, m, steps[|steps| - 1], l);
    }
  }

  /** Once `Accept` can report `ErrListenerClosed` it can do nothing else: the channel stays closed and empty. */
  lemma RefusedForever(cfg: Config, s: State, steps: seq<Step>, t: State, l: nat)
    requires Orderly(cfg, s) && Enabled(cfg, s, Refuse(l)) && Run(cfg, s, steps) == Some(t)
    ensures Enabled(cfg, t, Refuse(l)) && !Enabled(cfg, t, Deliver(l)) && t.chans[l] == s.chans[l]
  {
    RunKeepsShut(cfg, s, steps, t, l);
  }

  // ---------------------------------------------------------------------------------------------
  // The root listener
  // ---------------------------------------------------------------------------------------------

  /**
   * An unmatched connection that the error handler does not tolerate closes the root listener, and from then on no
   * further connection is accepted.
   */
  lemma {:induction false} IntolerantReportStopsAccepting(
    cfg: Config, s: State, c: nat, steps: seq<Step>, t: State)
    requires Enabled(cfg, s, Report(c, false)) && Run(cfg, Apply(cfg, s, Report(c, false)), steps) == Some(t)
    ensures t.rootClosed && |t.tasks| == |s.tasks|
    decreases |steps|
  {
    if steps != [] {
      var before := steps[..|steps| - 1];
      var m := Run(cfg, Apply(cfg, s, Report(c, false)), before).value;
      IntolerantReportStopsAccepting(cfg, s, c, before, m);
      RootStaysClosed(cfg, m, steps[|steps| - 1]);
    }
  }

  lemma RootStaysClosed(cfg: Config, s: State, step: Step)
    requires Enabled(cfg, s, step) && s.rootClosed
    ensures Apply(cfg, s, step).rootClosed && |Apply(cfg, s, step).tasks| == |s.tasks|
  {
  }

  // ---------------------------------------------------------------------------------------------
  // Shutdown ends
  // ---------------------------------------------------------------------------------------------

  /** Turns of the two matching loops that are left from matcher `j` of listener `i`. */
  ghost function TurnsLeft(sls: Table, i: nat, j: nat): nat
    decreases |sls| - i
  {
    if i >= |sls| then 0
    else (if j < |sls[i]| then |sls[i]| - j else 0) + 1 + TurnsLeft(sls, i + 1, 0)
  }

  ghost function TaskRank(sls: Table): Task -> nat {
    (t: Task) =>
      match t.pc
      case Matching(i, j) => TurnsLeft(sls, i, j) + 4
      case Enqueuing(_) => 3
      case Rejected => 2
      case Leaving => 1
      case Finished => 0
  }

  ghost function QueueRank(ch: Chan): nat {
    |ch.queue|
  }

  ghost function ServerRank(s: State): nat {
    var n := |s.chans|;
    match s.server
    case Accepting => 2 * n + 5
    case Stopping => 2 * n + 4
    case Waiting => 2 * n + 3
    case Closing(k) => if k <= n then 2 * (n - k) + 2 else 0
    case Draining(k) => if k < n then 2 * (n - k) + 1 else 0
    case Returned => 0
  }

  /** The steps a shutdown can still take. */
  ghost function Rank(cfg: Config, s: State): nat {
    Sum(TaskRank(cfg.sls), s.tasks) + Sum(QueueRank, s.chans) + ServerRank(s)
  }

  lemma AloneRankFalls(cfg: Config, s: State, step: Step)
    requires Orderly(cfg, s) && Alone(step) && Enabled(cfg, s, step)
    ensures Rank(cfg, Apply(cfg, s, step)) < Rank(cfg, s)
  {
    AloneEffect(cfg, s, step);
    var t' := Turn(cfg.sls, s.tasks[step.c], step);
    SumUpdate(TaskRank(cfg.sls), s.tasks, step.c, t');
    TurnsFall(cfg.sls, s.tasks[step.c], step);
  }

  lemma TurnsFall(sls: Table, t: Task, step: Step)
    requires Alone(step) && CanTurn(sls, true, t, step)
    ensures TaskRank(sls)(Turn(sls, t, step)) < TaskRank(sls)(t)
  {
  }

  lemma EnqueueRankFalls(cfg: Config, s: State, c: nat)
    requires Orderly(cfg, s) && Enabled(cfg, s, Enqueue(c))
    ensures Rank(cfg, Apply(cfg, s, Enqueue(c))) < Rank(cfg, s)
  {
    EnqueueEffect(cfg, s, c);
    var l := s.tasks[c].pc.l;
    var ch := s.chans[l];
    SumUpdate(TaskRank(cfg.sls), s.tasks, c, s.tasks[c].(pc := Leaving));
    SumUpdate(QueueRank, s.chans, l, ch.(queue := ch.queue + [c], sent := ch.sent + [c]));
  }

  lemma ReceiveRankFalls(cfg: Config, s: State, l: nat, receipt: Receipt)
    requires l < |s.chans| && s.chans[l].queue != []
    ensures Rank(cfg, Receive(s, l, receipt)) < Rank(cfg, s)
  {
    SumUpdate(QueueRank, s.chans, l, Receive(s, l, receipt).chans[l]);
  }

  lemma CloseKeepsRank(cfg: Config, s: State, c: nat)
    requires c < |s.tasks|
    ensures Rank(cfg, Close(s, c)) == Rank(cfg, s)
  {
    SumUpdate(TaskRank(cfg.sls), s.tasks, c, s.tasks[c].(closes := s.tasks[c].closes + 1));
  }

  lemma CloseChanRankFalls(cfg: Config, s: State)
    requires Orderly(cfg, s) && Enabled(cfg, s, CloseChan)
    ensures Rank(cfg, Apply(cfg, s, CloseChan)) < Rank(cfg, s)
  {
    SumUpdate(QueueRank, s.chans, s.server.k, s.chans[s.server.k].(closed := true));
  }

  lemma ServerRankFalls(cfg: Config, s: State, step: Step)
    requires Orderly(cfg, s) && Enabled(cfg, s, step)
    requires step.CloseDonec? || step.WaitReturns? || step.DrainEnds? || step.ServeReturns?
    ensures Rank(cfg, Apply(cfg, s, step)) < Rank(cfg, s)
  {
  }

  lemma DrainRankFalls(cfg: Config, s: State)
    requires Enabled(cfg, s, DrainNext)
    ensures Rank(cfg, Apply(cfg, s, DrainNext)) < Rank(cfg, s)
  {
    var c := s.chans[s.server.k].queue[0];
    ReceiveRankFalls(cfg, s, s.server.k, Drained(c));
    if c < |s.tasks| {
      CloseKeepsRank(cfg, Receive(s, s.server.k, Drained(c)), c);
    }
  }

  lemma AcceptingStaysOver(cfg: Config, s: State, step: Step)
    requires Orderly(cfg, s) && Enabled(cfg, s, step) && s.server != Accepting
    ensures Apply(cfg, s, step).server != Accepting
  {
    if Alone(step) {
      AloneEffect(cfg, s, step);
    }
  }

  /** Once `Serve` stops accepting, every step but a refusal brings its return closer. */
  lemma StepRankFalls(cfg: Config, s: State, step: Step)
    requires Orderly(cfg, s) && Enabled(cfg, s, step) && s.server != Accepting
    ensures !step.Refuse? ==> Rank(cfg, Apply(cfg, s, step)) < Rank(cfg, s)
    ensures step.Refuse? ==> Apply(cfg, s, step) == s
  {
    if Alone(step) {
      AloneRankFalls(cfg, s, step);
    } else if step.Enqueue? {
      EnqueueRankFalls(cfg, s, step.c);
    } else if step.Deliver? {
      ReceiveRankFalls(cfg, s, step.l, Delivered(s.chans[step.l].queue[0]));
    } else if step.DrainNext? {
      DrainRankFalls(cfg, s);
    } else if step.CloseChan? {
      CloseChanRankFalls(cfg, s);
    } else if !step.Refuse? {
      ServerRankFalls(cfg, s, step);
    }
  }

  /** The steps of a run that are not refusals. */
  ghost function Moves(steps: seq<Step>): nat {
    if steps == [] then 0
    else Moves(steps[..|steps| - 1]) + (if steps[|steps| - 1].Refuse? then 0 else 1)
  }

  /** After `Serve` stops accepting, no run makes more moves than the rank allows. */
  lemma {:induction false} ShutdownIsBounded(cfg: Config, s: State, steps: seq<Step>, t: State)
    requires Inv(cfg, s) && s.server != Accepting && Run(cfg, s, steps) == Some(t)
    ensures Moves(steps) + Rank(cfg, t) <= Rank(cfg, s) && t.server != Accepting
    decreases |steps|
  {
    if steps != [] {
      var before := steps[..|steps| - 1];
      var m := Run(cfg, s, before).value;
      ShutdownIsBounded(cfg, s, before, m);
      RunKeepsInv(cfg, s, before, m);
      StepRankFalls(cfg, m, steps[|steps| - 1]);
      AcceptingStaysOver(cfg, m, steps[|steps| - 1]);
    }
  }

  /** A step of `Serve` or of a task, rather than of an `Accept` caller. */
  predicate Own(step: Step) {
    !step.Deliver? && !step.Refuse?
  }

  /** Where a task can go once `donec` is closed, even with every queue full and nobody accepting. */
  lemma TaskCanMove(cfg: Config, s: State, c: nat) returns (step: Step)
    requires Orderly(cfg, s) && c < |s.tasks| && !s.tasks[c].pc.Finished? && s.donec
    requires s.tasks[c].pc.Matching? ==> InRange(cfg.sls, s.tasks[c].pc)
    ensures Own(step) && Enabled(cfg, s, step)
  {
    match s.tasks[c].pc
    case Matching(i, j) =>
      step := if i == |cfg.sls| then Reject(c) else if j < |cfg.sls[i]| then CallNext(c) else NextListener(c);
    case Enqueuing(_) => step := GiveUp(c);
    case Rejected => step := Report(c, true);
    case Leaving => step := Done(c);
  }

  ghost predicate InRange(sls: Table, pc: Pc) {
    pc.Matching? ==> pc.i <= |sls| && (pc.i < |sls| ==> pc.j <= |sls[pc.i]|)
  }

  ghost predicate AllInRange(cfg: Config, s: State) {
    forall c :: 0 <= c < |s.tasks| ==> InRange(cfg.sls, s.tasks[c].pc)
  }

  lemma {:induction false} RunKeepsRange(cfg: Config, s: State, steps: seq<Step>, t: State)
    requires Inv(cfg, s) && AllInRange(cfg, s) && Run(cfg, s, steps) == Some(t)
    ensures AllInRange(cfg, t)
    decreases |steps|
  {
    if steps != [] {
      var before := steps[..|steps| - 1];
      var m := Run(cfg, s, before).value;
      RunKeepsRange(cfg, s, before, m);
      RunKeepsInv(cfg, s, before, m);
      StepKeepsRange(cfg, m, steps[|steps| - 1]);
    }
  }

  lemma TurnKeepsRange(sls: Table, t: Task, step: Step)
    requires Alone(step) && CanTurn(sls, true, t, step)
    ensures InRange(sls, Turn(sls, t, step).pc)
  {
  }

  lemma StepKeepsRange(cfg: Config, s: State, step: Step)
    requires Orderly(cfg, s) && AllInRange(cfg, s) && Enabled(cfg, s, step)
    ensures AllInRange(cfg, Apply(cfg, s, step))
  {
    if Alone(step) {
      AloneEffect(cfg, s, step);
      TurnKeepsRange(cfg.sls, s.tasks[step.c], step);
    } else if step.Enqueue? {
      EnqueueEffect(cfg, s, step.c);
    } else {
      OthersKeepRange(cfg, s, step);
    }
  }

  lemma OthersKeepRange(cfg: Config, s: State, step: Step)
    requires AllInRange(cfg, s) && Enabled(cfg, s, step) && !Alone(step) && !step.Enqueue?
    ensures AllInRange(cfg, Apply(cfg, s, step))
  {
    var u := Apply(cfg, s, step);
    forall c | 0 <= c < |u.tasks|
      ensures InRange(cfg.sls, u.tasks[c].pc)
    {
      if c < |s.tasks| {
        assert InRange(cfg.sls, s.tasks[c].pc);
      }
    }
  }

  lemma ServeCanMove(cfg: Config, s: State) returns (step: Step)
    requires Orderly(cfg, s) && s.server != Accepting && s.server != Returned
    requires s.server == Waiting ==> s.wg == 0
    ensures Own(step) && Enabled(cfg, s, step)
  {
    match s.server
    case Stopping => step := CloseDonec;
    case Waiting => step := WaitReturns;
    case Closing(k) => step := if k == |s.chans| then ServeReturns else CloseChan;
    case Draining(k) => step := if s.chans[k].queue == [] then DrainEnds else DrainNext;
  }

  lemma SomebodyCanMove(cfg: Config, s: State) returns (step: Step)
    requires Orderly(cfg, s) && AllInRange(cfg, s) && s.server != Accepting && s.server != Returned
    ensures Own(step) && Enabled(cfg, s, step)
  {
    if s.server == Waiting && s.wg > 0 {
      var c := SumPositive(Live, s.tasks);
      assert InRange(cfg.sls, s.tasks[c].pc);
      step := TaskCanMove(cfg, s, c);
    } else {
      step := ServeCanMove(cfg, s);
    }
  }

  /**
   * Shutdown never gets stuck: once `Serve` stops accepting and until it returns, `Serve` or one of the tasks can take
   * a step, whatever the queues hold and whether or not anybody calls `Accept`.
   */
  lemma ShutdownNeverSticks(cfg: Config, s: State) returns (step: Step)
    requires Reachable(cfg, s) && s.server != Accepting && s.server != Returned
    ensures Own(step) && Enabled(cfg, s, step) && Rank(cfg, Apply(cfg, s, step)) < Rank(cfg, s)
  {
    ReachableInv(cfg, s);
    ReachableInRange(cfg, s);
    step := SomebodyCanMove(cfg, s);
    StepRankFalls(cfg, s, step);
  }

  lemma ReachableInRange(cfg: Config, s: State)
    requires Reachable(cfg, s)
    ensures AllInRange(cfg, s)
  {
    var steps :| Run(cfg, Init(cfg), steps) == Some(s);
    InitOrderly(cfg);
    InitConserved(cfg);
    RunKeepsRange(cfg, Init(cfg), steps, s);
  }

  /**
   * Every shutdown ends: a run from a state in which `Serve` has stopped accepting makes at most as many moves as the
   * rank of that state, and when neither `Serve` nor a task can move any more, `Serve` has returned and every accepted
   * connection has been delivered once or closed once.
   */
  lemma ShutdownEnds(cfg: Config, s: State, steps: seq<Step>, t: State)
    requires Reachable(cfg, s) && s.server != Accepting && Run(cfg, s, steps) == Some(t)
    requires forall step :: Own(step) ==> !Enabled(cfg, t, step)
    ensures Moves(steps) <= Rank(cfg, s)
    ensures t.server == Returned
    ensures forall c :: 0 <= c < |t.tasks| ==> t.tasks[c].closes + Sum(DeliveredOn(c), t.chans) == 1
  {
    ReachableInv(cfg, s);
    ReachableInRange(cfg, s);
    RunKeepsInv(cfg, s, steps, t);
    RunKeepsRange(cfg, s, steps, t);
    ShutdownIsBounded(cfg, s, steps, t);
    if t.server != Returned {
      var step := SomebodyCanMove(cfg, t);
      assert false;
    }
    forall c | 0 <= c < |t.tasks|
      ensures t.tasks[c].closes + Sum(DeliveredOn(c), t.chans) == 1
    {
      AllSettled(cfg, t, c);
    }
  }
}

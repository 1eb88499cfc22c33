/** What every step of the multiplexer keeps, and so what holds in every interleaving. */
module MuxSafety {
  import opened Bytes
  import opened Sniffing
  import opened Reading
  import opened Matchers
  import opened Routing
  import opened Sums
  import opened MuxProtocol

  // ---------------------------------------------------------------------------------------------
  // Shutdown: phases, the wait group, and closed channels
  // ---------------------------------------------------------------------------------------------

  ghost function Live(t: Task): nat {
    if t.pc.Finished? then 0 else 1
  }

  /** How many channels `Serve` has closed, and how many of those it has also drained. */
  ghost function ClosedCount(s: State): nat {
    match s.server
    case Closing(k) => k
    case Draining(k) => k + 1
    case Returned => |s.chans|
    case _ => 0
  }

  ghost function DrainedCount(s: State): nat {
    match s.server
    case Closing(k) => k
    case Draining(k) => k
    case Returned => |s.chans|
    case _ => 0
  }

  ghost predicate Orderly(cfg: Config, s: State) {
    && !s.panicked && |s.chans| == |cfg.sls| && ClosedCount(s) <= |s.chans|
    && (s.donec <==> s.server != Accepting && s.server != Stopping)
    && s.wg == Sum(Live, s.tasks)
    && (s.server.Closing? || s.server.Draining? || s.server.Returned? ==> s.wg == 0)
    && (forall k :: 0 <= k < |s.chans| ==> (s.chans[k].closed <==> k < ClosedCount(s)))
    && (forall k :: 0 <= k < DrainedCount(s) ==> s.chans[k].queue == [])
    && (forall c :: 0 <= c < |s.tasks| && s.tasks[c].pc.Enqueuing? ==> s.tasks[c].pc.l < |s.chans|)
  }

  lemma InitOrderly(cfg: Config)
    ensures Orderly(cfg, Init(cfg))
  {
  }

  lemma NobodyLive(cfg: Config, s: State, c: nat)
    requires Orderly(cfg, s) && c < |s.tasks| && !s.tasks[c].pc.Finished?
    ensures s.wg > 0 && !s.server.Closing? && !s.server.Draining? && !s.server.Returned?
  {
    SumAtLeast(Live, s.tasks, c);
  }

  /** A task's step moves only its own task, and leaves the wait group's count right. */
  lemma TaskMoves(cfg: Config, s: State, c: nat, t: Task)
    requires Orderly(cfg, s) && c < |s.tasks| && !s.tasks[c].pc.Finished?
    requires t.pc.Enqueuing? ==> t.pc.l < |s.chans|
    ensures Sum(Live, s.tasks[c := t]) == s.wg - 1 + Live(t)
    ensures !t.pc.Finished? ==> Orderly(cfg, s.(tasks := s.tasks[c := t]))
    ensures t.pc.Finished? ==> s.wg > 0 && Orderly(cfg, s.(tasks := s.tasks[c := t], wg := s.wg - 1))
  {
    NobodyLive(cfg, s, c);
    SumUpdate(Live, s.tasks, c, t);
  }

  lemma AcceptKeepsOrder(cfg: Config, s: State)
    requires Orderly(cfg, s) && Enabled(cfg, s, Accept)
    ensures Orderly(cfg, Apply(cfg, s, Accept))
  {
    SumAppend(Live, s.tasks, Task(Matching(0, 0), NewReader(cfg.scripts(|s.tasks|)), 0));
  }

  lemma CloseChanKeepsOrder(cfg: Config, s: State)
    requires Orderly(cfg, s) && Enabled(cfg, s, CloseChan)
    ensures Orderly(cfg, Apply(cfg, s, CloseChan))
  {
  }

  lemma ServerKeepsOrder(cfg: Config, s: State, step: Step)
    requires Orderly(cfg, s) && Enabled(cfg, s, step)
    requires step.AcceptError? || step.CloseDonec? || step.WaitReturns? || step.DrainEnds? || step.ServeReturns?
    ensures Orderly(cfg, Apply(cfg, s, step))
  {
  }

  lemma ReceiveKeepsOrder(cfg: Config, s: State, l: nat, receipt: Receipt)
    requires Orderly(cfg, s) && l < |s.chans| && s.chans[l].queue != []
    ensures Orderly(cfg, Receive(s, l, receipt))
  {
  }

  lemma CloseKeepsOrder(cfg: Config, s: State, c: nat)
    requires Orderly(cfg, s) && c < |s.tasks|
    ensures Orderly(cfg, Close(s, c))
  {
    SumUpdate(Live, s.tasks, c, s.tasks[c].(closes := s.tasks[c].closes + 1));
  }

  lemma DrainKeepsOrder(cfg: Config, s: State)
    requires Orderly(cfg, s) && Enabled(cfg, s, DrainNext)
    ensures Orderly(cfg, Apply(cfg, s, DrainNext))
  {
    var c := s.chans[s.server.k].queue[0];
    ReceiveKeepsOrder(cfg, s, s.server.k, Drained(c));
    if c < |s.tasks| {
      CloseKeepsOrder(cfg, Receive(s, s.server.k, Drained(c)), c);
    }
  }

  lemma EnqueueKeepsOrder(cfg: Config, s: State, c: nat)
    requires Orderly(cfg, s) && Enabled(cfg, s, Enqueue(c))
    ensures Orderly(cfg, Apply(cfg, s, Enqueue(c)))
  {
    NobodyLive(cfg, s, c);
    TaskMoves(cfg, s, c, s.tasks[c].(pc := Leaving));
  }

  /** A task that moves on alone touches nothing but itself, the wait group, and perhaps the root listener. */
  lemma AloneEffect(cfg: Config, s: State, step: Step)
    requires Orderly(cfg, s) && Alone(step) && Enabled(cfg, s, step)
    ensures step.c < |s.tasks| && CanTurn(cfg.sls, true, s.tasks[step.c], step) && s.wg > 0
    ensures Apply(cfg, s, step) ==
            s.(tasks := s.tasks[step.c := Turn(cfg.sls, s.tasks[step.c], step)],
               wg := if step.Done? then s.wg - 1 else s.wg,
               rootClosed := s.rootClosed || (step.Report? && !step.handled))
  {
    NobodyLive(cfg, s, step.c);
  }

  lemma TurnGoes(sls: Table, t: Task, step: Step)
    requires Alone(step) && CanTurn(sls, true, t, step)
    ensures !t.pc.Finished? && (Turn(sls, t, step).pc.Finished? <==> step.Done?)
    ensures Turn(sls, t, step).pc.Enqueuing? ==> Turn(sls, t, step).pc.l < |sls|
  {
  }

  lemma AloneKeepsOrder(cfg: Config, s: State, step: Step)
    requires Orderly(cfg, s) && Alone(step) && Enabled(cfg, s, step)
    ensures Orderly(cfg, Apply(cfg, s, step))
  {
    AloneEffect(cfg, s, step);
    TurnGoes(cfg.sls, s.tasks[step.c], step);
    TaskMoves(cfg, s, step.c, Turn(cfg.sls, s.tasks[step.c], step));
  }

  /** No send ever hits a closed channel, no channel is closed twice, and the wait group's count never goes negative. */
  lemma StepKeepsOrder(cfg: Config, s: State, step: Step)
    requires Orderly(cfg, s) && Enabled(cfg, s, step)
    ensures Orderly(cfg, Apply(cfg, s, step))
  {
    if Alone(step) {
      AloneKeepsOrder(cfg, s, step);
    } else if step.DrainNext? {
      DrainKeepsOrder(cfg, s);
    } else if step.Deliver? {
      ReceiveKeepsOrder(cfg, s, step.l, Delivered(s.chans[step.l].queue[0]));
    } else if step.Accept? {
      AcceptKeepsOrder(cfg, s);
    } else if step.CloseChan? {
      CloseChanKeepsOrder(cfg, s);
    } else if step.Enqueue? {
      EnqueueKeepsOrder(cfg, s, step.c);
    } else if !step.Refuse? {
      ServerKeepsOrder(cfg, s, step);
    }
  }

  // ---------------------------------------------------------------------------------------------
  // Conservation: every connection is in exactly one place
  // ---------------------------------------------------------------------------------------------

  /** Whether a task still has its connection in hand: being matched, or about to be enqueued. */
  ghost function Held(t: Task): nat {
    if t.pc.Matching? || t.pc.Enqueuing? then 1 else 0
  }

  /** How often `c` waits in a channel's queue, and how often it was handed to an `Accept` caller from there. */
  ghost function QueuedOn(c: nat): Chan -> nat {
    (ch: Chan) => multiset(ch.queue)[c]
  }

  ghost function DeliveredOn(c: nat): Chan -> nat {
    (ch: Chan) => multiset(ch.receipts)[Delivered(c)]
  }

  /** How many places a connection is in: not yet accepted, in a task's hands, queued, delivered, closed by the mux. */
  ghost function Places(s: State, c: nat): nat {
    (if c < |s.tasks| then Held(s.tasks[c]) + s.tasks[c].closes else 1) +
    Sum(QueuedOn(c), s.chans) + Sum(DeliveredOn(c), s.chans)
  }

  ghost predicate Conserved(s: State) {
    forall c: nat :: Places(s, c) == 1
  }

  lemma InitConserved(cfg: Config)
    ensures Conserved(Init(cfg))
  {
    forall c: nat
      ensures Places(Init(cfg), c) == 1
    {
      SumZero(QueuedOn(c), Init(cfg).chans);
      SumZero(DeliveredOn(c), Init(cfg).chans);
    }
  }

  /** What replacing one channel does to the places of `c`. */
  lemma ChanMoves(s: State, l: nat, ch: Chan, c: nat)
    requires l < |s.chans|
    ensures Sum(QueuedOn(c), s.chans[l := ch]) ==
            Sum(QueuedOn(c), s.chans) - multiset(s.chans[l].queue)[c] + multiset(ch.queue)[c]
    ensures Sum(DeliveredOn(c), s.chans[l := ch]) ==
            Sum(DeliveredOn(c), s.chans) - multiset(s.chans[l].receipts)[Delivered(c)] +
            multiset(ch.receipts)[Delivered(c)]
  {
    SumUpdate(QueuedOn(c), s.chans, l, ch);
    SumUpdate(DeliveredOn(c), s.chans, l, ch);
  }

  /** A receive takes the head off the queue, and counts as a delivery only if an `Accept` caller made it. */
  lemma ReceiveMoves(s: State, l: nat, receipt: Receipt, c: nat)
    requires l < |s.chans| && s.chans[l].queue != [] && receipt.conn == s.chans[l].queue[0]
    ensures Places(Receive(s, l, receipt), c) ==
            Places(s, c) - (if receipt == Drained(c) then 1 else 0)
  {
    var ch := s.chans[l];
    ChanMoves(s, l, Receive(s, l, receipt).chans[l], c);
    assert ch.queue == [ch.queue[0]] + ch.queue[1..];
    assert multiset(ch.queue) == multiset{ch.queue[0]} + multiset(ch.queue[1..]);
    assert multiset(ch.receipts + [receipt]) == multiset(ch.receipts) + multiset{receipt};
  }

  /** A send puts its connection, and no other, in one more place. */
  lemma SendMoves(chans: seq<Chan>, l: nat, e: nat, c: nat)
    requires l < |chans|
    ensures var ch := chans[l];
            var chans' := chans[l := ch.(queue := ch.queue + [e], sent := ch.sent + [e])];
            && Sum(QueuedOn(c), chans') == Sum(QueuedOn(c), chans) + (if c == e then 1 else 0)
            && Sum(DeliveredOn(c), chans') == Sum(DeliveredOn(c), chans)
  {
    var ch := chans[l];
    var ch' := ch.(queue := ch.queue + [e], sent := ch.sent + [e]);
    SumUpdate(QueuedOn(c), chans, l, ch');
    SumUpdate(DeliveredOn(c), chans, l, ch');
    assert multiset(ch.queue + [e]) == multiset(ch.queue) + multiset{e};
  }

  lemma EnqueueEffect(cfg: Config, s: State, e: nat)
    requires Orderly(cfg, s) && Enabled(cfg, s, Enqueue(e))
    ensures e < |s.tasks| && s.tasks[e].pc.Enqueuing? && s.tasks[e].pc.l < |s.chans| && !s.chans[s.tasks[e].pc.l].closed
    ensures var l := s.tasks[e].pc.l;
            var ch := s.chans[l];
            && |ch.queue| < BUF_LEN
            && Apply(cfg, s, Enqueue(e)) ==
               s.(tasks := s.tasks[e := s.tasks[e].(pc := Leaving)],
                  chans := s.chans[l := ch.(queue := ch.queue + [e], sent := ch.sent + [e])])
  {
    NobodyLive(cfg, s, e);
  }

  lemma EnqueueMoves(cfg: Config, s: State, e: nat, c: nat)
    requires Orderly(cfg, s) && Enabled(cfg, s, Enqueue(e))
    ensures Places(Apply(cfg, s, Enqueue(e)), c) == Places(s, c)
  {
    EnqueueEffect(cfg, s, e);
    SendMoves(s.chans, s.tasks[e].pc.l, e, c);
  }

  lemma CloseChanMoves(cfg: Config, s: State, c: nat)
    requires Enabled(cfg, s, CloseChan)
    ensures Places(Apply(cfg, s, CloseChan), c) == Places(s, c)
  {
    ChanMoves(s, s.server.k, s.chans[s.server.k].(closed := true), c);
  }

  /** A task that lets go of its connection closes it. */
  lemma TurnHolds(sls: Table, t: Task, step: Step)
    requires Alone(step) && CanTurn(sls, true, t, step)
    ensures var t' := Turn(sls, t, step); Held(t') + t'.closes == Held(t) + t.closes
  {
  }

  lemma PutMoves(s: State, u: State, e: nat, t: Task, c: nat)
    requires e < |s.tasks| && u.tasks == s.tasks[e := t] && u.chans == s.chans
    requires Held(t) + t.closes == Held(s.tasks[e]) + s.tasks[e].closes
    ensures Places(u, c) == Places(s, c)
  {
  }

  lemma AloneMoves(cfg: Config, s: State, step: Step, c: nat)
    requires Orderly(cfg, s) && Alone(step) && Enabled(cfg, s, step)
    ensures Places(Apply(cfg, s, step), c) == Places(s, c)
  {
    AloneEffect(cfg, s, step);
    TurnHolds(cfg.sls, s.tasks[step.c], step);
    PutMoves(s, Apply(cfg, s, step), step.c, Turn(cfg.sls, s.tasks[step.c], step), c);
  }

  lemma ServerStepMoves(cfg: Config, s: State, step: Step, c: nat)
    requires Enabled(cfg, s, step)
    requires step.Accept? || step.AcceptError? || step.CloseDonec? || step.WaitReturns? || step.DrainEnds? ||
             step.ServeReturns? || step.Refuse?
    ensures Places(Apply(cfg, s, step), c) == Places(s, c)
  {
  }

  /** A connection in a queue has been accepted. */
  lemma QueuedIsAccepted(s: State, l: nat, c: nat)
    requires Conserved(s) && l < |s.chans| && c in s.chans[l].queue
    ensures c < |s.tasks|
  {
    SumAtLeast(QueuedOn(c), s.chans, l);
    assert Places(s, c) == 1;
  }

  /** What the drain loop receives it closes. */
  lemma DrainMoves(cfg: Config, s: State, c: nat)
    requires Conserved(s) && Enabled(cfg, s, DrainNext)
    ensures Places(Apply(cfg, s, DrainNext), c) == Places(s, c)
  {
    var e := s.chans[s.server.k].queue[0];
    QueuedIsAccepted(s, s.server.k, e);
    ReceiveMoves(s, s.server.k, Drained(e), c);
    CloseMoves(Receive(s, s.server.k, Drained(e)), e, c);
  }

  lemma CloseMoves(s: State, e: nat, c: nat)
    requires e < |s.tasks|
    ensures Places(Close(s, e), c) == Places(s, c) + (if c == e then 1 else 0)
  {
  }

  lemma StepMoves(cfg: Config, s: State, step: Step, c: nat)
    requires Orderly(cfg, s) && Conserved(s) && Enabled(cfg, s, step)
    ensures Places(Apply(cfg, s, step), c) == Places(s, c)
  {
    if Alone(step) {
      AloneMoves(cfg, s, step, c);
    } else if step.Enqueue? {
      EnqueueMoves(cfg, s, step.c, c);
    } else if step.CloseChan? {
      CloseChanMoves(cfg, s, c);
    } else if step.DrainNext? {
      DrainMoves(cfg, s, c);
    } else if step.Deliver? {
      ReceiveMoves(s, step.l, Delivered(s.chans[step.l].queue[0]), c);
    } else {
      ServerStepMoves(cfg, s, step, c);
    }
  }

  lemma StepConserves(cfg: Config, s: State, step: Step)
    requires Orderly(cfg, s) && Conserved(s) && Enabled(cfg, s, step)
    ensures Conserved(Apply(cfg, s, step))
  {
    forall c: nat
      ensures Places(Apply(cfg, s, step), c) == 1
    {
      assert Places(s, c) == 1;
      StepMoves(cfg, s, step, c);
    }
  }

  // ---------------------------------------------------------------------------------------------
  // Channels: bounded, first in first out, and drained only once closed
  // ---------------------------------------------------------------------------------------------

  ghost function Conns(receipts: seq<Receipt>): seq<nat> {
    seq(|receipts|, i requires 0 <= i < |receipts| => receipts[i].conn)
  }

  /** The receives so far, by `Accept` callers or the drain loop, took the sends in order; the queue is the rest. */
  ghost predicate InOrder(ch: Chan) {
    && |ch.queue| <= BUF_LEN
    && ch.sent == Conns(ch.receipts) + ch.queue
    && (!ch.closed ==> forall i :: 0 <= i < |ch.receipts| ==> ch.receipts[i].Delivered?)
  }

  ghost predicate AllInOrder(s: State) {
    forall l :: 0 <= l < |s.chans| ==> InOrder(s.chans[l])
  }

  lemma ReceiveInOrder(s: State, l: nat, receipt: Receipt)
    requires AllInOrder(s) && l < |s.chans| && s.chans[l].queue != [] && receipt.conn == s.chans[l].queue[0]
    requires s.chans[l].closed || receipt.Delivered?
    ensures AllInOrder(Receive(s, l, receipt))
  {
    var ch := s.chans[l];
    assert Conns(ch.receipts + [receipt]) == Conns(ch.receipts) + [ch.queue[0]];
    assert ch.sent == (Conns(ch.receipts) + [ch.queue[0]]) + ch.queue[1..];
  }

  predicate OnChan(step: Step) {
    step.Enqueue? || step.CloseChan? || step.DrainNext? || step.Deliver?
  }

  lemma ChansStay(cfg: Config, s: State, step: Step)
    requires Orderly(cfg, s) && Enabled(cfg, s, step) && !OnChan(step)
    ensures Apply(cfg, s, step).chans == s.chans
  {
    if Alone(step) {
      AloneEffect(cfg, s, step);
    }
  }

  lemma EnqueueInOrder(cfg: Config, s: State, c: nat)
    requires Orderly(cfg, s) && AllInOrder(s) && Enabled(cfg, s, Enqueue(c))
    ensures AllInOrder(Apply(cfg, s, Enqueue(c)))
  {
    NobodyLive(cfg, s, c);
    var l := s.tasks[c].pc.l;
    var ch := s.chans[l];
    assert InOrder(ch);
    assert Conns(ch.receipts) + (ch.queue + [c]) == (Conns(ch.receipts) + ch.queue) + [c];
    assert InOrder(ch.(queue := ch.queue + [c], sent := ch.sent + [c]));
  }

  lemma StepKeepsOrderOfChans(cfg: Config, s: State, step: Step)
    requires Orderly(cfg, s) && AllInOrder(s) && Enabled(cfg, s, step)
    ensures AllInOrder(Apply(cfg, s, step))
  {
    if !OnChan(step) {
      ChansStay(cfg, s, step);
    } else if step.DrainNext? {
      ReceiveInOrder(s, s.server.k, Drained(s.chans[s.server.k].queue[0]));
    } else if step.Deliver? {
      ReceiveInOrder(s, step.l, Delivered(s.chans[step.l].queue[0]));
    } else if step.Enqueue? {
      EnqueueInOrder(cfg, s, step.c);
    }
  }

  // ---------------------------------------------------------------------------------------------
  // Routing: interleaved or not, every task decides as the loops of `serve` do
  // ---------------------------------------------------------------------------------------------

  /** What the loops of `serve`, run on their own, decide about connection `c`. */
  ghost function Decided(cfg: Config, c: nat): Decision {
    Decide(cfg.sls, NewReader(cfg.scripts(c)), 0)
  }

  /** What is still to be decided at matcher `j` of listener `i`. */
  ghost function DecideAt(sls: Table, r: ValidReader, i: nat, j: nat): Decision {
    if i >= |sls| || j > |sls[i]| then Decision(r, None)
    else
      var v := Try(sls[i], r, j);
      if v.matched then Decision(ResetStep(v.reader, false), Some(i)) else Decide(sls, v.reader, i + 1)
  }

  /** The place and the reader of a task agree with the decision. */
  ghost predicate OnCourse(cfg: Config, c: nat, t: Task) {
    match t.pc
    case Matching(i, j) =>
      && i <= |cfg.sls| && (i < |cfg.sls| ==> j <= |cfg.sls[i]|)
      && DecideAt(cfg.sls, t.reader, i, j) == Decided(cfg, c)
    case Enqueuing(l) => Decision(t.reader, Some(l)) == Decided(cfg, c)
    case Rejected => Decided(cfg, c).choice == None
    case _ => true
  }

  ghost predicate SentRight(cfg: Config, s: State, l: nat, c: nat) {
    && c < |s.tasks| && (s.tasks[c].pc.Leaving? || s.tasks[c].pc.Finished?)
    && Decision(s.tasks[c].reader, Some(l)) == Decided(cfg, c)
  }

  ghost predicate Routed(cfg: Config, s: State) {
    && (forall c :: 0 <= c < |s.tasks| ==> OnCourse(cfg, c, s.tasks[c]))
    && (forall l, x :: 0 <= l < |s.chans| && x in s.chans[l].sent ==> SentRight(cfg, s, l, x))
  }

  /** One turn of the inner loop. */
  lemma CallStaysOnCourse(sls: Table, r: ValidReader, i: nat, j: nat)
    requires i < |sls| && j < |sls[i]|
    ensures var v := Call(sls[i][j], ResetStep(r, true));
            DecideAt(sls, r, i, j) ==
            if v.matched then Decision(ResetStep(v.reader, false), Some(i)) else DecideAt(sls, v.reader, i, j + 1)
  {
  }

  /** One turn of the outer loop. */
  lemma NextStaysOnCourse(sls: Table, r: ValidReader, i: nat)
    requires i < |sls|
    ensures DecideAt(sls, r, i, |sls[i]|) == DecideAt(sls, r, i + 1, 0)
  {
    assert Try(sls[i], r, |sls[i]|) == Verdict(r, false);
  }

  /** A task that was still on its way to a channel may move on: no send so far was its own. */
  lemma TaskStepRouted(cfg: Config, s: State, c: nat, t: Task)
    requires Routed(cfg, s) && c < |s.tasks| && OnCourse(cfg, c, t)
    requires (s.tasks[c].pc.Leaving? || s.tasks[c].pc.Finished?) ==>
             t.reader == s.tasks[c].reader && (t.pc.Leaving? || t.pc.Finished?)
    ensures Routed(cfg, s.(tasks := s.tasks[c := t]))
  {
    var u := s.(tasks := s.tasks[c := t]);
    forall l, x | 0 <= l < |u.chans| && x in u.chans[l].sent
      ensures SentRight(cfg, u, l, x)
    {
      assert SentRight(cfg, s, l, x);
    }
  }

  lemma EnqueueRouted(cfg: Config, s: State, c: nat)
    requires Orderly(cfg, s) && Routed(cfg, s) && Enabled(cfg, s, Enqueue(c))
    ensures Routed(cfg, Apply(cfg, s, Enqueue(c)))
  {
    NobodyLive(cfg, s, c);
    var u := Apply(cfg, s, Enqueue(c));
    assert OnCourse(cfg, c, s.tasks[c]);
    var v := s.(tasks := s.tasks[c := s.tasks[c].(pc := Leaving)]);
    TaskStepRouted(cfg, s, c, s.tasks[c].(pc := Leaving));
    forall l, x | 0 <= l < |u.chans| && x in u.chans[l].sent
      ensures SentRight(cfg, u, l, x)
    {
      if x in s.chans[l].sent {
        assert SentRight(cfg, v, l, x);
      } else {
        assert l == s.tasks[c].pc.l && x == c;
      }
    }
  }

  lemma AcceptRouted(cfg: Config, s: State)
    requires Routed(cfg, s) && Enabled(cfg, s, Accept)
    ensures Routed(cfg, Apply(cfg, s, Accept))
  {
    var u := Apply(cfg, s, Accept);
    forall l, x | 0 <= l < |u.chans| && x in u.chans[l].sent
      ensures SentRight(cfg, u, l, x)
    {
      assert SentRight(cfg, s, l, x);
    }
  }

  /** A receive sends nothing. */
  lemma ReceiveRouted(cfg: Config, s: State, l: nat, receipt: Receipt)
    requires Routed(cfg, s) && l < |s.chans| && s.chans[l].queue != []
    ensures Routed(cfg, Receive(s, l, receipt))
  {
    var u := Receive(s, l, receipt);
    forall k, x | 0 <= k < |u.chans| && x in u.chans[k].sent
      ensures SentRight(cfg, u, k, x)
    {
      assert u.chans[k].sent == s.chans[k].sent;
      assert SentRight(cfg, s, k, x);
    }
  }

  lemma DrainRouted(cfg: Config, s: State)
    requires Routed(cfg, s) && Enabled(cfg, s, DrainNext)
    ensures Routed(cfg, Apply(cfg, s, DrainNext))
  {
    var c := s.chans[s.server.k].queue[0];
    var received := Receive(s, s.server.k, Drained(c));
    ReceiveRouted(cfg, s, s.server.k, Drained(c));
    if c < |s.tasks| {
      assert OnCourse(cfg, c, s.tasks[c]);
      TaskStepRouted(cfg, received, c, received.tasks[c].(closes := received.tasks[c].closes + 1));
    }
  }

  lemma CloseChanRouted(cfg: Config, s: State)
    requires Routed(cfg, s) && Enabled(cfg, s, CloseChan)
    ensures Routed(cfg, Apply(cfg, s, CloseChan))
  {
    var u := Apply(cfg, s, CloseChan);
    forall l, x | 0 <= l < |u.chans| && x in u.chans[l].sent
      ensures SentRight(cfg, u, l, x)
    {
      assert u.chans[l].sent == s.chans[l].sent;
      assert SentRight(cfg, s, l, x);
    }
  }

  lemma ServerRouted(cfg: Config, s: State, step: Step)
    requires Routed(cfg, s) && Enabled(cfg, s, step)
    requires step.AcceptError? || step.CloseDonec? || step.WaitReturns? || step.DrainEnds? || step.ServeReturns? ||
             step.Refuse?
    ensures Routed(cfg, Apply(cfg, s, step))
  {
    SameTasksAndChans(cfg, s, Apply(cfg, s, step));
  }

  /** A task that moves on alone stays on course. */
  lemma TurnOnCourse(cfg: Config, c: nat, t: Task, step: Step)
    requires Alone(step) && CanTurn(cfg.sls, true, t, step) && OnCourse(cfg, c, t)
    ensures OnCourse(cfg, c, Turn(cfg.sls, t, step))
    ensures t.pc.Leaving? ==> Turn(cfg.sls, t, step).reader == t.reader && Turn(cfg.sls, t, step).pc.Finished?
  {
    if step.CallNext? {
      CallOnCourse(cfg, c, t, step);
    } else if step.NextListener? {
      NextOnCourse(cfg, c, t, step);
    }
  }

  lemma CallOnCourse(cfg: Config, c: nat, t: Task, step: Step)
    requires step.CallNext? && CanTurn(cfg.sls, true, t, step) && OnCourse(cfg, c, t)
    ensures OnCourse(cfg, c, Turn(cfg.sls, t, step))
  {
    CallStaysOnCourse(cfg.sls, t.reader, t.pc.i, t.pc.j);
  }

  lemma NextOnCourse(cfg: Config, c: nat, t: Task, step: Step)
    requires step.NextListener? && CanTurn(cfg.sls, true, t, step) && OnCourse(cfg, c, t)
    ensures OnCourse(cfg, c, Turn(cfg.sls, t, step))
  {
    NextStaysOnCourse(cfg.sls, t.reader, t.pc.i);
  }

  lemma AloneRouted(cfg: Config, s: State, step: Step)
    requires Orderly(cfg, s) && Routed(cfg, s) && Alone(step) && Enabled(cfg, s, step)
    ensures Routed(cfg, Apply(cfg, s, step))
  {
    AloneEffect(cfg, s, step);
    var t := s.tasks[step.c];
    var t' := Turn(cfg.sls, t, step);
    TurnGoes(cfg.sls, t, step);
    TurnOnCourse(cfg, step.c, t, step);
    TaskStepRouted(cfg, s, step.c, t');
    SameTasksAndChans(cfg, s.(tasks := s.tasks[step.c := t']), Apply(cfg, s, step));
  }

  lemma SameTasksAndChans(cfg: Config, s: State, u: State)
    requires Routed(cfg, s) && u.tasks == s.tasks && u.chans == s.chans
    ensures Routed(cfg, u)
  {
    forall l, x | 0 <= l < |u.chans| && x in u.chans[l].sent
      ensures SentRight(cfg, u, l, x)
    {
      assert SentRight(cfg, s, l, x);
    }
  }

  lemma StepKeepsRouted(cfg: Config, s: State, step: Step)
    requires Orderly(cfg, s) && Routed(cfg, s) && Enabled(cfg, s, step)
    ensures Routed(cfg, Apply(cfg, s, step))
  {
    if Alone(step) {
      AloneRouted(cfg, s, step);
    } else if step.Accept? {
      AcceptRouted(cfg, s);
    } else if step.Enqueue? {
      EnqueueRouted(cfg, s, step.c);
    } else if step.DrainNext? {
      DrainRouted(cfg, s);
    } else if step.Deliver? {
      ReceiveRouted(cfg, s, step.l, Delivered(s.chans[step.l].queue[0]));
    } else if step.CloseChan? {
      CloseChanRouted(cfg, s);
    } else {
      ServerRouted(cfg, s, step);
    }
  }
}

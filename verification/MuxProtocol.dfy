/**
 * The multiplexer at work: the accept loop of `Serve`, one `serve` task per connection, the listeners' bounded
 * channels, and any number of `Accept` callers, one atomic step at a time and in every interleaving.
 */
module MuxProtocol {
  import opened Bytes
  import opened Sniffing
  import opened Reading
  import opened Matchers
  import opened Routing
  import opened Sums

  /** The listeners' matchers, all registered before `Serve`, and what each accepted connection will send. */
  datatype Config = Config(sls: Table, scripts: nat -> Script)

  /** The capacity of every listener's channel. */
  const BUF_LEN: nat := 1024

  /**
   * Where a `serve` task is: about to call matcher `j` of listener `i`; in the `select` that enqueues its connection or
   * gives up; done rejecting and about to report `ErrNotMatched`; about to run its deferred `wg.Done`; or gone.
   */
  datatype Pc = Matching(i: nat, j: nat) | Enqueuing(l: nat) | Rejected | Leaving | Finished

  /** A task, the `MuxConn` it owns, and how often the mux has closed its connection. */
  datatype Task = Task(pc: Pc, reader: ValidReader, closes: nat)

  /** A receive from a listener's channel: by an `Accept` caller, or by the drain loop. */
  datatype Receipt = Delivered(conn: nat) | Drained(conn: nat)

  /** A listener's channel, with the history of its sends and receives. */
  datatype Chan = Chan(queue: seq<nat>, closed: bool, sent: seq<nat>, receipts: seq<Receipt>)

  /**
   * Where `Serve` is: at `Accept`; in its deferred function before `close(donec)`, in `wg.Wait`, before closing
   * channel `k`, or ranging over it; or back at its caller.
   */
  datatype Server = Accepting | Stopping | Waiting | Closing(k: nat) | Draining(k: nat) | Returned

  datatype State = State(
    server: Server, donec: bool, rootClosed: bool, panicked: bool, wg: nat, tasks: seq<Task>, chans: seq<Chan>)

  datatype Step =
    // Serve
    | Accept | AcceptError(handled: bool) | CloseDonec | WaitReturns | CloseChan | DrainNext | DrainEnds | ServeReturns
    // the task of connection c
    | CallNext(c: nat) | NextListener(c: nat) | Reject(c: nat) | Enqueue(c: nat) | GiveUp(c: nat)
    | Report(c: nat, handled: bool) | Done(c: nat)
    // callers of muxListener.Accept
    | Deliver(l: nat) | Refuse(l: nat)

  function Init(cfg: Config): State {
    State(Accepting, false, false, false, 0, [], seq(|cfg.sls|, _ => Chan([], false, [], [])))
  }

  /** The steps by which a task moves on without sending or receiving. */
  predicate Alone(step: Step) {
    step.CallNext? || step.NextListener? || step.Reject? || step.GiveUp? || step.Report? || step.Done?
  }

  ghost predicate CanTurn(sls: Table, donec: bool, t: Task, step: Step)
    requires Alone(step)
  {
    match step
    case CallNext(_) => t.pc.Matching? && t.pc.i < |sls| && t.pc.j < |sls[t.pc.i]|
    case NextListener(_) => t.pc.Matching? && t.pc.i < |sls| && t.pc.j == |sls[t.pc.i]|
    case Reject(_) => t.pc.Matching? && t.pc.i == |sls|
    case GiveUp(_) => t.pc.Enqueuing? && donec
    case Report(_, _) => t.pc == Rejected
    case Done(_) => t.pc == Leaving
  }

  /** What such a step makes of the task. */
  ghost function Turn(sls: Table, t: Task, step: Step): Task
    requires Alone(step) && CanTurn(sls, true, t, step)
  {
    match step
    case CallNext(_) =>
      var v := Call(sls[t.pc.i][t.pc.j], ResetStep(t.reader, true));
      if v.matched then Task(Enqueuing(t.pc.i), ResetStep(v.reader, false), t.closes)
      else Task(Matching(t.pc.i, t.pc.j + 1), v.reader, t.closes)
    case NextListener(_) => t.(pc := Matching(t.pc.i + 1, 0))
    case Reject(_) => t.(pc := Rejected, closes := t.closes + 1)
    case GiveUp(_) => t.(pc := Leaving, closes := t.closes + 1)
    case Report(_, _) => t.(pc := Leaving)
    case Done(_) => t.(pc := Finished)
  }

  /** Which steps a state allows.  A blocked channel operation, and a `select` none of whose cases is ready, do not. */
  ghost predicate Enabled(cfg: Config, s: State, step: Step) {
    && !s.panicked && |s.chans| == |cfg.sls|
    && match step
       case Accept => s.server == Accepting && !s.rootClosed
       case AcceptError(_) => s.server == Accepting
       case CloseDonec => s.server == Stopping
       case WaitReturns => s.server == Waiting && s.wg == 0
       case CloseChan => s.server.Closing? && s.server.k < |s.chans|
       case DrainNext => s.server.Draining? && s.server.k < |s.chans| && s.chans[s.server.k].queue != []
       case DrainEnds =>
         s.server.Draining? && s.server.k < |s.chans| && s.chans[s.server.k].queue == [] && s.chans[s.server.k].closed
       case ServeReturns => s.server == Closing(|s.chans|)
       case Enqueue(c) =>
         && c < |s.tasks| && s.tasks[c].pc.Enqueuing? && s.tasks[c].pc.l < |s.chans|
         && (s.chans[s.tasks[c].pc.l].closed || |s.chans[s.tasks[c].pc.l].queue| < BUF_LEN)
       case Deliver(l) => l < |s.chans| && s.chans[l].queue != []
       case Refuse(l) => l < |s.chans| && s.chans[l].queue == [] && s.chans[l].closed
       case _ => step.c < |s.tasks| && CanTurn(cfg.sls, s.donec, s.tasks[step.c], step)
  }

  function Put(s: State, c: nat, t: Task): State
    requires c < |s.tasks|
  {
    s.(tasks := s.tasks[c := t])
  }

  function Close(s: State, c: nat): State
    requires c < |s.tasks|
  {
    Put(s, c, s.tasks[c].(closes := s.tasks[c].closes + 1))
  }

  function Receive(s: State, l: nat, receipt: Receipt): State
    requires l < |s.chans| && s.chans[l].queue != []
  {
    var ch := s.chans[l];
    s.(chans := s.chans[l := ch.(queue := ch.queue[1..], receipts := ch.receipts + [receipt])])
  }

  /** What a step does.  Closing a closed channel, sending on one, and a `Done` too many panic. */
  ghost function Apply(cfg: Config, s: State, step: Step): State
    requires Enabled(cfg, s, step)
  {
    match step
    case Accept =>
      s.(tasks := s.tasks + [Task(Matching(0, 0), NewReader(cfg.scripts(|s.tasks|)), 0)], wg := s.wg + 1)
    case AcceptError(handled) => if handled then s else s.(server := Stopping)
    case CloseDonec => if s.donec then s.(panicked := true) else s.(donec := true, server := Waiting)
    case WaitReturns => s.(server := Closing(0))
    case CloseChan =>
      var k := s.server.k;
      if s.chans[k].closed then s.(panicked := true)
      else s.(chans := s.chans[k := s.chans[k].(closed := true)], server := Draining(k))
    case DrainNext =>
      var c := s.chans[s.server.k].queue[0];
      var received := Receive(s, s.server.k, Drained(c));
      if c < |s.tasks| then Close(received, c) else received
    case DrainEnds => s.(server := Closing(s.server.k + 1))
    case ServeReturns => s.(server := Returned)
    case Enqueue(c) =>
      var l := s.tasks[c].pc.l;
      var ch := s.chans[l];
      if ch.closed then s.(panicked := true)
      else
        var ch' := ch.(queue := ch.queue + [c], sent := ch.sent + [c]);
        Put(s, c, s.tasks[c].(pc := Leaving)).(chans := s.chans[l := ch'])
    case Report(c, handled) => Put(s, c, Turn(cfg.sls, s.tasks[c], step)).(rootClosed := s.rootClosed || !handled)
    case Done(c) =>
      if s.wg == 0 then s.(panicked := true) else Put(s, c, Turn(cfg.sls, s.tasks[c], step)).(wg := s.wg - 1)
    case Deliver(l) => Receive(s, l, Delivered(s.chans[l].queue[0]))
    case Refuse(l) => s
    case _ => Put(s, step.c, Turn(cfg.sls, s.tasks[step.c], step))
  }

  /** The state a sequence of steps leads to, if each is enabled in its turn. */
  ghost function Run(cfg: Config, s: State, steps: seq<Step>): Option<State>
    decreases |steps|
  {
    if steps == [] then
      Some(s)
    else
      match Run(cfg, s, steps[..|steps| - 1])
      case None => None
      case Some(m) =>
        var step := steps[|steps| - 1];
        if Enabled(cfg, m, step) then Some(Apply(cfg, m, step)) else None
  }

  ghost predicate Reachable(cfg: Config, s: State) {
    exists steps :: Run(cfg, Init(cfg), steps) == Some(s)
  }
}

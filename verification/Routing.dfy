/** Which listener a connection goes to: the matching loop of `serve`. */
module Routing {
  import opened Bytes
  import opened PatternTree
  import opened Sniffing
  import opened Reading
  import opened Matchers

  /** The matchers of each listener, in the order of the `Match` calls. */
  type Table = seq<seq<Matcher>>

  ghost predicate RowWellBuilt(ms: seq<Matcher>) {
    forall j :: 0 <= j < |ms| ==> WellBuilt(ms[j])
  }

  ghost predicate TableWellBuilt(sls: Table) {
    forall i :: 0 <= i < |sls| ==> RowWellBuilt(sls[i])
  }

  // ---------------------------------------------------------------------------------------------
  // The pure rule
  // ---------------------------------------------------------------------------------------------

  ghost predicate ListenerAccepts(ms: seq<Matcher>, stream: Bytes) {
    exists j :: 0 <= j < |ms| && Accepts(ms[j], stream)
  }

  /** The first listener any of whose matchers accepts the whole stream, if there is one. */
  ghost predicate Routes(sls: Table, stream: Bytes, choice: Option<nat>) {
    match choice
    case None => forall k :: 0 <= k < |sls| ==> !ListenerAccepts(sls[k], stream)
    case Some(i) =>
      && i < |sls| && ListenerAccepts(sls[i], stream)
      && forall k :: 0 <= k < i ==> !ListenerAccepts(sls[k], stream)
  }

  /** The rule leaves no choice. */
  lemma RouteIsUnique(sls: Table, stream: Bytes, a: Option<nat>, b: Option<nat>)
    requires Routes(sls, stream, a) && Routes(sls, stream, b)
    ensures a == b
  {
    if a.Some? && b.Some? {
      if a.value < b.value {
        assert false;
      } else if b.value < a.value {
        assert false;
      }
    }
  }

  // ---------------------------------------------------------------------------------------------
  // The loops of `serve`
  // ---------------------------------------------------------------------------------------------

  /** The inner loop from matcher `j` on, each matcher in a session of its own. */
  ghost function Try(ms: seq<Matcher>, r: Reader, j: nat): (v: Verdict)
    requires Valid(r) && j <= |ms|
    ensures Valid(v.reader)
    decreases |ms| - j
  {
    if j == |ms| then
      Verdict(r, false)
    else
      var v := Call(ms[j], ResetStep(r, true));
      if v.matched then v else Try(ms, v.reader, j + 1)
  }

  datatype Decision = Decision(reader: Reader, choice: Option<nat>)

  /** The outer loop from listener `i` on: where the connection is enqueued, or none when it is closed. */
  ghost function Decide(sls: Table, r: Reader, i: nat): (d: Decision)
    requires Valid(r) && i <= |sls|
    ensures Valid(d.reader)
    decreases |sls| - i
  {
    if i == |sls| then
      Decision(r, None)
    else
      var v := Try(sls[i], r, 0);
      if v.matched then Decision(ResetStep(v.reader, false), Some(i)) else Decide(sls, v.reader, i + 1)
  }

  /** `rpcMux`, as far as registering listeners and matching connections go. */
  class RpcMux {
    var sls: Table

    constructor ()
      ensures sls == []
    {
      sls := [];
    }

    /** `MatchWithWriters`: the new listener comes after all others. */
    method MatchWithWriters(matchers: seq<Matcher>) returns (listener: nat)
      modifies this
      ensures sls == old(sls) + [matchers] && listener == |old(sls)|
    {
      listener := |sls|;
      sls := sls + [matchers];
    }

    /** `serve` up to the point where the connection is enqueued for the chosen listener, or closed. */
    method Serve(c: Source) returns (muc: MuxConn, choice: Option<nat>)
      modifies c
      ensures fresh(muc) && fresh(muc.buf) && muc.conn == c && muc.buf.source == c
      ensures Decision(muc.buf.View(), choice) == Decide(sls, NewReader(old(c.script)), 0)
    {
      muc := new MuxConn(c);
      ghost var decision := Decide(sls, muc.buf.View(), 0);
      var i := 0;
      while i < |sls|
        invariant i <= |sls| && Valid(muc.buf.View())
        invariant decision == Decide(sls, muc.buf.View(), i)
      {
        var matched := TryListener(muc, sls[i]);
        if matched {
          muc.DoneSniffing();
          return muc, Some(i);
        }
        i := i + 1;
      }
      return muc, None;
    }

    /** The inner loop: the matchers of one listener, each in a session of its own. */
    method TryListener(muc: MuxConn, ms: seq<Matcher>) returns (matched: bool)
      requires Valid(muc.buf.View())
      modifies muc.buf, muc.buf.source
      ensures Valid(muc.buf.View()) && Verdict(muc.buf.View(), matched) == Try(ms, old(muc.buf.View()), 0)
    {
      ghost var verdict := Try(ms, muc.buf.View(), 0);
      var j := 0;
      while j < |ms|
        invariant j <= |ms| && Valid(muc.buf.View())
        invariant verdict == Try(ms, muc.buf.View(), j)
      {
        var r := muc.StartSniffing();
        matched := CallMatcher(ms[j], r);
        if matched {
          return true;
        }
        j := j + 1;
      }
      return false;
    }
  }

  // ---------------------------------------------------------------------------------------------
  // Routing follows the rule
  // ---------------------------------------------------------------------------------------------

  /**
   * The sources for which routing is a matter of the stream alone: nothing follows an error, and on a stream that
   * starts with the HTTP/2 preface no error comes along with data either.
   */
  ghost predicate Routable(script: Script) {
    ErrorsAtEnd(script) && (ClientPreface() <= Stream(script) ==> Calm(script))
  }

  /** What holds of a connection's reader before every matcher: it has the whole stream to show. */
  ghost predicate Shows(r: Reader, stream: Bytes) {
    && Valid(r) && Whole(r) == stream && Settled(r)
    && (ClientPreface() <= stream ==> Quiet(r))
  }

  lemma NewShows(script: Script)
    requires Routable(script)
    ensures Shows(NewReader(script), Stream(script))
  {
  }

  /** A matcher called in its own session answers for the whole stream, and leaves all of it for the next one. */
  lemma SessionVerdict(m: Matcher, r: Reader, stream: Bytes)
    requires WellBuilt(m) && Shows(r, stream)
    ensures var v := Call(m, ResetStep(r, true));
            Shows(v.reader, stream) && (v.matched <==> Accepts(m, stream))
  {
    var start := ResetStep(r, true);
    ResetRewinds(r, true);
    RewoundBytes(r);
    CallKeeps(m, start);
    CallIsExact(m, start);
  }

  ghost predicate NoneAccepts(ms: seq<Matcher>, j: nat, stream: Bytes) {
    forall k :: 0 <= k < j && k < |ms| ==> !Accepts(ms[k], stream)
  }

  lemma NextDenies(ms: seq<Matcher>, j: nat, stream: Bytes)
    requires NoneAccepts(ms, j, stream) && j < |ms| && !Accepts(ms[j], stream)
    ensures NoneAccepts(ms, j + 1, stream)
  {
  }

  lemma TryTurn(ms: seq<Matcher>, r: Reader, j: nat)
    requires Valid(r) && j < |ms|
    ensures var v := Call(ms[j], ResetStep(r, true));
            Try(ms, r, j) == if v.matched then v else Try(ms, v.reader, j + 1)
  {
  }

  lemma {:induction false} TryAnswers(ms: seq<Matcher>, r: Reader, j: nat, stream: Bytes)
    requires RowWellBuilt(ms) && Shows(r, stream) && j <= |ms|
    requires NoneAccepts(ms, j, stream)
    ensures Shows(Try(ms, r, j).reader, stream)
    ensures Try(ms, r, j).matched <==> ListenerAccepts(ms, stream)
    decreases |ms| - j
  {
    if j < |ms| {
      SessionVerdict(ms[j], r, stream);
      TryTurn(ms, r, j);
      var v := Call(ms[j], ResetStep(r, true));
      if v.matched {
        assert ListenerAccepts(ms, stream);
      } else {
        NextDenies(ms, j, stream);
        TryAnswers(ms, v.reader, j + 1, stream);
      }
    }
  }

  ghost predicate NoneBefore(sls: Table, i: nat, stream: Bytes) {
    forall k :: 0 <= k < i && k < |sls| ==> !ListenerAccepts(sls[k], stream)
  }

  lemma DecideTurn(sls: Table, r: Reader, i: nat)
    requires Valid(r) && i < |sls|
    ensures var v := Try(sls[i], r, 0);
            Decide(sls, r, i) ==
            if v.matched then Decision(ResetStep(v.reader, false), Some(i)) else Decide(sls, v.reader, i + 1)
  {
  }

  /** A right decision: the one the rule makes, with a reader that has the whole stream to deliver. */
  ghost predicate Right(sls: Table, stream: Bytes, d: Decision) {
    && Valid(d.reader) && Routes(sls, stream, d.choice)
    && (d.choice.Some? ==> !d.reader.sniffing && Pending(d.reader) == stream)
  }

  /** One listener's turn: it is the right choice, or the next one may be. */
  lemma ListenerTurn(sls: Table, r: Reader, i: nat, stream: Bytes)
    requires i < |sls| && RowWellBuilt(sls[i]) && Shows(r, stream) && NoneBefore(sls, i, stream)
    ensures var v := Try(sls[i], r, 0);
            && Shows(v.reader, stream)
            && if v.matched then Right(sls, stream, Decision(ResetStep(v.reader, false), Some(i)))
               else NoneBefore(sls, i + 1, stream)
  {
    TryAnswers(sls[i], r, 0, stream);
    var v := Try(sls[i], r, 0);
    if v.matched {
      ResetRewinds(v.reader, false);
    }
  }

  lemma NoListener(sls: Table, r: Reader, stream: Bytes)
    requires Valid(r) && NoneBefore(sls, |sls|, stream)
    ensures Right(sls, stream, Decision(r, None))
  {
  }

  /** Listener `i` keeps what is `good` of a reader, or makes a decision that is `right`. */
  ghost predicate TurnKeeps(
    sls: Table, i: nat, r: ValidReader, good: (nat, ValidReader) -> bool, right: Decision -> bool)
    requires i < |sls|
  {
    var v := Try(sls[i], r, 0);
    if v.matched then right(Decision(ResetStep(v.reader, false), Some(i))) else good(i + 1, v.reader)
  }

  /** Induction over the listeners. */
  lemma {:induction false} DecideInduction(
    sls: Table, r: Reader, i: nat, good: (nat, ValidReader) -> bool, right: Decision -> bool)
    requires Valid(r) && i <= |sls| && good(i, r)
    requires forall k: nat, s: ValidReader :: k < |sls| && good(k, s) ==> TurnKeeps(sls, k, s, good, right)
    requires forall s: ValidReader :: good(|sls|, s) ==> right(Decision(s, None))
    ensures right(Decide(sls, r, i))
    decreases |sls| - i
  {
    if i < |sls| {
      DecideTurn(sls, r, i);
      assert TurnKeeps(sls, i, r, good, right);
      var v := Try(sls[i], r, 0);
      if !v.matched {
        DecideInduction(sls, v.reader, i + 1, good, right);
      }
    }
  }

  lemma DecideIsRight(sls: Table, r: Reader, stream: Bytes)
    requires TableWellBuilt(sls) && Shows(r, stream)
    ensures Right(sls, stream, Decide(sls, r, 0))
  {
    var good := (i: nat, s: ValidReader) => Shows(s, stream) && NoneBefore(sls, i, stream);
    var right := (d: Decision) => Right(sls, stream, d);
    forall k: nat, s: ValidReader | k < |sls| && good(k, s)
      ensures TurnKeeps(sls, k, s, good, right)
    {
      ListenerTurn(sls, s, k, stream);
    }
    forall s: ValidReader | good(|sls|, s)
      ensures right(Decision(s, None))
    {
      NoListener(sls, s, stream);
    }
    DecideInduction(sls, r, 0, good, right);
  }

  lemma {:induction false} TryKeepsQuiet(ms: seq<Matcher>, r: Reader, j: nat)
    requires Valid(r) && j <= |ms| && Quiet(r)
    ensures Quiet(Try(ms, r, j).reader)
    decreases |ms| - j
  {
    if j < |ms| {
      CallKeeps(ms[j], ResetStep(r, true));
      TryKeepsQuiet(ms, Call(ms[j], ResetStep(r, true)).reader, j + 1);
    }
  }

  lemma {:induction false} DecideKeepsQuiet(sls: Table, r: Reader, i: nat)
    requires Valid(r) && i <= |sls| && Quiet(r)
    ensures Quiet(Decide(sls, r, i).reader)
    decreases |sls| - i
  {
    if i < |sls| {
      TryKeepsQuiet(sls[i], r, 0);
      DecideKeepsQuiet(sls, Try(sls[i], r, 0).reader, i + 1);
    }
  }

  /**
   * For every well-built table and every routable source, however it chunks its bytes, `serve` follows the rule; and
   * the handler of the listener it picks has the whole stream to read, from byte zero, with no error before its end
   * if the source itself reports none.
   */
  lemma RoutingFollowsStream(sls: Table, script: Script)
    requires TableWellBuilt(sls) && Routable(script)
    ensures var d := Decide(sls, NewReader(script), 0);
            && Routes(sls, Stream(script), d.choice)
            && (d.choice.Some? ==> !d.reader.sniffing && Pending(d.reader) == Stream(script))
            && (Calm(script) ==> Quiet(d.reader))
  {
    NewShows(script);
    DecideIsRight(sls, NewReader(script), Stream(script));
    if Calm(script) {
      DecideKeepsQuiet(sls, NewReader(script), 0);
    }
  }

  // ---------------------------------------------------------------------------------------------
  // ... for routable sources only
  // ---------------------------------------------------------------------------------------------

  /** A tree of one pattern, as `newTree` makes it. */
  function OneWord(w: Bytes): Tree {
    Tree(Node(w, map[], true), |w| + 1)
  }

  lemma OneWordWords(w: Bytes)
    ensures Words(OneWord(w).root) == {w} && BuiltFrom(OneWord(w), [w])
  {
    assert w in [w];
  }

  /** The table that misroutes a source which goes on after an error: the matcher stops short of the whole stream. */
  lemma StoppedShort(script: Script)
    requires !ErrorsAtEnd(script)
    ensures var sls := [[Prefixes(OneWord(Stream(script)))]];
            TableWellBuilt(sls) && !Routes(sls, Stream(script), Decide(sls, NewReader(script), 0).choice)
  {
    var ms := [Prefixes(OneWord(Stream(script)))];
    ShortOfTheWord(script, ms[0]);
    OnlyMatcher([ms], ms[0], NewReader(script));
    MustMatch([ms], ms, 0, Stream(script));
  }

  lemma ShortOfTheWord(script: Script, m: Matcher)
    requires !ErrorsAtEnd(script) && m == Prefixes(OneWord(Stream(script)))
    ensures WellBuilt(m) && Accepts(m, Stream(script))
    ensures !Call(m, ResetStep(NewReader(script), true)).matched
  {
    OneWordWords(Stream(script));
    EndBytes(script);
    CallIsExact(m, ResetStep(NewReader(script), true));
  }

  lemma OnlyMatcher(sls: Table, m: Matcher, r: Reader)
    requires Valid(r) && sls == [[m]] && !Call(m, ResetStep(r, true)).matched
    ensures Decide(sls, r, 0).choice == None
  {
    var v := Call(m, ResetStep(r, true));
    assert Try(sls[0], v.reader, 1) == Verdict(v.reader, false);
    assert Decide(sls, v.reader, 1) == Decision(v.reader, None);
  }

  /** A source whose last bytes come with an error. */
  ghost predicate PairsAtEnd(script: Script) {
    ErrorsAtEnd(script) && !Calm(script)
  }

  lemma PairAhead(script: Script)
    requires PairsAtEnd(script)
    ensures script != []
    ensures if script[0].err == Nil then PairsAtEnd(script[1..]) else script[0].data != []
  {
    CalmTail(script);
    NothingAfter(script[1..]);
  }

  /** A full read of everything meets the error that comes with data, and the reader remembers it. */
  lemma {:induction false} FullReadMeetsPair(r: Reader, k: nat)
    requires Valid(r) && r.sniffing && !Replaying(r) && PairsAtEnd(r.script) && k > |Stream(r.script)|
    ensures var end := FullRead(r, k).reader; end.lastErr != Nil && end.buffer != []
    decreases Fuel(r)
  {
    PairAhead(r.script);
    ReadsOn(r, k);
    ReadWholeEvent(r, k);
    var o := ReadStep(r, k);
    if o.err == Nil {
      FullReadMeetsPair(o.reader, k - |o.data|);
      assert FullRead(r, k).reader == FullRead(o.reader, k - |o.data|).reader;
    } else {
      assert FullRead(r, k).reader == o.reader;
    }
  }

  lemma ReadWholeEvent(r: Reader, k: nat)
    requires Valid(r) && r.sniffing && !Replaying(r) && r.script != [] && k > |Stream(r.script)|
    ensures var o := ReadStep(r, k);
            && o.reader.script == r.script[1..] && o.reader.sniffing && !Replaying(o.reader)
            && o.err == r.script[0].err && o.data == r.script[0].data
            && |Stream(r.script)| == |o.data| + |Stream(r.script[1..])|
            && (o.data != [] ==> o.reader.lastErr == o.err && o.reader.buffer != [])
  {
    assert |Stream(r.script)| == |r.script[0].data| + |Stream(r.script[1..])|;
  }

  /**
   * The table that misroutes a connection whose HTTP/2 preface comes in full, but with an error on its last bytes:
   * once another matcher has read that far, the replay reports the error with the first bytes.
   */
  lemma ErrorReplayed(script: Script)
    requires ErrorsAtEnd(script) && !Calm(script) && ClientPreface() <= Stream(script)
    ensures TableWellBuilt([Competing(script)])
    ensures !Routes([Competing(script)], Stream(script), Decide([Competing(script)], NewReader(script), 0).choice)
  {
    var ms := Competing(script);
    LongerWordFails(script, ms[0].tree);
    PrefaceDenied(script, ms[0].tree);
    TwoMatchers([ms], ms, NewReader(script));
    MustMatch([ms], ms, 1, Stream(script));
  }

  lemma MustMatch(sls: Table, ms: seq<Matcher>, j: nat, stream: Bytes)
    requires sls == [ms] && j < |ms| && Accepts(ms[j], stream)
    ensures !Routes(sls, stream, None)
  {
    assert ListenerAccepts(sls[0], stream);
  }

  /** A prefix matcher for something longer than the stream, and then the HTTP/2 matcher. */
  ghost function Competing(script: Script): seq<Matcher> {
    [Prefixes(OneWord(Stream(script) + [0])), HTTP2]
  }

  /** After a matcher that read everything, the preface matcher meets the remembered error at once. */
  lemma PrefaceDenied(script: Script, t: Tree)
    requires ErrorsAtEnd(script) && !Calm(script) && t.maxDepth > |Stream(script)|
    ensures var first := Call(Prefixes(t), ResetStep(NewReader(script), true));
            !Call(HTTP2, ResetStep(first.reader, true)).matched
  {
    var r := ResetStep(NewReader(script), true);
    FullReadMeetsPair(r, t.maxDepth);
    CallIsExact(HTTP2, ResetStep(Call(Prefixes(t), r).reader, true));
  }

  lemma LongerWordFails(script: Script, t: Tree)
    requires ErrorsAtEnd(script) && t == OneWord(Stream(script) + [0])
    ensures Deep(t) && !Call(Prefixes(t), ResetStep(NewReader(script), true)).matched
  {
    OneWordWords(Stream(script) + [0]);
    EndBytes(script);
    CallIsExact(Prefixes(t), ResetStep(NewReader(script), true));
  }

  lemma TwoMatchers(sls: Table, ms: seq<Matcher>, r: Reader)
    requires Valid(r) && sls == [ms] && |ms| == 2
    requires var v := Call(ms[0], ResetStep(r, true));
             !v.matched && !Call(ms[1], ResetStep(v.reader, true)).matched
    ensures Decide(sls, r, 0).choice == None
  {
    var v := Call(ms[0], ResetStep(r, true));
    var w := Call(ms[1], ResetStep(v.reader, true));
    assert Try(ms, w.reader, 2) == Verdict(w.reader, false);
    assert Try(ms, v.reader, 1) == Verdict(w.reader, false);
    assert Decide(sls, w.reader, 1) == Decision(w.reader, None);
  }

  /** Exactly the routable sources are routed by their stream alone, whatever the table. */
  lemma RoutingIsExact(script: Script)
    ensures Routable(script) <==>
            forall sls :: TableWellBuilt(sls) ==> Routes(sls, Stream(script), Decide(sls, NewReader(script), 0).choice)
  {
    if Routable(script) {
      forall sls | TableWellBuilt(sls)
        ensures Routes(sls, Stream(script), Decide(sls, NewReader(script), 0).choice)
      {
        RoutingFollowsStream(sls, script);
      }
    } else if ErrorsAtEnd(script) {
      ErrorReplayed(script);
    } else {
      StoppedShort(script);
    }
  }
}

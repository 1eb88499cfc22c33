/** The replaying reader a connection is sniffed through: `bufferedReader` and `MuxConn`. */
module Sniffing {
  import opened Bytes

  // ---------------------------------------------------------------------------------------------
  // The source
  // ---------------------------------------------------------------------------------------------

  /**
   * What a source does next: hand over some bytes (perhaps none) together with an error (perhaps nil).  A source
   * is a script of events and then a sticky EOF.  Quantifying over scripts covers every way to chunk a stream,
   * every finite number of empty reads, and errors alone or paired with data, once or repeatedly.
   */
  datatype Event = Event(data: Bytes, err: Error)

  type Script = seq<Event>

  /** All the bytes a source will ever deliver. */
  ghost function Stream(script: Script): Bytes {
    if script == [] then [] else script[0].data + Stream(script[1..])
  }

  datatype Arrival = Arrival(data: Bytes, err: Error, rest: Script)

  /** `Read` on the source, into a slice of `len` bytes. */
  function SourceRead(script: Script, len: nat): Arrival {
    if script == [] then
      Arrival([], EOF, [])
    else if |script[0].data| <= len then
      Arrival(script[0].data, script[0].err, script[1..])
    else
      Arrival(script[0].data[..len], Nil, [Event(script[0].data[len..], script[0].err)] + script[1..])
  }

  lemma SourceReadConserves(script: Script, len: nat)
    ensures var a := SourceRead(script, len);
            |a.data| <= len && Stream(script) == a.data + Stream(a.rest) && |a.rest| <= |script|
    ensures var a := SourceRead(script, len);
            len > 0 && a.err == Nil ==> |a.rest| + |Stream(a.rest)| < |script| + |Stream(script)|
  {
    if script != [] && |script[0].data| > len {
      var data := script[0].data;
      assert data == data[..len] + data[len..];
      var a := SourceRead(script, len);
      assert a.rest[1..] == script[1..];
      Associative(data[..len], data[len..], Stream(script[1..]));
    }
  }

  /** The bytes that can be read before any read reports an error. */
  ghost function CleanBytes(script: Script): Bytes {
    if script == [] then []
    else if script[0].err == Nil then script[0].data + CleanBytes(script[1..])
    else if script[0].data == [] then []
    else script[0].data[..|script[0].data| - 1]
  }

  /** The bytes that can be read up to and including those that come with the first error. */
  ghost function BytesUpToError(script: Script): Bytes {
    if script == [] then []
    else if script[0].err == Nil then script[0].data + BytesUpToError(script[1..])
    else script[0].data
  }

  lemma SourceReadClean(script: Script, len: nat)
    requires len > 0
    ensures var a := SourceRead(script, len);
            if a.err == Nil then CleanBytes(script) == a.data + CleanBytes(a.rest) else |CleanBytes(script)| < len
  {
    if script != [] && |script[0].data| > len {
      var data := script[0].data;
      assert data == data[..len] + data[len..];
      assert SourceRead(script, len).rest[1..] == script[1..];
      if script[0].err == Nil {
        Associative(data[..len], data[len..], CleanBytes(script[1..]));
      } else {
        AllButLast(data, len);
      }
    }
  }

  lemma AllButLast(data: Bytes, len: nat)
    requires len < |data|
    ensures data[..|data| - 1] == data[..len] + data[len..][..|data| - len - 1]
  {
  }

  lemma SourceReadUpToError(script: Script, len: nat)
    requires len > 0
    ensures var a := SourceRead(script, len);
            if a.err == Nil then BytesUpToError(script) == a.data + BytesUpToError(a.rest)
            else BytesUpToError(script) == a.data
  {
    if script != [] && |script[0].data| > len {
      var data := script[0].data;
      assert data == data[..len] + data[len..];
      assert SourceRead(script, len).rest[1..] == script[1..];
      Associative(data[..len], data[len..], BytesUpToError(script[1..]));
    }
  }

  // ---------------------------------------------------------------------------------------------
  // The reader
  // ---------------------------------------------------------------------------------------------

  /** The fields of a `bufferedReader`, with what its source still has to give. */
  datatype Reader = Reader(
    script: Script, buffer: Bytes, bufferRead: nat, bufferSize: nat, sniffing: bool, lastErr: Error)

  /** A read's effect: the reader after it, the bytes it stored, and the error it returned. */
  datatype Outcome = Outcome(reader: Reader, data: Bytes, err: Error)

  function NewReader(script: Script): Reader {
    Reader(script, [], 0, 0, false, Nil)
  }

  predicate Replaying(r: Reader) {
    r.bufferSize > r.bufferRead
  }

  predicate Valid(r: Reader) {
    && r.bufferRead <= r.bufferSize
    && (Replaying(r) || r.sniffing ==> r.bufferSize <= |r.buffer|)
  }

  type ValidReader = r: Reader | Valid(r) witness NewReader([])

  /** `bufferedReader.Read`.  The buffer has capacity exactly when it holds something, as it is only appended to. */
  function ReadStep(r: Reader, len: nat): Outcome
    requires Valid(r)
  {
    if Replaying(r) then
      var bn := Min(len, r.bufferSize - r.bufferRead);
      Outcome(r.(bufferRead := r.bufferRead + bn), r.buffer[r.bufferRead..r.bufferRead + bn], r.lastErr)
    else
      var kept := if !r.sniffing && |r.buffer| != 0 then r.(buffer := []) else r;
      var a := SourceRead(kept.script, len);
      var moved := kept.(script := a.rest);
      if |a.data| > 0 && r.sniffing then
        Outcome(moved.(lastErr := a.err, buffer := moved.buffer + a.data), a.data, a.err)
      else
        Outcome(moved, a.data, a.err)
  }

  /** `bufferedReader.reset`. */
  function ResetStep(r: Reader, snif: bool): Reader {
    r.(sniffing := snif, bufferRead := 0, bufferSize := |r.buffer|)
  }

  function Replay(r: Reader): Bytes
    requires Valid(r)
  {
    if Replaying(r) then r.buffer[r.bufferRead..r.bufferSize] else []
  }

  /** What the reader has yet to deliver, in order. */
  ghost function Pending(r: Reader): Bytes
    requires Valid(r)
  {
    Replay(r) + Stream(r.script)
  }

  /** What was taken from the source and kept, and then all the source has left. */
  ghost function Whole(r: Reader): Bytes {
    r.buffer + Stream(r.script)
  }

  /** A bound on the reads that can still succeed. */
  ghost function Fuel(r: Reader): nat
    requires Valid(r)
  {
    |Replay(r)| + |r.script| + |Stream(r.script)|
  }

  /** No read loses, repeats or reorders a byte, and sniffing reads keep all they take. */
  lemma ReadConserves(r: Reader, len: nat)
    requires Valid(r)
    ensures var o := ReadStep(r, len);
            && Valid(o.reader) && o.reader.sniffing == r.sniffing && |o.data| <= len
            && Pending(r) == o.data + Pending(o.reader)
            && (r.sniffing ==> Whole(o.reader) == Whole(r))
  {
    if Replaying(r) {
      ReplayStep(r, len);
      ReplayedThen(r, len, Stream(r.script));
    } else {
      SourceStep(r, len);
      var o := ReadStep(r, len);
      assert Pending(r) == Stream(r.script) && Pending(o.reader) == Stream(o.reader.script);
    }
  }

  /** What a replaying read delivers comes off the front of the replay, whatever is to follow it. */
  lemma ReplayedThen(r: Reader, len: nat, after: Bytes)
    requires Valid(r) && Replaying(r)
    ensures var o := ReadStep(r, len);
            Valid(o.reader) && Replay(r) + after == o.data + (Replay(o.reader) + after)
  {
    ReplayStep(r, len);
    var o := ReadStep(r, len);
    assert (o.data + Replay(o.reader)) + after == o.data + (Replay(o.reader) + after);
  }

  lemma SourceStep(r: Reader, len: nat)
    requires Valid(r) && !Replaying(r)
    ensures var o := ReadStep(r, len);
            && Valid(o.reader) && !Replaying(o.reader) && o.reader.sniffing == r.sniffing && |o.data| <= len
            && Stream(r.script) == o.data + Stream(o.reader.script)
            && (r.sniffing ==> Whole(o.reader) == Whole(r))
  {
    SourceReadConserves(r.script, len);
    var a := SourceRead(r.script, len);
    assert r.buffer + (a.data + Stream(a.rest)) == (r.buffer + a.data) + Stream(a.rest);
  }

  lemma ReplayStep(r: Reader, len: nat)
    requires Valid(r) && Replaying(r)
    ensures var o := ReadStep(r, len);
            && Valid(o.reader) && Replay(r) == o.data + Replay(o.reader) && |o.data| == Min(len, |Replay(r)|)
            && o.reader == r.(bufferRead := o.reader.bufferRead) && o.err == r.lastErr
  {
  }

  /** Every read that asks for bytes and succeeds uses up fuel, so reading on ends. */
  lemma ReadBurns(r: Reader, len: nat)
    requires Valid(r) && len > 0
    ensures var o := ReadStep(r, len);
            Valid(o.reader) && (o.err == Nil ==> Fuel(o.reader) < Fuel(r))
  {
    if Replaying(r) {
      ReplayStep(r, len);
    } else {
      SourceReadConserves(r.script, len);
    }
  }

  /** Resetting rewinds to the first byte kept. */
  lemma ResetRewinds(r: Reader, snif: bool)
    requires Valid(r)
    ensures var s := ResetStep(r, snif);
            Valid(s) && Whole(s) == Whole(r) && Pending(s) == Whole(r) && s.sniffing == snif
  {
  }

  ghost function Clean(r: Reader): Bytes
    requires Valid(r)
  {
    if !Replaying(r) then CleanBytes(r.script)
    else if r.lastErr == Nil then Replay(r) + CleanBytes(r.script)
    else []
  }

  ghost function UpToError(r: Reader): Bytes
    requires Valid(r)
  {
    if !Replaying(r) then BytesUpToError(r.script)
    else if r.lastErr == Nil then Replay(r) + BytesUpToError(r.script)
    else Replay(r)
  }

  lemma ReadClean(r: Reader, len: nat)
    requires Valid(r) && len > 0
    ensures var o := ReadStep(r, len);
            && Valid(o.reader)
            && if o.err == Nil then Clean(r) == o.data + Clean(o.reader) else |Clean(r)| < len
  {
    if Replaying(r) {
      ReplayStep(r, len);
      if r.lastErr == Nil {
        ReplayedThen(r, len, CleanBytes(r.script));
      }
    } else {
      SourceReadClean(r.script, len);
    }
  }

  lemma ReadUpToError(r: Reader, len: nat)
    requires Valid(r) && len > 0
    ensures var o := ReadStep(r, len);
            && Valid(o.reader) && |o.data| <= len
            && if o.err == Nil then UpToError(r) == o.data + UpToError(o.reader)
               else o.data == UpToError(r)[..Min(len, |UpToError(r)|)]
  {
    if Replaying(r) {
      ReplayStep(r, len);
      if r.lastErr == Nil {
        ReplayedThen(r, len, BytesUpToError(r.script));
      }
    } else {
      SourceReadConserves(r.script, len);
      SourceReadUpToError(r.script, len);
    }
  }

  // ---------------------------------------------------------------------------------------------
  // Runs of reads
  // ---------------------------------------------------------------------------------------------

  /** A run of reads with the given sizes: the reader it ends in, and all it delivered. */
  ghost function Reads(r: Reader, sizes: seq<nat>): (run: (Reader, Bytes))
    requires Valid(r)
    ensures Valid(run.0)
    decreases |sizes|
  {
    if sizes == [] then
      (r, [])
    else
      ReadConserves(r, sizes[0]);
      var o := ReadStep(r, sizes[0]);
      var run := Reads(o.reader, sizes[1..]);
      (run.0, o.data + run.1)
  }

  /** One sniffing session per list of sizes: `startSniffing`, and then those reads. */
  ghost function Sessions(r: Reader, sessions: seq<seq<nat>>): (end: Reader)
    requires Valid(r)
    ensures Valid(end)
    decreases |sessions|
  {
    if sessions == [] then
      r
    else
      Reads(ResetStep(Sessions(r, sessions[..|sessions| - 1]), true), sessions[|sessions| - 1]).0
  }

  lemma {:induction false} ReadsConserve(r: Reader, sizes: seq<nat>)
    requires Valid(r)
    ensures var run := Reads(r, sizes);
            && Pending(r) == run.1 + Pending(run.0) && run.0.sniffing == r.sniffing
            && (r.sniffing ==> Whole(run.0) == Whole(r))
    decreases |sizes|
  {
    if sizes != [] {
      ReadConserves(r, sizes[0]);
      var o := ReadStep(r, sizes[0]);
      ReadsConserve(o.reader, sizes[1..]);
      var run := Reads(o.reader, sizes[1..]);
      assert o.data + (run.1 + Pending(run.0)) == (o.data + run.1) + Pending(run.0);
    }
  }

  lemma {:induction false} SessionsKeepWhole(r: Reader, sessions: seq<seq<nat>>)
    requires Valid(r)
    ensures Whole(Sessions(r, sessions)) == Whole(r)
    decreases |sessions|
  {
    if sessions != [] {
      var before := Sessions(r, sessions[..|sessions| - 1]);
      SessionsKeepWhole(r, sessions[..|sessions| - 1]);
      ReadsConserve(ResetStep(before, true), sessions[|sessions| - 1]);
    }
  }

  /**
   * Transparent sniffing, for every source, every number of sessions and all read sizes: the kept bytes are exactly
   * those taken from the source; the next session, too, sees the stream from its first byte; and whatever the
   * handler reads after `doneSniffing`, with what it has yet to read, is the whole stream.
   */
  lemma TransparentSniffing(script: Script, sessions: seq<seq<nat>>, sizes: seq<nat>)
    ensures var sniffed := Sessions(NewReader(script), sessions);
            sniffed.buffer + Stream(sniffed.script) == Stream(script)
    ensures var session := Reads(ResetStep(Sessions(NewReader(script), sessions), true), sizes);
            session.1 <= Stream(script) && session.0.buffer + Stream(session.0.script) == Stream(script)
    ensures var handled := Reads(ResetStep(Sessions(NewReader(script), sessions), false), sizes);
            handled.1 + Pending(handled.0) == Stream(script)
  {
    var sniffed := Sessions(NewReader(script), sessions);
    SessionsKeepWhole(NewReader(script), sessions);
    assert Whole(sniffed) == Stream(script);
    AnotherSession(sniffed, sizes);
  }

  lemma AnotherSession(r: Reader, sizes: seq<nat>)
    requires Valid(r)
    ensures var session := Reads(ResetStep(r, true), sizes);
            session.1 <= Whole(r) && Whole(session.0) == Whole(r)
    ensures var handled := Reads(ResetStep(r, false), sizes);
            handled.1 + Pending(handled.0) == Whole(r)
  {
    ReadsConserve(ResetStep(r, true), sizes);
    ReadsConserve(ResetStep(r, false), sizes);
    ResetRewinds(r, true);
    ResetRewinds(r, false);
  }

  /** A handler that reads past what was kept has the reader let go of all of it. */
  lemma {:induction false} BufferIsDropped(r: Reader, sizes: seq<nat>)
    requires Valid(r) && !r.sniffing
    ensures |Reads(r, sizes).1| > |Replay(r)| ==> Reads(r, sizes).0.buffer == []
    ensures r.buffer == [] ==> Reads(r, sizes).0.buffer == []
    decreases |sizes|
  {
    if sizes != [] {
      ReadConserves(r, sizes[0]);
      BufferIsDropped(ReadStep(r, sizes[0]).reader, sizes[1..]);
      if Replaying(r) {
        ReplayStep(r, sizes[0]);
      }
    }
  }

  // ---------------------------------------------------------------------------------------------
  // Errors
  // ---------------------------------------------------------------------------------------------

  /** A source that reports an error only once it has delivered its last byte. */
  ghost predicate Calm(script: Script) {
    forall i :: 0 <= i < |script| ==> CalmAt(script, i)
  }

  ghost predicate CalmAt(script: Script, i: nat)
    requires i < |script|
  {
    script[i].err != Nil ==> Stream(script[i..]) == []
  }

  /** A source that delivers nothing after an error, though an error may come along with its last bytes. */
  ghost predicate ErrorsAtEnd(script: Script) {
    forall i :: 0 <= i < |script| ==> EndAt(script, i)
  }

  ghost predicate EndAt(script: Script, i: nat)
    requires i < |script|
  {
    script[i].err != Nil ==> Stream(script[i + 1..]) == []
  }

  ghost predicate Quiet(r: Reader) {
    Calm(r.script) && r.lastErr == Nil
  }

  ghost predicate Settled(r: Reader) {
    ErrorsAtEnd(r.script) && (r.lastErr != Nil ==> Stream(r.script) == [])
  }

  lemma CalmTail(script: Script)
    requires script != []
    ensures Calm(script) <==> (script[0].err != Nil ==> Stream(script) == []) && Calm(script[1..])
    ensures ErrorsAtEnd(script) <==> (script[0].err != Nil ==> Stream(script[1..]) == []) && ErrorsAtEnd(script[1..])
  {
    assert script[0..] == script;
    assert CalmAt(script, 0) <==> (script[0].err != Nil ==> Stream(script) == []);
    assert EndAt(script, 0) <==> (script[0].err != Nil ==> Stream(script[1..]) == []);
    CalmShift(script);
    EndShift(script);
  }

  lemma CalmShift(script: Script)
    requires script != []
    ensures Calm(script) <==> CalmAt(script, 0) && Calm(script[1..])
  {
    if Calm(script) {
      forall i | 0 <= i < |script| - 1
        ensures CalmAt(script[1..], i)
      {
        TailAt(script, i);
      }
    }
    if Calm(script[1..]) {
      forall i | 0 < i < |script|
        ensures CalmAt(script, i)
      {
        TailAt(script, i - 1);
      }
    }
  }

  lemma EndShift(script: Script)
    requires script != []
    ensures ErrorsAtEnd(script) <==> EndAt(script, 0) && ErrorsAtEnd(script[1..])
  {
    if ErrorsAtEnd(script) {
      forall i | 0 <= i < |script| - 1
        ensures EndAt(script[1..], i)
      {
        TailAt(script, i);
      }
    }
    if ErrorsAtEnd(script[1..]) {
      forall i | 0 < i < |script|
        ensures EndAt(script, i)
      {
        TailAt(script, i - 1);
      }
    }
  }

  lemma TailAt(script: Script, i: nat)
    requires i + 1 < |script|
    ensures CalmAt(script[1..], i) <==> CalmAt(script, i + 1)
    ensures EndAt(script[1..], i) <==> EndAt(script, i + 1)
  {
    assert script[1..][i..] == script[i + 1..] && script[1..][i + 1..] == script[i + 2..];
  }

  lemma SourceReadKeepsCalm(script: Script, len: nat)
    ensures var a := SourceRead(script, len);
            && (Calm(script) ==> Calm(a.rest) && (a.err != Nil ==> a.data == [] && Stream(a.rest) == []))
            && (ErrorsAtEnd(script) ==> ErrorsAtEnd(a.rest) && (a.err != Nil ==> Stream(a.rest) == []))
  {
    if script != [] {
      CalmTail(script);
      var a := SourceRead(script, len);
      if |script[0].data| > len {
        assert a.rest[1..] == script[1..];
        CalmTail(a.rest);
      }
    }
  }

  lemma ReadKeepsQuiet(r: Reader, len: nat)
    requires Valid(r)
    ensures Quiet(r) ==> Quiet(ReadStep(r, len).reader)
    ensures Settled(r) ==> Settled(ReadStep(r, len).reader)
  {
    SourceReadKeepsCalm(r.script, len);
    SourceReadConserves(r.script, len);
  }

  /** The clean bytes start the stream, and are all of it when the source is calm. */
  lemma {:induction false} CalmBytes(script: Script)
    ensures CleanBytes(script) <= Stream(script)
    ensures Calm(script) ==> CleanBytes(script) == Stream(script)
    decreases |script|
  {
    if script != [] {
      CalmTail(script);
      if script[0].err == Nil {
        CalmBytes(script[1..]);
      }
    }
  }

  /** The reachable bytes are the whole stream exactly when nothing follows an error. */
  lemma {:induction false} EndBytes(script: Script)
    ensures BytesUpToError(script) <= Stream(script)
    ensures ErrorsAtEnd(script) <==> BytesUpToError(script) == Stream(script)
    decreases |script|
  {
    if script != [] {
      CalmTail(script);
      var d := script[0].data;
      if script[0].err == Nil {
        EndBytes(script[1..]);
        assert BytesUpToError(script)[|d|..] == BytesUpToError(script[1..]);
        assert Stream(script)[|d|..] == Stream(script[1..]);
      } else {
        NothingAfter(script[1..]);
        assert |Stream(script)| == |d| + |Stream(script[1..])|;
      }
    }
  }

  lemma {:induction false} NothingAfter(script: Script)
    ensures Stream(script) == [] ==> ErrorsAtEnd(script) && Calm(script)
    decreases |script|
  {
    if script != [] {
      CalmTail(script);
      NothingAfter(script[1..]);
    }
  }

  /** At the start of a session a matcher can see everything, if the source is quiet or its errors come last. */
  lemma RewoundBytes(r: Reader)
    requires Valid(r)
    ensures var start := ResetStep(r, true);
            && Clean(start) <= Whole(r)
            && (Quiet(r) ==> Clean(start) == Whole(r))
            && (Settled(r) ==> UpToError(start) == Whole(r))
  {
    RewoundClean(r);
    RewoundUpToError(r);
  }

  /** Rewound, the reader replays all it kept. */
  lemma RewoundReplay(r: Reader)
    requires Valid(r)
    ensures var start := ResetStep(r, true); Valid(start) && Replay(start) == r.buffer
  {
    assert r.buffer[0..|r.buffer|] == r.buffer;
  }

  lemma RewoundClean(r: Reader)
    requires Valid(r)
    ensures var start := ResetStep(r, true);
            Clean(start) <= Whole(r) && (Quiet(r) ==> Clean(start) == Whole(r))
  {
    RewoundReplay(r);
    CalmBytes(r.script);
  }

  lemma RewoundUpToError(r: Reader)
    requires Valid(r)
    ensures Settled(r) ==> UpToError(ResetStep(r, true)) == Whole(r)
  {
    RewoundReplay(r);
    EndBytes(r.script);
    assert Stream(r.script) == [] ==> r.buffer + Stream(r.script) == r.buffer;
  }

  /** All the bytes a quiet reader has to deliver arrive before any error. */
  lemma QuietBytes(r: Reader)
    requires Valid(r) && Quiet(r)
    ensures Clean(r) == Pending(r) && UpToError(r) == Pending(r)
  {
    CalmBytes(r.script);
    CalmUpToError(r.script);
  }

  lemma {:induction false} CalmUpToError(script: Script)
    requires Calm(script)
    ensures BytesUpToError(script) == Stream(script)
    decreases |script|
  {
    if script != [] {
      CalmTail(script);
      CalmUpToError(script[1..]);
    }
  }

  /** A quiet reader returns an error only with no data and nothing left to read. */
  lemma ErrorMeansEnd(r: Reader, len: nat)
    requires Valid(r) && Quiet(r)
    ensures var o := ReadStep(r, len);
            o.err != Nil ==> o.data == [] && Stream(o.reader.script) == [] && !Replaying(o.reader)
  {
    SourceReadKeepsCalm(r.script, len);
  }

  lemma {:induction false} ReadsKeepQuiet(r: Reader, sizes: seq<nat>)
    requires Valid(r)
    ensures Quiet(r) ==> Quiet(Reads(r, sizes).0)
    ensures Settled(r) ==> Settled(Reads(r, sizes).0)
    decreases |sizes|
  {
    if sizes != [] {
      ReadConserves(r, sizes[0]);
      ReadKeepsQuiet(r, sizes[0]);
      ReadsKeepQuiet(ReadStep(r, sizes[0]).reader, sizes[1..]);
    }
  }

  /** A reader handed over with some bytes to come delivers them in order; a quiet one, all of them before any error. */
  lemma ReadsOfPending(r: Reader, sizes: seq<nat>, len: nat)
    requires Valid(r)
    ensures var run := Reads(r, sizes);
            && run.1 + Pending(run.0) == Pending(r)
            && (Quiet(r) && ReadStep(run.0, len).err != Nil ==> run.1 == Pending(r))
  {
    ReadsConserve(r, sizes);
    ReadsKeepQuiet(r, sizes);
    var end := Reads(r, sizes).0;
    if Quiet(r) && ReadStep(end, len).err != Nil {
      ErrorMeansEnd(end, len);
      ReadConserves(end, len);
      assert Pending(end) == [];
    }
  }

  lemma {:induction false} SessionsKeepQuiet(r: Reader, sessions: seq<seq<nat>>)
    requires Valid(r)
    ensures Quiet(r) ==> Quiet(Sessions(r, sessions))
    ensures Settled(r) ==> Settled(Sessions(r, sessions))
    decreases |sessions|
  {
    if sessions != [] {
      SessionsKeepQuiet(r, sessions[..|sessions| - 1]);
      ReadsKeepQuiet(ResetStep(Sessions(r, sessions[..|sessions| - 1]), true), sessions[|sessions| - 1]);
    }
  }

  /** The reader a handler has after any sniffing and any reads of its own, and its next read. */
  ghost function Handler(script: Script, sessions: seq<seq<nat>>, sizes: seq<nat>): (r: Reader)
    ensures Valid(r)
  {
    Reads(ResetStep(Sessions(NewReader(script), sessions), false), sizes).0
  }

  ghost function HandlerRead(script: Script, sessions: seq<seq<nat>>, sizes: seq<nat>, len: nat): (o: Outcome)
    ensures Valid(o.reader)
  {
    ReadConserves(Handler(script, sessions, sizes), len);
    ReadStep(Handler(script, sessions, sizes), len)
  }

  /** A handler's read got an error although there are bytes it has yet to read. */
  ghost predicate TooEarly(o: Outcome) {
    Valid(o.reader) && o.err != Nil && Pending(o.reader) != []
  }

  lemma HandlerStays(script: Script, sessions: seq<seq<nat>>, sizes: seq<nat>)
    ensures Calm(script) ==> Quiet(Handler(script, sessions, sizes))
    ensures ErrorsAtEnd(script) ==> Settled(Handler(script, sessions, sizes))
    ensures !Handler(script, sessions, sizes).sniffing
    ensures |Pending(Handler(script, sessions, sizes))| <= |Stream(script)|
  {
    var r := ResetStep(Sessions(NewReader(script), sessions), false);
    SessionsKeepQuiet(NewReader(script), sessions);
    ReadsKeepQuiet(r, sizes);
    ReadsConserve(r, sizes);
    TransparentSniffing(script, sessions, sizes);
  }

  /** A handler that reads a calm source until it gets an error has then read the whole stream, byte for byte. */
  lemma HandlerReadsAll(script: Script, sessions: seq<seq<nat>>, sizes: seq<nat>, len: nat)
    requires Calm(script) && HandlerRead(script, sessions, sizes, len).err != Nil
    ensures Pending(HandlerRead(script, sessions, sizes, len).reader) == []
    ensures Reads(ResetStep(Sessions(NewReader(script), sessions), false), sizes).1 == Stream(script)
  {
    HandlerStays(script, sessions, sizes);
    TransparentSniffing(script, sessions, sizes);
    ReadConserves(Handler(script, sessions, sizes), len);
    ErrorMeansEnd(Handler(script, sessions, sizes), len);
  }

  ghost function Lengths(script: Script): seq<nat> {
    if script == [] then [] else [|script[0].data|] + Lengths(script[1..])
  }

  lemma {:induction false} ReadEventByEvent(r: Reader, n: nat)
    requires Valid(r) && !Replaying(r) && n <= |r.script|
    ensures var end := Reads(r, Lengths(r.script[..n])).0;
            && !Replaying(end) && end.script == r.script[n..] && end.sniffing == r.sniffing
            && (r.sniffing && n > 0 && r.script[n - 1].data != [] ==> end.lastErr == r.script[n - 1].err)
    decreases n
  {
    var script := r.script;
    if n > 0 {
      ReadOneEvent(r);
      var next := ReadStep(r, |script[0].data|).reader;
      assert script[..n][1..] == script[1..][..n - 1];
      ReadEventByEvent(next, n - 1);
      assert script[1..][n - 1..] == script[n..];
      if n == 1 {
        assert Lengths(script[1..][..0]) == [];
        assert Reads(next, []).0 == next;
      }
    } else {
      assert Lengths(script[..0]) == [];
    }
  }

  lemma ReadOneEvent(r: Reader)
    requires Valid(r) && !Replaying(r) && r.script != []
    ensures var next := ReadStep(r, |r.script[0].data|).reader;
            && Valid(next) && !Replaying(next) && next.script == r.script[1..] && next.sniffing == r.sniffing
            && (r.sniffing && r.script[0].data != [] ==> next.lastErr == r.script[0].err)
  {
    ReadConserves(r, |r.script[0].data|);
  }

  /** A handler that reads on its own up to an event with an error gets that error, though bytes follow. */
  lemma ErrorMidStream(script: Script, i: nat, len: nat)
    requires i < |script| && script[i].err != Nil && Stream(script[i + 1..]) != [] && len >= |script[i].data|
    ensures TooEarly(HandlerRead(script, [], Lengths(script[..i]), len))
  {
    var start := ResetStep(NewReader(script), false);
    assert Sessions(NewReader(script), []) == NewReader(script);
    ReadEventByEvent(start, i);
    var r := Handler(script, [], Lengths(script[..i]));
    assert r == Reads(start, Lengths(script[..i])).0;
    assert script[i..][1..] == script[i + 1..];
    ReadGetsEvent(r, len);
  }

  lemma ReadGetsEvent(r: Reader, len: nat)
    requires Valid(r) && !Replaying(r) && !r.sniffing && r.script != [] && len >= |r.script[0].data|
    ensures var o := ReadStep(r, len);
            o.err == r.script[0].err && Valid(o.reader) && Pending(o.reader) == Stream(r.script[1..])
  {
    ReadConserves(r, len);
  }

  /** After a session that read everything, the error that came with the last bytes is replayed with the first. */
  lemma ErrorAtReplay(script: Script, i: nat, len: nat)
    requires i < |script| && script[i].err != Nil && script[i].data != [] && len < |Stream(script)|
    requires Stream(script[i + 1..]) == []
    ensures TooEarly(HandlerRead(script, [Lengths(script[..i + 1])], [], len))
  {
    var sizes := Lengths(script[..i + 1]);
    var e := Sessions(NewReader(script), [sizes]);
    OneSession(NewReader(script), sizes);
    ReadToTheEnd(script, i + 1);
    assert e == Reads(ResetStep(NewReader(script), true), sizes).0;
    assert Handler(script, [sizes], []) == ResetStep(e, false);
    ReplayGetsError(ResetStep(e, false), len);
  }

  lemma ReadToTheEnd(script: Script, n: nat)
    requires 0 < n <= |script| && script[n - 1].data != [] && Stream(script[n..]) == []
    ensures var e := Reads(ResetStep(NewReader(script), true), Lengths(script[..n])).0;
            e.lastErr == script[n - 1].err && e.buffer == Stream(script)
  {
    var start := ResetStep(NewReader(script), true);
    var sizes := Lengths(script[..n]);
    ReadEventByEvent(start, n);
    KeptIsWhole(start, sizes);
    assert Whole(start) == Stream(script);
  }

  lemma KeptIsWhole(r: Reader, sizes: seq<nat>)
    requires Valid(r) && r.sniffing
    ensures var e := Reads(r, sizes).0;
            Stream(e.script) == [] ==> e.buffer == Whole(r)
  {
    ReadsConserve(r, sizes);
  }

  lemma OneSession(r: Reader, sizes: seq<nat>)
    requires Valid(r)
    ensures Sessions(r, [sizes]) == Reads(ResetStep(r, true), sizes).0
  {
    assert [sizes][..0] == [];
    assert Sessions(r, [sizes][..0]) == r;
  }

  lemma ReplayGetsError(r: Reader, len: nat)
    requires Valid(r) && Replaying(r) && len < |Replay(r)|
    ensures var o := ReadStep(r, len); o.err == r.lastErr && Valid(o.reader) && Pending(o.reader) != []
  {
    ReplayStep(r, len);
  }

  /** For every source that is not calm, sniffing and reads after which the handler gets an error too early. */
  lemma EarlyError(script: Script) returns (sessions: seq<seq<nat>>, sizes: seq<nat>, len: nat)
    requires !Calm(script)
    ensures TooEarly(HandlerRead(script, sessions, sizes, len))
  {
    var i :| 0 <= i < |script| && script[i].err != Nil && Stream(script[i..]) != [];
    assert script[i..][1..] == script[i + 1..];
    if Stream(script[i + 1..]) != [] {
      sessions, sizes, len := [], Lengths(script[..i]), |script[i].data|;
      ErrorMidStream(script, i, len);
    } else {
      sessions, sizes, len := [Lengths(script[..i + 1])], [], 0;
      StreamSuffix(script, i);
      ErrorAtReplay(script, i, len);
    }
  }

  lemma {:induction false} StreamSuffix(script: Script, i: nat)
    requires i <= |script|
    ensures |Stream(script[i..])| <= |Stream(script)|
    decreases i
  {
    if i > 0 {
      StreamSuffix(script[1..], i - 1);
      assert script[1..][i - 1..] == script[i..];
    } else {
      assert script[0..] == script;
    }
  }

  /** Error transparency holds of calm sources only: any other source can give a handler an error too early. */
  lemma ErrorTransparency(script: Script)
    ensures Calm(script) <==>
            forall sessions, sizes, len :: !TooEarly(HandlerRead(script, sessions, sizes, len))
  {
    if Calm(script) {
      forall sessions, sizes, len
        ensures !TooEarly(HandlerRead(script, sessions, sizes, len))
      {
        if HandlerRead(script, sessions, sizes, len).err != Nil {
          HandlerReadsAll(script, sessions, sizes, len);
        }
      }
    } else {
      var sessions, sizes, len := EarlyError(script);
    }
  }

  /** The sources transparent to reads of at least one byte: calm ones, and those of one byte with its error. */
  ghost predicate NearlyCalm(script: Script) {
    Calm(script) || (ErrorsAtEnd(script) && |Stream(script)| <= 1)
  }

  /** For reads that ask for at least one byte, a source of a single byte may also pair it with its error. */
  lemma NonEmptyReadTransparency(script: Script)
    ensures NearlyCalm(script) <==>
            forall sessions, sizes, len :: len > 0 ==> !TooEarly(HandlerRead(script, sessions, sizes, len))
  {
    if NearlyCalm(script) {
      forall sessions, sizes, len | len > 0
        ensures !TooEarly(HandlerRead(script, sessions, sizes, len))
      {
        NearlyCalmRead(script, sessions, sizes, len);
      }
    } else {
      var sessions, sizes, len := EarlyErrorNonEmpty(script);
    }
  }

  lemma NearlyCalmRead(script: Script, sessions: seq<seq<nat>>, sizes: seq<nat>, len: nat)
    requires NearlyCalm(script) && len > 0
    ensures !TooEarly(HandlerRead(script, sessions, sizes, len))
  {
    var r := Handler(script, sessions, sizes);
    HandlerStays(script, sessions, sizes);
    ReadConserves(r, len);
    if Calm(script) {
      ErrorMeansEnd(r, len);
    } else if Replaying(r) {
      ReplayStep(r, len);
    } else {
      SourceReadKeepsCalm(r.script, len);
    }
  }

  lemma EarlyErrorNonEmpty(script: Script) returns (sessions: seq<seq<nat>>, sizes: seq<nat>, len: nat)
    requires !NearlyCalm(script)
    ensures len > 0 && TooEarly(HandlerRead(script, sessions, sizes, len))
  {
    if ErrorsAtEnd(script) {
      var i :| 0 <= i < |script| && !CalmAt(script, i);
      assert EndAt(script, i);
      assert script[i..][1..] == script[i + 1..];
      sessions, sizes, len := [Lengths(script[..i + 1])], [], 1;
      ErrorAtReplay(script, i, len);
    } else {
      var i :| 0 <= i < |script| && script[i].err != Nil && Stream(script[i + 1..]) != [];
      sessions, sizes, len := [], Lengths(script[..i]), |script[i].data| + 1;
      ErrorMidStream(script, i, len);
    }
  }

  // ---------------------------------------------------------------------------------------------
  // The objects
  // ---------------------------------------------------------------------------------------------

  /** A slice `p[lo..]` of an array after `data` was stored at its start. */
  function Overlay(p: Bytes, lo: nat, data: Bytes): Bytes
    requires lo + |data| <= |p|
  {
    p[..lo] + data + p[lo + |data|..]
  }

  method Store(p: array<byte>, lo: nat, data: Bytes)
    requires lo + |data| <= p.Length
    modifies p
    ensures p[..] == Overlay(old(p[..]), lo, data)
  {
    forall i | 0 <= i < |data| {
      p[lo + i] := data[i];
    }
  }

  /** The raw connection, read from its front. */
  class Source {
    var script: Script

    constructor (script: Script)
      ensures this.script == script
    {
      this.script := script;
    }

    /** `Read(p[lo..])`. */
    method Read(p: array<byte>, lo: nat) returns (n: nat, err: Error)
      requires lo <= p.Length
      modifies this, p
      ensures var a := SourceRead(old(script), p.Length - lo);
              && n == |a.data| && err == a.err && script == a.rest
              && n <= p.Length - lo && p[..] == Overlay(old(p[..]), lo, a.data) && p[lo..lo + n] == a.data
    {
      var a := SourceRead(script, p.Length - lo);
      SourceReadConserves(script, p.Length - lo);
      script := a.rest;
      Store(p, lo, a.data);
      n, err := |a.data|, a.err;
    }
  }

  /** `bufferedReader`. */
  class BufferedReader {
    const source: Source
    var buffer: Bytes
    var bufferRead: nat
    var bufferSize: nat
    var sniffing: bool
    var lastErr: Error

    ghost function View(): Reader
      reads this, source
    {
      Reader(source.script, buffer, bufferRead, bufferSize, sniffing, lastErr)
    }

    constructor (source: Source)
      ensures this.source == source && View() == NewReader(source.script)
    {
      this.source := source;
      buffer, bufferRead, bufferSize, sniffing, lastErr := [], 0, 0, false, Nil;
    }

    /** `Read(p[lo..])`: replays what is kept, then reads on from the source. */
    method Read(p: array<byte>, lo: nat) returns (n: nat, err: Error)
      requires Valid(View()) && lo <= p.Length
      modifies this, source, p
      ensures Valid(View()) && n <= p.Length - lo
      ensures Outcome(View(), p[lo..lo + n], err) == ReadStep(old(View()), p.Length - lo)
      ensures p[..] == Overlay(old(p[..]), lo, p[lo..lo + n])
    {
      if bufferSize > bufferRead {
        n := CopyKept(p, lo);
        return n, lastErr;
      } else if !sniffing && |buffer| != 0 {
        buffer := [];
      }
      n, err := source.Read(p, lo);
      if n > 0 && sniffing {
        lastErr := err;
        buffer := buffer + p[lo..lo + n];
      }
    }

    /** The replaying branch of `Read`: copy what fits and move the cursor. */
    method CopyKept(p: array<byte>, lo: nat) returns (n: nat)
      requires Valid(View()) && Replaying(View()) && lo <= p.Length
      modifies this`bufferRead, p
      ensures n == Min(p.Length - lo, bufferSize - old(bufferRead)) && bufferRead == old(bufferRead) + n
      ensures p[lo..lo + n] == buffer[old(bufferRead)..bufferRead]
      ensures p[..] == Overlay(old(p[..]), lo, p[lo..lo + n])
    {
      n := Min(p.Length - lo, bufferSize - bufferRead);
      var kept := buffer[bufferRead..bufferRead + n];
      Store(p, lo, kept);
      assert p[lo..lo + n] == kept;
      bufferRead := bufferRead + n;
    }

    /** `reset`. */
    method Reset(snif: bool)
      requires Valid(View())
      modifies this
      ensures View() == ResetStep(old(View()), snif)
      ensures Valid(View()) && Whole(View()) == old(Whole(View())) && Pending(View()) == Whole(View())
    {
      ResetRewinds(View(), snif);
      sniffing := snif;
      bufferRead := 0;
      bufferSize := |buffer|;
    }
  }

  /** `MuxConn`: the connection handed to matchers through a sniffing session, and to the handler to read from. */
  class MuxConn {
    const conn: Source
    const buf: BufferedReader

    constructor (c: Source)
      ensures conn == c && fresh(buf) && buf.source == c && buf.View() == NewReader(c.script)
    {
      var b := new BufferedReader(c);
      conn, buf := c, b;
    }

    method StartSniffing() returns (r: BufferedReader)
      requires Valid(buf.View())
      modifies buf
      ensures r == buf && buf.View() == ResetStep(old(buf.View()), true)
      ensures Pending(buf.View()) == Whole(buf.View()) == old(Whole(buf.View()))
    {
      ResetRewinds(buf.View(), true);
      buf.Reset(true);
      return buf;
    }

    method DoneSniffing()
      requires Valid(buf.View())
      modifies buf
      ensures buf.View() == ResetStep(old(buf.View()), false)
      ensures Pending(buf.View()) == Whole(buf.View()) == old(Whole(buf.View()))
    {
      ResetRewinds(buf.View(), false);
      buf.Reset(false);
    }
  }
}

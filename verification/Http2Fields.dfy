/** `matchHTTP2Field`: matching a header field over the frames that follow the HTTP/2 preface. */
module Http2Fields {
  import opened Bytes
  import opened Sniffing
  import opened Reading

  datatype Field = Field(name: string, value: string)

  /**
   * An HPACK decoder, kept abstract: a machine that takes one byte at a time, and on each either fails or moves on and
   * emits at most one field.  How a block is cut into writes is thus nothing it can see.
   */
  datatype Decoder<!S> = Decoder(take: (S, byte) -> Option<(S, Option<Field>)>)

  /** What `hdec.Write` does with some bytes: the state reached, the fields emitted, and whether it succeeded. */
  datatype Fed<S> = Fed(state: S, fields: seq<Field>, ok: bool)

  function Feed<S>(d: Decoder<S>, s: S, bytes: Bytes): Fed<S> {
    if bytes == [] then
      Fed(s, [], true)
    else
      match d.take(s, bytes[0])
      case None => Fed(s, [], false)
      case Some((next, emitted)) =>
        var rest := Feed(d, next, bytes[1..]);
        Fed(rest.state, (if emitted.Some? then [emitted.value] else []) + rest.fields, rest.ok)
  }

  /** What the loop tells apart of a frame (sections 6.2, 6.5 and 6.10 of RFC 7540). */
  datatype Frame =
    | Settings(ack: bool)
    | Headers(fragment: Bytes, endHeaders: bool)
    | Continuation(fragment: Bytes, endHeaders: bool)
    | Unrelated

  /**
   * A framer: how a frame's header and payload are parsed, and which frames are refused as malformed or out of order,
   * is kept abstract; how many bytes a frame takes is not.
   */
  datatype Framer<!F> = Framer(parse: (F, Bytes, Bytes) -> Option<(F, Frame)>)

  /** Section 4.1 of RFC 7540: a frame's header has nine bytes, the first three of which are its payload's length. */
  const HEADER_LEN: nat := 9

  function PayloadLength(header: Bytes): nat
    requires |header| >= 3
  {
    BigEndian(BigEndian(header[0], header[1]), header[2])
  }

  /** The frames at the start of some bytes, up to the first that is cut short or refused. */
  ghost function FramesOf<F>(p: Framer<F>, fs: F, bytes: Bytes): seq<Frame>
    decreases |bytes|
  {
    if |bytes| < HEADER_LEN then []
    else
      var end := HEADER_LEN + PayloadLength(bytes);
      if |bytes| < end then []
      else
        match p.parse(fs, bytes[..HEADER_LEN], bytes[HEADER_LEN..end])
        case None => []
        case Some((next, f)) => [f] + FramesOf(p, next, bytes[end..])
  }

  /** What is looked for: a field's name, and a test of its value. */
  datatype Query = Query(name: string, matches: string -> bool)

  predicate Names(q: Query, fields: seq<Field>) {
    exists i :: 0 <= i < |fields| && fields[i].name == q.name
  }

  predicate Matches(q: Query, fields: seq<Field>) {
    exists i :: 0 <= i < |fields| && fields[i].name == q.name && q.matches(fields[i].value)
  }

  /** The verdict, and how many SETTINGS frames were written. */
  datatype Result = Result(matched: bool, writes: nat)

  /** How many SETTINGS writes succeed before one fails; `None` if all succeed, as on `ioutil.Discard`. */
  type Budget = Option<nat>

  function Left(w: Budget, wrote: nat): Budget {
    match w
    case None => None
    case Some(n) => Some(if wrote <= n then n - wrote else 0)
  }

  predicate Affords(w: Budget, writes: nat) {
    w.Some? ==> writes <= w.value
  }

  /** What one frame makes the loop do: stop with a verdict, or go on with the decoder's new state. */
  datatype Turn<S> = Stop(matched: bool) | Go(state: S, wrote: nat)

  ghost function FrameTurn<S>(d: Decoder<S>, s: S, f: Frame, q: Query, canWrite: bool): Turn<S> {
    match f
    case Settings(ack) => if ack then Go(s, 0) else if canWrite then Go(s, 1) else Stop(false)
    case Headers(fragment, end) => BlockTurn(d, s, fragment, end, q)
    case Continuation(fragment, end) => BlockTurn(d, s, fragment, end, q)
    case Unrelated => Go(s, 0)
  }

  ghost function BlockTurn<S>(d: Decoder<S>, s: S, fragment: Bytes, end: bool, q: Query): Turn<S> {
    var fed := Feed(d, s, fragment);
    if !fed.ok then Stop(false)
    else if Names(q, fed.fields) || end then Stop(Matches(q, fed.fields))
    else Go(fed.state, 0)
  }

  /** The loop as a fold over a sequence of frames, after which the framer fails. */
  ghost function Fold<S>(d: Decoder<S>, s: S, frames: seq<Frame>, q: Query, w: Budget): Result
    decreases |frames|
  {
    if frames == [] then
      Result(false, 0)
    else
      match FrameTurn(d, s, frames[0], q, Affords(w, 1))
      case Stop(matched) => Result(matched, 0)
      case Go(next, wrote) =>
        var rest := Fold(d, next, frames[1..], q, Left(w, wrote));
        Result(rest.matched, rest.writes + wrote)
  }

  // ---------------------------------------------------------------------------------------------
  // Frames from a reader
  // ---------------------------------------------------------------------------------------------

  datatype FrameRun<F> = FrameRun(reader: Reader, frame: Option<(F, Frame)>)

  /** `ReadFrame`: a full read of a header, and one of the payload it announces. */
  ghost function FrameRead<F>(p: Framer<F>, fs: F, r: Reader): (run: FrameRun<F>)
    requires Valid(r)
    ensures Valid(run.reader)
  {
    var header := FullRead(r, HEADER_LEN);
    if |header.data| < HEADER_LEN then
      FrameRun(header.reader, None)
    else
      var len := PayloadLength(header.data);
      var payload := FullRead(header.reader, len);
      FrameRun(payload.reader, if |payload.data| < len then None else p.parse(fs, header.data, payload.data))
  }

  lemma FrameReadTook<F>(p: Framer<F>, fs: F, r: Reader) returns (taken: Bytes)
    requires Valid(r)
    ensures var run := FrameRead(p, fs, r);
            Took(r, run.reader, taken) && (run.frame.Some? ==> taken != [])
  {
    var header := FullRead(r, HEADER_LEN);
    FullReadTook(r, HEADER_LEN);
    taken := header.data;
    if |header.data| >= HEADER_LEN {
      var len := PayloadLength(header.data);
      FullReadTook(header.reader, len);
      var payload := FullRead(header.reader, len);
      TookThen(r, header.reader, payload.reader, header.data, payload.data);
      taken := header.data + payload.data;
    }
  }

  lemma FrameReadShortens<F>(p: Framer<F>, fs: F, r: Reader)
    requires Valid(r)
    ensures FrameRead(p, fs, r).frame.Some? ==> |Pending(FrameRead(p, fs, r).reader)| < |Pending(r)|
  {
    var taken := FrameReadTook(p, fs, r);
    TookKeeps(r, FrameRead(p, fs, r).reader, taken);
  }

  datatype FieldRun = FieldRun(reader: Reader, result: Result)

  /** The loop over the frames a reader yields. */
  ghost function FieldLoop<S, F>(
    d: Decoder<S>, s: S, p: Framer<F>, fs: F, q: Query, w: Budget, r: Reader): (run: FieldRun)
    requires Valid(r)
    ensures Valid(run.reader)
    decreases |Pending(r)|
  {
    FrameReadShortens(p, fs, r);
    var read := FrameRead(p, fs, r);
    match read.frame
    case None => FieldRun(read.reader, Result(false, 0))
    case Some((fs', f)) =>
      match FrameTurn(d, s, f, q, Affords(w, 1))
      case Stop(matched) => FieldRun(read.reader, Result(matched, 0))
      case Go(s', wrote) => Later(FieldLoop(d, s', p, fs', q, Left(w, wrote), read.reader), wrote)
  }

  ghost function Later(run: FieldRun, wrote: nat): FieldRun {
    FieldRun(run.reader, Result(run.result.matched, run.result.writes + wrote))
  }

  /** `matchHTTP2Field` on a reader. */
  ghost function FieldCall<S, F>(
    d: Decoder<S>, s: S, p: Framer<F>, fs: F, q: Query, w: Budget, r: Reader): (run: FieldRun)
    requires Valid(r)
    ensures Valid(run.reader)
  {
    var v := PrefaceFrom(ClientPreface(), r, 0);
    if v.matched then FieldLoop(d, s, p, fs, q, w, v.reader) else FieldRun(v.reader, Result(false, 0))
  }

  lemma {:induction false} FieldLoopTook<S, F>(
    d: Decoder<S>, s: S, p: Framer<F>, fs: F, q: Query, w: Budget, r: Reader) returns (taken: Bytes)
    requires Valid(r)
    ensures Took(r, FieldLoop(d, s, p, fs, q, w, r).reader, taken)
    decreases |Pending(r)|
  {
    taken := FrameReadTook(p, fs, r);
    FrameReadShortens(p, fs, r);
    var read := FrameRead(p, fs, r);
    if read.frame.Some? {
      var (fs', f) := read.frame.value;
      var turn := FrameTurn(d, s, f, q, Affords(w, 1));
      if turn.Go? {
        var rest := FieldLoop(d, turn.state, p, fs', q, Left(w, turn.wrote), read.reader);
        var more := FieldLoopTook(d, turn.state, p, fs', q, Left(w, turn.wrote), read.reader);
        TookThen(r, read.reader, rest.reader, taken, more);
        taken := taken + more;
      }
    }
  }

  lemma FieldCallTook<S, F>(
    d: Decoder<S>, s: S, p: Framer<F>, fs: F, q: Query, w: Budget, r: Reader) returns (taken: Bytes)
    requires Valid(r)
    ensures Took(r, FieldCall(d, s, p, fs, q, w, r).reader, taken)
  {
    var v := PrefaceFrom(ClientPreface(), r, 0);
    taken := PrefaceTook(ClientPreface(), r, 0);
    if v.matched {
      var more := FieldLoopTook(d, s, p, fs, q, w, v.reader);
      TookThen(r, v.reader, FieldLoop(d, s, p, fs, q, w, v.reader).reader, taken, more);
      taken := taken + more;
    }
  }

  // ---------------------------------------------------------------------------------------------
  // On a quiet reader, the frames are those of the bytes to come
  // ---------------------------------------------------------------------------------------------

  /** A frame read, where `b` are the bytes to come. */
  lemma QuietFrameRead<F>(p: Framer<F>, fs: F, r: Reader, b: Bytes)
    requires Valid(r) && Quiet(r) && Pending(r) == b
    ensures var run := FrameRead(p, fs, r);
            if |b| < HEADER_LEN || |b| < HEADER_LEN + PayloadLength(b) then run.frame == None
            else
              var end := HEADER_LEN + PayloadLength(b);
              && run.frame == p.parse(fs, b[..HEADER_LEN], b[HEADER_LEN..end])
              && Quiet(run.reader) && Pending(run.reader) == b[end..]
  {
    QuietFullRead(r, HEADER_LEN);
    if |b| >= HEADER_LEN {
      var header := FullRead(r, HEADER_LEN);
      var len := PayloadLength(b);
      assert PayloadLength(header.data) == len;
      QuietFullRead(header.reader, len);
      SliceAfter(b, HEADER_LEN, len);
    }
  }

  lemma SliceAfter(b: Bytes, i: nat, len: nat)
    requires i <= |b|
    ensures i + len <= |b| ==> b[i..][..len] == b[i..i + len] && b[i..][len..] == b[i + len..]
  {
  }

  lemma QuietFrame<F>(p: Framer<F>, fs: F, r: Reader, b: Bytes)
    requires Valid(r) && Quiet(r) && Pending(r) == b
    ensures var run := FrameRead(p, fs, r);
            match run.frame
            case None => FramesOf(p, fs, b) == []
            case Some((next, f)) =>
              Quiet(run.reader) && FramesOf(p, fs, b) == [f] + FramesOf(p, next, Pending(run.reader))
  {
    QuietFrameRead(p, fs, r, b);
  }

  lemma FoldOne<S>(d: Decoder<S>, s: S, f: Frame, rest: seq<Frame>, q: Query, w: Budget)
    ensures var turn := FrameTurn(d, s, f, q, Affords(w, 1));
            Fold(d, s, [f] + rest, q, w) ==
            if turn.Stop? then Result(turn.matched, 0)
            else
              var after := Fold(d, turn.state, rest, q, Left(w, turn.wrote));
              Result(after.matched, after.writes + turn.wrote)
  {
    assert ([f] + rest)[1..] == rest;
  }

  /** However a quiet reader's source chunks its bytes, the loop is the fold over the frames of what is to come. */
  lemma {:induction false} LoopIsFold<S, F>(d: Decoder<S>, s: S, p: Framer<F>, fs: F, q: Query, w: Budget, r: Reader)
    requires Valid(r) && Quiet(r)
    ensures FieldLoop(d, s, p, fs, q, w, r).result == Fold(d, s, FramesOf(p, fs, Pending(r)), q, w)
    decreases |Pending(r)|
  {
    QuietFrame(p, fs, r, Pending(r));
    FrameReadShortens(p, fs, r);
    var read := FrameRead(p, fs, r);
    if read.frame.Some? {
      var (fs', f) := read.frame.value;
      FoldOne(d, s, f, FramesOf(p, fs', Pending(read.reader)), q, w);
      var turn := FrameTurn(d, s, f, q, Affords(w, 1));
      if turn.Go? {
        LoopIsFold(d, turn.state, p, fs', q, Left(w, turn.wrote), read.reader);
      }
    }
  }

  /** What `matchHTTP2Field` says of a stream: it starts with the preface, and the frames after that match. */
  ghost function StreamVerdict<S, F>(
    d: Decoder<S>, s: S, p: Framer<F>, fs: F, q: Query, w: Budget, stream: Bytes): Result
  {
    if ClientPreface() <= stream then Fold(d, s, FramesOf(p, fs, stream[|ClientPreface()|..]), q, w)
    else Result(false, 0)
  }

  /** On a quiet reader it says that of all the bytes to come; on any reader, a match needs a preface free of errors. */
  lemma FieldCallIsExact<S, F>(d: Decoder<S>, s: S, p: Framer<F>, fs: F, q: Query, w: Budget, r: Reader)
    requires Valid(r)
    ensures Quiet(r) ==> FieldCall(d, s, p, fs, q, w, r).result == StreamVerdict(d, s, p, fs, q, w, Pending(r))
    ensures FieldCall(d, s, p, fs, q, w, r).result.matched ==> ClientPreface() <= Clean(r)
  {
    var preface := ClientPreface();
    var v := PrefaceFrom(preface, r, 0);
    PrefaceIsExact(preface, r, 0);
    assert preface[0..] == preface;
    if Quiet(r) {
      QuietBytes(r);
      if v.matched {
        AfterPreface(preface, r);
        LoopIsFold(d, s, p, fs, q, w, v.reader);
      }
    }
  }

  lemma AfterPreface(preface: Bytes, r: Reader)
    requires Valid(r) && preface != [] && Quiet(r) && PrefaceFrom(preface, r, 0).matched
    ensures var s := PrefaceFrom(preface, r, 0).reader;
            Quiet(s) && preface <= Pending(r) && Pending(s) == Pending(r)[|preface|..]
  {
    var taken := PrefaceTook(preface, r, 0);
    TookKeeps(r, PrefaceFrom(preface, r, 0).reader, taken);
    assert preface[0..] == preface;
  }

  // ---------------------------------------------------------------------------------------------
  // The methods
  // ---------------------------------------------------------------------------------------------

  /** The decoder's emit function, called for the fields of one write. */
  method Emit(q: Query, fields: seq<Field>, done0: bool, matched0: bool) returns (done: bool, matched: bool)
    ensures done == (done0 || Names(q, fields))
    ensures matched == (matched0 || Matches(q, fields))
  {
    done, matched := done0, matched0;
    var i := 0;
    while i < |fields|
      invariant 0 <= i <= |fields|
      invariant done == (done0 || Names(q, fields[..i]))
      invariant matched == (matched0 || Matches(q, fields[..i]))
    {
      assert fields[..i + 1][..i] == fields[..i];
      if fields[i].name == q.name {
        done := true;
        if q.matches(fields[i].value) {
          matched := true;
        }
      }
      i := i + 1;
    }
    assert fields[..i] == fields;
  }

  /** `framer.ReadFrame`. */
  method ReadFrame<F>(p: Framer<F>, fs: F, r: BufferedReader) returns (frame: Option<(F, Frame)>)
    requires Valid(r.View())
    modifies r, r.source
    ensures Valid(r.View()) && FrameRun(r.View(), frame) == FrameRead(p, fs, old(r.View()))
  {
    var header := new byte[HEADER_LEN];
    var n := ReadFull(r, header);
    if n < HEADER_LEN {
      return None;
    }
    assert header[..n] == header[..];
    var len := PayloadLength(header[..]);
    var payload := new byte[len];
    n := ReadFull(r, payload);
    if n < len {
      return None;
    }
    assert payload[..n] == payload[..];
    return p.parse(fs, header[..], payload[..]);
  }

  /** The switch on a frame's type: whether the match has failed, and the loop's variables after it. */
  method HandleFrame<S>(d: Decoder<S>, s: S, f: Frame, q: Query, canWrite: bool, done0: bool, matched0: bool)
    returns (failed: bool, s': S, wrote: nat, done: bool, matched: bool)
    requires !done0 && !matched0
    ensures FrameTurn(d, s, f, q, canWrite) ==
            if failed then Stop(false) else if done then Stop(matched) else Go(s', wrote)
    ensures matched ==> done
  {
    failed, s', wrote, done, matched := false, s, 0, done0, matched0;
    match f
    case Settings(ack) =>
      if !ack {
        if !canWrite {
          failed := true;
        } else {
          wrote := 1;
        }
      }
    case Headers(fragment, end) => failed, s', done, matched := HandleBlock(d, s, fragment, end, q, done, matched);
    case Continuation(fragment, end) => failed, s', done, matched := HandleBlock(d, s, fragment, end, q, done, matched);
    case Unrelated =>
  }

  method HandleBlock<S>(d: Decoder<S>, s: S, fragment: Bytes, end: bool, q: Query, done0: bool, matched0: bool)
    returns (failed: bool, s': S, done: bool, matched: bool)
    requires !done0 && !matched0
    ensures BlockTurn(d, s, fragment, end, q) ==
            if failed then Stop(false) else if done then Stop(matched) else Go(s', 0)
    ensures matched ==> done
  {
    var fed := Feed(d, s, fragment);
    done, matched := Emit(q, fed.fields, done0, matched0);
    return !fed.ok, fed.state, done || end, matched;
  }

  /** One turn of the loop: read a frame, handle it, and see whether to go on. */
  method FrameRound<S, F>(
    d: Decoder<S>, s: S, p: Framer<F>, fs: F, q: Query, w: Budget, r: BufferedReader, done0: bool, matched0: bool)
    returns (failed: bool, s': S, fs': F, wrote: nat, done: bool, matched: bool)
    requires Valid(r.View()) && !done0 && !matched0
    modifies r, r.source
    ensures Valid(r.View())
    ensures FieldLoop(d, s, p, fs, q, w, old(r.View())) ==
            if failed then FieldRun(r.View(), Result(false, 0))
            else if done then FieldRun(r.View(), Result(matched, 0))
            else Later(FieldLoop(d, s', p, fs', q, Left(w, wrote), r.View()), wrote)
    ensures !failed ==> |Pending(r.View())| < old(|Pending(r.View())|)
    ensures matched ==> done
  {
    FrameReadShortens(p, fs, r.View());
    var next := ReadFrame(p, fs, r);
    if next == None {
      return true, s, fs, 0, done0, matched0;
    }
    var f := next.value.1;
    fs' := next.value.0;
    failed, s', wrote, done, matched := HandleFrame(d, s, f, q, Affords(w, 1), done0, matched0);
  }

  /** The loop; a match is only ever recorded together with a decision. */
  method MatchFrames<S, F>(d: Decoder<S>, s0: S, p: Framer<F>, fs0: F, q: Query, w0: Budget, r: BufferedReader)
    returns (result: Result)
    requires Valid(r.View())
    modifies r, r.source
    ensures Valid(r.View()) && FieldRun(r.View(), result) == FieldLoop(d, s0, p, fs0, q, w0, old(r.View()))
  {
    var done, matched, s, fs, w, writes: nat := false, false, s0, fs0, w0, 0;
    ghost var run := FieldLoop(d, s0, p, fs0, q, w0, r.View());
    while true
      invariant Valid(r.View())
      invariant !done && !matched
      invariant run == Later(FieldLoop(d, s, p, fs, q, w, r.View()), writes)
      decreases |Pending(r.View())|
    {
      var failed, wrote;
      failed, s, fs, wrote, done, matched := FrameRound(d, s, p, fs, q, w, r, done, matched);
      if failed {
        return Result(false, writes);
      }
      if done {
        return Result(matched, writes);
      }
      w, writes := Left(w, wrote), writes + wrote;
    }
  }

  /** `matchHTTP2Field`. */
  method MatchHTTP2Field<S, F>(d: Decoder<S>, s0: S, p: Framer<F>, fs0: F, q: Query, w: Budget, r: BufferedReader)
    returns (result: Result)
    requires Valid(r.View())
    modifies r, r.source
    ensures Valid(r.View()) && FieldRun(r.View(), result) == FieldCall(d, s0, p, fs0, q, w, old(r.View()))
  {
    var preface := HasHTTP2Preface(r);
    if !preface {
      return Result(false, 0);
    }
    result := MatchFrames(d, s0, p, fs0, q, w, r);
  }

  // ---------------------------------------------------------------------------------------------
  // Which frame decides
  // ---------------------------------------------------------------------------------------------

  predicate InBlock(f: Frame) {
    f.Headers? || f.Continuation?
  }

  /** The decoder's state once the header blocks of some frames are fed to it. */
  ghost function StateAfter<S>(d: Decoder<S>, s: S, frames: seq<Frame>): S {
    if frames == [] then s
    else if InBlock(frames[0]) then StateAfter(d, Feed(d, s, frames[0].fragment).state, frames[1..])
    else StateAfter(d, s, frames[1..])
  }

  /** Frames that decide nothing: their blocks decode, do not name the field, and do not end the headers. */
  ghost predicate Indecisive<S>(d: Decoder<S>, s: S, frames: seq<Frame>, q: Query) {
    frames != [] ==>
      if InBlock(frames[0]) then
        var fed := Feed(d, s, frames[0].fragment);
        fed.ok && !Names(q, fed.fields) && !frames[0].endHeaders && Indecisive(d, fed.state, frames[1..], q)
      else
        Indecisive(d, s, frames[1..], q)
  }

  function SettingsToAnswer(frames: seq<Frame>): nat {
    if frames == [] then 0
    else (if frames[0].Settings? && !frames[0].ack then 1 else 0) + SettingsToAnswer(frames[1..])
  }

  /** Indecisive frames only advance the decoder and have their SETTINGS answered, as far as writes succeed. */
  lemma {:induction false} PassesOver<S>(
    d: Decoder<S>, s: S, before: seq<Frame>, rest: seq<Frame>, q: Query, w: Budget)
    requires Indecisive(d, s, before, q)
    ensures var n := SettingsToAnswer(before);
            Fold(d, s, before + rest, q, w) ==
            if !Affords(w, n) then Result(false, w.value)
            else var r := Fold(d, StateAfter(d, s, before), rest, q, Left(w, n)); Result(r.matched, r.writes + n)
    decreases |before|
  {
    var frames := before + rest;
    if before == [] {
      assert frames == rest;
    } else {
      assert frames == [before[0]] + (before[1..] + rest);
      FoldOne(d, s, before[0], before[1..] + rest, q, w);
      IndecisiveTurn(d, s, before, q, Affords(w, 1));
      var turn := FrameTurn(d, s, before[0], q, Affords(w, 1));
      if turn.Go? {
        PassesOver(d, turn.state, before[1..], rest, q, Left(w, turn.wrote));
        LeftTwice(w, turn.wrote, SettingsToAnswer(before[1..]));
      }
    }
  }

  lemma LeftTwice(w: Budget, a: nat, b: nat)
    requires Affords(w, a)
    ensures Left(Left(w, a), b) == Left(w, a + b) && (Affords(Left(w, a), b) <==> Affords(w, a + b))
  {
  }

  lemma IndecisiveTurn<S>(d: Decoder<S>, s: S, before: seq<Frame>, q: Query, canWrite: bool)
    requires before != [] && Indecisive(d, s, before, q)
    ensures var f, rest := before[0], before[1..];
            var next := if InBlock(f) then Feed(d, s, f.fragment).state else s;
            var n := if f.Settings? && !f.ack then 1 else 0;
            && FrameTurn(d, s, f, q, canWrite) == (if n == 1 && !canWrite then Stop(false) else Go(next, n))
            && Indecisive(d, next, rest, q) && StateAfter(d, s, before) == StateAfter(d, next, rest)
            && SettingsToAnswer(before) == n + SettingsToAnswer(rest)
  {
  }

  /**
   * The first HEADERS or CONTINUATION frame that names the field or ends the headers decides, by the fields it emits
   * itself; until then one SETTINGS frame is written for each that is not an acknowledgement.
   */
  lemma FirstDecisiveFrame<S>(
    d: Decoder<S>, s: S, before: seq<Frame>, f: Frame, after: seq<Frame>, q: Query, w: Budget)
    requires Indecisive(d, s, before, q) && Affords(w, SettingsToAnswer(before)) && InBlock(f)
    requires var fed := Feed(d, StateAfter(d, s, before), f.fragment);
             fed.ok && (Names(q, fed.fields) || f.endHeaders)
    ensures Fold(d, s, before + ([f] + after), q, w) ==
            Result(Matches(q, Feed(d, StateAfter(d, s, before), f.fragment).fields), SettingsToAnswer(before))
  {
    PassesOver(d, s, before, [f] + after, q, w);
    assert ([f] + after)[0] == f;
  }

  /** A block that fails to decode, a SETTINGS write that fails, and a framer that fails all mean no match. */
  lemma BrokenRun<S>(
    d: Decoder<S>, s: S, before: seq<Frame>, rest: seq<Frame>, q: Query, w: Budget)
    requires Indecisive(d, s, before, q)
    requires || !Affords(w, SettingsToAnswer(before))
             || rest == []
             || (InBlock(rest[0]) && !Feed(d, StateAfter(d, s, before), rest[0].fragment).ok)
    ensures Fold(d, s, before + rest, q, w) == 
            Result(false, if Affords(w, SettingsToAnswer(before)) then SettingsToAnswer(before) else w.value)
  {
    PassesOver(d, s, before, rest, q, w);
  }

  /** Frame `i` decides for a match: nothing decides before it, all writes until then succeed, and its fields match. */
  ghost predicate DecidesFor<S>(d: Decoder<S>, s: S, frames: seq<Frame>, i: nat, q: Query, w: Budget)
    requires i < |frames|
  {
    && Indecisive(d, s, frames[..i], q) && Affords(w, SettingsToAnswer(frames[..i]))
    && InBlock(frames[i])
    && var fed := Feed(d, StateAfter(d, s, frames[..i]), frames[i].fragment);
       fed.ok && Matches(q, fed.fields)
  }

  ghost predicate SomeFrameDecides<S>(d: Decoder<S>, s: S, frames: seq<Frame>, q: Query, w: Budget) {
    exists i :: 0 <= i < |frames| && DecidesFor(d, s, frames, i, q, w)
  }

  /** These are all the runs: there is a match exactly when some frame decides for one. */
  lemma MatchedIff<S>(d: Decoder<S>, s: S, frames: seq<Frame>, q: Query, w: Budget)
    ensures Fold(d, s, frames, q, w).matched <==> SomeFrameDecides(d, s, frames, q, w)
  {
    if Fold(d, s, frames, q, w).matched {
      var i := DecidingFrame(d, s, frames, q, w);
    }
    forall i | 0 <= i < |frames| && DecidesFor(d, s, frames, i, q, w)
      ensures Fold(d, s, frames, q, w).matched
    {
      assert frames == frames[..i] + ([frames[i]] + frames[i + 1..]);
      FirstDecisiveFrame(d, s, frames[..i], frames[i], frames[i + 1..], q, w);
    }
  }

  /** A stream is matched if it starts with the preface and goes on with a frame that decides for a match. */
  lemma StreamLanguage<S, F>(d: Decoder<S>, s: S, p: Framer<F>, fs: F, q: Query, w: Budget, stream: Bytes)
    ensures StreamVerdict(d, s, p, fs, q, w, stream).matched <==>
            && ClientPreface() <= stream
            && SomeFrameDecides(d, s, FramesOf(p, fs, stream[|ClientPreface()|..]), q, w)
  {
    if ClientPreface() <= stream {
      MatchedIff(d, s, FramesOf(p, fs, stream[|ClientPreface()|..]), q, w);
    }
  }

  lemma {:induction false} DecidingFrame<S>(
    d: Decoder<S>, s: S, frames: seq<Frame>, q: Query, w: Budget) returns (i: nat)
    requires Fold(d, s, frames, q, w).matched
    ensures i < |frames| && DecidesFor(d, s, frames, i, q, w)
    decreases |frames|
  {
    var turn := FrameTurn(d, s, frames[0], q, Affords(w, 1));
    i := 0;
    if turn.Go? {
      var k := DecidingFrame(d, turn.state, frames[1..], q, Left(w, turn.wrote));
      i := k + 1;
      assert frames[..i][0] == frames[0] && frames[..i][1..] == frames[1..][..k];
    }
  }

  // ---------------------------------------------------------------------------------------------
  // From the decoder and the wire to the verdict
  // ---------------------------------------------------------------------------------------------

  /** The decoder takes a block byte by byte, through these states and with these emissions. */
  ghost predicate Decodes<S>(d: Decoder<S>, states: seq<S>, emitted: seq<Option<Field>>, block: Bytes) {
    && |states| == |block| + 1 && |emitted| == |block|
    && forall i :: 0 <= i < |block| ==> d.take(states[i], block[i]) == Some((states[i + 1], emitted[i]))
  }

  ghost predicate EmitsNamed(q: Query, emitted: seq<Option<Field>>) {
    exists i :: 0 <= i < |emitted| && emitted[i].Some? && emitted[i].value.name == q.name
  }

  ghost predicate EmitsMatch(q: Query, emitted: seq<Option<Field>>) {
    exists i ::
      && 0 <= i < |emitted| && emitted[i].Some?
      && emitted[i].value.name == q.name && q.matches(emitted[i].value.value)
  }

  /** The fields among some emissions. */
  ghost function FieldsIn(emitted: seq<Option<Field>>): seq<Field> {
    if emitted == [] then [] else (if emitted[0].Some? then [emitted[0].value] else []) + FieldsIn(emitted[1..])
  }

  lemma {:induction false} FieldsInAre(q: Query, emitted: seq<Option<Field>>)
    ensures Names(q, FieldsIn(emitted)) <==> EmitsNamed(q, emitted)
    ensures Matches(q, FieldsIn(emitted)) <==> EmitsMatch(q, emitted)
    decreases |emitted|
  {
    if emitted != [] {
      var first := if emitted[0].Some? then [emitted[0].value] else [];
      var rest := emitted[1..];
      FieldsInAre(q, rest);
      FieldsConcat(q, first, FieldsIn(rest));
      assert emitted == [emitted[0]] + rest;
      EmitsConcat(q, emitted[0], rest);
    }
  }

  lemma EmitsConcat(q: Query, first: Option<Field>, rest: seq<Option<Field>>)
    ensures EmitsNamed(q, [first] + rest) <==> (first.Some? && first.value.name == q.name) || EmitsNamed(q, rest)
    ensures EmitsMatch(q, [first] + rest) <==>
            (first.Some? && first.value.name == q.name && q.matches(first.value.value)) || EmitsMatch(q, rest)
  {
    assert ([first] + rest)[0] == first;
    assert forall i :: 0 <= i < |rest| ==> ([first] + rest)[i + 1] == rest[i];
  }

  lemma {:induction false} FeedIsTakes<S>(
    d: Decoder<S>, states: seq<S>, emitted: seq<Option<Field>>, block: Bytes)
    requires Decodes(d, states, emitted, block)
    ensures Feed(d, states[0], block) == Fed(states[|block|], FieldsIn(emitted), true)
    decreases |block|
  {
    if block != [] {
      assert d.take(states[0], block[0]) == Some((states[1], emitted[0]));
      assert Decodes(d, states[1..], emitted[1..], block[1..]);
      FeedIsTakes(d, states[1..], emitted[1..], block[1..]);
    }
  }

  /**
   * What a frame of a header block does, told by the decoder's own steps: if one of its bytes emits the wanted name,
   * the frame decides, and for a match exactly if one emits it with a value that matches; otherwise it ends the search
   * if it ends the headers, and if not the loop goes on from the decoder's last state.
   */
  lemma BlockThroughTakes<S>(
    d: Decoder<S>, states: seq<S>, emitted: seq<Option<Field>>, f: Frame, rest: seq<Frame>, q: Query, w: Budget)
    requires InBlock(f) && Decodes(d, states, emitted, f.fragment)
    ensures Fold(d, states[0], [f] + rest, q, w) ==
            if EmitsNamed(q, emitted) then Result(EmitsMatch(q, emitted), 0)
            else if f.endHeaders then Result(false, 0)
            else Fold(d, states[|f.fragment|], rest, q, w)
  {
    FeedIsTakes(d, states, emitted, f.fragment);
    FieldsInAre(q, emitted);
    FoldOne(d, states[0], f, rest, q, w);
    if Matches(q, FieldsIn(emitted)) {
      assert Names(q, FieldsIn(emitted));
    }
    var turn := FrameTurn(d, states[0], f, q, Affords(w, 1));
    if turn.Go? {
      var after := Fold(d, turn.state, rest, q, Left(w, 0));
      assert Left(w, 0) == w && Result(after.matched, after.writes + 0) == after;
    }
  }

  lemma {:induction false} FeedFails<S>(
    d: Decoder<S>, states: seq<S>, emitted: seq<Option<Field>>, block: Bytes, k: nat)
    requires k < |block| && Decodes(d, states, emitted, block[..k]) && d.take(states[k], block[k]) == None
    ensures !Feed(d, states[0], block).ok
  {
    FeedIsTakes(d, states, emitted, block[..k]);
    assert block == block[..k] + block[k..];
    FeedConcat(d, states[0], block[..k], block[k..]);
  }

  /** A byte the decoder cannot take means no match, whatever was emitted before it. */
  lemma BadByte<S>(
    d: Decoder<S>, states: seq<S>, emitted: seq<Option<Field>>, f: Frame, k: nat, rest: seq<Frame>, q: Query, w: Budget)
    requires InBlock(f) && k < |f.fragment|
    requires Decodes(d, states, emitted, f.fragment[..k]) && d.take(states[k], f.fragment[k]) == None
    ensures Fold(d, states[0], [f] + rest, q, w) == Result(false, 0)
  {
    FeedFails(d, states, emitted, f.fragment, k);
    FoldOne(d, states[0], f, rest, q, w);
  }

  /** A frame as it is sent: the payload's length in three bytes, six more bytes of header, and the payload. */
  function Framed(kind: Bytes, payload: Bytes): Bytes
    requires |kind| == 6 && |payload| < 0x100_0000
  {
    HeaderOf(kind, payload) + payload
  }

  function HeaderOf(kind: Bytes, payload: Bytes): Bytes
    requires |kind| == 6 && |payload| < 0x100_0000
  {
    [|payload| / 0x1_0000, |payload| / 0x100 % 0x100, |payload| % 0x100] + kind
  }

  /** What was sent as a frame is read as that frame, and what follows it as what follows. */
  lemma FramedIsRead<F>(p: Framer<F>, fs: F, kind: Bytes, payload: Bytes, rest: Bytes)
    requires |kind| == 6 && |payload| < 0x100_0000
    ensures var parsed := p.parse(fs, HeaderOf(kind, payload), payload);
            FramesOf(p, fs, Framed(kind, payload) + rest) ==
            if parsed.Some? then [parsed.value.1] + FramesOf(p, parsed.value.0, rest) else []
  {
    var header, bytes := HeaderOf(kind, payload), Framed(kind, payload) + rest;
    var n := |payload|;
    assert n == n / 0x1_0000 * 0x1_0000 + n / 0x100 % 0x100 * 0x100 + n % 0x100;
    assert bytes[0] == header[0] && bytes[1] == header[1] && bytes[2] == header[2];
    assert PayloadLength(bytes) == n;
    assert bytes[..9] == header && bytes[9..9 + n] == payload && bytes[9 + n..] == rest;
  }

  /**
   * From the wire to the verdict: the connection preface, and one frame that is parsed as a HEADERS frame with all of a
   * block, is a match exactly if the decoder, taking the block, emits a field of that name with a value that matches.
   */
  lemma FieldOnTheWire<S, F>(
    d: Decoder<S>, states: seq<S>, emitted: seq<Option<Field>>, block: Bytes, p: Framer<F>, fs: F, next: F,
    kind: Bytes, payload: Bytes, rest: Bytes, q: Query, w: Budget, stream: Bytes)
    requires |kind| == 6 && |payload| < 0x100_0000
    requires StartsWith(stream, "PRI * HTTP/2.0\r\n\r\nSM\r\n\r\n") && stream[24..] == Framed(kind, payload) + rest
    requires p.parse(fs, HeaderOf(kind, payload), payload) == Some((next, Headers(block, true)))
    requires Decodes(d, states, emitted, block)
    ensures StreamVerdict(d, states[0], p, fs, q, w, stream).matched <==> EmitsMatch(q, emitted)
  {
    ClientPrefaceText(stream);
    FramedIsRead(p, fs, kind, payload, rest);
    BlockThroughTakes(d, states, emitted, Headers(block, true), FramesOf(p, next, rest), q, w);
    assert EmitsMatch(q, emitted) ==> EmitsNamed(q, emitted);
  }

  // ---------------------------------------------------------------------------------------------
  // How a header block is cut into fragments
  // ---------------------------------------------------------------------------------------------

  lemma {:induction false} FeedConcat<S>(d: Decoder<S>, s: S, a: Bytes, b: Bytes)
    ensures var first := Feed(d, s, a);
            first.ok ==>
              var second := Feed(d, first.state, b);
              Feed(d, s, a + b) == Fed(second.state, first.fields + second.fields, second.ok)
    ensures Feed(d, s, a + b).ok ==> Feed(d, s, a).ok
    decreases |a|
  {
    if a == [] {
      assert a + b == b;
    } else {
      assert (a + b)[0] == a[0] && (a + b)[1..] == a[1..] + b;
      match d.take(s, a[0])
      case None =>
      case Some((next, emitted)) =>
        FeedConcat(d, next, a[1..], b);
        var own := if emitted.Some? then [emitted.value] else [];
        var rest := Feed(d, next, a[1..]);
        if rest.ok {
          var second := Feed(d, rest.state, b);
          assert own + (rest.fields + second.fields) == (own + rest.fields) + second.fields;
        }
    }
  }

  ghost function Flat(fragments: seq<Bytes>): Bytes {
    if fragments == [] then [] else fragments[0] + Flat(fragments[1..])
  }

  /** The frames that carry a block in these fragments: one HEADERS frame, and the rest in CONTINUATION frames. */
  ghost function Continuations(fragments: seq<Bytes>): seq<Frame> {
    if fragments == [] then []
    else [Continuation(fragments[0], |fragments| == 1)] + Continuations(fragments[1..])
  }

  ghost function BlockFrames(fragments: seq<Bytes>): seq<Frame>
    requires fragments != []
  {
    [Headers(fragments[0], |fragments| == 1)] + Continuations(fragments[1..])
  }

  /** What the loop makes of a block, fragment by fragment. */
  ghost function CutVerdict<S>(d: Decoder<S>, s: S, fragments: seq<Bytes>, q: Query): bool
    requires fragments != []
  {
    var fed := Feed(d, s, fragments[0]);
    if !fed.ok then false
    else if Names(q, fed.fields) || |fragments| == 1 then Matches(q, fed.fields)
    else CutVerdict(d, fed.state, fragments[1..], q)
  }

  lemma {:induction false} ContinuationsVerdict<S>(d: Decoder<S>, s: S, fragments: seq<Bytes>, q: Query, w: Budget)
    requires fragments != []
    ensures Fold(d, s, Continuations(fragments), q, w).matched == CutVerdict(d, s, fragments, q)
    decreases |fragments|
  {
    var frames := Continuations(fragments);
    assert frames[1..] == Continuations(fragments[1..]);
    var fed := Feed(d, s, fragments[0]);
    if fed.ok && !Names(q, fed.fields) && |fragments| > 1 {
      ContinuationsVerdict(d, fed.state, fragments[1..], q, w);
    }
  }

  lemma BlockVerdict<S>(d: Decoder<S>, s: S, fragments: seq<Bytes>, q: Query, w: Budget)
    requires fragments != []
    ensures Fold(d, s, BlockFrames(fragments), q, w).matched == CutVerdict(d, s, fragments, q)
  {
    var frames := BlockFrames(fragments);
    assert frames[1..] == Continuations(fragments[1..]);
    var fed := Feed(d, s, fragments[0]);
    if fed.ok && !Names(q, fed.fields) && |fragments| > 1 {
      ContinuationsVerdict(d, fed.state, fragments[1..], q, w);
    }
  }

  /** If any field of that name matches, the first one does. */
  ghost predicate FirstSpeaksForAll(q: Query, fields: seq<Field>) {
    Matches(q, fields) ==>
      exists i :: 0 <= i < |fields| && fields[i].name == q.name && q.matches(fields[i].value) && !Names(q, fields[..i])
  }

  lemma FieldsConcat(q: Query, a: seq<Field>, b: seq<Field>)
    ensures forall i :: 0 <= i < |a| ==> (a + b)[i] == a[i]
    ensures Matches(q, a + b) <==> Matches(q, a) || Matches(q, b)
    ensures Names(q, a + b) <==> Names(q, a) || Names(q, b)
  {
    forall i | 0 <= i < |a|
      ensures (a + b)[i] == a[i]
    {
    }
    forall i | 0 <= i < |b|
      ensures (a + b)[|a| + i] == b[i]
    {
    }
  }

  /** A field seen before position `i` is among the first `i`. */
  lemma NamedBefore(q: Query, fields: seq<Field>, k: nat, i: nat)
    requires k < i <= |fields| && fields[k].name == q.name
    ensures Names(q, fields[..i])
  {
    assert fields[..i][k] == fields[k];
  }

  lemma FirstInHead(q: Query, a: seq<Field>, b: seq<Field>)
    requires FirstSpeaksForAll(q, a + b)
    ensures Names(q, a) ==> (Matches(q, a) <==> Matches(q, a + b))
    ensures !Names(q, a) ==> FirstSpeaksForAll(q, b) && (Matches(q, b) <==> Matches(q, a + b))
  {
    FieldsConcat(q, a, b);
    if Matches(q, a + b) {
      var i :| 0 <= i < |a + b| && (a + b)[i].name == q.name && q.matches((a + b)[i].value) && !Names(q, (a + b)[..i]);
      if Names(q, a) {
        var k :| 0 <= k < |a| && a[k].name == q.name;
        if i > k {
          NamedBefore(q, a + b, k, i);
        }
      } else {
        assert (a + b)[..i] == a + b[..i - |a|];
        FieldsConcat(q, a, b[..i - |a|]);
        assert b[i - |a|] == (a + b)[i];
      }
    }
  }

  lemma {:induction false} AnyCutSame<S>(d: Decoder<S>, s: S, fragments: seq<Bytes>, q: Query)
    requires fragments != []
    requires Feed(d, s, Flat(fragments)).ok && FirstSpeaksForAll(q, Feed(d, s, Flat(fragments)).fields)
    ensures CutVerdict(d, s, fragments, q) == Matches(q, Feed(d, s, Flat(fragments)).fields)
    decreases |fragments|
  {
    var rest := Flat(fragments[1..]);
    FeedConcat(d, s, fragments[0], rest);
    var fed := Feed(d, s, fragments[0]);
    if |fragments| == 1 {
      assert Flat(fragments) == fragments[0];
    } else {
      FirstInHead(q, fed.fields, Feed(d, fed.state, rest).fields);
      if !Names(q, fed.fields) {
        AnyCutSame(d, fed.state, fragments[1..], q);
      }
    }
  }

  /** A block can be cut right after any of its fields. */
  lemma {:induction false} CutAfterField<S>(d: Decoder<S>, s: S, block: Bytes, n: nat) returns (cut: nat)
    requires Feed(d, s, block).ok && n <= |Feed(d, s, block).fields|
    ensures cut <= |block| && Feed(d, s, block[..cut]).ok
    ensures Feed(d, s, block[..cut]).fields == Feed(d, s, block).fields[..n]
    decreases |block|
  {
    if n == 0 {
      cut := 0;
    } else {
      var (next, emitted) := d.take(s, block[0]).value;
      var own := if emitted.Some? then [emitted.value] else [];
      var rest := Feed(d, next, block[1..]);
      var c := CutAfterField(d, next, block[1..], n - |own|);
      cut := c + 1;
      assert block[..cut][0] == block[0] && block[..cut][1..] == block[1..][..c];
      assert (own + rest.fields)[..n] == own + rest.fields[..n - |own|];
    }
  }

  /** When some field of that name matches but the first one does not, a cut after the first one changes the verdict. */
  lemma SomeCutDiffers<S>(d: Decoder<S>, s: S, block: Bytes, q: Query) returns (fragments: seq<Bytes>)
    requires Feed(d, s, block).ok && !FirstSpeaksForAll(q, Feed(d, s, block).fields)
    ensures fragments != [] && Flat(fragments) == block
    ensures CutVerdict(d, s, fragments, q) != Matches(q, Feed(d, s, block).fields)
  {
    var fields := Feed(d, s, block).fields;
    var i := FirstNamed(q, fields);
    var cut := CutAfterField(d, s, block, i + 1);
    fragments := [block[..cut], block[cut..]];
    FlatPair(block[..cut], block[cut..]);
    assert block == block[..cut] + block[cut..];
    UpToFirst(q, fields, i);
  }

  lemma FlatPair(a: Bytes, b: Bytes)
    ensures Flat([a, b]) == a + b
  {
    assert [a, b][1..] == [b] && [b][1..] == [];
    assert Flat([]) == [] && b + [] == b;
  }

  /** The fields up to the first of that name match as that one does. */
  lemma UpToFirst(q: Query, fields: seq<Field>, i: nat)
    requires i < |fields| && fields[i].name == q.name && !Names(q, fields[..i])
    ensures Names(q, fields[..i + 1]) && (Matches(q, fields[..i + 1]) <==> q.matches(fields[i].value))
  {
    assert fields[..i + 1][i] == fields[i];
    assert forall k :: 0 <= k < i ==> fields[..i + 1][k] == fields[..i][k];
  }

  lemma {:induction false} FirstNamed(q: Query, fields: seq<Field>) returns (i: nat)
    requires Names(q, fields)
    ensures i < |fields| && fields[i].name == q.name && !Names(q, fields[..i])
    decreases |fields|
  {
    var last := |fields| - 1;
    if Names(q, fields[..last]) {
      i := FirstNamed(q, fields[..last]);
      assert fields[..last][..i] == fields[..i];
    } else {
      i := last;
      if fields[last].name != q.name {
        var k :| 0 <= k < |fields| && fields[k].name == q.name;
        NamedBefore(q, fields, k, last);
      }
    }
  }

  /**
   * The verdict on a header block that decodes is the same however it is cut into fragments exactly when its first
   * field of that name speaks for all: it matches if any does.
   */
  lemma FragmentationIndependence<S>(d: Decoder<S>, s: S, block: Bytes, q: Query, w: Budget)
    requires Feed(d, s, block).ok
    ensures FirstSpeaksForAll(q, Feed(d, s, block).fields) <==>
            forall fragments :: fragments != [] && Flat(fragments) == block ==>
              Fold(d, s, BlockFrames(fragments), q, w).matched == Matches(q, Feed(d, s, block).fields)
  {
    if FirstSpeaksForAll(q, Feed(d, s, block).fields) {
      forall fragments | fragments != [] && Flat(fragments) == block
        ensures Fold(d, s, BlockFrames(fragments), q, w).matched == Matches(q, Feed(d, s, block).fields)
      {
        BlockVerdict(d, s, fragments, q, w);
        AnyCutSame(d, s, fragments, q);
      }
    } else {
      var fragments := SomeCutDiffers(d, s, block, q);
      BlockVerdict(d, s, fragments, q, w);
    }
  }

  ghost predicate AtMostOnce(q: Query, fields: seq<Field>) {
    forall i, j :: 0 <= i < j < |fields| ==> !(fields[i].name == q.name == fields[j].name)
  }

  lemma OnlyOneSpeaksForAll(q: Query, fields: seq<Field>)
    requires AtMostOnce(q, fields)
    ensures FirstSpeaksForAll(q, fields)
  {
    if Matches(q, fields) {
      var i :| 0 <= i < |fields| && fields[i].name == q.name && q.matches(fields[i].value);
      forall k | 0 <= k < i
        ensures fields[..i][k].name != q.name
      {
        assert fields[..i][k] == fields[k];
      }
    }
  }

  /** In particular, when the name occurs at most once, every cut of the block gives the same verdict. */
  lemma SingleOccurrence<S>(d: Decoder<S>, s: S, block: Bytes, q: Query, w: Budget, a: seq<Bytes>, b: seq<Bytes>)
    requires Feed(d, s, block).ok && AtMostOnce(q, Feed(d, s, block).fields)
    requires a != [] && b != [] && Flat(a) == block == Flat(b)
    ensures Fold(d, s, BlockFrames(a), q, w).matched == Fold(d, s, BlockFrames(b), q, w).matched
    ensures Fold(d, s, BlockFrames(a), q, w).matched == Matches(q, Feed(d, s, block).fields)
  {
    OnlyOneSpeaksForAll(q, Feed(d, s, block).fields);
    FragmentationIndependence(d, s, block, q, w);
  }
}

/** What matchers read with: `io.ReadFull`, and the loop that looks for the HTTP/2 preface. */
module Reading {
  import opened Bytes
  import opened Sniffing

  /** What every matcher leaves intact: the session goes on, nothing read is lost, and no new error is on record. */
  ghost predicate Keeps(r: Reader, s: Reader) {
    && s.sniffing == r.sniffing
    && (r.sniffing ==> Whole(s) == Whole(r))
    && (Quiet(r) ==> Quiet(s))
    && (Settled(r) ==> Settled(s))
  }

  /** Some reads take reader `r` to `s` and deliver `data`. */
  ghost predicate Took(r: Reader, s: Reader, data: Bytes) {
    Valid(r) && exists sizes :: Reads(r, sizes) == (s, data)
  }

  lemma TookNothing(r: Reader)
    requires Valid(r)
    ensures Took(r, r, [])
  {
    assert Reads(r, []) == (r, []);
  }

  lemma TookOne(r: Reader, len: nat)
    requires Valid(r)
    ensures Took(r, ReadStep(r, len).reader, ReadStep(r, len).data)
  {
    ReadConserves(r, len);
    var o := ReadStep(r, len);
    assert [len][1..] == [];
    assert Reads(o.reader, []) == (o.reader, []);
    assert o.data + [] == o.data;
    assert Reads(r, [len]) == (o.reader, o.data);
  }

  lemma ReadsFirst(r: Reader, sizes: seq<nat>)
    requires Valid(r) && sizes != []
    ensures var o := ReadStep(r, sizes[0]);
            && Valid(o.reader)
            && var rest := Reads(o.reader, sizes[1..]);
               Reads(r, sizes) == (rest.0, o.data + rest.1)
  {
    ReadConserves(r, sizes[0]);
  }

  lemma {:induction false} ReadsAppend(r: Reader, a: seq<nat>, b: seq<nat>)
    requires Valid(r)
    ensures var first := Reads(r, a);
            var second := Reads(first.0, b);
            Reads(r, a + b) == (second.0, first.1 + second.1)
    decreases |a|
  {
    if a == [] {
      assert a + b == b;
      assert [] + Reads(r, b).1 == Reads(r, b).1;
    } else {
      ReadsFirst(r, a);
      ReadsFirst(r, a + b);
      assert (a + b)[1..] == a[1..] + b;
      var o := ReadStep(r, a[0]);
      ReadsAppend(o.reader, a[1..], b);
      var rest := Reads(o.reader, a[1..]);
      Associative(o.data, rest.1, Reads(rest.0, b).1);
    }
  }

  lemma TookThen(r: Reader, s: Reader, t: Reader, a: Bytes, b: Bytes)
    requires Took(r, s, a) && Took(s, t, b)
    ensures Took(r, t, a + b)
  {
    var first :| Reads(r, first) == (s, a);
    var second :| Reads(s, second) == (t, b);
    ReadsAppend(r, first, second);
    assert Reads(r, first + second) == (t, a + b);
  }

  /** Whatever a matcher does, it does by reading. */
  lemma TookKeeps(r: Reader, s: Reader, data: Bytes)
    requires Took(r, s, data)
    ensures Valid(s) && Keeps(r, s) && Pending(r) == data + Pending(s)
  {
    var sizes :| Reads(r, sizes) == (s, data);
    ReadsConserve(r, sizes);
    ReadsKeepQuiet(r, sizes);
  }

  /** What a loop over reads needs to know to go on. */
  lemma ReadsOn(r: Reader, len: nat)
    requires Valid(r) && len > 0
    ensures var o := ReadStep(r, len);
            Valid(o.reader) && |o.data| <= len && (o.err == Nil ==> Fuel(o.reader) < Fuel(r))
  {
    ReadConserves(r, len);
    ReadBurns(r, len);
  }

  // ---------------------------------------------------------------------------------------------
  // io.ReadFull
  // ---------------------------------------------------------------------------------------------

  datatype FullRun = FullRun(reader: Reader, data: Bytes)

  /** `io.ReadFull` with a buffer of `k` bytes: read until the buffer is full or a read reports an error. */
  ghost function FullRead(r: Reader, k: nat): (run: FullRun)
    requires Valid(r)
    ensures Valid(run.reader)
    decreases Fuel(r), 1
  {
    if k == 0 then
      FullRun(r, [])
    else
      ReadsOn(r, k);
      var o := ReadStep(r, k);
      Resume(o.data, o.err, o.reader, k - |o.data|)
  }

  /** What a full read of `k` more bytes yields, with `done` read so far and `err` the last error. */
  ghost function Resume(done: Bytes, err: Error, r: Reader, k: nat): (run: FullRun)
    requires Valid(r)
    ensures Valid(run.reader)
    decreases if err == Nil then Fuel(r) + 1 else 0, 0
  {
    if err != Nil then FullRun(r, done)
    else var rest := FullRead(r, k); FullRun(rest.reader, done + rest.data)
  }

  lemma FullReadTurn(r: Reader, k: nat)
    requires Valid(r) && k > 0
    ensures var o := ReadStep(r, k);
            && Valid(o.reader) && |o.data| <= k && (o.err == Nil ==> Fuel(o.reader) < Fuel(r))
            && FullRead(r, k) == Resume(o.data, o.err, o.reader, k - |o.data|)
  {
    ReadsOn(r, k);
  }

  lemma {:induction false} FullReadTook(r: Reader, k: nat)
    requires Valid(r)
    ensures Took(r, FullRead(r, k).reader, FullRead(r, k).data) && |FullRead(r, k).data| <= k
    decreases Fuel(r), 1
  {
    if k == 0 {
      TookNothing(r);
    } else {
      FullReadTurn(r, k);
      TookOne(r, k);
      var o := ReadStep(r, k);
      ResumeTook(r, o.data, o.err, o.reader, k - |o.data|);
    }
  }

  lemma {:induction false} ResumeTook(r: Reader, done: Bytes, err: Error, s: Reader, k: nat)
    requires Took(r, s, done) && Valid(s)
    ensures var run := Resume(done, err, s, k);
            Took(r, run.reader, run.data) && |run.data| <= |done| + k
    decreases if err == Nil then Fuel(s) + 1 else 0, 0
  {
    if err == Nil {
      FullReadTook(s, k);
      TookThen(r, s, FullRead(s, k).reader, done, FullRead(s, k).data);
    }
  }

  lemma TakeSplit(d: Bytes, rest: Bytes, k: nat)
    requires |d| <= k
    ensures (d + rest)[..Min(k, |d + rest|)] == d + rest[..Min(k - |d|, |rest|)]
  {
  }

  /** However the source chunks its bytes, a full read gets the first `k` of those it can reach. */
  lemma {:induction false} FullReadIsPrefix(r: Reader, k: nat)
    requires Valid(r)
    ensures FullRead(r, k).data == UpToError(r)[..Min(k, |UpToError(r)|)]
    decreases Fuel(r)
  {
    if k > 0 {
      var o := ReadStep(r, k);
      FullReadTurn(r, k);
      ReadUpToError(r, k);
      if o.err == Nil {
        FullReadIsPrefix(o.reader, k - |o.data|);
        TakeSplit(o.data, UpToError(o.reader), k);
      }
    }
  }

  /** On a quiet reader that is all it was asked for, if there is so much to come. */
  lemma QuietFullRead(r: Reader, k: nat)
    requires Valid(r) && Quiet(r)
    ensures var run := FullRead(r, k);
            if k <= |Pending(r)| then
              run.data == Pending(r)[..k] && Quiet(run.reader) && Pending(run.reader) == Pending(r)[k..]
            else |run.data| < k
  {
    FullReadIsPrefix(r, k);
    QuietBytes(r);
    FullReadTook(r, k);
    TookKeeps(r, FullRead(r, k).reader, FullRead(r, k).data);
  }

  lemma ResumeOn(done: Bytes, r: Reader, k: nat)
    requires Valid(r) && k > 0
    ensures var o := ReadStep(r, k);
            && Valid(o.reader) && |o.data| <= k && (o.err == Nil ==> Fuel(o.reader) < Fuel(r))
            && Resume(done, Nil, r, k) == Resume(done + o.data, o.err, o.reader, k - |o.data|)
  {
    FullReadTurn(r, k);
    var o := ReadStep(r, k);
    if o.err == Nil {
      Associative(done, o.data, FullRead(o.reader, k - |o.data|).data);
    }
  }

  /** `n + r.Read(b[n:])`: one more read into a buffer that holds `n` bytes. */
  method ReadInto(r: BufferedReader, b: array<byte>, n: nat) returns (m: nat, err: Error)
    requires Valid(r.View()) && n < b.Length
    modifies r, r.source, b
    ensures Valid(r.View()) && n <= m <= b.Length
    ensures Outcome(r.View(), b[n..m], err) == ReadStep(old(r.View()), b.Length - n)
    ensures b[..n] == old(b[..n]) && b[..m] == b[..n] + b[n..m]
    ensures err == Nil ==> Fuel(r.View()) < old(Fuel(r.View()))
  {
    ReadsOn(r.View(), b.Length - n);
    ghost var before := b[..n];
    var nn;
    nn, err := r.Read(b, n);
    m := n + nn;
    assert b[..n] == before;
  }

  /** One turn of the loop in `io.ReadFull`. */
  method FullRound(r: BufferedReader, buf: array<byte>, n: nat) returns (m: nat, err: Error)
    requires Valid(r.View()) && n < buf.Length
    modifies r, r.source, buf
    ensures Valid(r.View()) && n <= m <= buf.Length
    ensures Resume(buf[..m], err, r.View(), buf.Length - m) == old(Resume(buf[..n], Nil, r.View(), buf.Length - n))
    ensures err == Nil ==> Fuel(r.View()) < old(Fuel(r.View()))
  {
    ResumeOn(buf[..n], r.View(), buf.Length - n);
    m, err := ReadInto(r, buf, n);
  }

  method ReadFull(r: BufferedReader, buf: array<byte>) returns (n: nat)
    requires Valid(r.View())
    modifies r, r.source, buf
    ensures n <= buf.Length && FullRun(r.View(), buf[..n]) == FullRead(old(r.View()), buf.Length)
  {
    n := 0;
    var err := Nil;
    ghost var run := FullRead(r.View(), buf.Length);
    while n < buf.Length && err == Nil
      invariant n <= buf.Length && Valid(r.View())
      invariant run == Resume(buf[..n], err, r.View(), buf.Length - n)
      decreases err == Nil, Fuel(r.View())
    {
      n, err := FullRound(r, buf, n);
    }
  }

  // ---------------------------------------------------------------------------------------------
  // The HTTP/2 preface
  // ---------------------------------------------------------------------------------------------

  /** The client connection preface, section 3.5 of RFC 7540: "PRI * HTTP/2.0", two line ends, "SM", two line ends. */
  function ClientPreface(): (p: Bytes)
    ensures |p| == 24
  {
    Ascii("PRI * HTTP/2.0\r\n\r\nSM\r\n\r\n")
  }

  lemma ClientPrefaceText(stream: Bytes)
    ensures ClientPreface() <= stream <==> StartsWith(stream, "PRI * HTTP/2.0\r\n\r\nSM\r\n\r\n")
  {
    AsciiStarts(stream, "PRI * HTTP/2.0\r\n\r\nSM\r\n\r\n");
  }

  datatype Verdict = Verdict(reader: Reader, matched: bool)

  /** The loop of `hasHTTP2Preface`, for any preface `p`, with its first `last` bytes read and found right. */
  ghost function PrefaceFrom(p: Bytes, r: Reader, last: nat): (v: Verdict)
    requires Valid(r) && last < |p|
    ensures Valid(v.reader)
    decreases Fuel(r), 1
  {
    ReadsOn(r, |p| - last);
    PrefaceAfter(p, ReadStep(r, |p| - last), last)
  }

  /** A read that came to `o` with `last` bytes found right before it brought more of the preface, but not the rest. */
  ghost predicate GoesOn(p: Bytes, o: Outcome, last: nat) {
    o.err == Nil && last + |o.data| < |p| && o.data == p[last..last + |o.data|]
  }

  /** The verdict once a read, made with `last` bytes found right, has come to `o`. */
  ghost function PrefaceAfter(p: Bytes, o: Outcome, last: nat): (v: Verdict)
    requires Valid(o.reader) && last + |o.data| <= |p|
    ensures Valid(v.reader)
    decreases if o.err == Nil then Fuel(o.reader) + 1 else 0, 0
  {
    if GoesOn(p, o, last) then PrefaceFrom(p, o.reader, last + |o.data|)
    else Verdict(o.reader, o.err == Nil && o.data == p[last..last + |o.data|])
  }

  lemma PrefaceTurn(p: Bytes, r: Reader, last: nat)
    requires Valid(r) && last < |p|
    ensures var o := ReadStep(r, |p| - last);
            && Valid(o.reader) && last + |o.data| <= |p| && (o.err == Nil ==> Fuel(o.reader) < Fuel(r))
            && PrefaceFrom(p, r, last) == PrefaceAfter(p, o, last)
  {
    ReadsOn(r, |p| - last);
  }

  /** What was taken is no more than was missing of the preface from `last` on, and all of that if it is found. */
  ghost predicate PrefaceTakes(p: Bytes, r: Reader, last: nat, v: Verdict, taken: Bytes)
    requires last <= |p|
  {
    && Took(r, v.reader, taken) && |taken| <= |p| - last
    && (v.matched ==> taken == p[last..])
  }

  lemma TakesOn(p: Bytes, r: Reader, last: nat, s: Reader, j: nat, v: Verdict, more: Bytes)
    requires last <= j <= |p| && Took(r, s, p[last..j]) && PrefaceTakes(p, s, j, v, more)
    ensures PrefaceTakes(p, r, last, v, p[last..j] + more)
  {
    TookThen(r, s, v.reader, p[last..j], more);
    assert p[last..] == p[last..j] + p[j..];
  }

  lemma {:induction false} PrefaceTook(p: Bytes, r: Reader, last: nat) returns (taken: Bytes)
    requires Valid(r) && last < |p|
    ensures PrefaceTakes(p, r, last, PrefaceFrom(p, r, last), taken)
    decreases Fuel(r), 1
  {
    PrefaceTurn(p, r, last);
    TookOne(r, |p| - last);
    taken := AfterTook(p, r, ReadStep(r, |p| - last), last);
  }

  lemma {:induction false} AfterTook(p: Bytes, r: Reader, o: Outcome, last: nat) returns (taken: Bytes)
    requires Valid(o.reader) && last + |o.data| <= |p| && Took(r, o.reader, o.data)
    ensures PrefaceTakes(p, r, last, PrefaceAfter(p, o, last), taken)
    decreases if o.err == Nil then Fuel(o.reader) + 1 else 0, 0
  {
    var j := last + |o.data|;
    taken := o.data;
    if GoesOn(p, o, last) {
      var more := PrefaceTook(p, o.reader, j);
      TakesOn(p, r, last, o.reader, j, PrefaceFrom(p, o.reader, j), more);
      taken := o.data + more;
    } else if j == |p| {
      assert p[last..j] == p[last..];
    }
  }

  /** It takes no more than the preface's length from the connection, and exactly the preface if it finds it. */
  lemma PrefaceConsumption(p: Bytes, r: Reader) returns (taken: Bytes)
    requires Valid(r) && p != []
    ensures |taken| <= |p| && Pending(r) == taken + Pending(PrefaceFrom(p, r, 0).reader)
    ensures PrefaceFrom(p, r, 0).matched ==> taken == p
  {
    taken := PrefaceTook(p, r, 0);
    TookKeeps(r, PrefaceFrom(p, r, 0).reader, taken);
    assert p[0..] == p;
  }

  /** The preface is recognised exactly when it starts the bytes that arrive before any error, whatever the chunking. */
  lemma {:induction false} PrefaceIsExact(p: Bytes, r: Reader, last: nat)
    requires Valid(r) && last < |p|
    ensures PrefaceFrom(p, r, last).matched <==> p[last..] <= Clean(r)
    decreases Fuel(r)
  {
    PrefaceTurn(p, r, last);
    CleanTurn(p, r, last);
    var o := ReadStep(r, |p| - last);
    if GoesOn(p, o, last) {
      PrefaceIsExact(p, o.reader, last + |o.data|);
    }
  }

  /** What one read says about the rest of the preface. */
  lemma CleanTurn(p: Bytes, r: Reader, last: nat)
    requires Valid(r) && last < |p|
    ensures var o := ReadStep(r, |p| - last);
            var j := last + |o.data|;
            && Valid(o.reader) && j <= |p|
            && (p[last..] <= Clean(r) <==>
                if GoesOn(p, o, last) then p[j..] <= Clean(o.reader) else o.err == Nil && o.data == p[last..j])
  {
    ReadsOn(r, |p| - last);
    ReadClean(r, |p| - last);
    var o := ReadStep(r, |p| - last);
    if o.err == Nil {
      PrefixSplit(p, last, last + |o.data|, o.data, Clean(o.reader));
    }
  }

  lemma PrefixSplit(p: Bytes, i: nat, j: nat, d: Bytes, rest: Bytes)
    requires i <= j <= |p| && |d| == j - i
    ensures p[i..] <= d + rest <==> d == p[i..j] && p[j..] <= rest
  {
    assert p[i..] == p[i..j] + p[j..];
    if p[i..] <= d + rest {
      assert p[i..j] == (d + rest)[..j - i] == d;
      assert p[j..] == (d + rest)[j - i..][..|p| - j];
      assert (d + rest)[j - i..] == rest;
    }
  }

  /** `hasHTTP2Preface`: reads into `b[last..]` and compares after every read. */
  method HasHTTP2Preface(r: BufferedReader) returns (matched: bool)
    requires Valid(r.View())
    modifies r, r.source
    ensures Valid(r.View()) && Verdict(r.View(), matched) == PrefaceFrom(ClientPreface(), old(r.View()), 0)
  {
    matched := HasPreface(ClientPreface(), r);
  }

  method HasPreface(p: Bytes, r: BufferedReader) returns (matched: bool)
    requires Valid(r.View()) && |p| > 0
    modifies r, r.source
    ensures Valid(r.View()) && Verdict(r.View(), matched) == PrefaceFrom(p, old(r.View()), 0)
  {
    var b := new byte[|p|];
    var last: nat := 0;
    ghost var verdict := PrefaceFrom(p, r.View(), 0);
    var done := false;
    matched := false;
    while !done
      invariant Valid(r.View())
      invariant !done ==> last < |p| && b[..last] == p[..last] && verdict == PrefaceFrom(p, r.View(), last)
      invariant done ==> verdict == Verdict(r.View(), matched)
      decreases !done, Fuel(r.View())
    {
      last, done, matched := PrefaceRound(p, r, b, last);
    }
  }

  /** One turn of the loop: read on, compare, and either return or go round again. */
  method PrefaceRound(p: Bytes, r: BufferedReader, b: array<byte>, last: nat)
    returns (last': nat, done: bool, matched: bool)
    requires Valid(r.View()) && last < |p| == b.Length && b[..last] == p[..last]
    modifies r, r.source, b
    ensures Valid(r.View())
    ensures done ==> PrefaceFrom(p, old(r.View()), last) == Verdict(r.View(), matched)
    ensures !done ==> last' < |p| && b[..last'] == p[..last'] && Fuel(r.View()) < old(Fuel(r.View()))
    ensures !done ==> PrefaceFrom(p, old(r.View()), last) == PrefaceFrom(p, r.View(), last')
  {
    ghost var before := r.View();
    var err;
    last', err := ReadInto(r, b, last);
    SameStart(b[..], p, last, last');
    RoundVerdict(p, before, last, last', Outcome(r.View(), b[last..last'], err));
    if err != Nil {
      return last', true, false;
    }
    var eq := b[..last'] == p[..last'];
    return last', !eq || last' == |p|, eq;
  }

  lemma RoundVerdict(p: Bytes, r: Reader, last: nat, j: nat, o: Outcome)
    requires Valid(r) && last <= j <= |p| && last < |p| && o == ReadStep(r, |p| - last) && last + |o.data| == j
    ensures Valid(o.reader)
    ensures var eq := o.data == p[last..j];
            PrefaceFrom(p, r, last) ==
            if o.err != Nil || !eq || j == |p| then Verdict(o.reader, o.err == Nil && eq)
            else PrefaceFrom(p, o.reader, j)
  {
    PrefaceTurn(p, r, last);
  }

  lemma SameStart(b: Bytes, p: Bytes, i: nat, j: nat)
    requires i <= j <= |b| && j <= |p| && b[..i] == p[..i]
    ensures b[..j] == p[..j] <==> b[i..j] == p[i..j]
  {
    assert b[..j] == b[..i] + b[i..j];
    assert p[..j] == p[..i] + p[i..j];
    assert b[..j][i..] == b[i..j] && p[..j][i..] == p[i..j];
  }
}

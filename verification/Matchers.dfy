/**
 * The matchers that read through a sniffing session: `PrefixMatcher`, `HTTP1Fast`, `TLS`, `HTTP2`, the HTTP/2 header
 * field matchers, and `Any`.
 */
module Matchers {
  import opened Bytes
  import opened PatternTree
  import opened Sniffing
  import opened Reading
  import opened Http2Fields

  // ---------------------------------------------------------------------------------------------
  // Matchers as values
  // ---------------------------------------------------------------------------------------------

  /**
   * `Any()`, `pt.matchPrefix`, `pt.match`, `hasHTTP2Preface` and `matchHTTP2Field`.  A field matcher has its own test
   * of the value, and its own writer; the states of its decoder and framer are coded as byte strings, for instance as
   * all that was fed to them so far.
   */
  datatype Matcher =
    | Any
    | Prefixes(tree: Tree)
    | Exactly(tree: Tree)
    | HTTP2
    | HTTP2Field(decoder: Decoder<Bytes>, framer: Framer<Bytes>, query: Query, writes: Budget)

  ghost predicate WellBuilt(m: Matcher) {
    m.Prefixes? || m.Exactly? ==> Deep(m.tree)
  }

  /** The question a matcher answers about a connection's whole stream. */
  ghost predicate Accepts(m: Matcher, stream: Bytes) {
    match m
    case Any => true
    case Prefixes(t) => exists w :: w in Words(t.root) && w <= stream
    case Exactly(t) => stream in Words(t.root)
    case HTTP2 => ClientPreface() <= stream
    case HTTP2Field(d, p, q, w) => StreamVerdict(d, [], p, [], q, w, stream).matched
  }

  /** A matcher's call on a reader. */
  ghost function Call(m: Matcher, r: Reader): (v: Verdict)
    requires Valid(r)
    ensures Valid(v.reader)
  {
    match m
    case Any => Verdict(r, true)
    case Prefixes(t) => var run := FullRead(r, t.maxDepth); Verdict(run.reader, Match(t.root, run.data, true))
    case Exactly(t) => var run := FullRead(r, t.maxDepth); Verdict(run.reader, Match(t.root, run.data, false))
    case HTTP2 => PrefaceFrom(ClientPreface(), r, 0)
    case HTTP2Field(d, p, q, w) => var run := FieldCall(d, [], p, [], q, w, r); Verdict(run.reader, run.result.matched)
  }

  /** A matcher's call is a run of reads in the session it is given. */
  lemma CallReads(m: Matcher, r: Reader) returns (taken: Bytes)
    requires Valid(r)
    ensures Took(r, Call(m, r).reader, taken)
  {
    match m
    case Any =>
      TookNothing(r);
      taken := [];
    case Prefixes(t) =>
      FullReadTook(r, t.maxDepth);
      taken := FullRead(r, t.maxDepth).data;
    case Exactly(t) =>
      FullReadTook(r, t.maxDepth);
      taken := FullRead(r, t.maxDepth).data;
    case HTTP2 => taken := PrefaceTook(ClientPreface(), r, 0);
    case HTTP2Field(d, p, q, w) => taken := FieldCallTook(d, [], p, [], q, w, r);
  }

  /** Every matcher leaves the session going, with nothing lost and no new error on record. */
  lemma CallKeeps(m: Matcher, r: Reader)
    requires Valid(r)
    ensures Keeps(r, Call(m, r).reader)
  {
    var taken := CallReads(m, r);
    TookKeeps(r, Call(m, r).reader, taken);
  }

  /**
   * What the verdicts depend on, for any source: a tree's on the bytes up to an error, the preface's on the clean ones;
   * a field matcher never matches without a clean preface, and on a quiet reader it answers for all that is to come.
   */
  lemma CallIsExact(m: Matcher, r: Reader)
    requires Valid(r) && WellBuilt(m)
    ensures m.HTTP2? ==> (Call(m, r).matched <==> Accepts(m, Clean(r)))
    ensures m.HTTP2Field? ==> (Call(m, r).matched ==> ClientPreface() <= Clean(r))
    ensures m.HTTP2Field? && Quiet(r) ==> (Call(m, r).matched <==> Accepts(m, Pending(r)))
    ensures !m.HTTP2? && !m.HTTP2Field? ==> (Call(m, r).matched <==> Accepts(m, UpToError(r)))
  {
    match m
    case Any =>
    case Prefixes(t) => TreeIsExact(m, t, r);
    case Exactly(t) => TreeIsExact(m, t, r);
    case HTTP2 =>
      PrefaceIsExact(ClientPreface(), r, 0);
      assert ClientPreface()[0..] == ClientPreface();
    case HTTP2Field(d, p, q, w) => FieldCallIsExact(d, [], p, [], q, w, r);
  }

  lemma TreeIsExact(m: Matcher, t: Tree, r: Reader)
    requires Valid(r) && WellBuilt(m) && (m == Prefixes(t) || m == Exactly(t))
    ensures Call(m, r).matched <==> Accepts(m, UpToError(r))
  {
    FullReadIsPrefix(r, t.maxDepth);
    TruncationIsExact(t, UpToError(r));
  }

  method MatchTree(t: Tree, r: BufferedReader, prefix: bool) returns (matched: bool)
    requires Valid(r.View())
    modifies r, r.source
    ensures Valid(r.View())
    ensures var run := FullRead(old(r.View()), t.maxDepth);
            r.View() == run.reader && matched == Match(t.root, run.data, prefix)
  {
    var buf := new byte[t.maxDepth];
    var n := ReadFull(r, buf);
    matched := Match(t.root, buf[..n], prefix);
  }

  method CallMatcher(m: Matcher, r: BufferedReader) returns (matched: bool)
    requires Valid(r.View())
    modifies r, r.source
    ensures Valid(r.View()) && Verdict(r.View(), matched) == Call(m, old(r.View()))
  {
    match m
    case Any => matched := true;
    case Prefixes(t) => matched := MatchTree(t, r, true);
    case Exactly(t) => matched := MatchTree(t, r, false);
    case HTTP2 => matched := HasHTTP2Preface(r);
    case HTTP2Field(d, p, q, w) =>
      var result := MatchHTTP2Field(d, [], p, [], q, w, r);
      matched := result.matched;
  }

  // ---------------------------------------------------------------------------------------------
  // Constructors
  // ---------------------------------------------------------------------------------------------

  /** `PrefixMatcher` and `prefixByteMatcher`; without any pattern the matcher accepts everything. */
  method PrefixMatcher(list: seq<Bytes>) returns (m: Matcher)
    ensures WellBuilt(m) && m.Prefixes?
    ensures forall s :: Accepts(m, s) <==> list == [] || exists p :: p in list && p <= s
  {
    var pt := NewTree(list);
    BuiltIsDeep(pt, list);
    m := Prefixes(pt);
    forall s
      ensures Accepts(m, s) <==> list == [] || exists p :: p in list && p <= s
    {
      if list == [] {
        assert [] in Words(pt.root) && [] <= s;
      } else {
        assert forall p :: p in list <==> p in Words(pt.root);
      }
    }
  }

  function DefaultHTTPMethods(): seq<string> {
    ["OPTIONS", "GET", "HEAD", "POST", "PUT", "DELETE", "TRACE", "CONNECT"]
  }

  ghost predicate StartsWithOne(s: Bytes, list: seq<Bytes>) {
    exists p :: p in list && p <= s
  }

  ghost predicate StartsWithText(s: Bytes, texts: seq<string>) {
    exists text :: text in texts && StartsWith(s, text)
  }

  /** `HTTP1Fast`: the stream starts with a default method or one of the given ones. */
  method HTTP1Fast(extMethods: seq<Bytes>) returns (m: Matcher)
    ensures WellBuilt(m)
    ensures forall s :: Accepts(m, s) <==>
                          || StartsWithText(s, ["OPTIONS", "GET", "HEAD", "POST", "PUT", "DELETE", "TRACE", "CONNECT"])
                          || StartsWithOne(s, extMethods)
  {
    AllAscii();
    m := EitherMatcher(DefaultHTTPMethods(), extMethods);
  }

  lemma AllAscii()
    ensures forall i :: 0 <= i < |DefaultHTTPMethods()| ==> IsAscii(DefaultHTTPMethods()[i])
  {
  }

  function Encoded(texts: seq<string>): seq<Bytes>
    requires forall i :: 0 <= i < |texts| ==> IsAscii(texts[i])
  {
    seq(|texts|, i requires 0 <= i < |texts| => Ascii(texts[i]))
  }

  lemma EncodedStarts(s: Bytes, texts: seq<string>)
    requires forall i :: 0 <= i < |texts| ==> IsAscii(texts[i])
    ensures StartsWithOne(s, Encoded(texts)) <==> StartsWithText(s, texts)
  {
    if p :| p in Encoded(texts) && p <= s {
      var i :| 0 <= i < |texts| && Encoded(texts)[i] == p;
      AsciiStarts(s, texts[i]);
    }
    if text :| text in texts && StartsWith(s, text) {
      var i :| 0 <= i < |texts| && texts[i] == text;
      AsciiStarts(s, texts[i]);
      assert Encoded(texts)[i] in Encoded(texts);
    }
  }

  method EitherMatcher(texts: seq<string>, list: seq<Bytes>) returns (m: Matcher)
    requires texts != [] && forall i :: 0 <= i < |texts| ==> IsAscii(texts[i])
    ensures WellBuilt(m)
    ensures forall s :: Accepts(m, s) <==> StartsWithText(s, texts) || StartsWithOne(s, list)
  {
    var these := Encoded(texts);
    m := PrefixMatcher(these + list);
    assert forall p :: p in these + list <==> p in these || p in list;
    forall s
      ensures Accepts(m, s) <==> StartsWithText(s, texts) || StartsWithOne(s, list)
    {
      EncodedStarts(s, texts);
    }
  }

  /** The versions `TLS` looks for when given none: SSL 3.0 to TLS 1.2. */
  function DefaultVersions(): seq<int> {
    [0x0300, 0x0301, 0x0302, 0x0303]
  }

  /** A handshake record's content type, and the low 16 bits of its version in big-endian order. */
  function RecordStart(v: int): Bytes {
    [22, v / 256 % 256, v % 256]
  }

  /** `TLS`. */
  method TLS(versions: seq<int>) returns (m: Matcher)
    ensures WellBuilt(m)
    ensures var vs := if versions == [] then [0x0300, 0x0301, 0x0302, 0x0303] else versions;
            forall s :: Accepts(m, s) <==> exists v :: v in vs && RecordStart(v) <= s
  {
    var vs := if |versions| == 0 then DefaultVersions() else versions;
    var prefixes: seq<Bytes> := [];
    var i := 0;
    while i < |vs|
      invariant 0 <= i <= |vs| && |prefixes| == i
      invariant forall j :: 0 <= j < i ==> prefixes[j] == RecordStart(vs[j])
    {
      prefixes := prefixes + [[22, vs[i] / 256 % 256, vs[i] % 256]];
      i := i + 1;
    }
    m := PrefixMatcher(prefixes);
    forall s
      ensures Accepts(m, s) <==> exists v :: v in vs && RecordStart(v) <= s
    {
      if p :| p in prefixes && p <= s {
        var j :| 0 <= j < |prefixes| && prefixes[j] == p;
        assert vs[j] in vs && RecordStart(vs[j]) <= s;
      }
      if v :| v in vs && RecordStart(v) <= s {
        var j :| 0 <= j < |vs| && vs[j] == v;
        assert prefixes[j] in prefixes && prefixes[j] <= s;
      }
    }
  }

  /** Section 6.2.1 of RFC 5246: a 16-bit version is recognised by its two bytes, and by nothing else. */
  lemma RecordStartIsBigEndian(v: int, s: Bytes)
    requires 0 <= v < 0x1_0000
    ensures RecordStart(v) <= s <==> |s| >= 3 && s[0] == 22 && BigEndian(s[1], s[2]) == v
  {
    assert v == v / 256 * 256 + v % 256;
    if |s| >= 3 {
      assert RecordStart(v) <= s <==> 22 == s[0] && v / 256 == s[1] && v % 256 == s[2];
    }
  }

}

/** The radix tree of byte patterns behind `PrefixMatcher`, `HTTP1Fast` and `TLS`. */
module PatternTree {
  import opened Bytes

  /** An immutable `ptNode`.  A nil `next` map and an empty one answer every lookup alike, so both are `map[]`. */
  datatype Node = Node(prefix: Bytes, next: map<byte, Node>, terminal: bool)

  datatype Tree = Tree(root: Node, maxDepth: nat)

  /** The words a tree spells: the labels on the paths from the root to the terminal nodes. */
  ghost function Words(n: Node): set<Bytes> {
    (if n.terminal then {n.prefix} else {}) +
    (set b, w | b in n.next && w in Words(n.next[b]) :: n.prefix + [b] + w)
  }

  /** `ptNode.match`. */
  function Match(n: Node, b: Bytes, prefix: bool): bool {
    var l := if |n.prefix| > |b| then |b| else |n.prefix|;
    if |n.prefix| > 0 && b[..l] != n.prefix then
      false
    else if n.terminal && (prefix || |n.prefix| == |b|) then
      true
    else if l >= |b| then
      false
    else if b[l] !in n.next then
      false
    else
      Match(n.next[b[l]], b[l + 1..], prefix)
  }

  lemma ChildWord(n: Node, b: byte, w: Bytes)
    requires b in n.next && w in Words(n.next[b])
    ensures n.prefix + [b] + w in Words(n)
  {
  }

  /** Every word is the terminal node's own prefix, or goes through exactly one child. */
  lemma WordCases(n: Node, w: Bytes)
    requires w in Words(n)
    ensures n.prefix <= w
    ensures w == n.prefix ==> n.terminal
    ensures w != n.prefix ==>
              var b := w[|n.prefix|];
              b in n.next && w[|n.prefix| + 1..] in Words(n.next[b]) &&
              w == n.prefix + [b] + w[|n.prefix| + 1..]
  {
    if b, v :| b in n.next && v in Words(n.next[b]) && w == n.prefix + [b] + v {
      assert w[|n.prefix|] == b && w[|n.prefix| + 1..] == v;
    }
  }

  /** In exact mode the matcher accepts the tree's words and nothing else. */
  lemma {:induction false} MatchExactIsWords(n: Node, b: Bytes)
    ensures Match(n, b, false) <==> b in Words(n)
    decreases n
  {
    if b in Words(n) {
      WordCases(n, b);
    }
    if b == n.prefix {
      assert b[..|n.prefix|] == n.prefix;
    } else if n.prefix < b && b[|n.prefix|] in n.next {
      var first, rest := b[|n.prefix|], b[|n.prefix| + 1..];
      assert b == n.prefix + [first] + rest;
      MatchExactIsWords(n.next[first], rest);
      if rest in Words(n.next[first]) {
        ChildWord(n, first, rest);
      }
    }
  }

  /** In prefix mode the matcher accepts exactly the inputs that start with one of the tree's words. */
  lemma {:induction false} MatchPrefixIsWords(n: Node, b: Bytes)
    ensures Match(n, b, true) <==> exists w :: w in Words(n) && w <= b
    decreases n
  {
    if n.prefix <= b && n.terminal {
      OwnPrefixMatches(n, b);
    } else if n.prefix < b && b[|n.prefix|] in n.next {
      assert b[..|n.prefix|] == n.prefix;
      MatchPrefixIsWords(n.next[b[|n.prefix|]], b[|n.prefix| + 1..]);
      PrefixThroughChild(n, b);
    } else {
      NoWordStarts(n, b);
    }
  }

  lemma OwnPrefixMatches(n: Node, b: Bytes)
    requires n.prefix <= b && n.terminal
    ensures Match(n, b, true) && n.prefix in Words(n)
  {
    assert b[..|n.prefix|] == n.prefix;
  }

  lemma NoWordStarts(n: Node, b: Bytes)
    requires !(n.prefix <= b && n.terminal) && !(n.prefix < b && b[|n.prefix|] in n.next)
    ensures !Match(n, b, true) && !exists w :: w in Words(n) && w <= b
  {
    if w :| w in Words(n) && w <= b {
      WordCases(n, w);
      assert false;
    }
  }

  lemma PrefixThroughChild(n: Node, b: Bytes)
    requires n.prefix < b && b[|n.prefix|] in n.next && !n.terminal
    ensures (exists w :: w in Words(n) && w <= b) <==>
            exists v :: v in Words(n.next[b[|n.prefix|]]) && v <= b[|n.prefix| + 1..]
  {
    var first, rest := b[|n.prefix|], b[|n.prefix| + 1..];
    assert b == n.prefix + [first] + rest;
    if v :| v in Words(n.next[first]) && v <= rest {
      ChildWord(n, first, v);
      assert n.prefix + [first] + v <= b;
    }
    if w :| w in Words(n) && w <= b {
      WordCases(n, w);
      assert w[|n.prefix| + 1..] <= rest;
    }
  }

  // ---------------------------------------------------------------------------------------------
  // Building the tree
  // ---------------------------------------------------------------------------------------------

  ghost predicate CommonPrefix(p: Bytes, bss: seq<Bytes>) {
    forall j :: 0 <= j < |bss| ==> p <= bss[j]
  }

  ghost predicate LongestCommonPrefix(p: Bytes, bss: seq<Bytes>) {
    && CommonPrefix(p, bss)
    && forall q :: CommonPrefix(q, bss) ==> |q| <= |p|
  }

  /** What `splitPrefix` leaves of a list once `p` is taken off: the same list, in order. */
  ghost predicate SplitsInto(bss: seq<Bytes>, p: Bytes, rest: seq<Bytes>) {
    && |rest| == |bss|
    && forall j :: 0 <= j < |bss| ==> bss[j] == p + rest[j]
  }

  ghost function TotalLength(bss: seq<Bytes>): nat {
    if bss == [] then 0 else TotalLength(bss[..|bss| - 1]) + |bss[|bss| - 1]|
  }

  lemma TotalLengthAppend(bss: seq<Bytes>, b: Bytes)
    ensures TotalLength(bss + [b]) == TotalLength(bss) + |b|
  {
    assert (bss + [b])[..|bss|] == bss;
  }

  lemma {:induction false} TotalLengthShorter(bss: seq<Bytes>, rest: seq<Bytes>)
    requires |rest| == |bss|
    requires forall j :: 0 <= j < |bss| ==> |rest[j]| <= |bss[j]|
    ensures TotalLength(rest) <= TotalLength(bss)
    decreases |bss|
  {
    if bss != [] {
      TotalLengthShorter(bss[..|bss| - 1], rest[..|rest| - 1]);
    }
  }

  /** One round of `splitPrefix`: do all entries have a byte at `i`, and the same one? */
  method SameAt(bss: seq<Bytes>, i: nat) returns (eq: bool, cur: byte)
    requires bss != []
    ensures eq ==> forall k :: 0 <= k < |bss| ==> |bss[k]| > i && bss[k][i] == cur
    ensures !eq ==> exists k :: 0 <= k < |bss| && (|bss[k]| <= i || (|bss[0]| > i && bss[k][i] != bss[0][i]))
  {
    eq, cur := true, 0;
    var j := 0;
    while j < |bss|
      invariant 0 <= j <= |bss|
      invariant forall k :: 0 <= k < j ==> |bss[k]| > i && bss[k][i] == cur
    {
      var b := bss[j];
      if |b| <= i {
        return false, cur;
      }
      if j == 0 {
        cur := b[i];
      } else if cur != b[i] {
        return false, cur;
      }
      j := j + 1;
    }
  }

  /** `splitPrefix`: the longest common prefix, and what each input has after it. */
  method SplitPrefix(bss: seq<Bytes>) returns (prefix: Bytes, rest: seq<Bytes>)
    ensures SplitsInto(bss, prefix, rest)
    ensures bss == [] ==> prefix == []
    ensures bss != [] ==> LongestCommonPrefix(prefix, bss)
  {
    prefix := [];
    if |bss| == 0 || |bss[0]| == 0 {
      return prefix, bss;
    }
    if |bss| == 1 {
      return bss[0], [[]];
    }
    var i := 0;
    while true
      invariant i == |prefix| && CommonPrefix(prefix, bss)
      decreases |bss[0]| - i
    {
      var eq, cur := SameAt(bss, i);
      if !eq {
        NoLongerPrefix(bss, i);
        break;
      }
      ExtendPrefix(bss, prefix, cur);
      prefix := prefix + [cur];
      i := i + 1;
    }
    rest := DropPrefix(bss, prefix);
  }

  /** The last loop of `splitPrefix`. */
  method DropPrefix(bss: seq<Bytes>, prefix: Bytes) returns (rest: seq<Bytes>)
    requires CommonPrefix(prefix, bss)
    ensures SplitsInto(bss, prefix, rest)
  {
    rest := [];
    var k := 0;
    while k < |bss|
      invariant 0 <= k <= |bss|
      invariant SplitsInto(bss[..k], prefix, rest)
    {
      var tail := bss[k][|prefix|..];
      assert bss[k] == prefix + tail;
      rest := rest + [tail];
      k := k + 1;
    }
    assert bss[..|bss|] == bss;
  }

  lemma ExtendPrefix(bss: seq<Bytes>, p: Bytes, cur: byte)
    requires CommonPrefix(p, bss)
    requires forall k :: 0 <= k < |bss| ==> |bss[k]| > |p| && bss[k][|p|] == cur
    ensures CommonPrefix(p + [cur], bss)
  {
    forall k | 0 <= k < |bss|
      ensures p + [cur] <= bss[k]
    {
      assert p <= bss[k];
    }
  }

  /** Once an entry is too short, or differs from the first at `i`, no common prefix is longer than `i`. */
  lemma NoLongerPrefix(bss: seq<Bytes>, i: nat)
    requires exists k :: 0 <= k < |bss| && (|bss[k]| <= i || (|bss[0]| > i && bss[k][i] != bss[0][i]))
    ensures forall q :: CommonPrefix(q, bss) ==> |q| <= i
  {
    var j :| 0 <= j < |bss| && (|bss[j]| <= i || (|bss[0]| > i && bss[j][i] != bss[0][i]));
    forall q | CommonPrefix(q, bss)
      ensures |q| <= i
    {
      assert q <= bss[0] && q <= bss[j];
    }
  }

  /** The normal form of a radix tree: every node is terminal or branches. */
  ghost predicate Canonical(n: Node) {
    && (n.terminal || |n.next| >= 2)
    && forall b :: b in n.next ==> Canonical(n.next[b])
  }

  /** What follows a leading `b` in the entries that start with `b`, in order. */
  ghost function Group(rests: seq<Bytes>, b: byte): seq<Bytes> {
    if rests == [] then
      []
    else
      var last := rests[|rests| - 1];
      Group(rests[..|rests| - 1], b) + (if last != [] && last[0] == b then [last[1..]] else [])
  }

  lemma {:induction false} GroupMembers(rests: seq<Bytes>, b: byte, v: Bytes)
    ensures v in Group(rests, b) <==> [b] + v in rests
    decreases |rests|
  {
    if rests != [] {
      var last := rests[|rests| - 1];
      GroupMembers(rests[..|rests| - 1], b, v);
      assert last == [b] + v <==> last != [] && last[0] == b && last[1..] == v;
    }
  }

  lemma {:induction false} GroupLength(rests: seq<Bytes>, b: byte)
    ensures TotalLength(Group(rests, b)) + |Group(rests, b)| <= TotalLength(rests)
    decreases |rests|
  {
    if rests != [] {
      var last := rests[|rests| - 1];
      GroupLength(rests[..|rests| - 1], b);
      if last != [] && last[0] == b {
        TotalLengthAppend(Group(rests[..|rests| - 1], b), last[1..]);
      } else {
        assert Group(rests, b) == Group(rests[..|rests| - 1], b);
      }
    }
  }

  /** The map `newNode` sorts the rests into holds every non-empty group under its first byte. */
  ghost predicate Groups(rests: seq<Bytes>, nexts: map<byte, seq<Bytes>>) {
    && (forall b :: b in nexts ==> nexts[b] == Group(rests, b) && nexts[b] != [])
    && (forall b: byte :: b !in nexts ==> Group(rests, b) == [])
  }

  lemma GroupsGrow(rests: seq<Bytes>, s: Bytes, nexts: map<byte, seq<Bytes>>)
    requires Groups(rests, nexts)
    ensures s == [] ==> Groups(rests + [s], nexts)
    ensures s != [] ==>
            Groups(rests + [s], nexts[s[0] := (if s[0] in nexts then nexts[s[0]] else []) + [s[1..]]])
  {
    assert (rests + [s])[..|rests|] == rests;
  }

  /** What the grouping loop has done with the entries before `i`. */
  ghost predicate Grouped(rests: seq<Bytes>, i: nat, nexts: map<byte, seq<Bytes>>, terminal: bool)
    requires i <= |rests|
  {
    Groups(rests[..i], nexts) && (terminal <==> [] in rests[..i])
  }

  lemma GroupOneMore(rests: seq<Bytes>, i: nat, nexts: map<byte, seq<Bytes>>, terminal: bool)
    requires i < |rests| && Grouped(rests, i, nexts, terminal)
    ensures var s := rests[i];
            if s == [] then Grouped(rests, i + 1, nexts, true)
            else Grouped(rests, i + 1, nexts[s[0] := (if s[0] in nexts then nexts[s[0]] else []) + [s[1..]]], terminal)
  {
    assert rests[..i + 1] == rests[..i] + [rests[i]];
    GroupsGrow(rests[..i], rests[i], nexts);
  }

  /** The grouping loop of `newNode`. */
  method GroupByFirst(rests: seq<Bytes>) returns (nexts: map<byte, seq<Bytes>>, terminal: bool)
    ensures Groups(rests, nexts)
    ensures terminal <==> [] in rests
  {
    nexts, terminal := map[], false;
    var i := 0;
    assert rests[..0] == [];
    while i < |rests|
      invariant 0 <= i <= |rests|
      invariant Grouped(rests, i, nexts, terminal)
    {
      var s := rests[i];
      GroupOneMore(rests, i, nexts, terminal);
      if |s| == 0 {
        terminal := true;
      } else {
        nexts := nexts[s[0] := (if s[0] in nexts then nexts[s[0]] else []) + [s[1..]]];
      }
      i := i + 1;
    }
    assert rests[..|rests|] == rests;
  }

  /** `newNode`.  On the empty list it is the terminal node with an empty prefix, whose only word is the empty one. */
  method NewNode(strs: seq<Bytes>) returns (n: Node)
    ensures strs == [] ==> n == Node([], map[], true)
    ensures strs != [] ==> Words(n) == Elements(strs)
    ensures Canonical(n)
    decreases TotalLength(strs), 1
  {
    if |strs| == 0 {
      return Node([], map[], true);
    }
    if |strs| == 1 {
      n := Node(strs[0], map[], true);
      assert Words(n) == {strs[0]};
      assert Elements(strs) == {strs[0]};
      return;
    }
    var p, rests := SplitPrefix(strs);
    TotalLengthShorter(strs, rests);
    var nexts, terminal := GroupByFirst(rests);
    forall b | b in nexts
      ensures TotalLength(nexts[b]) < TotalLength(strs)
    {
      GroupLength(rests, b);
    }
    var next := NewChildren(nexts, TotalLength(strs));
    n := Node(p, next, terminal);
    assert n.next.Keys == nexts.Keys;
    GroupedWords(strs, rests, nexts, n);
    Branches(strs, p, rests, nexts, terminal);
    assert |next.Keys| == |nexts.Keys|;
  }

  /** The loop of `newNode` over its groups, in whatever order the map yields them. */
  method NewChildren(nexts: map<byte, seq<Bytes>>, ghost bound: nat) returns (next: map<byte, Node>)
    requires forall b :: b in nexts ==> nexts[b] != [] && TotalLength(nexts[b]) < bound
    ensures next.Keys == nexts.Keys
    ensures forall b :: b in next ==> Canonical(next[b]) && Words(next[b]) == Elements(nexts[b])
    decreases bound, 0
  {
    next := map[];
    var firsts := nexts.Keys;
    while firsts != {}
      invariant firsts <= nexts.Keys && next.Keys == nexts.Keys - firsts
      invariant forall b :: b in next ==> Canonical(next[b]) && Words(next[b]) == Elements(nexts[b])
      decreases |firsts|
    {
      var first :| first in firsts;
      var child := NewNode(nexts[first]);
      next := next[first := child];
      firsts := firsts - {first};
    }
  }

  /** A node whose children spell the groups spells the whole list. */
  lemma GroupedWords(strs: seq<Bytes>, rests: seq<Bytes>, nexts: map<byte, seq<Bytes>>, n: Node)
    requires SplitsInto(strs, n.prefix, rests) && Groups(rests, nexts) && (n.terminal <==> [] in rests)
    requires n.next.Keys == nexts.Keys
    requires forall b :: b in n.next ==> Words(n.next[b]) == Elements(nexts[b])
    ensures Words(n) == Elements(strs)
  {
    forall w
      ensures w in Words(n) <==> w in strs
    {
      WordOfList(strs, n.prefix, rests, w);
      if w in Words(n) {
        WordCases(n, w);
      }
      if n.prefix <= w {
        RestWord(rests, nexts, n, w[|n.prefix|..]);
        assert w == n.prefix + w[|n.prefix|..];
      }
    }
  }

  lemma WordOfList(strs: seq<Bytes>, p: Bytes, rests: seq<Bytes>, w: Bytes)
    requires SplitsInto(strs, p, rests)
    ensures w in strs <==> p <= w && w[|p|..] in rests
  {
    if w in strs {
      var j :| 0 <= j < |strs| && strs[j] == w;
      assert rests[j] == w[|p|..];
    }
    if p <= w && w[|p|..] in rests {
      var j :| 0 <= j < |rests| && rests[j] == w[|p|..];
      assert strs[j] == w;
    }
  }

  lemma RestWord(rests: seq<Bytes>, nexts: map<byte, seq<Bytes>>, n: Node, r: Bytes)
    requires Groups(rests, nexts) && (n.terminal <==> [] in rests) && n.next.Keys == nexts.Keys
    requires forall b :: b in n.next ==> Words(n.next[b]) == Elements(nexts[b])
    ensures n.prefix + r in Words(n) <==> r in rests
  {
    var w := n.prefix + r;
    if r == [] {
      assert w == n.prefix;
      if w in Words(n) {
        WordCases(n, w);
      }
    } else {
      var b, v := r[0], r[1..];
      assert r == [b] + v;
      GroupMembers(rests, b, v);
      assert w == n.prefix + [b] + v;
      if w in Words(n) {
        WordCases(n, w);
        assert w[|n.prefix|] == b && w[|n.prefix| + 1..] == v;
      }
      if r in rests {
        assert b in nexts;
        ChildWord(n, b, v);
      }
    }
  }

  /** With the longest common prefix taken off, some rest is empty or two rests start differently. */
  lemma Branches(strs: seq<Bytes>, p: Bytes, rests: seq<Bytes>, nexts: map<byte, seq<Bytes>>, terminal: bool)
    requires strs != [] && SplitsInto(strs, p, rests) && LongestCommonPrefix(p, strs)
    requires Groups(rests, nexts) && (terminal <==> [] in rests)
    ensures terminal || |nexts.Keys| >= 2
  {
    if !terminal {
      forall j | 0 <= j < |rests|
        ensures rests[j] != []
      {
        assert rests[j] in rests;
      }
      var b := rests[0][0];
      GroupOf(rests, nexts, 0);
      if nexts.Keys == {b} {
        SingleGroup(strs, p, rests, nexts, b);
        assert false;
      } else {
        TwoElements(nexts.Keys, b);
      }
    }
  }

  lemma SingleGroup(strs: seq<Bytes>, p: Bytes, rests: seq<Bytes>, nexts: map<byte, seq<Bytes>>, b: byte)
    requires SplitsInto(strs, p, rests) && Groups(rests, nexts) && nexts.Keys == {b}
    requires forall j :: 0 <= j < |rests| ==> rests[j] != []
    ensures CommonPrefix(p + [b], strs)
  {
    forall j | 0 <= j < |strs|
      ensures p + [b] <= strs[j]
    {
      GroupOf(rests, nexts, j);
      assert rests[j][0] in nexts.Keys;
      assert strs[j] == p + rests[j];
    }
  }

  lemma GroupOf(rests: seq<Bytes>, nexts: map<byte, seq<Bytes>>, j: nat)
    requires j < |rests| && rests[j] != [] && Groups(rests, nexts)
    ensures rests[j][0] in nexts
  {
    var r := rests[j];
    assert r == [r[0]] + r[1..];
    GroupMembers(rests, r[0], r[1..]);
  }

  lemma TwoElements<T>(s: set<T>, x: T)
    requires x in s && s != {x}
    ensures |s| >= 2
  {
    var y :| y in s && y != x;
    assert {x, y} <= s;
    assert |s| == |s - {x, y}| + |{x, y}|;
  }

  /** A tree fit for truncated reading: `maxDepth` exceeds the length of every word. */
  ghost predicate Deep(t: Tree) {
    forall w :: w in Words(t.root) ==> |w| < t.maxDepth
  }

  /** What a tree promises its patterns: it spells them (or, without any, the empty word) in normal form. */
  ghost predicate BuiltFrom(t: Tree, bs: seq<Bytes>) {
    && Canonical(t.root)
    && Words(t.root) == (if bs == [] then {[]} else Elements(bs))
    && (forall b :: b in bs ==> |b| < t.maxDepth)
    && 1 <= t.maxDepth
    && (t.maxDepth == 1 || exists b :: b in bs && t.maxDepth == |b| + 1)
  }

  /**
   * The language of a built tree: in prefix mode, the inputs that start with a pattern; in exact mode, the patterns.
   * Built from no pattern at all, it behaves as if built from the empty one, and so accepts everything in prefix mode.
   */
  lemma TreeLanguage(t: Tree, bs: seq<Bytes>, b: Bytes)
    requires BuiltFrom(t, bs)
    ensures Match(t.root, b, true) <==> bs == [] || exists p :: p in bs && p <= b
    ensures Match(t.root, b, false) <==> if bs == [] then b == [] else b in bs
  {
    MatchPrefixIsWords(t.root, b);
    MatchExactIsWords(t.root, b);
    assert bs != [] ==> forall p :: p in Words(t.root) <==> p in bs;
    assert bs == [] ==> [] in Words(t.root) && [] <= b;
  }

  lemma BuiltIsDeep(t: Tree, bs: seq<Bytes>)
    requires BuiltFrom(t, bs)
    ensures Deep(t)
  {
  }

  /** `newTree`. */
  method NewTree(bs: seq<Bytes>) returns (t: Tree)
    ensures BuiltFrom(t, bs)
  {
    var max := 0;
    var i := 0;
    while i < |bs|
      invariant 0 <= i <= |bs|
      invariant forall j :: 0 <= j < i ==> |bs[j]| <= max
      invariant max == 0 || exists b :: b in bs && max == |b|
    {
      if max < |bs[i]| {
        max := |bs[i]|;
      }
      i := i + 1;
    }
    var root := NewNode(bs);
    t := Tree(root, max + 1);
  }

  /** Reading no more than `maxDepth` bytes loses nothing, in either mode. */
  lemma TruncationIsExact(t: Tree, s: Bytes)
    requires Deep(t)
    ensures Match(t.root, s[..Min(t.maxDepth, |s|)], true) <==> exists w :: w in Words(t.root) && w <= s
    ensures Match(t.root, s[..Min(t.maxDepth, |s|)], false) <==> s in Words(t.root)
  {
    var cut := s[..Min(t.maxDepth, |s|)];
    MatchPrefixIsWords(t.root, cut);
    MatchExactIsWords(t.root, cut);
    if w :| w in Words(t.root) && w <= s {
      assert w <= cut;
    }
    if w :| w in Words(t.root) && w <= cut {
      assert w <= s;
    }
    if cut in Words(t.root) {
      assert cut == s;
    }
    if s in Words(t.root) {
      assert cut == s;
    }
  }
}

/** The tree `newNode` builds is the one normal form of its pattern set, and it is small. */
module TreeNormalForm {
  import opened Bytes
  import opened PatternTree

  /** A canonical node spells some word. */
  lemma {:induction false} SomeWord(n: Node) returns (w: Bytes)
    requires Canonical(n)
    ensures w in Words(n)
    decreases n
  {
    if n.terminal {
      w := n.prefix;
    } else {
      assert n.next.Keys != {};
      var b :| b in n.next.Keys;
      w := SomeWord(n.next[b]);
      ChildWord(n, b, w);
      w := n.prefix + [b] + w;
    }
  }

  /** Every word extends the node's prefix, and no longer string is extended by every word. */
  lemma PrefixIsLongest(n: Node, p: Bytes)
    requires Canonical(n)
    requires forall w :: w in Words(n) ==> p <= w
    ensures p <= n.prefix
  {
    if n.terminal {
      assert n.prefix in Words(n);
    } else {
      var b, c := TwoKeys(n.next.Keys);
      var v := SomeWordThrough(n, b);
      var w := SomeWordThrough(n, c);
      ForkedWords(n.prefix, b, v, c, w, p);
    }
  }

  lemma SomeWordThrough(n: Node, b: byte) returns (v: Bytes)
    requires Canonical(n) && b in n.next
    ensures n.prefix + [b] + v in Words(n)
  {
    v := SomeWord(n.next[b]);
    ChildWord(n, b, v);
  }

  /** What starts two words that fork after `prefix` goes no further. */
  lemma ForkedWords(prefix: Bytes, b: byte, v: Bytes, c: byte, w: Bytes, p: Bytes)
    requires b != c && p <= prefix + [b] + v && p <= prefix + [c] + w
    ensures p <= prefix
  {
    assert (prefix + [b] + v)[|prefix|] == b && (prefix + [c] + w)[|prefix|] == c;
  }

  lemma TwoKeys(s: set<byte>) returns (b: byte, c: byte)
    requires |s| >= 2
    ensures b in s && c in s && b != c
  {
    b :| b in s;
    assert |s - {b}| == |s| - 1;
    c :| c in s - {b};
  }

  lemma WordsExtendPrefix(n: Node)
    ensures forall w :: w in Words(n) ==> n.prefix <= w
  {
    forall w | w in Words(n)
      ensures n.prefix <= w
    {
      WordCases(n, w);
    }
  }

  /** Going through the child `b` is the only way to spell a word that continues with `b`. */
  lemma WordBelow(n: Node, b: byte, v: Bytes)
    ensures n.prefix + [b] + v in Words(n) <==> b in n.next && v in Words(n.next[b])
  {
    var w := n.prefix + [b] + v;
    assert w[|n.prefix|] == b && w[|n.prefix| + 1..] == v;
    if w in Words(n) {
      WordCases(n, w);
    }
    if b in n.next && v in Words(n.next[b]) {
      ChildWord(n, b, v);
    }
  }

  lemma SamePrefix(m: Node, n: Node)
    requires Canonical(m) && Canonical(n) && Words(m) == Words(n)
    ensures m.prefix == n.prefix && m.terminal == n.terminal
  {
    WordsExtendPrefix(m);
    WordsExtendPrefix(n);
    PrefixIsLongest(m, n.prefix);
    PrefixIsLongest(n, m.prefix);
    TerminalSpellsPrefix(m);
    TerminalSpellsPrefix(n);
  }

  lemma TerminalSpellsPrefix(n: Node)
    requires Canonical(n)
    ensures n.terminal <==> n.prefix in Words(n)
  {
    if n.prefix in Words(n) {
      WordCases(n, n.prefix);
    }
  }

  lemma SameBelow(m: Node, n: Node, b: byte)
    requires m.prefix == n.prefix && Words(m) == Words(n) && b in m.next && Canonical(m)
    ensures b in n.next && Words(m.next[b]) == Words(n.next[b])
  {
    var w := SomeWord(m.next[b]);
    WordBelow(m, b, w);
    WordBelow(n, b, w);
    forall v
      ensures v in Words(m.next[b]) <==> v in Words(n.next[b])
    {
      WordBelow(m, b, v);
      WordBelow(n, b, v);
    }
  }

  /** Canonical trees that spell the same words are equal. */
  lemma {:induction false} NormalFormIsUnique(m: Node, n: Node)
    requires Canonical(m) && Canonical(n) && Words(m) == Words(n)
    ensures m == n
    decreases m
  {
    SamePrefix(m, n);
    forall b: byte
      ensures b in m.next <==> b in n.next
      ensures b in m.next && b in n.next ==> m.next[b] == n.next[b]
    {
      if b in m.next {
        SameBelow(m, n, b);
        NormalFormIsUnique(m.next[b], n.next[b]);
      } else if b in n.next {
        SameBelow(n, m, b);
      }
    }
    assert m.next == n.next;
  }

  /**
   * Trees built from two lists of the same patterns, in whatever order and with whatever duplicates, and with
   * the maps iterated in whatever order, are one and the same tree.
   */
  lemma TreeDependsOnSetOnly(s: Tree, xs: seq<Bytes>, t: Tree, ys: seq<Bytes>)
    requires BuiltFrom(s, xs) && BuiltFrom(t, ys)
    requires forall b :: b in xs <==> b in ys
    ensures s == t
  {
    assert xs != [] ==> xs[0] in ys;
    assert ys != [] ==> ys[0] in xs;
    assert Elements(xs) == Elements(ys);
    NormalFormIsUnique(s.root, t.root);
  }

  // ---------------------------------------------------------------------------------------------
  // Size
  // ---------------------------------------------------------------------------------------------

  /** Nodes in a tree, and among them the terminal ones; the second argument sums over children from byte `lo` on. */
  ghost function NodeCount(n: Node): nat
    decreases n, 257
  {
    1 + NodesFrom(n, 0)
  }

  ghost function NodesFrom(n: Node, lo: nat): nat
    requires lo <= 256
    decreases n, 256 - lo
  {
    if lo == 256 then 0
    else (if lo in n.next then NodeCount(n.next[lo]) else 0) + NodesFrom(n, lo + 1)
  }

  ghost function TerminalCount(n: Node): nat
    decreases n, 257
  {
    (if n.terminal then 1 else 0) + TerminalsFrom(n, 0)
  }

  ghost function TerminalsFrom(n: Node, lo: nat): nat
    requires lo <= 256
    decreases n, 256 - lo
  {
    if lo == 256 then 0
    else (if lo in n.next then TerminalCount(n.next[lo]) else 0) + TerminalsFrom(n, lo + 1)
  }

  /** The words that go through a child at byte `lo` or later, and those through the child at `b`. */
  ghost function WordsFrom(n: Node, lo: nat): set<Bytes> {
    set w | w in Words(n) && |w| > |n.prefix| && w[|n.prefix|] >= lo
  }

  ghost function WordsThrough(n: Node, b: nat): set<Bytes> {
    set w | w in Words(n) && |w| > |n.prefix| && w[|n.prefix|] == b
  }

  lemma WordsFromSplit(n: Node, lo: nat)
    ensures |WordsFrom(n, lo)| == |WordsThrough(n, lo)| + |WordsFrom(n, lo + 1)|
  {
    assert WordsFrom(n, lo) == WordsThrough(n, lo) + WordsFrom(n, lo + 1);
  }

  lemma PartitionSize<T>(whole: set<T>, a: set<T>, b: set<T>)
    requires a !! b
    requires forall x :: x in whole <==> x in a || x in b
    ensures |whole| == |a| + |b|
  {
    assert whole == a + b;
  }

  lemma WordsSplit(n: Node)
    ensures |Words(n)| == (if n.terminal then 1 else 0) + |WordsFrom(n, 0)|
  {
    var own := if n.terminal then {n.prefix} else {};
    forall w
      ensures w in Words(n) <==> w in own || w in WordsFrom(n, 0)
    {
      if w in Words(n) {
        WordCases(n, w);
      }
    }
    PartitionSize(Words(n), own, WordsFrom(n, 0));
  }

  ghost function Prefixed(p: Bytes, s: set<Bytes>): set<Bytes> {
    set v | v in s :: p + v
  }

  lemma {:induction false} PrefixedSize(p: Bytes, s: set<Bytes>)
    ensures |Prefixed(p, s)| == |s|
  {
    if s != {} {
      var x :| x in s;
      PrefixedSize(p, s - {x});
      forall v | v in s - {x}
        ensures p + v != p + x
      {
        assert (p + v)[|p|..] == v;
        assert (p + x)[|p|..] == x;
      }
      assert Prefixed(p, s) == Prefixed(p, s - {x}) + {p + x};
    }
  }

  lemma WordThrough(n: Node, b: byte, w: Bytes)
    requires b in n.next
    ensures w in WordsThrough(n, b) <==> w in Prefixed(n.prefix + [b], Words(n.next[b]))
  {
    if w in WordsThrough(n, b) {
      WordCases(n, w);
      assert w == (n.prefix + [b]) + w[|n.prefix| + 1..];
    }
    if v :| v in Words(n.next[b]) && w == (n.prefix + [b]) + v {
      ChildWord(n, b, v);
    }
  }

  lemma WordsThroughSize(n: Node, b: byte)
    ensures |WordsThrough(n, b)| == if b in n.next then |Words(n.next[b])| else 0
  {
    if b in n.next {
      forall w
        ensures w in WordsThrough(n, b) <==> w in Prefixed(n.prefix + [b], Words(n.next[b]))
      {
        WordThrough(n, b, w);
      }
      assert WordsThrough(n, b) == Prefixed(n.prefix + [b], Words(n.next[b]));
      PrefixedSize(n.prefix + [b], Words(n.next[b]));
    } else {
      forall w | w in WordsThrough(n, b)
        ensures false
      {
        WordCases(n, w);
      }
      assert WordsThrough(n, b) == {};
    }
  }

  lemma {:induction false} WordsFromSize(n: Node, lo: nat)
    requires lo <= 256
    ensures |WordsFrom(n, lo)| == TerminalsFrom(n, lo)
    decreases n, 256 - lo
  {
    if lo == 256 {
      assert WordsFrom(n, lo) == {};
    } else {
      WordsFromSplit(n, lo);
      WordsThroughSize(n, lo);
      WordsFromSize(n, lo + 1);
      if lo in n.next {
        TerminalsAreWords(n.next[lo]);
      }
    }
  }

  /** There is one terminal node for each word. */
  lemma {:induction false} TerminalsAreWords(n: Node)
    ensures TerminalCount(n) == |Words(n)|
    decreases n, 257
  {
    WordsFromSize(n, 0);
    WordsSplit(n);
  }

  ghost function ChildrenFrom(n: Node, lo: nat): set<byte> {
    set b | b in n.next.Keys && b >= lo
  }

  lemma ChildrenFromSplit(n: Node, lo: nat)
    requires lo < 256
    ensures |ChildrenFrom(n, lo)| == (if lo in n.next then 1 else 0) + |ChildrenFrom(n, lo + 1)|
  {
    var here: set<byte> := if lo in n.next then {lo} else {};
    assert ChildrenFrom(n, lo) == here + ChildrenFrom(n, lo + 1);
  }

  lemma {:induction false} NodesFromBound(n: Node, lo: nat)
    requires Canonical(n) && lo <= 256
    ensures NodesFrom(n, lo) + |ChildrenFrom(n, lo)| <= 2 * TerminalsFrom(n, lo)
    decreases n, 256 - lo
  {
    if lo == 256 {
      assert ChildrenFrom(n, lo) == {};
    } else {
      ChildrenFromSplit(n, lo);
      NodesFromBound(n, lo + 1);
      if lo in n.next {
        SizeBound(n.next[lo]);
      }
    }
  }

  /** A canonical tree of k words has at most 2k - 1 nodes. */
  lemma {:induction false} SizeBound(n: Node)
    requires Canonical(n)
    ensures NodeCount(n) + 1 <= 2 * TerminalCount(n)
    decreases n, 257
  {
    NodesFromBound(n, 0);
    assert ChildrenFrom(n, 0) == n.next.Keys;
  }

  /** What `newTree` builds from k distinct patterns, k >= 1, has k terminal nodes and at most 2k - 1 nodes. */
  lemma BuiltSize(t: Tree, bs: seq<Bytes>)
    requires BuiltFrom(t, bs) && bs != []
    ensures TerminalCount(t.root) == |Elements(bs)|
    ensures NodeCount(t.root) <= 2 * |Elements(bs)| - 1
  {
    TerminalsAreWords(t.root);
    SizeBound(t.root);
  }
}

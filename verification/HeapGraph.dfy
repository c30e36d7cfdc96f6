/** Objects as a graph: the references that `mark_references` follows, reachability, and marks. */
module HeapGraph {
  import opened HeapTiles

  /** The words of an object that hold references: its class and its fields. */
  ghost predicate ObjectFits(m: seq<int>, a: int) {
    && 0 <= a && a + OBJECT_HEADER <= |m|
    && 0 <= m[a + COUNT_WORD] && a + OBJECT_HEADER + m[a + COUNT_WORD] <= |m|
  }

  ghost function Refs(m: seq<int>, a: int): seq<int>
    requires ObjectFits(m, a)
  {
    m[a + CLASS_WORD..a + OBJECT_HEADER + m[a + COUNT_WORD]]
  }

  /** Objects lie apart from each other. */
  ghost predicate ObjectsOk(m: seq<int>, objs: set<int>) {
    && (forall a | a in objs :: ObjectFits(m, a))
    && (forall a, b | a in objs && b in objs && a < b :: a + OBJECT_HEADER + m[a + COUNT_WORD] <= b)
  }

  type Graph = map<int, seq<int>>

  ghost function GraphOf(m: seq<int>, objs: set<int>): Graph
    requires ObjectsOk(m, objs)
  {
    map a | a in objs :: Refs(m, a)
  }

  // ----- reachability -----

  ghost predicate Path(g: Graph, p: seq<int>) {
    && |p| > 0 && (forall i | 0 <= i < |p| :: p[i] in g)
    && (forall i | 0 <= i < |p| - 1 :: p[i + 1] in g[p[i]])
  }

  /** There is a path of references from object a to object b. */
  ghost predicate Reaches(g: Graph, a: int, b: int) {
    exists p :: Path(g, p) && p[0] == a && p[|p| - 1] == b
  }

  ghost predicate ReachedFrom(g: Graph, roots: seq<int>, b: int) {
    exists r | r in roots :: Reaches(g, r, b)
  }

  lemma ReachesSelf(g: Graph, a: int)
    requires a in g
    ensures Reaches(g, a, a)
  {
    assert Path(g, [a]);
  }

  lemma ReachesStep(g: Graph, a: int, b: int, c: int)
    requires a in g && b in g[a] && Reaches(g, b, c)
    ensures Reaches(g, a, c)
  {
    var p :| Path(g, p) && p[0] == b && p[|p| - 1] == c;
    var q := [a] + p;
    assert forall i | 0 <= i < |q| - 1 :: q[i + 1] in g[q[i]] by {
      forall i | 0 <= i < |q| - 1
        ensures q[i + 1] in g[q[i]]
      {
        if i > 0 {
          assert q[i] == p[i - 1] && q[i + 1] == p[i];
        }
      }
    }
    assert Path(g, q);
  }

  /** A set closed under references holds all that its members reach. */
  lemma {:induction false} ClosedHoldsPath(g: Graph, s: set<int>, p: seq<int>)
    requires Path(g, p) && p[0] in s
    requires forall a | a in s && a in g :: forall b | b in g[a] && b in g :: b in s
    ensures p[|p| - 1] in s
    decreases |p|
  {
    if |p| > 1 {
      var a, b := p[0], p[1];
      assert a in s && a in g && p[0 + 1] in g[a] && b in g;
      assert b in s;
      ClosedHoldsPath(g, s, p[1..]);
    }
  }

  // ----- marks -----

  ghost function Marked(m: seq<int>, objs: set<int>): set<int>
    requires ObjectsOk(m, objs)
  {
    set a | a in objs && m[a + MARK_WORD] == 1
  }

  /** Nothing but marks of objects has been set. */
  ghost predicate OnlyMarks(m: seq<int>, n: seq<int>, objs: set<int>) {
    && |n| == |m|
    && (forall k | 0 <= k < |m| && k - MARK_WORD !in objs :: n[k] == m[k])
    && (forall k | 0 <= k < |m| && k - MARK_WORD in objs :: n[k] == m[k] || n[k] == 1)
  }

  lemma MarksApart(m: seq<int>, objs: set<int>, a: int, k: int)
    requires ObjectsOk(m, objs) && a in objs && a <= k < a + OBJECT_HEADER + m[a + COUNT_WORD]
    requires k != a + MARK_WORD
    ensures k - MARK_WORD !in objs
  {
  }

  lemma OnlyMarksKeeps(m: seq<int>, n: seq<int>, objs: set<int>)
    requires ObjectsOk(m, objs) && OnlyMarks(m, n, objs)
    ensures ObjectsOk(n, objs) && GraphOf(n, objs) == GraphOf(m, objs)
    ensures Marked(m, objs) <= Marked(n, objs)
  {
    forall a | a in objs
      ensures n[a + COUNT_WORD] == m[a + COUNT_WORD]
    {
      MarksApart(m, objs, a, a + COUNT_WORD);
    }
    forall a | a in objs
      ensures Refs(n, a) == Refs(m, a)
    {
      forall k | a + CLASS_WORD <= k < a + OBJECT_HEADER + m[a + COUNT_WORD]
        ensures n[k] == m[k]
      {
        MarksApart(m, objs, a, k);
      }
    }
  }

  lemma OnlyMarksTrans(m: seq<int>, n: seq<int>, o: seq<int>, objs: set<int>)
    requires OnlyMarks(m, n, objs) && OnlyMarks(n, o, objs)
    ensures OnlyMarks(m, o, objs)
  {
  }

  lemma MarkOne(m: seq<int>, objs: set<int>, a: int)
    requires ObjectsOk(m, objs) && a in objs
    ensures OnlyMarks(m, m[a + MARK_WORD := 1], objs)
    ensures ObjectsOk(m[a + MARK_WORD := 1], objs)
    ensures Marked(m[a + MARK_WORD := 1], objs) == Marked(m, objs) + {a}
  {
    OnlyMarksKeeps(m, m[a + MARK_WORD := 1], objs);
  }

  /** Every reference of the newly marked objects is marked too. */
  ghost predicate ClosedSince(g: Graph, before: set<int>, after: set<int>) {
    forall a | a in after - before && a in g :: forall b | b in g[a] && b in g :: b in after
  }

  /** The objects marked since are reached from one of the given ones. */
  ghost predicate ReachedSince(g: Graph, before: set<int>, after: set<int>, from: seq<int>) {
    forall a | a in after - before :: ReachedFrom(g, from, a)
  }

  lemma ClosedTrans(g: Graph, m0: set<int>, m1: set<int>, m2: set<int>)
    requires m0 <= m1 <= m2 && ClosedSince(g, m0, m1) && ClosedSince(g, m1, m2)
    ensures ClosedSince(g, m0, m2)
  {
  }

  lemma ReachedTrans(g: Graph, m0: set<int>, m1: set<int>, m2: set<int>, from: seq<int>, more: seq<int>)
    requires m0 <= m1 <= m2 && ReachedSince(g, m0, m1, from) && ReachedSince(g, m1, m2, more)
    ensures ReachedSince(g, m0, m2, from + more)
  {
    forall a | a in m2 - m0
      ensures ReachedFrom(g, from + more, a)
    {
      if a in m1 {
        assert a in m1 - m0;
        var r :| r in from && Reaches(g, r, a);
        assert r in from + more;
      } else {
        assert a in m2 - m1;
        var r :| r in more && Reaches(g, r, a);
        assert r in from + more;
      }
    }
  }

  /** Marking that starts from no marks, covers the roots, is closed, and only follows references,
      marks exactly the objects reachable from the roots. */
  lemma MarksAreReachable(g: Graph, roots: seq<int>, marked: set<int>)
    requires ClosedSince(g, {}, marked) && ReachedSince(g, {}, marked, roots) && marked <= g.Keys
    requires forall r | r in roots && r in g :: r in marked
    ensures forall a | a in g :: a in marked <==> ReachedFrom(g, roots, a)
  {
    forall a | a in g && ReachedFrom(g, roots, a)
      ensures a in marked
    {
      var r :| r in roots && Reaches(g, r, a);
      var p :| Path(g, p) && p[0] == r && p[|p| - 1] == a;
      ClosedHoldsPath(g, marked, p);
    }
  }

  /** What is reached from a reference of an object is reached from the object. */
  lemma ReachedVia(g: Graph, before: set<int>, after: set<int>, a: int, b: int)
    requires a in g && b in g[a] && ReachedSince(g, before, after, [b])
    ensures ReachedSince(g, before, after, [a])
  {
    forall x | x in after - before
      ensures ReachedFrom(g, [a], x)
    {
      var r :| r in [b] && Reaches(g, r, x);
      ReachesStep(g, a, b, x);
      assert a in [a];
    }
  }

  lemma ReachedWiden(g: Graph, before: set<int>, after: set<int>, from: seq<int>, to: seq<int>)
    requires ReachedSince(g, before, after, from) && forall r | r in from :: r in to
    ensures ReachedSince(g, before, after, to)
  {
    forall x | x in after - before
      ensures ReachedFrom(g, to, x)
    {
      var r :| r in from && Reaches(g, r, x);
      assert r in to;
    }
  }

  lemma ReachedTwice(g: Graph, m0: set<int>, m1: set<int>, m2: set<int>, a: int)
    requires m0 <= m1 <= m2 && ReachedSince(g, m0, m1, [a]) && ReachedSince(g, m1, m2, [a])
    ensures ReachedSince(g, m0, m2, [a])
  {
    ReachedTrans(g, m0, m1, m2, [a], [a]);
    ReachedWiden(g, m0, m2, [a] + [a], [a]);
  }

  // ----- following the references of one object -----

  /** A reference is an object, or points outside the heap: `gc_mark_object` takes an address equal
      to the heap's end for one inside. */
  ghost predicate Known(v: int, objs: set<int>, base: int, limit: int) {
    v in objs || v < base || v > limit
  }

  ghost predicate RefsKnown(g: Graph, base: int, limit: int) {
    forall a, v | a in g && v in g[a] :: Known(v, g.Keys, base, limit)
  }

  /** The words that hold an object's references. */
  lemma RefWords(m: seq<int>, objs: set<int>, g: Graph, o: int)
    requires ObjectsOk(m, objs) && g == GraphOf(m, objs) && o in objs
    ensures o in g && g.Keys == objs && 0 <= o && o + OBJECT_HEADER + m[o + COUNT_WORD] <= |m|
    ensures |g[o]| == 1 + m[o + COUNT_WORD] && m[o + COUNT_WORD] >= 0
    ensures forall j | 0 <= j < |g[o]| :: g[o][j] == m[o + CLASS_WORD + j]
  {
  }

  /** The objects among the given references are marked. */
  ghost predicate AllMarked(refs: seq<int>, objs: set<int>, marked: set<int>) {
    forall v | v in refs && v in objs :: v in marked
  }

  lemma RefIsKnown(g: Graph, o: int, i: nat, v: int, base: int, limit: int)
    requires RefsKnown(g, base, limit) && o in g && i < |g[o]| && v == g[o][i]
    ensures Known(v, g.Keys, base, limit)
  {
  }

  /** The first n references of object o have been followed. */
  ghost predicate Following(m0: seq<int>, m: seq<int>, objs: set<int>, g: Graph, o: int, n: nat) {
    && ObjectsOk(m0, objs) && OnlyMarks(m0, m, objs) && ObjectsOk(m, objs) && o in g && n <= |g[o]|
    && Marked(m0, objs) <= Marked(m, objs)
    && AllMarked(g[o][..n], objs, Marked(m, objs))
    && ClosedSince(g, Marked(m0, objs), Marked(m, objs))
    && ReachedSince(g, Marked(m0, objs), Marked(m, objs), [o])
  }

  lemma FollowedFirst(m: seq<int>, n: seq<int>, objs: set<int>, g: Graph, o: int)
    requires ObjectsOk(m, objs) && GraphOf(m, objs) == g && o in objs
    requires OnlyMarks(m, n, objs) && ObjectsOk(n, objs)
    requires o in g && |g[o]| > 0
    requires g[o][0] in objs ==> g[o][0] in Marked(n, objs)
    requires ClosedSince(g, Marked(m, objs), Marked(n, objs))
    requires ReachedSince(g, Marked(m, objs), Marked(n, objs), [g[o][0]])
    ensures Following(m, n, objs, g, o, 1) && GraphOf(n, objs) == g
    ensures 0 <= o && o + OBJECT_HEADER <= |n| && n[o + COUNT_WORD] == |g[o]| - 1
  {
    hide Reaches, ReachedFrom, ReachedSince, ClosedSince;
    OnlyMarksKeeps(m, n, objs);
    ReachedVia(g, Marked(m, objs), Marked(n, objs), o, g[o][0]);
    RefWords(n, objs, g, o);
  }

  lemma FollowedTermination(m0: seq<int>, m: seq<int>, objs: set<int>, g: Graph, o: int, n: nat)
    requires Following(m0, m, objs, g, o, n) && GraphOf(m, objs) == g
    ensures |objs - Marked(m, objs)| <= |objs - Marked(m0, objs)| && g.Keys == objs
    ensures o in objs && 0 <= o && o + OBJECT_HEADER + m[o + COUNT_WORD] <= |m| && |g[o]| == 1 + m[o + COUNT_WORD]
    ensures forall j | 0 <= j < |g[o]| :: g[o][j] == m[o + CLASS_WORD + j]
  {
    hide Reaches, ReachedFrom, ReachedSince, ClosedSince, OnlyMarks;
    FewerUnmarked(objs, Marked(m0, objs), Marked(m, objs));
    RefWords(m, objs, g, o);
  }

  lemma FollowedNext(m0: seq<int>, m: seq<int>, n: seq<int>, objs: set<int>, g: Graph, o: int, i: nat)
    requires Following(m0, m, objs, g, o, i) && GraphOf(m, objs) == g && i < |g[o]|
    requires OnlyMarks(m, n, objs) && ObjectsOk(n, objs)
    requires g[o][i] in objs ==> g[o][i] in Marked(n, objs)
    requires ClosedSince(g, Marked(m, objs), Marked(n, objs))
    requires ReachedSince(g, Marked(m, objs), Marked(n, objs), [g[o][i]])
    ensures Following(m0, n, objs, g, o, i + 1) && GraphOf(n, objs) == g
    ensures 0 <= o && o + OBJECT_HEADER <= |n| && n[o + COUNT_WORD] == |g[o]| - 1
  {
    hide Reaches, ReachedFrom, ReachedSince, ClosedSince, OnlyMarks, GraphOf, Refs, Marked;
    OnlyMarksKeeps(m, n, objs);
    OnlyMarksTrans(m0, m, n, objs);
    ClosedTrans(g, Marked(m0, objs), Marked(m, objs), Marked(n, objs));
    ReachedVia(g, Marked(m, objs), Marked(n, objs), o, g[o][i]);
    ReachedTwice(g, Marked(m0, objs), Marked(m, objs), Marked(n, objs), o);
    assert g[o][..i + 1] == g[o][..i] + [g[o][i]];
    KeysAre(m, objs, g, o);
    RefWords(n, objs, g, o);
  }

  lemma KeysAre(m: seq<int>, objs: set<int>, g: Graph, o: int)
    requires ObjectsOk(m, objs) && g == GraphOf(m, objs) && o in g
    ensures o in objs
  {
  }

  lemma Followed(m0: seq<int>, m: seq<int>, objs: set<int>, g: Graph, o: int)
    requires o in g && Following(m0, m, objs, g, o, |g[o]|)
    ensures OnlyMarks(m0, m, objs)
    ensures Marked(m0, objs) <= Marked(m, objs)
    ensures forall v | v in g[o] && v in objs :: v in Marked(m, objs)
    ensures ClosedSince(g, Marked(m0, objs), Marked(m, objs))
    ensures ReachedSince(g, Marked(m0, objs), Marked(m, objs), [o])
  {
    hide Reaches, ReachedFrom, ReachedSince, ClosedSince, OnlyMarks, ObjectsOk, Marked;
    assert g[o][..|g[o]|] == g[o];
  }

  lemma OneFewerUnmarked(objs: set<int>, marked: set<int>, p: int)
    requires p in objs && p !in marked
    ensures |objs - (marked + {p})| < |objs - marked|
  {
    assert objs - (marked + {p}) == (objs - marked) - {p};
  }

  lemma FewerUnmarked(objs: set<int>, a: set<int>, b: set<int>)
    requires a <= b
    ensures |objs - b| <= |objs - a|
  {
    assert objs - b <= objs - a;
    SubsetSize(objs - b, objs - a);
  }

  lemma SubsetSize(a: set<int>, b: set<int>)
    requires a <= b
    ensures |a| <= |b|
  {
    assert b == a + (b - a);
    assert |b| == |a| + |b - a|;
  }

  /** Marking an object before its references. */
  lemma MarkedWith(g: Graph, before: set<int>, after: set<int>, p: int)
    requires p in g && p in after && before <= after
    requires forall v | v in g[p] && v in g :: v in after
    requires ClosedSince(g, before + {p}, after) && ReachedSince(g, before + {p}, after, [p])
    ensures ClosedSince(g, before, after) && ReachedSince(g, before, after, [p])
  {
    ReachesSelf(g, p);
    forall a | a in after - before
      ensures ReachedFrom(g, [p], a)
      ensures forall v | v in g[a] && v in g && a in g :: v in after
    {
      if a == p {
        assert p in [p];
      } else {
        assert a in after - (before + {p});
      }
    }
  }
}

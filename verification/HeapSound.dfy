/** What a heap promises between operations, and that collecting, allocating and storing keep it. */
module HeapSound {
  import opened HeapTiles
  import opened HeapGraph
  import opened HeapMoves
  import opened HeapSweep

  ghost function HeapGraphOf(m: seq<int>, t: seq<Tile>, base: int): (g: Graph)
    requires Tiled(t, base, |m|) && ObjectTiles(m, t)
    ensures g.Keys == Addresses(t)
  {
    AddressesFit(m, t, base);
    GraphOf(m, Addresses(t))
  }

  /** The layout is well-formed, nothing is marked, and references and roots lead to objects or out
      of the heap. */
  ghost predicate Sound(m: seq<int>, t: seq<Tile>, first: int, base: int, roots: seq<int>) {
    && Layout(m, t, first, base, 0) && ObjectTiles(m, t) && Unmarked(m, Objects(t))
    && RefsKnown(HeapGraphOf(m, t, base), base, |m|)
    && RootsKnown(t, base, |m|, roots)
  }

  ghost predicate RootsKnown(t: seq<Tile>, base: int, limit: int, roots: seq<int>) {
    forall r | r in roots :: Known(r, Addresses(t), base, limit)
  }

  lemma OtherRoots(m: seq<int>, t: seq<Tile>, first: int, base: int, roots: seq<int>, others: seq<int>)
    requires Sound(m, t, first, base, roots)
    requires forall r | r in others && r !in roots :: Known(r, Addresses(t), base, |m|)
    ensures Sound(m, t, first, base, others)
  {
  }

  ghost function ReachableSet(g: Graph, roots: seq<int>): set<int> {
    set a | a in g && ReachedFrom(g, roots, a)
  }

  /** The objects that the roots reach. */
  ghost function Live(m: seq<int>, t: seq<Tile>, base: int, roots: seq<int>): set<int>
    requires Tiled(t, base, |m|) && ObjectTiles(m, t)
  {
    ReachableSet(HeapGraphOf(m, t, base), roots)
  }

  lemma ObjectAddresses(t: seq<Tile>)
    ensures forall a :: a in Addresses(t) <==> exists o :: o in Objects(t) && o.addr == a
  {
    ObjectsMembers(t);
    forall a | a in Addresses(t)
      ensures exists o :: o in Objects(t) && o.addr == a
    {
      var i :| 0 <= i < |t| && !t[i].free && t[i].addr == a;
      assert t[i] in Objects(t);
    }
    forall o | o in Objects(t)
      ensures o.addr in Addresses(t)
    {
      var i :| 0 <= i < |t| && t[i] == o;
    }
  }

  /** The words of an object that hold its references. */
  ghost function RefsOf(m: seq<int>, o: Tile): seq<int>
    requires ObjectTile(m, o)
  {
    m[o.addr + CLASS_WORD..o.addr + OBJECT_HEADER + m[o.addr + COUNT_WORD]]
  }

  lemma ObjectAt(m: seq<int>, t: seq<Tile>, o: Tile)
    requires ObjectTiles(m, t) && o in Objects(t)
    ensures o.addr in Addresses(t) && ObjectTile(m, o)
  {
    ObjectsMembers(t);
    var i :| 0 <= i < |t| && t[i] == o;
  }

  lemma GraphAt(m: seq<int>, t: seq<Tile>, base: int, o: Tile)
    requires Tiled(t, base, |m|) && ObjectTiles(m, t) && o in Objects(t)
    ensures o.addr in Addresses(t) && ObjectTile(m, o)
    ensures HeapGraphOf(m, t, base)[o.addr] == RefsOf(m, o)
  {
    hide Tiled, ObjectTiles, Objects, Addresses, RefsKnown, ObjectsOk;
    ObjectAt(m, t, o);
  }

  lemma SameRefs(m: seq<int>, n: seq<int>, o: Tile)
    requires ObjectTile(m, o) && |n| == |m|
    requires forall k | o.addr <= k < o.End() && 0 <= k < |m| && k != o.addr + MARK_WORD :: n[k] == m[k]
    ensures ObjectTile(n, o) && RefsOf(n, o) == RefsOf(m, o)
  {
    assert n[o.addr + COUNT_WORD] == m[o.addr + COUNT_WORD];
  }

  /** What an object reaches, its references reach too. */
  lemma LiveIsClosed(g: Graph, roots: seq<int>, a: int, b: int)
    requires a in ReachableSet(g, roots) && b in g[a] && b in g
    ensures b in ReachableSet(g, roots)
  {
    var r :| r in roots && Reaches(g, r, a);
    var p :| Path(g, p) && p[0] == r && p[|p| - 1] == a;
    var q := p + [b];
    forall i | 0 <= i < |q| - 1
      ensures q[i + 1] in g[q[i]]
    {
      assert q[i] == p[i];
      if i < |p| - 1 {
        assert q[i + 1] == p[i + 1];
      }
    }
    assert Path(g, q);
  }

  // ----- collecting -----

  /** What collecting does: the objects that the roots reach stay where they are, with all their
      words; everything else is free, in as few entries as possible. */
  ghost predicate Collected(m: seq<int>, t: seq<Tile>, n: seq<int>, t': seq<Tile>, base: int, roots: seq<int>)
    requires Tiled(t, base, |m|) && ObjectTiles(m, t)
  {
    && Objects(t') == Kept(Objects(t), Live(m, t, base, roots))
    && SameWords(m, n, Objects(t'))
    && NoAdjacentFree(t', |t'|)
  }

  /** The given objects may go: the others do not refer to them, nor do the roots. */
  ghost predicate Separate(m: seq<int>, t: seq<Tile>, base: int, roots: seq<int>, live: set<int>)
    requires Tiled(t, base, |m|) && ObjectTiles(m, t)
  {
    && (forall r | r in roots && r in Addresses(t) :: r in live)
    && (forall a, b | a in live && a in Addresses(t) && b in HeapGraphOf(m, t, base)[a] && b in Addresses(t) ::
          b in live)
  }

  lemma KeptSound(m: seq<int>, t: seq<Tile>, first: int, n: seq<int>, t': seq<Tile>, first': int, base: int,
                  roots: seq<int>, live: set<int>)
    requires Sound(m, t, first, base, roots) && Layout(n, t', first', base, 0)
    requires Objects(t') == Kept(Objects(t), live) && SameWords(m, n, Objects(t'))
    requires Separate(m, t, base, roots, live)
    ensures Sound(n, t', first', base, roots)
  {
    hide SizesOk, LinksOk, Tiled, Unmarked, ObjectTiles, Addresses, Objects, Kept, NextFree;
    KeptMembers(Objects(t), live);
    ObjectAddresses(t);
    ObjectAddresses(t');
    KeptObjects(m, t, n, t', live);
    forall r | r in roots
      ensures Known(r, Addresses(t'), base, |n|)
    {
      assert Known(r, Addresses(t), base, |m|);
    }
    KeptKnown(m, t, n, t', base, roots, live);
  }

  lemma KeptKnown(m: seq<int>, t: seq<Tile>, n: seq<int>, t': seq<Tile>, base: int, roots: seq<int>, live: set<int>)
    requires Tiled(t, base, |m|) && ObjectTiles(m, t) && Tiled(t', base, |n|) && ObjectTiles(n, t')
    requires Objects(t') == Kept(Objects(t), live) && SameWords(m, n, Objects(t'))
    requires RefsKnown(HeapGraphOf(m, t, base), base, |m|) && Separate(m, t, base, roots, live)
    ensures RefsKnown(HeapGraphOf(n, t', base), base, |n|)
  {
    hide Tiled, ObjectTiles, Objects, Kept, HeapGraphOf, Addresses;
    KeptMembers(Objects(t), live);
    ObjectAddresses(t);
    ObjectAddresses(t');
    var g, g' := HeapGraphOf(m, t, base), HeapGraphOf(n, t', base);
    forall a, v | a in g' && v in g'[a]
      ensures Known(v, g'.Keys, base, |n|)
    {
      var o :| o in Objects(t') && o.addr == a;
      assert SameTile(m, n, o);
      GraphAt(m, t, base, o);
      GraphAt(n, t', base, o);
      SameRefs(m, n, o);
      assert v in g[a] && Known(v, g.Keys, base, |m|);
    }
  }

  lemma KeptObjects(m: seq<int>, t: seq<Tile>, n: seq<int>, t': seq<Tile>, live: set<int>)
    requires ObjectTiles(m, t) && Unmarked(m, Objects(t))
    requires Objects(t') == Kept(Objects(t), live) && SameWords(m, n, Objects(t'))
    ensures ObjectTiles(n, t') && Unmarked(n, Objects(t'))
  {
    KeptMembers(Objects(t), live);
    ObjectsMembers(t);
    ObjectsMembers(t');
    forall o | o in Objects(t')
      ensures ObjectTile(n, o) && n[o.addr + MARK_WORD] == 0
    {
      var i :| 0 <= i < |t| && t[i] == o;
      assert ObjectTile(m, t[i]) && SameTile(m, n, o);
    }
    forall i | 0 <= i < |t'| && !t'[i].free
      ensures ObjectTile(n, t'[i])
    {
      assert t'[i] in Objects(t');
    }
  }

  /** Setting marks of objects keeps the layout. */
  lemma MarkedLayout(m: seq<int>, n: seq<int>, t: seq<Tile>, first: int, base: int)
    requires Layout(m, t, first, base, 0) && ObjectTiles(m, t) && OnlyMarks(m, n, Addresses(t))
    ensures Layout(n, t, first, base, 0) && ObjectTiles(n, t)
    ensures forall o | o in Objects(t) :: SameButMark(m, n, o)
  {
    hide Tiled, NextFree;
    TiledOrders(t, base, |m|);
    forall j | 0 <= j < |t| && !t[j].free
      ensures t[j].size >= OBJECT_HEADER
    {
      assert ObjectTile(m, t[j]);
    }
    forall i | 0 <= i < |t|
      ensures 0 <= t[i].addr && t[i].addr + SIZE_WORD < |n| && n[t[i].addr + SIZE_WORD] == t[i].size
      ensures t[i].free ==> n[t[i].addr] == m[t[i].addr]
    {
      MarkWordApart(t, base, |m|, i, t[i].addr + SIZE_WORD);
      if t[i].free {
        MarkWordApart(t, base, |m|, i, t[i].addr);
      }
    }
    LinksKept(m, n, t);
    forall i | 0 <= i < |t| && !t[i].free
      ensures ObjectTile(n, t[i]) && SameButMark(m, n, t[i])
    {
      assert ObjectTile(m, t[i]);
      forall k | t[i].addr <= k < t[i].End() && k != t[i].addr + MARK_WORD
        ensures n[k] == m[k]
      {
        MarkWordApart(t, base, |m|, i, k);
      }
    }
    ObjectsMembers(t);
  }

  ghost predicate SameButMark(m: seq<int>, n: seq<int>, o: Tile) {
    forall k | o.addr <= k < o.End() && 0 <= k < |m| && k < |n| && k != o.addr + MARK_WORD :: n[k] == m[k]
  }

  /** Mark words lie inside objects, and are no other word that matters. */
  lemma MarkWordApart(t: seq<Tile>, base: int, limit: int, i: nat, k: int)
    requires Tiled(t, base, limit) && i < |t| && t[i].addr <= k < t[i].End() &&
             (t[i].free || k != t[i].addr + MARK_WORD)
    requires forall j | 0 <= j < |t| && !t[j].free :: t[j].size >= OBJECT_HEADER
    ensures k - MARK_WORD !in Addresses(t)
  {
    if k - MARK_WORD in Addresses(t) {
      var j :| 0 <= j < |t| && !t[j].free && t[j].addr == k - MARK_WORD;
      if j != i {
        TilesApart(t, base, limit, i, j);
      }
    }
  }

  /** Marking and then sweeping: the reachable objects keep all their words. */
  lemma SweptSame(m0: seq<int>, m1: seq<int>, m2: seq<int>, t: seq<Tile>, live: set<int>)
    requires Unmarked(m0, Objects(t)) && |m0| == |m1| == |m2|
    requires forall o | o in Objects(t) :: SameButMark(m0, m1, o)
    requires forall o | o in Kept(Objects(t), live) :: SweptTile(m1, m2, o, true)
    ensures SameWords(m0, m2, Kept(Objects(t), live))
  {
    hide Objects, Kept;
    KeptMembers(Objects(t), live);
    forall o | o in Kept(Objects(t), live)
      ensures SameTile(m0, m2, o)
    {
      assert o in Objects(t) && SameButMark(m0, m1, o) && SweptTile(m1, m2, o, true);
    }
  }

  /** Marking and sweeping give a sound heap of just the reachable objects. */
  lemma SweptSound(m0: seq<int>, m1: seq<int>, m2: seq<int>, t: seq<Tile>, first: int, first': int, base: int,
                   roots: seq<int>, live: set<int>)
    requires Sound(m0, t, first, base, roots) && live == Live(m0, t, base, roots)
    requires |m0| == |m1| && forall o | o in Objects(t) :: SameButMark(m0, m1, o)
    requires Sweeping(m1, m2, t, |t|, live, first', base)
    ensures Objects(SweptTo(t, |t|, live)) == Kept(Objects(t), live)
    ensures SameWords(m0, m2, Kept(Objects(t), live))
    ensures Sound(m2, SweptTo(t, |t|, live), first', base, roots)
  {
    hide SizesOk, LinksOk, Tiled, Unmarked, Addresses, Objects, Kept, NextFree, SweptTo, SweptTile,
      SameButMark, SweepWords;
    SweepEnd(m1, m2, t, live, first', base);
    SweptObjects(t, live);
    SweptSame(m0, m1, m2, t, live);
    LiveSeparate(m0, t, base, roots);
    KeptSound(m0, t, first, m2, SweptTo(t, |t|, live), first', base, roots, live);
  }

  lemma LiveSeparate(m: seq<int>, t: seq<Tile>, base: int, roots: seq<int>)
    requires Tiled(t, base, |m|) && ObjectTiles(m, t)
    ensures Separate(m, t, base, roots, Live(m, t, base, roots))
  {
    var g := HeapGraphOf(m, t, base);
    forall r | r in roots && r in g
      ensures r in ReachableSet(g, roots)
    {
      ReachesSelf(g, r);
    }
    forall a, b | a in ReachableSet(g, roots) && b in g[a] && b in g
      ensures b in ReachableSet(g, roots)
    {
      LiveIsClosed(g, roots, a, b);
    }
  }

  lemma NothingMarked(m: seq<int>, t: seq<Tile>, base: int)
    requires Tiled(t, base, |m|) && ObjectTiles(m, t) && Unmarked(m, Objects(t))
    requires ObjectsOk(m, Addresses(t))
    ensures Marked(m, Addresses(t)) == {}
  {
    ObjectAddresses(t);
  }

  lemma LiveMarked(m: seq<int>, t: seq<Tile>, g: Graph, roots: seq<int>)
    requires ObjectTiles(m, t) && ObjectsOk(m, Addresses(t)) && g.Keys == Addresses(t)
    requires forall a | a in Addresses(t) :: a in Marked(m, Addresses(t)) <==> ReachedFrom(g, roots, a)
    ensures MarksAre(m, t, ReachableSet(g, roots))
  {
    hide Reaches, ReachedFrom;
    forall i | 0 <= i < |t| && !t[i].free
      ensures 0 <= t[i].addr && t[i].addr + MARK_WORD < |m|
      ensures m[t[i].addr + MARK_WORD] == 1 <==> t[i].addr in ReachableSet(g, roots)
    {
      assert ObjectTile(m, t[i]) && t[i].addr in Addresses(t);
    }
  }

  lemma {:induction false} KeptAll(objects: seq<Tile>, live: set<int>)
    requires forall o | o in objects :: o.addr in live
    ensures Kept(objects, live) == objects
    decreases |objects|
  {
    if objects != [] {
      KeptAll(objects[1..], live);
      assert objects == [objects[0]] + objects[1..];
    }
  }

  /** Rearranging the free entries keeps the heap sound. */
  lemma RearrangedSound(m: seq<int>, t: seq<Tile>, first: int, n: seq<int>, t': seq<Tile>, first': int,
                        base: int, roots: seq<int>)
    requires Sound(m, t, first, base, roots) && Layout(n, t', first', base, 0)
    requires Objects(t') == Objects(t) && SameWords(m, n, Objects(t))
    ensures Sound(n, t', first', base, roots)
  {
    hide SizesOk, LinksOk, Tiled, Unmarked, Objects, Kept, NextFree;
    ObjectAddresses(t);
    KeptAll(Objects(t), Addresses(t));
    KeptSound(m, t, first, n, t', first', base, roots, Addresses(t));
  }

  // ----- allocating -----

  /** Zeroed words, but for the size. */
  ghost predicate Blank(m: seq<int>, o: Tile) {
    && 0 <= o.addr && OBJECT_HEADER <= o.size && o.End() <= |m|
    && m[o.addr + SIZE_WORD] == o.size
    && forall k | o.addr <= k < o.End() && k != o.addr + SIZE_WORD :: m[k] == 0
  }

  /** A blank object that nothing refers to yet keeps the heap sound. */
  lemma BlankSound(m: seq<int>, t: seq<Tile>, first: int, n: seq<int>, t': seq<Tile>, first': int, base: int,
                   roots: seq<int>,
                   x: Tile)
    requires Sound(m, t, first, base, roots) && Layout(n, t', first', base, 0)
    requires SameWords(m, n, Objects(t)) && Blank(n, x)
    requires forall o :: o in Objects(t') <==> o in Objects(t) || o == x
    ensures Sound(n, t', first', base, roots)
  {
    hide SizesOk, LinksOk, Tiled, Addresses, Objects, NextFree;
    BlankObjects(m, t, n, t', x);
    ObjectAddresses(t);
    ObjectAddresses(t');
    forall r | r in roots
      ensures Known(r, Addresses(t'), base, |n|)
    {
      assert Known(r, Addresses(t), base, |m|);
    }
    BlankKnown(m, t, n, t', base, x);
  }

  lemma BlankObjects(m: seq<int>, t: seq<Tile>, n: seq<int>, t': seq<Tile>, x: Tile)
    requires ObjectTiles(m, t) && Unmarked(m, Objects(t)) && SameWords(m, n, Objects(t)) && Blank(n, x)
    requires forall o :: o in Objects(t') <==> o in Objects(t) || o == x
    ensures ObjectTiles(n, t') && Unmarked(n, Objects(t'))
  {
    ObjectsMembers(t);
    ObjectsMembers(t');
    forall o | o in Objects(t')
      ensures ObjectTile(n, o) && n[o.addr + MARK_WORD] == 0
    {
      if o != x {
        var i :| 0 <= i < |t| && t[i] == o;
        assert ObjectTile(m, t[i]) && SameTile(m, n, o);
      }
    }
    forall i | 0 <= i < |t'| && !t'[i].free
      ensures ObjectTile(n, t'[i])
    {
      assert t'[i] in Objects(t');
    }
  }

  lemma BlankKnown(m: seq<int>, t: seq<Tile>, n: seq<int>, t': seq<Tile>, base: int, x: Tile)
    requires Tiled(t, base, |m|) && ObjectTiles(m, t) && Tiled(t', base, |n|) && ObjectTiles(n, t') && 1 <= base
    requires SameWords(m, n, Objects(t)) && Blank(n, x)
    requires forall o :: o in Objects(t') <==> o in Objects(t) || o == x
    requires RefsKnown(HeapGraphOf(m, t, base), base, |m|)
    ensures RefsKnown(HeapGraphOf(n, t', base), base, |n|)
  {
    hide Tiled, ObjectTiles, Objects, HeapGraphOf, Addresses;
    ObjectAddresses(t);
    ObjectAddresses(t');
    var g, g' := HeapGraphOf(m, t, base), HeapGraphOf(n, t', base);
    forall a, v | a in g' && v in g'[a]
      ensures Known(v, g'.Keys, base, |n|)
    {
      var o :| o in Objects(t') && o.addr == a;
      GraphAt(n, t', base, o);
      if o == x {
        assert v == 0;
      } else {
        assert SameTile(m, n, o);
        GraphAt(m, t, base, o);
        SameRefs(m, n, o);
        assert v in g[a] && Known(v, g.Keys, base, |m|);
      }
    }
  }

  // ----- storing references -----

  /** Only the number of fields and the references of object i may differ. */
  ghost predicate OnlyFields(m: seq<int>, n: seq<int>, o: Tile) {
    |n| == |m| && forall k | 0 <= k < |m| && !(o.addr + COUNT_WORD <= k < o.End()) :: n[k] == m[k]
  }

  /** Giving an object other fields, and known references in them, keeps the heap sound, and changes
      the references of that object alone. */
  lemma FieldsSound(m: seq<int>, n: seq<int>, t: seq<Tile>, first: int, base: int, roots: seq<int>, i: nat)
    requires i < |t| && !t[i].free && ObjectTile(n, t[i]) && OnlyFields(m, n, t[i])
    requires forall v | v in RefsOf(n, t[i]) :: Known(v, Addresses(t), base, |m|)
    requires Sound(m, t, first, base, roots)
    ensures Sound(n, t, first, base, roots)
    ensures HeapGraphOf(n, t, base) == HeapGraphOf(m, t, base)[t[i].addr := RefsOf(n, t[i])]
  {
    hide SizesOk, LinksOk, Tiled, NextFree, ObjectTiles, Unmarked, RefsKnown, Objects, Addresses, HeapGraphOf;
    FieldsLayout(m, n, t, first, base, i);
    StoredObjects(m, n, t, base, i);
    StoredGraph(m, n, t, base, i, RefsOf(n, t[i]));
    StoredKnown(m, n, t, base, i, RefsOf(n, t[i]));
  }

  lemma FieldsLayout(m: seq<int>, n: seq<int>, t: seq<Tile>, first: int, base: int, i: nat)
    requires Layout(m, t, first, base, 0) && i < |t| && !t[i].free && OnlyFields(m, n, t[i])
    ensures Layout(n, t, first, base, 0)
  {
    OtherTiles(t, base, |m|, i);
    LinksKept(m, n, t);
  }

  /** Storing a known reference in a field keeps the heap sound, and changes that reference alone. */
  lemma StoreSound(m: seq<int>, t: seq<Tile>, first: int, base: int, roots: seq<int>, i: nat, k: nat, v: int)
    requires i < |t| && !t[i].free && ObjectTile(m, t[i])
    requires k < |RefsOf(m, t[i])| && Known(v, Addresses(t), base, |m|)
    requires Sound(m, t, first, base, roots)
    ensures Sound(m[t[i].addr + CLASS_WORD + k := v], t, first, base, roots)
    ensures HeapGraphOf(m[t[i].addr + CLASS_WORD + k := v], t, base)
         == HeapGraphOf(m, t, base)[t[i].addr := RefsOf(m, t[i])[k := v]]
  {
    hide Layout, ObjectTiles, Unmarked, Objects, Addresses, HeapGraphOf, RefsKnown, Known;
    var n := m[t[i].addr + CLASS_WORD + k := v];
    assert RefsOf(n, t[i]) == RefsOf(m, t[i])[k := v];
    RefsAreKnown(m, t, first, base, roots, i);
    forall w | w in RefsOf(n, t[i])
      ensures Known(w, Addresses(t), base, |m|)
    {
      var j :| 0 <= j < |RefsOf(n, t[i])| && RefsOf(n, t[i])[j] == w;
      assert j != k ==> RefsOf(m, t[i])[j] == w;
    }
    FieldsSound(m, n, t, first, base, roots, i);
  }

  lemma RefsAreKnown(m: seq<int>, t: seq<Tile>, first: int, base: int, roots: seq<int>, i: nat)
    requires Sound(m, t, first, base, roots) && i < |t| && !t[i].free
    ensures ObjectTile(m, t[i]) && t[i].addr in Addresses(t)
    ensures forall v | v in RefsOf(m, t[i]) :: Known(v, Addresses(t), base, |m|)
  {
    ObjectsMembers(t);
    GraphAt(m, t, base, t[i]);
    var g := HeapGraphOf(m, t, base);
    assert forall v | v in RefsOf(m, t[i]) :: v in g[t[i].addr];
  }

  lemma OtherRefsStored(m: seq<int>, n: seq<int>, t: seq<Tile>, base: int, i: nat, j: nat)
    requires i < |t| && j < |t| && i != j && !t[i].free && !t[j].free && OnlyFields(m, n, t[i])
    requires Tiled(t, base, |m|) && ObjectTiles(m, t)
    ensures t[j].addr != t[i].addr && ObjectTile(n, t[j]) && RefsOf(n, t[j]) == RefsOf(m, t[j])
    ensures n[t[j].addr + MARK_WORD] == m[t[j].addr + MARK_WORD]
  {
    hide Tiled, RefsOf;
    TilesApart(t, base, |m|, i, j);
    SameRefs(m, n, t[j]);
  }

  lemma StoredObjects(m: seq<int>, n: seq<int>, t: seq<Tile>, base: int, i: nat)
    requires i < |t| && !t[i].free && ObjectTile(n, t[i]) && OnlyFields(m, n, t[i])
    requires Tiled(t, base, |m|) && ObjectTiles(m, t) && Unmarked(m, Objects(t))
    ensures ObjectTiles(n, t) && Unmarked(n, Objects(t))
    ensures forall j | 0 <= j < |t| && !t[j].free ::
              RefsOf(n, t[j]) == if t[j].addr == t[i].addr then RefsOf(n, t[i]) else RefsOf(m, t[j])
  {
    hide Tiled, RefsOf;
    ObjectsMembers(t);
    forall j | 0 <= j < |t| && !t[j].free
      ensures ObjectTile(n, t[j]) && n[t[j].addr + MARK_WORD] == 0
      ensures RefsOf(n, t[j]) == if t[j].addr == t[i].addr then RefsOf(n, t[i]) else RefsOf(m, t[j])
    {
      assert t[j] in Objects(t);
      if j != i {
        OtherRefsStored(m, n, t, base, i, j);
      }
    }
  }

  lemma StoredGraph(m: seq<int>, n: seq<int>, t: seq<Tile>, base: int, i: nat, refs: seq<int>)
    requires Tiled(t, base, |m|) && ObjectTiles(m, t) && |n| == |m| && ObjectTiles(n, t) && i < |t| && !t[i].free
    requires forall j | 0 <= j < |t| && !t[j].free ::
               RefsOf(n, t[j]) == if t[j].addr == t[i].addr then refs else RefsOf(m, t[j])
    ensures HeapGraphOf(n, t, base) == HeapGraphOf(m, t, base)[t[i].addr := refs]
  {
    hide Tiled, ObjectTiles, RefsOf, HeapGraphOf, Objects;
    ObjectsMembers(t);
    var g, g' := HeapGraphOf(m, t, base), HeapGraphOf(n, t, base);
    assert t[i].addr in Addresses(t);
    forall a | a in Addresses(t)
      ensures g'[a] == if a == t[i].addr then refs else g[a]
    {
      var j :| 0 <= j < |t| && !t[j].free && t[j].addr == a;
      GraphAt(m, t, base, t[j]);
      GraphAt(n, t, base, t[j]);
    }
  }

  lemma StoredKnown(m: seq<int>, n: seq<int>, t: seq<Tile>, base: int, i: nat, refs: seq<int>)
    requires Tiled(t, base, |m|) && ObjectTiles(m, t) && |n| == |m| && ObjectTiles(n, t) && i < |t| && !t[i].free
    requires RefsKnown(HeapGraphOf(m, t, base), base, |m|) && forall v | v in refs :: Known(v, Addresses(t), base, |m|)
    requires HeapGraphOf(n, t, base) == HeapGraphOf(m, t, base)[t[i].addr := refs]
    ensures RefsKnown(HeapGraphOf(n, t, base), base, |n|)
  {
    hide Tiled, HeapGraphOf, ObjectTiles, Addresses;
    var g, g' := HeapGraphOf(m, t, base), HeapGraphOf(n, t, base);
    forall a, w | a in g' && w in g'[a]
      ensures Known(w, g'.Keys, base, |n|)
    {
      assert a != t[i].addr ==> a in g && w in g[a];
    }
  }

  /** An object that has been given n fields, all nil. */
  lemma NilFields(m: seq<int>, o: Tile, c: nat, nil: int)
    requires ObjectTile(m, o) && OBJECT_HEADER + c <= o.size
    requires m[o.addr + COUNT_WORD] == c
    requires forall k | o.addr + OBJECT_HEADER <= k < o.addr + OBJECT_HEADER + c :: m[k] == nil
    ensures RefsOf(m, o) == [m[o.addr + CLASS_WORD]] + seq(c, j => nil)
  {
  }
}

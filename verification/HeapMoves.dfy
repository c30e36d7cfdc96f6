/** What the collector's and the allocator's writes do to the layout of the heap. */
module HeapMoves {
  import opened HeapTiles

  /** A well-formed heap: gapless tiles, true size words (but for the object at `but`), and the free
      tiles linked in address order from `first`. */
  ghost predicate Layout(m: seq<int>, t: seq<Tile>, first: int, base: int, but: int) {
    && 1 <= base && t != [] && Tiled(t, base, |m|)
    && SizesOk(m, t, but) && LinksOk(m, t) && first == NextFree(t)
  }

  /** Only the words from lo to hi, and word x, may differ. */
  ghost predicate ChangedOnly(m: seq<int>, n: seq<int>, lo: int, hi: int, x: int) {
    |n| == |m| && forall k | 0 <= k < |m| && !(lo <= k < hi) && k != x :: n[k] == m[k]
  }

  /** The last free tile before position i is at c; -1 when there is none. */
  ghost predicate LastFreeBefore(t: seq<Tile>, i: nat, c: int) {
    -1 <= c < i <= |t| && (c >= 0 ==> t[c].free) && NoFree(t[c + 1..i])
  }

  /** Replacing the tiles from some place on, and relinking the last free tile before it. */
  lemma Splice(m: seq<int>, n: seq<int>, a: seq<Tile>, before: seq<Tile>, after: seq<Tile>, c: int)
    requires |n| == |m| && LinksOk(m, a + before) && LinksOk(n, after)
    requires LastFreeBefore(a, |a|, c)
    requires c >= 0 ==> 0 <= a[c].addr < |n| && n[a[c].addr] == NextFree(after)
    requires forall j | 0 <= j < |a| && a[j].free && j != c :: 0 <= a[j].addr < |n| && n[a[j].addr] == m[a[j].addr]
    ensures LinksOk(n, a + after)
    ensures NextFree(a + after) == if c == -1 then NextFree(after) else NextFree(a + before)
  {
    hide NextFree, NoFree;
    SpliceNext(a, before, after, c);
    forall j | 0 <= j < |a| && a[j].free
      ensures 0 <= a[j].addr < |n| && n[a[j].addr] == NextFree((a + after)[j + 1..])
    {
      SpliceLink(a, before, after, c, j);
      assert (a + before)[j] == a[j];
    }
    LinksJoin(n, a, after);
  }

  lemma SpliceNext(a: seq<Tile>, before: seq<Tile>, after: seq<Tile>, c: int)
    requires LastFreeBefore(a, |a|, c)
    ensures NextFree(a + after) == if c == -1 then NextFree(after) else NextFree(a + before)
  {
    NextFreeConcat(a, before);
    NextFreeConcat(a, after);
    assert c == -1 ==> a[0..|a|] == a;
  }

  /** Free tiles before the last one still have the same successor; the last one has a new one. */
  lemma SpliceLink(a: seq<Tile>, before: seq<Tile>, after: seq<Tile>, c: int, j: nat)
    requires LastFreeBefore(a, |a|, c) && j < |a| && a[j].free
    ensures j <= c
    ensures NextFree((a + after)[j + 1..]) == if j == c then NextFree(after) else NextFree((a + before)[j + 1..])
  {
    hide NextFree;
    assert forall k | c + 1 <= k < |a| :: a[c + 1..|a|][k - c - 1] == a[k];
    assert (a + after)[j + 1..] == a[j + 1..] + after;
    assert (a + before)[j + 1..] == a[j + 1..] + before;
    NextFreeConcat(a[j + 1..], after);
    NextFreeConcat(a[j + 1..], before);
    if j == c {
      assert a[c + 1..|a|] == a[j + 1..];
    } else {
      assert a[j + 1..][c - j - 1] == a[c];
    }
  }

  /** The address of the next free tile does not change across objects. */
  lemma NextFreeAcross(t: seq<Tile>, c: int, i: nat)
    requires -1 <= c < i <= |t| && NoFree(t[c + 1..i])
    ensures NextFree(t[c + 1..]) == NextFree(t[i..])
  {
    assert t[c + 1..] == t[c + 1..i] + t[i..];
    NextFreeConcat(t[c + 1..i], t[i..]);
  }

  lemma LinksKept(m: seq<int>, n: seq<int>, t: seq<Tile>)
    requires LinksOk(m, t) && |n| == |m|
    requires forall j | 0 <= j < |t| && t[j].free :: n[t[j].addr] == m[t[j].addr]
    ensures LinksOk(n, t)
  {
  }

  lemma ConsLinks(n: seq<int>, x: Tile, b: seq<Tile>)
    requires LinksOk(n, b)
    requires x.free ==> 0 <= x.addr < |n| && n[x.addr] == NextFree(b)
    ensures LinksOk(n, [x] + b)
  {
    forall j | 0 <= j < |[x] + b| && ([x] + b)[j].free
      ensures 0 <= ([x] + b)[j].addr < |n| && n[([x] + b)[j].addr] == NextFree(([x] + b)[j + 1..])
    {
      if j == 0 {
        assert ([x] + b)[1..] == b;
      } else {
        assert ([x] + b)[j] == b[j - 1] && ([x] + b)[j + 1..] == b[j..];
      }
    }
  }

  /** The links of the free tiles after a changed tile are untouched. */
  lemma KeptAfter(m: seq<int>, n: seq<int>, t: seq<Tile>, base: int, lo: int, e: nat, c: int)
    requires Tiled(t, base, |m|) && LinksOk(m, t) && 1 <= base && e < |t| && -1 <= c <= e
    requires ChangedOnly(m, n, lo, t[e].End(), if c == -1 then -1 else t[c].addr)
    ensures LinksOk(n, t[e + 1..])
  {
    var b := t[e + 1..];
    assert t == t[..e + 1] + b;
    LinksAfter(m, t[..e + 1], b);
    forall j | 0 <= j < |b| && b[j].free
      ensures n[b[j].addr] == m[b[j].addr]
    {
      LinkWordKept(m, n, t, base, lo, e, c, e + 1 + j);
    }
    LinksKept(m, n, b);
  }

  lemma LinkWordKept(m: seq<int>, n: seq<int>, t: seq<Tile>, base: int, lo: int, e: nat, c: int, j: nat)
    requires Tiled(t, base, |m|) && 1 <= base && e < j < |t| && -1 <= c <= e
    requires ChangedOnly(m, n, lo, t[e].End(), if c == -1 then -1 else t[c].addr)
    ensures 0 <= t[j].addr < |n| && n[t[j].addr] == m[t[j].addr]
  {
    TiledOrder(t, base, |m|, e, j);
    TiledSplit(t, base, |m|, j);
    if c >= 0 {
      DistinctAddrs(t, base, |m|, j, c);
    }
  }

  /** Tiles that keep place and size keep true size words. */
  lemma KeptSizes(m: seq<int>, n: seq<int>, t: seq<Tile>, x: Tile, base: int, e: nat, c: int, but: int)
    requires Tiled(t, base, |m|) && SizesOk(m, t, 0) && 1 <= base && e < |t| && -1 <= c < e
    requires x.addr == t[e].addr && x.size == t[e].size
    requires ChangedOnly(m, n, t[e].addr, t[e].End(), if c == -1 then -1 else t[c].addr)
    requires but == x.addr || (x.addr + SIZE_WORD < |n| && 0 <= x.addr && n[x.addr + SIZE_WORD] == x.size)
    ensures SizesOk(n, t[e := x], but)
  {
    var t' := t[e := x];
    OtherTiles(t, base, |m|, e);
    forall j | 0 <= j < |t'|
      ensures 0 <= t'[j].addr && t'[j].addr + SIZE_WORD < |n|
      ensures t'[j].addr != but ==> n[t'[j].addr + SIZE_WORD] == t'[j].size
    {
      if j != e {
        assert t'[j] == t[j];
        if c >= 0 {
          SizeWordApart(t, base, |m|, j, c);
        }
      }
    }
  }

  // ----- sweeping -----

  /** The words of other tiles are outside a tile's extent. */
  lemma OtherTiles(t: seq<Tile>, base: int, limit: int, i: nat)
    requires Tiled(t, base, limit) && i < |t|
    ensures forall j | 0 <= j < |t| && j != i ::
              base <= t[j].addr && t[j].size >= ENTRY_HEADER && t[j].End() <= limit &&
              (t[j].End() <= t[i].addr || t[i].End() <= t[j].addr)
    ensures base <= t[i].addr && t[i].size >= ENTRY_HEADER && t[i].End() <= limit
  {
    TiledOrders(t, base, limit);
  }

  /** An object becomes a free entry, linked between its free neighbours. */
  lemma FreeObject(m: seq<int>, n: seq<int>, t: seq<Tile>, first: int, base: int, i: nat, c: int)
    requires Layout(m, t, first, base, 0) && i < |t| && !t[i].free && LastFreeBefore(t, i, c)
    requires ChangedOnly(m, n, t[i].addr, t[i].End(), if c == -1 then -1 else t[c].addr)
    requires base <= t[i].addr && t[i].addr + SIZE_WORD < |n|
    requires n[t[i].addr] == NextFree(t[i + 1..]) && n[t[i].addr + SIZE_WORD] == t[i].size
    requires c >= 0 ==> 0 <= t[c].addr < |n| && n[t[c].addr] == t[i].addr
    ensures Layout(n, t[i := t[i].(free := true)], if c == -1 then t[i].addr else first, base, 0)
  {
    hide Tiled, NoFree;
    var x := t[i].(free := true);
    var a, b := t[..i], t[i + 1..];
    TiledRetype(t, base, |m|, i, true);
    assert t == a + ([t[i]] + b) && t[i := x] == a + ([x] + b);
    assert a[c + 1..|a|] == t[c + 1..i];
    KeptAfter(m, n, t, base, t[i].addr, i, c);
    ConsLinks(n, x, b);
    KeptBefore(m, n, t, base, i, c);
    Splice(m, n, a, [t[i]] + b, [x] + b, c);
    KeptSizes(m, n, t, x, base, i, c, 0);
  }

  lemma DistinctAddrs(t: seq<Tile>, base: int, limit: int, i: nat, j: nat)
    requires Tiled(t, base, limit) && i < |t| && j < |t| && i != j
    ensures t[i].addr != t[j].addr
  {
    TiledOrders(t, base, limit);
    if i < j {
      TiledOrder(t, base, limit, i, j);
    } else {
      TiledOrder(t, base, limit, j, i);
    }
  }

  lemma SizeWordApart(t: seq<Tile>, base: int, limit: int, i: nat, j: nat)
    requires Tiled(t, base, limit) && i < |t| && j < |t|
    ensures t[i].addr + SIZE_WORD != t[j].addr
  {
    TiledOrders(t, base, limit);
    if i < j {
      TiledOrder(t, base, limit, i, j);
    } else if j < i {
      TiledOrder(t, base, limit, j, i);
    }
  }

  // ----- coalescing -----

  function Joined(t: seq<Tile>, e: nat): seq<Tile>
    requires e + 1 < |t|
  {
    t[..e] + [Tile(t[e].addr, t[e].size + t[e + 1].size, true)] + t[e + 2..]
  }

  lemma JoinTiled(t: seq<Tile>, base: int, limit: int, e: nat)
    requires Tiled(t, base, limit) && e + 1 < |t| && t[e].free && t[e + 1].free
    ensures Tiled(Joined(t, e), base, limit)
    ensures FreeWords(Joined(t, e)) == FreeWords(t) && Objects(Joined(t, e)) == Objects(t)
  {
    var x := Tile(t[e].addr, t[e].size + t[e + 1].size, true);
    var a, b := t[..e], t[e + 2..];
    TiledSplit(t, base, limit, e);
    TiledSplit(t, base, limit, e + 1);
    TiledOrder(t, base, limit, e, e + 1);
    assert ([x] + b)[1..] == b;
    assert Tiled([x] + b, x.addr, limit);
    TiledConcat(a, [x] + b, base, x.addr, limit);
    assert Joined(t, e) == a + ([x] + b);
    var pair := [t[e], t[e + 1]];
    assert t == a + (pair + b);
    assert pair[1..] == [t[e + 1]] && pair[1..][1..] == [];
    FreeWordsConcat(a, pair + b);
    FreeWordsConcat(pair, b);
    FreeWordsConcat(a, [x] + b);
    ObjectsConcat(a, pair + b);
    ObjectsConcat(pair, b);
    ObjectsConcat(a, [x] + b);
  }

  lemma SplitPair(t: seq<Tile>, e: nat)
    requires e + 1 < |t|
    ensures t == t[..e] + ([t[e], t[e + 1]] + t[e + 2..])
  {
  }

  /** Two adjacent free entries become one. */
  lemma JoinEntries(m: seq<int>, n: seq<int>, t: seq<Tile>, first: int, base: int, e: nat)
    requires Layout(m, t, first, base, 0) && e + 1 < |t| && t[e].free && t[e + 1].free
    requires ChangedOnly(m, n, t[e].addr, t[e + 1].End(), -1)
    requires 0 <= t[e].addr && t[e].addr + SIZE_WORD < |n|
    requires n[t[e].addr] == NextFree(t[e + 2..]) && n[t[e].addr + SIZE_WORD] == t[e].size + t[e + 1].size
    ensures Layout(n, Joined(t, e), first, base, 0)
  {
    hide Tiled, SizesOk;
    var x := Tile(t[e].addr, t[e].size + t[e + 1].size, true);
    var a, b := t[..e], t[e + 2..];
    var before := [t[e], t[e + 1]] + b;
    JoinTiled(t, base, |m|, e);
    SplitPair(t, e);
    assert Joined(t, e) == a + ([x] + b);
    KeptAfter(m, n, t, base, t[e].addr, e + 1, -1);
    ConsLinks(n, x, b);
    JoinLinks(m, n, t, base, e, a, before, [x] + b);
    NextFreeConcat(a, before);
    NextFreeConcat(a, [x] + b);
    JoinSizes(m, n, t, base, e);
  }

  lemma JoinLinks(m: seq<int>, n: seq<int>, t: seq<Tile>, base: int, e: nat, a: seq<Tile>, before: seq<Tile>,
                  after: seq<Tile>)
    requires Tiled(t, base, |m|) && LinksOk(m, t) && 1 <= base && e < |t|
    requires a == t[..e] && t == a + before && NextFree(before) == NextFree(after) && LinksOk(n, after)
    requires |n| == |m| && forall k | 0 <= k < |m| && k < t[e].addr :: n[k] == m[k]
    ensures LinksOk(n, a + after)
  {
    LinksBefore(m, a, before, after);
    forall j | 0 <= j < |a| && a[j].free
      ensures 0 <= a[j].addr < |n| && n[a[j].addr] == NextFree((a + after)[j + 1..])
    {
      assert a[j] == t[j];
      TiledOrder(t, base, |m|, j, e);
      TiledSplit(t, base, |m|, j);
    }
    LinksJoin(n, a, after);
  }

  lemma JoinSizes(m: seq<int>, n: seq<int>, t: seq<Tile>, base: int, e: nat)
    requires Tiled(t, base, |m|) && SizesOk(m, t, 0) && 1 <= base && e + 1 < |t|
    requires ChangedOnly(m, n, t[e].addr, t[e + 1].End(), -1)
    requires 0 <= t[e].addr && t[e].addr + SIZE_WORD < |n|
    requires n[t[e].addr + SIZE_WORD] == t[e].size + t[e + 1].size
    ensures SizesOk(n, Joined(t, e), 0)
  {
    hide Tiled, SizesOk, ChangedOnly;
    forall j | 0 <= j < |Joined(t, e)|
      ensures SizeAt(n, Joined(t, e)[j])
    {
      if j < e {
        assert Joined(t, e)[j] == t[j];
        SizeKept(m, n, t, base, e, e + 1, -1, j);
      } else if j > e {
        assert Joined(t, e)[j] == t[j + 1];
        SizeKept(m, n, t, base, e, e + 1, -1, j + 1);
      }
    }
    SizesFrom(n, Joined(t, e));
  }

  ghost predicate SizeAt(m: seq<int>, o: Tile) {
    0 <= o.addr && o.addr + SIZE_WORD < |m| && m[o.addr + SIZE_WORD] == o.size
  }

  lemma SizesFrom(m: seq<int>, t: seq<Tile>)
    requires forall j | 0 <= j < |t| :: SizeAt(m, t[j])
    ensures SizesOk(m, t, 0)
  {
  }

  lemma SizesBut(m: seq<int>, t: seq<Tile>, e: nat)
    requires e < |t| && 0 <= t[e].addr && t[e].addr + SIZE_WORD < |m|
    requires forall j | 0 <= j < |t| && j != e :: SizeAt(m, t[j])
    ensures SizesOk(m, t, t[e].addr)
  {
  }

  /** A tile outside the changed tiles keeps its size word. */
  lemma SizeKept(m: seq<int>, n: seq<int>, t: seq<Tile>, base: int, e: nat, last: nat, c: int, j: nat)
    requires Tiled(t, base, |m|) && SizesOk(m, t, 0) && 1 <= base && e <= last < |t| && j < |t| && !(e <= j <= last)
    requires -1 <= c < |t| && ChangedOnly(m, n, t[e].addr, t[last].End(), if c == -1 then -1 else t[c].addr)
    ensures SizeAt(n, t[j])
  {
    if j < e {
      TiledOrder(t, base, |m|, j, e);
    } else {
      TiledOrder(t, base, |m|, last, j);
    }
    if c >= 0 {
      SizeWordApart(t, base, |m|, j, c);
    }
    TiledOrders(t, base, |m|);
  }

  // ----- allocating -----

  /** Taking a whole free entry. */
  lemma TakeEntry(m: seq<int>, n: seq<int>, t: seq<Tile>, first: int, base: int, e: nat, c: int)
    requires Layout(m, t, first, base, 0) && e < |t| && t[e].free && LastFreeBefore(t, e, c)
    requires ChangedOnly(m, n, t[e].addr, t[e].End(), if c == -1 then -1 else t[c].addr)
    requires c >= 0 ==> 0 <= t[c].addr < |n| && n[t[c].addr] == NextFree(t[e + 1..])
    ensures Layout(n, t[e := t[e].(free := false)], if c == -1 then NextFree(t[e + 1..]) else first, base, t[e].addr)
  {
    hide Tiled, NoFree;
    var x := t[e].(free := false);
    var a, b := t[..e], t[e + 1..];
    TiledRetype(t, base, |m|, e, false);
    assert t == a + ([t[e]] + b) && t[e := x] == a + ([x] + b);
    assert ([x] + b)[1..] == b;
    assert a[c + 1..|a|] == t[c + 1..e];
    KeptAfter(m, n, t, base, t[e].addr, e, c);
    ConsLinks(n, x, b);
    KeptBefore(m, n, t, base, e, c);
    Splice(m, n, a, [t[e]] + b, [x] + b, c);
    KeptSizes(m, n, t, x, base, e, c, x.addr);
  }

  /** The links of the free tiles before the relinked one are untouched. */
  lemma KeptBefore(m: seq<int>, n: seq<int>, t: seq<Tile>, base: int, e: nat, c: int)
    requires Tiled(t, base, |m|) && e < |t| && -1 <= c < e && 1 <= base
    requires ChangedOnly(m, n, t[e].addr, t[e].End(), if c == -1 then -1 else t[c].addr)
    ensures forall j | 0 <= j < |t[..e]| && t[..e][j].free && j != c ::
              0 <= t[..e][j].addr < |n| && n[t[..e][j].addr] == m[t[..e][j].addr]
  {
    forall j | 0 <= j < e && j != c
      ensures 0 <= t[j].addr < |n| && n[t[j].addr] == m[t[j].addr]
    {
      TiledOrders(t, base, |m|);
      TiledOrder(t, base, |m|, j, e);
      if c >= 0 {
        DistinctAddrs(t, base, |m|, j, c);
      }
    }
  }

  function SplitAt(t: seq<Tile>, e: nat, size: int): seq<Tile>
    requires e < |t|
  {
    t[..e] + [Tile(t[e].addr, size, false), Tile(t[e].addr + size, t[e].size - size, true)] + t[e + 1..]
  }

  lemma SplitTiled(t: seq<Tile>, base: int, limit: int, e: nat, size: int)
    requires Tiled(t, base, limit) && e < |t| && t[e].free
    requires ENTRY_HEADER <= size && size + ENTRY_HEADER <= t[e].size
    ensures Tiled(SplitAt(t, e, size), base, limit)
    ensures FreeWords(SplitAt(t, e, size)) == FreeWords(t) - size
  {
    var x, y := Tile(t[e].addr, size, false), Tile(t[e].addr + size, t[e].size - size, true);
    var a, b := t[..e], t[e + 1..];
    TiledSplit(t, base, limit, e);
    var after := [x, y] + b;
    assert after[1..] == [y] + b && after[1..][1..] == b;
    assert Tiled([y] + b, y.addr, limit);
    assert Tiled(after, x.addr, limit);
    TiledConcat(a, after, base, x.addr, limit);
    assert SplitAt(t, e, size) == a + after;
    FreeWordsSplit(t, e);
    FreeWordsConcat(a, after);
  }

  /** Taking the front of a larger free entry; the rest stays free. */
  lemma SplitEntry(m: seq<int>, n: seq<int>, t: seq<Tile>, first: int, base: int, e: nat, c: int, size: int)
    requires Layout(m, t, first, base, 0) && e < |t| && t[e].free && LastFreeBefore(t, e, c)
    requires ENTRY_HEADER <= size && size + ENTRY_HEADER <= t[e].size
    requires ChangedOnly(m, n, t[e].addr, t[e].End(), if c == -1 then -1 else t[c].addr)
    requires c >= 0 ==> 0 <= t[c].addr < |n| && n[t[c].addr] == t[e].addr + size
    requires 0 <= t[e].addr && t[e].addr + size + SIZE_WORD < |n|
    requires n[t[e].addr + size] == NextFree(t[e + 1..]) && n[t[e].addr + size + SIZE_WORD] == t[e].size - size
    ensures Layout(n, SplitAt(t, e, size), if c == -1 then t[e].addr + size else first, base, t[e].addr)
  {
    var x, y := Tile(t[e].addr, size, false), Tile(t[e].addr + size, t[e].size - size, true);
    var a, b := t[..e], t[e + 1..];
    hide Tiled, NoFree;
    var after := [x, y] + b;
    SplitTiled(t, base, |m|, e, size);
    assert t == a + ([t[e]] + b) && SplitAt(t, e, size) == a + after;
    assert a[c + 1..|a|] == t[c + 1..e];
    KeptAfter(m, n, t, base, t[e].addr, e, c);
    SplitLinks(n, x, y, b);
    KeptBefore(m, n, t, base, e, c);
    Splice(m, n, a, [t[e]] + b, after, c);
    SplitSizes(m, n, t, base, e, c, size);
  }

  lemma SplitLinks(n: seq<int>, x: Tile, y: Tile, b: seq<Tile>)
    requires LinksOk(n, b) && !x.free && y.free && 0 <= y.addr < |n| && n[y.addr] == NextFree(b)
    ensures LinksOk(n, [x, y] + b) && NextFree([x, y] + b) == y.addr
  {
    ConsLinks(n, y, b);
    ConsLinks(n, x, [y] + b);
    assert [x, y] + b == [x] + ([y] + b) && ([x, y] + b)[1..] == [y] + b;
  }

  lemma SplitSizes(m: seq<int>, n: seq<int>, t: seq<Tile>, base: int, e: nat, c: int, size: int)
    requires Tiled(t, base, |m|) && SizesOk(m, t, 0) && 1 <= base && e < |t| && -1 <= c < e
    requires ENTRY_HEADER <= size && size + ENTRY_HEADER <= t[e].size
    requires ChangedOnly(m, n, t[e].addr, t[e].End(), if c == -1 then -1 else t[c].addr)
    requires 0 <= t[e].addr && t[e].addr + size + SIZE_WORD < |n|
    requires n[t[e].addr + size + SIZE_WORD] == t[e].size - size
    ensures SizesOk(n, SplitAt(t, e, size), t[e].addr)
  {
    hide Tiled, SizesOk, ChangedOnly;
    var t' := SplitAt(t, e, size);
    forall j | 0 <= j < |t'| && j != e
      ensures SizeAt(n, t'[j])
    {
      if j < e {
        assert t'[j] == t[j];
        SizeKept(m, n, t, base, e, e, c, j);
      } else if j > e + 1 {
        assert t'[j] == t[j - 1];
        SizeKept(m, n, t, base, e, e, c, j - 1);
      }
    }
    SizesBut(n, t', e);
  }
}

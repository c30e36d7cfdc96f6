/** What sweeping, coalescing and allocating do to the objects of the heap. */
module HeapSweep {
  import opened HeapTiles
  import opened HeapGraph
  import opened HeapMoves

  /** Objects are at least a header long, and their reference fields fit. */
  ghost predicate ObjectTiles(m: seq<int>, t: seq<Tile>) {
    forall i | 0 <= i < |t| && !t[i].free :: ObjectTile(m, t[i])
  }

  ghost predicate ObjectTile(m: seq<int>, o: Tile) {
    && 0 <= o.addr && OBJECT_HEADER <= o.size && o.End() <= |m|
    && 0 <= m[o.addr + COUNT_WORD] && OBJECT_HEADER + m[o.addr + COUNT_WORD] <= o.size
  }

  ghost function Addresses(t: seq<Tile>): set<int> {
    set i | 0 <= i < |t| && !t[i].free :: t[i].addr
  }

  lemma AddressesFit(m: seq<int>, t: seq<Tile>, base: int)
    requires Tiled(t, base, |m|) && ObjectTiles(m, t)
    ensures ObjectsOk(m, Addresses(t))
    ensures forall a | a in Addresses(t) :: base <= a < |m|
  {
    hide Tiled;
    forall a | a in Addresses(t)
      ensures ObjectFits(m, a) && base <= a < |m|
    {
      var i := TileAt(t, a);
      AddressFits(m, t, base, i);
    }
    forall a, b | a in Addresses(t) && b in Addresses(t) && a < b
      ensures a + OBJECT_HEADER + m[a + COUNT_WORD] <= b
    {
      var i := TileAt(t, a);
      var j := TileAt(t, b);
      AddressesApart(m, t, base, i, j);
    }
  }

  lemma TileAt(t: seq<Tile>, a: int) returns (i: nat)
    requires a in Addresses(t)
    ensures i < |t| && !t[i].free && t[i].addr == a
  {
    i :| 0 <= i < |t| && !t[i].free && t[i].addr == a;
  }

  lemma AddressFits(m: seq<int>, t: seq<Tile>, base: int, i: nat)
    requires Tiled(t, base, |m|) && ObjectTiles(m, t) && i < |t| && !t[i].free
    ensures ObjectFits(m, t[i].addr) && base <= t[i].addr < |m|
  {
    assert ObjectTile(m, t[i]);
    TiledSplit(t, base, |m|, i);
  }

  lemma AddressesApart(m: seq<int>, t: seq<Tile>, base: int, i: nat, j: nat)
    requires Tiled(t, base, |m|) && ObjectTiles(m, t) && i < |t| && !t[i].free && j < |t| && t[i].addr < t[j].addr
    ensures ObjectFits(m, t[i].addr) && t[i].addr + OBJECT_HEADER + m[t[i].addr + COUNT_WORD] <= t[j].addr
  {
    hide Tiled;
    AddressFits(m, t, base, i);
    assert ObjectTile(m, t[i]);
    TilesApart(t, base, |m|, i, j);
    EachSized(t, base, |m|, j);
  }

  lemma EachSized(t: seq<Tile>, base: int, limit: int, i: nat)
    requires Tiled(t, base, limit) && i < |t|
    ensures t[i].size >= ENTRY_HEADER
  {
    TiledSplit(t, base, limit, i);
  }

  /** Words of the given objects are the same. */
  ghost predicate SameWords(m: seq<int>, n: seq<int>, objects: seq<Tile>) {
    |n| == |m| && forall o | o in objects :: SameTile(m, n, o)
  }

  ghost predicate SameTile(m: seq<int>, n: seq<int>, o: Tile) {
    forall k | o.addr <= k < o.End() && 0 <= k < |m| && k < |n| :: n[k] == m[k]
  }

  ghost predicate Unmarked(m: seq<int>, objects: seq<Tile>) {
    forall o | o in objects :: 0 <= o.addr && o.addr + MARK_WORD < |m| && m[o.addr + MARK_WORD] == 0
  }

  // ----- sweeping -----

  /** The tiles after the cursor has passed the first i of them: dead objects are free. */
  ghost function SweptTo(t: seq<Tile>, i: nat, live: set<int>): (r: seq<Tile>)
    ensures |r| == |t|
  {
    seq(|t|, j requires 0 <= j < |t| => if j < i && !t[j].free && t[j].addr !in live then t[j].(free := true) else t[j])
  }

  /** The words of one object: unchanged, but for the mark that the cursor removes. */
  ghost predicate SweptTile(m0: seq<int>, m: seq<int>, o: Tile, swept: bool) {
    forall k | o.addr <= k < o.End() && 0 <= k < |m0| && k < |m| ::
      m[k] == if swept && k == o.addr + MARK_WORD then 0 else m0[k]
  }

  ghost predicate SweepWords(m0: seq<int>, m: seq<int>, t: seq<Tile>, i: nat, live: set<int>) {
    && |m| == |m0|
    && forall j | 0 <= j < |t| && !t[j].free && (j >= i || t[j].addr in live) :: SweptTile(m0, m, t[j], j < i)
  }

  /** What holds of memory and tiles with the cursor at tile i. */
  ghost predicate Sweeping(m0: seq<int>, m: seq<int>, t: seq<Tile>, i: nat, live: set<int>, first: int, base: int) {
    && i <= |t| && Tiled(t, base, |m0|) && ObjectTiles(m0, t) && SweepWords(m0, m, t, i, live)
    && Layout(m, SweptTo(t, i, live), first, base, 0)
  }

  lemma SweepStart(m: seq<int>, t: seq<Tile>, live: set<int>, first: int, base: int)
    requires Layout(m, t, first, base, 0) && ObjectTiles(m, t)
    ensures Sweeping(m, m, t, 0, live, first, base) && SweptTo(t, 0, live) == t
    ensures |t| > 0 && t[0].addr == base < |m|
  {
    TiledBounds(t, base, |m|);
    assert SweptTo(t, 0, live) == t;
  }

  /** What the sweep reads at the cursor. */
  lemma SweepReads(m0: seq<int>, m: seq<int>, t: seq<Tile>, i: nat, live: set<int>, first: int, base: int)
    requires Sweeping(m0, m, t, i, live, first, base) && i < |t|
    ensures |m| == |m0| && base <= t[i].addr && t[i].size >= ENTRY_HEADER && t[i].End() <= |m|
    ensures m[t[i].addr + SIZE_WORD] == t[i].size
    ensures !t[i].free ==> t[i].size >= OBJECT_HEADER && m[t[i].addr + MARK_WORD] == m0[t[i].addr + MARK_WORD]
    ensures SweptTo(t, i, live)[i] == t[i]
    ensures forall j | i <= j < |t| :: SweptTo(t, i, live)[j] == t[j]
  {
    var s := SweptTo(t, i, live);
    TiledSplit(t, base, |m0|, i);
    assert s[i] == t[i];
    assert m[s[i].addr + SIZE_WORD] == s[i].size;
    if !t[i].free {
      assert ObjectTile(m0, t[i]) && SweptTile(m0, m, t[i], i < i);
    }
  }

  lemma SweepFree(m0: seq<int>, m: seq<int>, t: seq<Tile>, i: nat, live: set<int>, first: int, base: int)
    requires Sweeping(m0, m, t, i, live, first, base) && i < |t| && t[i].free
    ensures Sweeping(m0, m, t, i + 1, live, first, base)
    ensures SweptTo(t, i + 1, live) == SweptTo(t, i, live)
  {
    hide Tiled, Layout, ObjectTiles, SweptTile;
    forall j | 0 <= j < |t| && !t[j].free && (j >= i + 1 || t[j].addr in live)
      ensures SweptTile(m0, m, t[j], j < i + 1)
    {
      assert j != i && (j < i + 1) == (j < i);
    }
    assert SweptTo(t, i + 1, live) == SweptTo(t, i, live);
  }

  lemma SweepLive(m0: seq<int>, m: seq<int>, t: seq<Tile>, i: nat, live: set<int>, first: int, base: int)
    requires Sweeping(m0, m, t, i, live, first, base) && i < |t| && !t[i].free && t[i].addr in live
    requires 0 <= t[i].addr && t[i].addr + MARK_WORD < |m|
    ensures Sweeping(m0, m[t[i].addr + MARK_WORD := 0], t, i + 1, live, first, base)
    ensures SweptTo(t, i + 1, live) == SweptTo(t, i, live)
  {
    hide Layout;
    var n := m[t[i].addr + MARK_WORD := 0];
    var s := SweptTo(t, i, live);
    SweepReads(m0, m, t, i, live, first, base);
    TiledOrders(t, base, |m0|);
    forall j | 0 <= j < |t| && !t[j].free && (j >= i + 1 || t[j].addr in live)
      ensures SweptTile(m0, n, t[j], j < i + 1)
    {
      assert SweptTile(m0, m, t[j], j < i);
      if j < i {
        assert t[j].End() <= t[i].addr;
      } else if j > i {
        assert t[i].End() <= t[j].addr;
      }
    }
    assert SweptTo(t, i + 1, live) == s;
    ObjectWrite(m, s, first, base, i, MARK_WORD, 0);
  }

  /** Writing a word of an object, but not its size, keeps the layout. */
  lemma ObjectWrite(m: seq<int>, t: seq<Tile>, first: int, base: int, i: nat, k: int, v: int)
    requires Layout(m, t, first, base, 0) && i < |t| && !t[i].free
    requires 0 <= k < t[i].size && k != SIZE_WORD
    ensures 0 <= t[i].addr && t[i].addr + k < |m|
    ensures Layout(m[t[i].addr + k := v], t, first, base, 0)
  {
    OtherTiles(t, base, |m|, i);
    var n := m[t[i].addr + k := v];
    LinksKept(m, n, t);
  }

  lemma SweptNext(t: seq<Tile>, i: nat, live: set<int>)
    requires i < |t|
    ensures SweptTo(t, i, live)[i] == t[i]
    ensures !t[i].free && t[i].addr !in live ==>
              SweptTo(t, i + 1, live) == SweptTo(t, i, live)[i := t[i].(free := true)]
    ensures forall j | 0 <= j < |t| :: SweptTo(t, i, live)[j].addr == t[j].addr
  {
  }

  /** Object i has become a free entry, linked in after the last free entry before it. */
  ghost predicate Inserted(m: seq<int>, n: seq<int>, s: seq<Tile>, i: nat, c: int) {
    && -1 <= c < i < |s| && !s[i].free
    && 1 <= s[i].addr < |n| - 1
    && (c >= 0 ==> 0 <= s[c].addr < |n| && n[s[c].addr] == s[i].addr)
    && n[s[i].addr + SIZE_WORD] == s[i].size
    && n[s[i].addr] == NextFree(s[i + 1..])
    && ChangedOnly(m, n, s[i].addr, s[i].End(), if c == -1 then -1 else s[c].addr)
    && LastFreeBefore(s, i, c)
  }

  lemma SweepDead(m0: seq<int>, m: seq<int>, n: seq<int>, t: seq<Tile>, s: seq<Tile>, i: nat, live: set<int>,
                  first: int, base: int, c: int)
    requires Sweeping(m0, m, t, i, live, first, base) && s == SweptTo(t, i, live)
    requires Inserted(m, n, s, i, c) && s[i].addr !in live
    ensures Sweeping(m0, n, t, i + 1, live, if c == -1 then s[i].addr else first, base)
  {
    hide ObjectTiles, ChangedOnly, SweepWords, SweptTo, NextFree, NoFree, SizesOk, LinksOk, Tiled;
    SweptNext(t, i, live);
    OtherTiles(s, base, |m|, i);
    FreeObject(m, n, s, first, base, i, c);
    SweepDeadWords(m0, m, n, t, i, live, base, c);
  }

  lemma SweepDeadWords(m0: seq<int>, m: seq<int>, n: seq<int>, t: seq<Tile>, i: nat, live: set<int>, base: int, c: int)
    requires Tiled(t, base, |m0|) && SweepWords(m0, m, t, i, live)
    requires i < |t| && !t[i].free && t[i].addr !in live && -1 <= c < i && 1 <= base
    requires c >= 0 ==> SweptTo(t, i, live)[c].free
    requires ChangedOnly(m, n, t[i].addr, t[i].End(), if c == -1 then -1 else t[c].addr)
    ensures SweepWords(m0, n, t, i + 1, live)
  {
    hide Tiled;
    forall j | 0 <= j < |t| && !t[j].free && (j >= i + 1 || t[j].addr in live)
      ensures SweptTile(m0, n, t[j], j < i + 1)
    {
      assert j != i && (j < i + 1) == (j < i) && SweptTile(m0, m, t[j], j < i);
      assert !SweptTo(t, i, live)[j].free;
      TilesApart(t, base, |m0|, j, i);
      if c >= 0 {
        TilesApart(t, base, |m0|, j, c);
      }
    }
  }

  lemma TilesApart(t: seq<Tile>, base: int, limit: int, i: nat, j: nat)
    requires Tiled(t, base, limit) && i < |t| && j < |t| && i != j
    ensures t[i].End() <= t[j].addr || t[j].End() <= t[i].addr
    ensures t[i].size >= ENTRY_HEADER && t[j].size >= ENTRY_HEADER && base <= t[i].addr && base <= t[j].addr
    ensures t[i].End() <= limit && t[j].End() <= limit
  {
    TiledOrders(t, base, limit);
  }

  // ----- the free entry before the cursor -----

  /** The sweep's current entry: a free entry before the cursor, or the first entry of all. */
  ghost predicate Current(t: seq<Tile>, i: nat, c: nat, current: int) {
    i <= |t| && c < |t| && t[c].free && t[c].addr == current && (c < i || NoFree(t[..c]))
  }

  /** While the next entry lies before the cursor, it is a free tile before the cursor. */
  lemma CurrentAdvances(m: seq<int>, t: seq<Tile>, first: int, base: int, i: nat, c: nat) returns (k: nat)
    requires Layout(m, t, first, base, 0) && i < |t| && c < |t| && t[c].free && 0 <= t[c].addr < |m|
    requires c < i || NoFree(t[..c])
    requires t[i].addr > m[t[c].addr] && m[t[c].addr] != 0
    ensures c < k < i && Current(t, i, k, m[t[c].addr])
  {
    NoFreeOrNext(t, c + 1);
    var j := NextFreeIndex(t[c + 1..]);
    k := c + 1 + j;
    TiledOrder(t, base, |m|, c, k);
    TiledOrders(t, base, |m|);
    assert m[t[c].addr] == t[k].addr;
  }

  lemma NoFreeOrNext(t: seq<Tile>, i: nat)
    requires i <= |t|
    ensures NoFree(t[i..]) ==> NextFree(t[i..]) == 0
  {
    if NoFree(t[i..]) {
      NoFreeNext(t[i..]);
    }
  }

  /** The sweep's test tells free entries from objects, and places the object's new entry. */
  lemma CurrentFound(m: seq<int>, t: seq<Tile>, first: int, base: int, i: nat, c: nat)
    requires Layout(m, t, first, base, 0) && i < |t| && c < |t| && t[c].free && 0 <= t[c].addr < |m|
    requires c < i || NoFree(t[..c])
    requires t[i].addr <= m[t[c].addr] || m[t[c].addr] == 0
    ensures t[i].free <==> (m[t[c].addr] == t[i].addr || t[c].addr == t[i].addr)
    ensures !t[i].free && c < i ==>
              LastFreeBefore(t, i, c) && m[t[c].addr] == NextFree(t[i + 1..]) && t[i].addr >= first
    ensures !t[i].free && c >= i ==> LastFreeBefore(t, i, -1) && first == NextFree(t[i + 1..]) && t[i].addr < first
  {
    TiledOrders(t, base, |m|);
    NoFreeOrNext(t, c + 1);
    if c < i {
      CurrentLast(m, t, first, base, i, c);
    } else {
      CurrentFirst(m, t, first, base, i, c);
    }
  }

  lemma CurrentLast(m: seq<int>, t: seq<Tile>, first: int, base: int, i: nat, c: nat)
    requires Layout(m, t, first, base, 0) && c < i < |t| && t[c].free && 0 <= t[c].addr < |m|
    requires t[i].addr <= m[t[c].addr] || m[t[c].addr] == 0
    ensures LastFreeBefore(t, i, c) && first <= t[c].addr < t[i].addr
    ensures t[i].free <==> m[t[c].addr] == t[i].addr
    ensures !t[i].free ==> m[t[c].addr] == NextFree(t[i + 1..])
  {
    hide LinksOk, NextFree, Tiled, SizesOk;
    TiledOrder(t, base, |m|, c, i);
    TiledSplit(t, base, |m|, c);
    LinkIs(m, t, first, base, c);
    FirstBefore(t, base, |m|, -1, c);
    forall k | c < k < i
      ensures !t[k].free
    {
      if t[k].free {
        FirstBefore(t, base, |m|, c, k);
        TiledOrder(t, base, |m|, k, i);
        TiledSplit(t, base, |m|, k);
      }
    }
    NextFreeAcross(t, c, i);
    NextAtObject(t, base, |m|, i);
  }

  lemma NotAfter(t: seq<Tile>, j: nat, k: nat)
    requires j < |t| && k < |t| && NoFree(t[..j]) && t[k].free
    ensures j <= k
  {
    assert forall x | 0 <= x < j :: t[..j][x] == t[x];
  }

  /** The next free entry from position i on: tile i itself, or one after it. */
  lemma NextAtObject(t: seq<Tile>, base: int, limit: int, i: nat)
    requires Tiled(t, base, limit) && i < |t| && 1 <= base
    ensures t[i].free <==> NextFree(t[i..]) == t[i].addr
    ensures !t[i].free ==> NextFree(t[i..]) == NextFree(t[i + 1..])
  {
    assert t[i..][1..] == t[i + 1..];
    TiledOrders(t, base, limit);
    NoFreeOrNext(t, i + 1);
    if !t[i].free && !NoFree(t[i + 1..]) {
      var j := NextFreeIndex(t[i + 1..]);
      assert t[i].End() <= t[i + 1 + j].addr;
    }
  }

  lemma LinkIs(m: seq<int>, t: seq<Tile>, first: int, base: int, c: nat)
    requires Layout(m, t, first, base, 0) && c < |t| && t[c].free && 0 <= t[c].addr < |m|
    ensures m[t[c].addr] == NextFree(t[c + 1..]) && first == NextFree(t[0..])
  {
    assert t[0..] == t;
  }

  /** The next free entry after position c is not behind any free entry there. */
  lemma FirstBefore(t: seq<Tile>, base: int, limit: int, c: int, k: nat)
    requires Tiled(t, base, limit) && -1 <= c < k < |t| && t[k].free && 1 <= base
    ensures 0 != NextFree(t[c + 1..]) <= t[k].addr
  {
    var s := t[c + 1..];
    assert s[k - c - 1] == t[k];
    var j := NextFreeIndex(s);
    NotAfter(s, j, k - c - 1);
    TiledOrders(t, base, limit);
    assert s[j] == t[c + 1 + j];
  }

  lemma CurrentFirst(m: seq<int>, t: seq<Tile>, first: int, base: int, i: nat, c: nat)
    requires Layout(m, t, first, base, 0) && i <= c < |t| && t[c].free && 0 <= t[c].addr < |m| && NoFree(t[..c])
    ensures m[t[c].addr] != t[i].addr && (t[i].free <==> t[c].addr == t[i].addr)
    ensures !t[i].free ==> LastFreeBefore(t, i, -1) && first == NextFree(t[i + 1..]) && t[i].addr < first
  {
    hide LinksOk, SizesOk, Tiled, NoFree, NextFree;
    TiledOrders(t, base, |m|);
    LinkIs(m, t, first, base, c);
    NextBehind(t, base, |m|, c);
    if i < c {
      FreeFrom(t, i, c);
    }
    assert forall k | 0 <= k < c :: !t[k].free by {
      NoneBefore(t, c);
    }
  }

  lemma NoneBefore(t: seq<Tile>, c: nat)
    requires c <= |t| && NoFree(t[..c])
    ensures forall k | 0 <= k < c :: !t[k].free
  {
    assert forall k | 0 <= k < c :: t[..c][k] == t[k];
  }

  /** The entry after a free tile is none, or lies behind it. */
  lemma NextBehind(t: seq<Tile>, base: int, limit: int, c: nat)
    requires Tiled(t, base, limit) && 1 <= base && c < |t|
    ensures NextFree(t[c + 1..]) == 0 || t[c].End() <= NextFree(t[c + 1..])
  {
    hide NextFree;
    TiledOrders(t, base, limit);
    NoFreeOrNext(t, c + 1);
    if !NoFree(t[c + 1..]) {
      var j := NextFreeIndex(t[c + 1..]);
      assert t[c].End() <= t[c + 1 + j].addr;
    }
  }

  /** Before the first free tile, the next free tile is always that one. */
  lemma FreeFrom(t: seq<Tile>, i: nat, c: nat)
    requires i < c < |t| && t[c].free && NoFree(t[..c])
    ensures NextFree(t) == t[c].addr && NextFree(t[i + 1..]) == t[c].addr && LastFreeBefore(t, i, -1)
  {
    assert forall k | 0 <= k < c :: t[..c][k] == t[k];
    assert t == t[..c] + t[c..];
    NextFreeConcat(t[..c], t[c..]);
    assert t[i + 1..] == t[i + 1..c] + t[c..];
    NextFreeConcat(t[i + 1..c], t[c..]);
    assert NoFree(t[0..i]);
  }

  lemma EntryInside(m: seq<int>, t: seq<Tile>, first: int, base: int, c: nat)
    requires Layout(m, t, first, base, 0) && c < |t|
    ensures 1 <= base <= t[c].addr && ENTRY_HEADER <= t[c].size && t[c].End() <= |m|
  {
    TiledSplit(t, base, |m|, c);
  }

  lemma FirstEntry(m: seq<int>, t: seq<Tile>, first: int, base: int) returns (c: nat)
    requires Layout(m, t, first, base, 0) && first != 0
    ensures Current(t, 0, c, first)
  {
    NoFreeOrNext(t, 0);
    assert t[0..] == t;
    c := NextFreeIndex(t);
  }

  lemma CurrentWidens(t: seq<Tile>, i: nat, c: nat, current: int)
    requires i < |t| && Current(t, i, c, current)
    ensures Current(t, i + 1, c, current)
  {
  }

  lemma SweepLayout(m0: seq<int>, m: seq<int>, t: seq<Tile>, i: nat, live: set<int>, first: int, base: int)
    requires Sweeping(m0, m, t, i, live, first, base)
    ensures Layout(m, SweptTo(t, i, live), first, base, 0)
  {
  }

  /** Exactly the given objects are marked. */
  ghost predicate MarksAre(m: seq<int>, t: seq<Tile>, live: set<int>) {
    forall i | 0 <= i < |t| && !t[i].free ::
      0 <= t[i].addr && t[i].addr + MARK_WORD < |m| && (m[t[i].addr + MARK_WORD] == 1 <==> t[i].addr in live)
  }

  lemma MarkRead(m: seq<int>, t: seq<Tile>, live: set<int>, i: nat)
    requires MarksAre(m, t, live) && i < |t| && !t[i].free
    ensures 0 <= t[i].addr && t[i].addr + MARK_WORD < |m| && (m[t[i].addr + MARK_WORD] == 1 <==> t[i].addr in live)
  {
  }

  lemma NextTile(t: seq<Tile>, base: int, limit: int, i: nat)
    requires Tiled(t, base, limit) && i < |t|
    ensures t[i].addr < t[i].End() == if i + 1 < |t| then t[i + 1].addr else limit
    ensures t[i].addr < limit && (i + 1 < |t| ==> t[i + 1].addr < limit)
  {
    TiledSplit(t, base, limit, i);
    TiledBounds(t[i + 1..], t[i].End(), limit);
    if i + 1 < |t| {
      TiledOrder(t, base, limit, i, i + 1);
    }
  }

  // ----- the objects that remain -----

  /** The objects whose addresses are in the given set. */
  function Kept(objects: seq<Tile>, live: set<int>): seq<Tile> {
    if objects == [] then []
    else (if objects[0].addr in live then [objects[0]] else []) + Kept(objects[1..], live)
  }

  lemma {:induction false} KeptMembers(objects: seq<Tile>, live: set<int>)
    ensures forall o :: o in Kept(objects, live) <==> o in objects && o.addr in live
    decreases |objects|
  {
    if objects != [] {
      KeptMembers(objects[1..], live);
      assert objects == [objects[0]] + objects[1..];
    }
  }

  lemma {:induction false} SweptObjects(t: seq<Tile>, live: set<int>)
    ensures Objects(SweptTo(t, |t|, live)) == Kept(Objects(t), live)
    decreases |t|
  {
    if t != [] {
      SweptObjects(t[1..], live);
      var s := SweptTo(t, |t|, live);
      assert s[1..] == SweptTo(t[1..], |t| - 1, live);
      var rest := Objects(t[1..]);
      assert [] + rest == rest;
      if !t[0].free {
        assert ([t[0]] + rest)[1..] == rest;
      }
    }
  }

  /** After the sweep: the live objects are unmarked and otherwise as before, all else is free. */
  lemma SweepEnd(m0: seq<int>, m: seq<int>, t: seq<Tile>, live: set<int>, first: int, base: int)
    requires Sweeping(m0, m, t, |t|, live, first, base)
    ensures ObjectTiles(m, SweptTo(t, |t|, live)) && Unmarked(m, Kept(Objects(t), live))
    ensures |m| == |m0| && forall o | o in Kept(Objects(t), live) :: SweptTile(m0, m, o, true)
  {
    var s := SweptTo(t, |t|, live);
    TiledOrders(t, base, |m0|);
    forall j | 0 <= j < |s| && !s[j].free
      ensures ObjectTile(m, s[j])
    {
      assert s[j] == t[j] && t[j].addr in live && SweptTile(m0, m, t[j], j < |t|);
      assert ObjectTile(m0, t[j]);
    }
    KeptMembers(Objects(t), live);
    ObjectsMembers(t);
    forall o | o in Kept(Objects(t), live)
      ensures SweptTile(m0, m, o, true)
      ensures 0 <= o.addr && o.addr + MARK_WORD < |m| && m[o.addr + MARK_WORD] == 0
    {
      var j :| 0 <= j < |t| && t[j] == o;
      assert ObjectTile(m0, t[j]) && SweptTile(m0, m, t[j], j < |t|);
    }
  }

  // ----- coalescing -----

  /** No two of the first e + 1 tiles are adjacent free entries. */
  ghost predicate NoAdjacentFree(t: seq<Tile>, e: nat) {
    forall i | 0 <= i < e && i + 1 < |t| :: !t[i].free || !t[i + 1].free
  }

  /** Words outside objects were written: the objects keep theirs. */
  lemma ObjectsUntouched(m: seq<int>, n: seq<int>, t: seq<Tile>, base: int, e: nat, f: nat, c: int)
    requires Tiled(t, base, |m|) && 1 <= base && e <= f < |t| && -1 <= c < |t|
    requires forall i | e <= i <= f :: t[i].free
    requires c >= 0 ==> t[c].free
    requires ChangedOnly(m, n, t[e].addr, t[f].End(), if c == -1 then -1 else t[c].addr)
    ensures SameWords(m, n, Objects(t))
  {
    ObjectsMembers(t);
    forall o | o in Objects(t)
      ensures SameTile(m, n, o)
    {
      var j :| 0 <= j < |t| && t[j] == o;
      TilesApart(t, base, |m|, j, e);
      TilesApart(t, base, |m|, j, f);
      if e < f {
        TiledOrders(t, base, |m|);
      }
      if c >= 0 {
        TilesApart(t, base, |m|, j, c);
      }
    }
  }

  lemma {:induction false} SameWordsTrans(m: seq<int>, n: seq<int>, o: seq<int>, objects: seq<Tile>)
    requires SameWords(m, n, objects) && SameWords(n, o, objects)
    ensures SameWords(m, o, objects)
  {
    forall x | x in objects
      ensures SameTile(m, o, x)
    {
      assert SameTile(m, n, x) && SameTile(n, o, x);
    }
  }

  lemma JoinSeparates(t: seq<Tile>, e: nat)
    requires e + 1 < |t| && NoAdjacentFree(t, e) && t[e].free
    ensures NoAdjacentFree(Joined(t, e), e) && |Joined(t, e)| == |t| - 1
    ensures Joined(t, e)[..e] == t[..e] && Joined(t, e)[e].free && Joined(t, e)[e].addr == t[e].addr
    ensures Joined(t, e)[e + 1..] == t[e + 2..]
  {
    var s := Joined(t, e);
    forall i | 0 <= i < e && i + 1 < |s|
      ensures !s[i].free || !s[i + 1].free
    {
      assert s[i] == t[i] && (i + 1 < e ==> s[i + 1] == t[i + 1]);
    }
  }

  lemma MergeStart(m: seq<int>, t: seq<Tile>, e: nat)
    requires e < |t| && Current(t, 0, e, t[e].addr)
    ensures FreeWords(t[..e]) == 0 && NoAdjacentFree(t, e) && SameWords(m, m, Objects(t))
  {
    NoFreeWords(t[..e]);
    assert forall i | 0 <= i < e :: t[..e][i] == t[i];
  }

  lemma SizeIs(m: seq<int>, t: seq<Tile>, first: int, base: int, e: nat)
    requires Layout(m, t, first, base, 0) && e < |t|
    ensures 1 <= base <= t[e].addr && t[e].addr + SIZE_WORD < |m| && m[t[e].addr + SIZE_WORD] == t[e].size
  {
    TiledSplit(t, base, |m|, e);
  }

  lemma JoinedSame(m: seq<int>, t: seq<Tile>, first: int, base: int, e: nat)
    requires Layout(m, t, first, base, 0) && e + 1 < |t| && t[e].free && t[e + 1].free
    ensures FreeWords(Joined(t, e)) == FreeWords(t) && Objects(Joined(t, e)) == Objects(t)
  {
    JoinTiled(t, base, |m|, e);
  }

  /** The entry that follows entry e, if there is one. */
  lemma NextEntry(m: seq<int>, t: seq<Tile>, first: int, base: int, e: nat) returns (k: nat)
    requires Layout(m, t, first, base, 0) && e < |t| && t[e].free && 0 <= t[e].addr < |m|
    ensures e < k <= |t| && NoFree(t[e + 1..k])
    ensures m[t[e].addr] == 0 <==> k == |t|
    ensures k < |t| ==> t[k].free && m[t[e].addr] == t[k].addr
    ensures k < |t| ==> (t[e].End() == t[k].addr <==> k == e + 1)
  {
    hide SizesOk;
    LinkIs(m, t, first, base, e);
    NoFreeOrNext(t, e + 1);
    TiledOrders(t, base, |m|);
    if NoFree(t[e + 1..]) {
      k := |t|;
      assert t[e + 1..k] == t[e + 1..];
    } else {
      var j := NextFreeIndex(t[e + 1..]);
      k := e + 1 + j;
      assert t[e + 1..k] == t[e + 1..][..j] && t[e + 1..][j] == t[k];
      TiledOrder(t, base, |m|, e, k);
      if j > 0 {
        TiledOrder(t, base, |m|, e, e + 1);
      }
    }
  }

  lemma {:induction false} NoFreeWords(t: seq<Tile>)
    requires NoFree(t)
    ensures FreeWords(t) == 0
    decreases |t|
  {
    if t != [] {
      NoFreeWords(t[1..]);
    }
  }

  /** Passing entry e and the objects after it. */
  lemma CountPast(t: seq<Tile>, e: nat, k: nat)
    requires e < k <= |t| && t[e].free && NoFree(t[e + 1..k]) && NoAdjacentFree(t, e)
    requires k < |t| && t[k].free ==> k != e + 1
    ensures FreeWords(t[..k]) == FreeWords(t[..e]) + t[e].size && NoAdjacentFree(t, k)
  {
    FreeWordsSplit(t[..k], e);
    assert t[..k][..e] == t[..e] && t[..k][e + 1..] == t[e + 1..k];
    NoFreeWords(t[e + 1..k]);
    forall i | e <= i < k && i + 1 < |t|
      ensures !t[i].free || !t[i + 1].free
    {
      assert i > e ==> t[e + 1..k][i - e - 1] == t[i];
      assert i + 1 < k ==> t[e + 1..k][i - e] == t[i + 1];
    }
  }

  // ----- allocating -----

  /** An entry that fits exactly, or leaves room for another entry. */
  predicate Fits(e: Tile, size: int) {
    e.free && (e.size == size || e.size >= size + ENTRY_HEADER)
  }

  predicate FirstFit(t: seq<Tile>, e: nat, size: int) {
    e < |t| && Fits(t[e], size) && forall i | 0 <= i < e :: !Fits(t[i], size)
  }

  lemma FitsIs(e: Tile, size: int)
    ensures Fits(e, size) <==> e.free && (e.size == size || e.size >= size + 2)
  {
  }

  /** No entry fits: every one has another size, and no two words more. */
  lemma NoneFits(t: seq<Tile>, size: int)
    ensures (forall i | 0 <= i < |t| :: !Fits(t[i], size)) <==>
              forall i | 0 <= i < |t| && t[i].free :: t[i].size != size && t[i].size < size + 2
  {
    if forall i | 0 <= i < |t| && t[i].free :: t[i].size != size && t[i].size < size + 2 {
      forall i | 0 <= i < |t|
        ensures !Fits(t[i], size)
      {
      }
    } else {
      var i :| 0 <= i < |t| && t[i].free && !(t[i].size != size && t[i].size < size + 2);
      assert Fits(t[i], size);
    }
  }

  /** The lowest entry that has the size asked for, or at least two words more. */
  lemma FirstFitIs(t: seq<Tile>, e: nat, size: int)
    ensures FirstFit(t, e, size) <==>
              && e < |t| && t[e].free && (t[e].size == size || t[e].size >= size + 2)
              && forall i | 0 <= i < e && t[i].free :: t[i].size != size && t[i].size < size + 2
  {
    if e < |t| {
      assert forall i | 0 <= i < e :: t[..e][i] == t[i];
      NoneFits(t[..e], size);
      assert forall i | 0 <= i < e :: !Fits(t[i], size) <==> !Fits(t[..e][i], size);
    }
  }

  /** The low words of an entry are given away; what is left of it stays an entry. */
  lemma TakenIs(t: seq<Tile>, e: nat, size: int)
    requires e < |t| && t[e].free
    ensures Taken(t, e, size) ==
            if t[e].size == size
            then t[..e] + [Tile(t[e].addr, size, false)] + t[e + 1..]
            else t[..e] + [Tile(t[e].addr, size, false), Tile(t[e].addr + size, t[e].size - size, true)] + t[e + 1..]
  {
  }

  /** The tiles once entry e has been given away. */
  function Taken(t: seq<Tile>, e: nat, size: int): seq<Tile>
    requires e < |t|
  {
    if t[e].size == size then t[e := t[e].(free := false)] else SplitAt(t, e, size)
  }

  /** The rest of the entry, when it was not taken whole. */
  function Remainder(e: Tile, size: int): seq<Tile> {
    if e.size == size then [] else [Tile(e.addr + size, e.size - size, true)]
  }

  lemma TakenParts(t: seq<Tile>, e: nat, size: int)
    requires e < |t| && t[e].free
    ensures Taken(t, e, size) == t[..e] + ([Tile(t[e].addr, size, false)] + (Remainder(t[e], size) + t[e + 1..]))
    ensures t == t[..e] + ([t[e]] + t[e + 1..])
  {
  }

  lemma ConsParts(x: Tile, b: seq<Tile>)
    ensures Objects([x] + b) == (if x.free then [] else [x]) + Objects(b)
    ensures FreeWords([x] + b) == (if x.free then x.size else 0) + FreeWords(b)
  {
    assert ([x] + b)[1..] == b;
  }

  lemma TakenObjects(t: seq<Tile>, e: nat, size: int)
    requires e < |t| && t[e].free
    ensures Objects(t) == Objects(t[..e]) + Objects(t[e + 1..])
    ensures Objects(Taken(t, e, size)) == Objects(t[..e]) + [Tile(t[e].addr, size, false)] + Objects(t[e + 1..])
    ensures FreeWords(Taken(t, e, size)) == FreeWords(t) - size
  {
    hide Objects, FreeWords, Taken;
    var a, b := t[..e], t[e + 1..];
    var x, r := Tile(t[e].addr, size, false), Remainder(t[e], size);
    TakenParts(t, e, size);
    ObjectsConcat(a, [t[e]] + b);
    FreeWordsConcat(a, [t[e]] + b);
    ConsParts(t[e], b);
    ObjectsConcat(a, [x] + (r + b));
    FreeWordsConcat(a, [x] + (r + b));
    ConsParts(x, r + b);
    if t[e].size == size {
      assert r + b == b;
    } else {
      ConsParts(r[0], b);
      assert r == [r[0]];
    }
  }

  /** The allocator's search has reached entry e, past entries that do not fit; c is the entry before. */
  ghost predicate Searched(t: seq<Tile>, e: nat, c: int, size: int) {
    e < |t| && t[e].free && LastFreeBefore(t, e, c) && forall i | 0 <= i < e :: !Fits(t[i], size)
  }

  lemma SearchStart(t: seq<Tile>, e: nat, size: int, first: int)
    requires Current(t, 0, e, first)
    ensures Searched(t, e, -1, size)
  {
    assert t[0..e] == t[..e];
    assert forall i | 0 <= i < e :: t[..e][i] == t[i];
  }

  lemma SearchNext(t: seq<Tile>, e: nat, c: int, k: nat, size: int)
    requires Searched(t, e, c, size) && !Fits(t[e], size) && e < k <= |t| && NoFree(t[e + 1..k])
    ensures forall i | 0 <= i < k :: !Fits(t[i], size)
    ensures k < |t| && t[k].free ==> Searched(t, k, e, size)
  {
    assert forall i | e < i < k :: t[e + 1..k][i - e - 1] == t[i];
  }

  lemma SearchFound(t: seq<Tile>, e: nat, c: int, size: int)
    requires Searched(t, e, c, size)
    ensures LastFreeBefore(t, e, c) && (Fits(t[e], size) ==> FirstFit(t, e, size))
  {
  }

  /** Entry e is the first of the list exactly when no entry comes before it. */
  lemma SearchFirst(m: seq<int>, t: seq<Tile>, first: int, base: int, e: nat, c: int)
    requires Layout(m, t, first, base, 0) && e < |t| && t[e].free && LastFreeBefore(t, e, c)
    ensures c == -1 <==> t[e].addr == first
    ensures c >= 0 ==> 1 <= t[c].addr && ENTRY_HEADER <= t[c].size && t[c].End() <= t[e].addr
  {
    hide LinksOk, SizesOk;
    assert t[0..] == t;
    if c >= 0 {
      FirstBefore(t, base, |m|, -1, c);
      TiledOrder(t, base, |m|, c, e);
      TiledSplit(t, base, |m|, c);
    } else {
      NextFreeAcross(t, -1, e);
      NextAtObject(t, base, |m|, e);
    }
  }

  /** Entry e has been taken off the list: what allocating does to memory, before it is cleared. */
  ghost predicate Unlinked(m: seq<int>, n: seq<int>, t: seq<Tile>, e: nat, c: int, next: int) {
    && -1 <= c < e < |t| && |n| == |m|
    && (c >= 0 ==> 0 <= t[c].addr < |n| && n[t[c].addr] == next)
    && ChangedOnly(m, n, t[e].addr, t[e].End(), if c == -1 then -1 else t[c].addr)
  }

  lemma FitsInside(t: seq<Tile>, e: nat, size: int)
    requires FirstFit(t, e, size)
    ensures e < |t| && (t[e].size == size || t[e].size >= size + ENTRY_HEADER)
    ensures t[e].free && t[e].End() == t[e].addr + t[e].size
  {
  }

  lemma UnlinkedBy(m: seq<int>, n: seq<int>, t: seq<Tile>, e: nat, c: int, next: int)
    requires -1 <= c < e < |t| && |n| == |m|
    requires c >= 0 ==> 0 <= t[c].addr < |n| && n[t[c].addr] == next
    requires forall k | 0 <= k < |m| && !(t[e].addr <= k < t[e].End()) && (c == -1 || k != t[c].addr) :: n[k] == m[k]
    ensures Unlinked(m, n, t, e, c, next)
  {
  }

  lemma ClearedUnlinked(m: seq<int>, n: seq<int>, o: seq<int>, t: seq<Tile>, e: nat, c: int, next: int)
    requires Unlinked(m, n, t, e, c, next) && |o| == |n|
    requires c >= 0 ==> t[c].addr < t[e].addr
    requires forall k | 0 <= k < |n| && !(t[e].addr <= k < t[e].End()) :: o[k] == n[k]
    ensures Unlinked(m, o, t, e, c, next)
  {
  }

  lemma TakenLayout(m: seq<int>, n: seq<int>, t: seq<Tile>, first: int, base: int, e: nat, c: int, size: int, next: int)
    requires Layout(m, t, first, base, 0) && FirstFit(t, e, size) && LastFreeBefore(t, e, c) && ENTRY_HEADER <= size
    requires 0 <= t[e].addr && t[e].addr + t[e].size <= |n|
    requires next == if t[e].size == size then NextFree(t[e + 1..]) else t[e].addr + size
    requires t[e].size != size ==>
               n[t[e].addr + size] == NextFree(t[e + 1..]) && n[t[e].addr + size + SIZE_WORD] == t[e].size - size
    requires Unlinked(m, n, t, e, c, next)
    ensures Layout(n, Taken(t, e, size), if c == -1 then next else first, base, t[e].addr)
    ensures SameWords(m, n, Objects(t))
  {
    hide Tiled, SizesOk, LinksOk, NextFree, Objects, NoFree, ChangedOnly, SplitAt, SameWords;
    ObjectsUntouched(m, n, t, base, e, e, c);
    if t[e].size == size {
      TakeEntry(m, n, t, first, base, e, c);
    } else {
      SplitEntry(m, n, t, first, base, e, c, size);
    }
  }

  /** Writing the size of a new object completes the layout. */
  lemma SizeWritten(m: seq<int>, t: seq<Tile>, first: int, base: int, i: nat)
    requires i < |t| && !t[i].free && Layout(m, t, first, base, t[i].addr)
    ensures 1 <= t[i].addr && t[i].addr + SIZE_WORD < |m|
    ensures Layout(m[t[i].addr + SIZE_WORD := t[i].size], t, first, base, 0)
  {
    hide NextFree, Tiled;
    OtherTiles(t, base, |m|, i);
    var n := m[t[i].addr + SIZE_WORD := t[i].size];
    forall j | 0 <= j < |t|
      ensures 0 <= t[j].addr && t[j].addr + SIZE_WORD < |n| && n[t[j].addr + SIZE_WORD] == t[j].size
      ensures t[j].free ==> n[t[j].addr] == m[t[j].addr]
    {
      if j != i {
        DistinctAddrs(t, base, |m|, i, j);
        SizeWordApart(t, base, |m|, i, j);
      }
    }
    LinksKept(m, n, t);
  }

  /** Where the allocated object stands among the tiles. */
  lemma TakenAt(t: seq<Tile>, e: nat, size: int)
    requires e < |t|
    ensures |Taken(t, e, size)| > e && Taken(t, e, size)[e].addr == t[e].addr && !Taken(t, e, size)[e].free
    ensures Taken(t, e, size)[e].size == size
  {
  }
}

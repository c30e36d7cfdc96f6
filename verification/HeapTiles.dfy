/** The layout of the garbage-collected heap: a gapless sequence of tiles, each an object or a free
    entry, with the free entries linked in address order through the heap itself.  All sizes and
    addresses count words; address 0 is NULL and lies outside the heap. */
module HeapTiles {

  /** The words of a free-list entry: next and size. */
  const ENTRY_HEADER: int := 2

  /** The words every object starts with: vtable, size, mark, hash, number of fields, class. */
  const OBJECT_HEADER: int := 6

  const SIZE_WORD: int := 1
  const MARK_WORD: int := 2
  const COUNT_WORD: int := 4
  const CLASS_WORD: int := 5

  datatype Tile = Tile(addr: int, size: int, free: bool)
  {
    function End(): int {
      addr + size
    }
  }

  // ----- tilings -----

  /** The tiles cover the words from `lo` to `hi` exactly, in order. */
  ghost predicate Tiled(t: seq<Tile>, lo: int, hi: int) {
    if t == [] then lo == hi
    else t[0].addr == lo && t[0].size >= ENTRY_HEADER && Tiled(t[1..], t[0].End(), hi)
  }

  lemma {:induction false} TiledConcat(a: seq<Tile>, b: seq<Tile>, lo: int, mid: int, hi: int)
    requires Tiled(a, lo, mid)
    ensures Tiled(a + b, lo, hi) <==> Tiled(b, mid, hi)
    decreases |a|
  {
    if a == [] {
      assert a + b == b;
    } else {
      assert (a + b)[1..] == a[1..] + b;
      TiledConcat(a[1..], b, a[0].End(), mid, hi);
    }
  }

  /** A tile's place splits the tiling. */
  lemma {:induction false} TiledSplit(t: seq<Tile>, lo: int, hi: int, i: nat)
    requires Tiled(t, lo, hi) && i < |t|
    ensures lo <= t[i].addr && t[i].size >= ENTRY_HEADER && t[i].End() <= hi
    ensures Tiled(t[..i], lo, t[i].addr) && Tiled(t[i + 1..], t[i].End(), hi)
    decreases i
  {
    TiledBounds(t, lo, hi);
    if i == 0 {
      TiledBounds(t[1..], t[0].End(), hi);
    } else {
      TiledSplit(t[1..], t[0].End(), hi, i - 1);
      assert t[..i][1..] == t[1..][..i - 1];
      assert t[i + 1..] == t[1..][i..];
    }
  }

  lemma {:induction false} TiledBounds(t: seq<Tile>, lo: int, hi: int)
    requires Tiled(t, lo, hi)
    ensures lo <= hi && (t != [] ==> lo < hi)
    decreases |t|
  {
    if t != [] {
      TiledBounds(t[1..], t[0].End(), hi);
    }
  }

  /** Tiles do not overlap and are ordered by address. */
  lemma TiledOrder(t: seq<Tile>, lo: int, hi: int, i: nat, j: nat)
    requires Tiled(t, lo, hi) && i < j < |t|
    ensures t[i].End() <= t[j].addr
    ensures j == i + 1 ==> t[i].End() == t[j].addr
  {
    TiledSplit(t, lo, hi, i);
    TiledSplit(t[i + 1..], t[i].End(), hi, j - i - 1);
  }

  /** All order facts at once. */
  lemma TiledOrders(t: seq<Tile>, lo: int, hi: int)
    requires Tiled(t, lo, hi)
    ensures forall i | 0 <= i < |t| :: lo <= t[i].addr && t[i].size >= ENTRY_HEADER && t[i].End() <= hi
    ensures forall i, j | 0 <= i < j < |t| :: t[i].End() <= t[j].addr
  {
    forall i | 0 <= i < |t|
      ensures lo <= t[i].addr && t[i].size >= ENTRY_HEADER && t[i].End() <= hi
    {
      TiledSplit(t, lo, hi, i);
    }
    forall i, j | 0 <= i < j < |t|
      ensures t[i].End() <= t[j].addr
    {
      TiledOrder(t, lo, hi, i, j);
    }
  }

  /** Making a tile free, or an object of it, keeps the tiling. */
  lemma TiledRetype(t: seq<Tile>, lo: int, hi: int, i: nat, free: bool)
    requires Tiled(t, lo, hi) && i < |t|
    ensures Tiled(t[i := t[i].(free := free)], lo, hi)
  {
    var x := t[i].(free := free);
    TiledSplit(t, lo, hi, i);
    assert Tiled([x] + t[i + 1..], x.addr, hi) by {
      assert ([x] + t[i + 1..])[1..] == t[i + 1..];
    }
    TiledConcat(t[..i], [x] + t[i + 1..], lo, x.addr, hi);
    assert t[i := x] == t[..i] + ([x] + t[i + 1..]);
  }

  // ----- the free list -----

  /** The address of the first free tile, or NULL. */
  function NextFree(t: seq<Tile>): int {
    if t == [] then 0 else if t[0].free then t[0].addr else NextFree(t[1..])
  }

  predicate NoFree(t: seq<Tile>) {
    forall i | 0 <= i < |t| :: !t[i].free
  }

  lemma {:induction false} NextFreeConcat(a: seq<Tile>, b: seq<Tile>)
    ensures NoFree(a) ==> NextFree(a + b) == NextFree(b)
    ensures !NoFree(a) ==> NextFree(a + b) == NextFree(a)
    decreases |a|
  {
    if a == [] {
      assert a + b == b;
    } else {
      assert (a + b)[1..] == a[1..] + b;
      NextFreeConcat(a[1..], b);
      if !a[0].free {
        assert forall i | 0 <= i < |a[1..]| :: a[1..][i] == a[i + 1];
        assert forall i | 1 <= i < |a| :: a[i] == a[1..][i - 1];
      }
    }
  }

  /** What NextFree finds: the first free tile. */
  lemma {:induction false} NextFreeIndex(t: seq<Tile>) returns (k: nat)
    requires !NoFree(t)
    ensures k < |t| && t[k].free && NoFree(t[..k]) && NextFree(t) == t[k].addr
    decreases |t|
  {
    if t[0].free {
      k := 0;
    } else {
      assert forall i | 1 <= i < |t| :: t[i] == t[1..][i - 1];
      var j := NextFreeIndex(t[1..]);
      k := j + 1;
      assert t[..k] == [t[0]] + t[1..][..j];
    }
  }

  lemma {:induction false} NoFreeNext(t: seq<Tile>)
    requires NoFree(t)
    ensures NextFree(t) == 0
    decreases |t|
  {
    if t != [] {
      NoFreeNext(t[1..]);
    }
  }

  /** In a heap above NULL, the list ends exactly where no free tile is left. */
  lemma NextFreeZero(t: seq<Tile>, lo: int, hi: int)
    requires Tiled(t, lo, hi) && lo >= 1
    ensures NextFree(t) == 0 <==> NoFree(t)
  {
    if NoFree(t) {
      NoFreeNext(t);
    } else {
      var k := NextFreeIndex(t);
      TiledSplit(t, lo, hi, k);
    }
  }

  /** Every tile's size word holds its size, but for the tile at `but`. */
  ghost predicate SizesOk(m: seq<int>, t: seq<Tile>, but: int) {
    forall i | 0 <= i < |t| :: 0 <= t[i].addr && t[i].addr + SIZE_WORD < |m| &&
      (t[i].addr != but ==> m[t[i].addr + SIZE_WORD] == t[i].size)
  }

  /** Every free tile's first word holds the address of the next free tile. */
  ghost predicate LinksOk(m: seq<int>, t: seq<Tile>) {
    forall i | 0 <= i < |t| && t[i].free :: 0 <= t[i].addr < |m| && m[t[i].addr] == NextFree(t[i + 1..])
  }

  function FreeWords(t: seq<Tile>): int {
    if t == [] then 0 else (if t[0].free then t[0].size else 0) + FreeWords(t[1..])
  }

  function ObjectWords(t: seq<Tile>): int {
    if t == [] then 0 else (if t[0].free then 0 else t[0].size) + ObjectWords(t[1..])
  }

  /** Nothing is lost: objects and free entries add up to the heap. */
  lemma {:induction false} WordsConserved(t: seq<Tile>, lo: int, hi: int)
    requires Tiled(t, lo, hi)
    ensures FreeWords(t) + ObjectWords(t) == hi - lo
    decreases |t|
  {
    if t != [] {
      WordsConserved(t[1..], t[0].End(), hi);
    }
  }

  lemma {:induction false} FreeWordsConcat(a: seq<Tile>, b: seq<Tile>)
    ensures FreeWords(a + b) == FreeWords(a) + FreeWords(b)
    decreases |a|
  {
    if a == [] {
      assert a + b == b;
    } else {
      assert (a + b)[1..] == a[1..] + b;
      FreeWordsConcat(a[1..], b);
    }
  }

  lemma FreeWordsSplit(t: seq<Tile>, i: nat)
    requires i < |t|
    ensures FreeWords(t) == FreeWords(t[..i]) + (if t[i].free then t[i].size else 0) + FreeWords(t[i + 1..])
  {
    assert t == t[..i] + ([t[i]] + t[i + 1..]);
    FreeWordsConcat(t[..i], [t[i]] + t[i + 1..]);
    assert ([t[i]] + t[i + 1..])[1..] == t[i + 1..];
  }

  /** The objects, in address order. */
  function Objects(t: seq<Tile>): seq<Tile> {
    if t == [] then [] else (if t[0].free then [] else [t[0]]) + Objects(t[1..])
  }

  lemma {:induction false} ObjectsConcat(a: seq<Tile>, b: seq<Tile>)
    ensures Objects(a + b) == Objects(a) + Objects(b)
    decreases |a|
  {
    if a == [] {
      assert a + b == b;
    } else {
      assert (a + b)[1..] == a[1..] + b;
      ObjectsConcat(a[1..], b);
    }
  }

  lemma {:induction false} ObjectsMembers(t: seq<Tile>)
    ensures forall o :: o in Objects(t) <==> o in t && !o.free
    decreases |t|
  {
    if t != [] {
      ObjectsMembers(t[1..]);
      assert t == [t[0]] + t[1..];
    }
  }

  // ----- changes to the list -----

  /** Links of tiles that stay, after a tile in the middle has been replaced by others. */
  lemma LinksBefore(m: seq<int>, a: seq<Tile>, b: seq<Tile>, b': seq<Tile>)
    requires LinksOk(m, a + b) && NextFree(b) == NextFree(b')
    ensures forall i | 0 <= i < |a| && a[i].free :: 0 <= a[i].addr < |m| && m[a[i].addr] == NextFree((a + b')[i + 1..])
  {
    forall i | 0 <= i < |a| && a[i].free
      ensures 0 <= a[i].addr < |m| && m[a[i].addr] == NextFree((a + b')[i + 1..])
    {
      assert (a + b)[i] == a[i];
      assert (a + b)[i + 1..] == a[i + 1..] + b;
      assert (a + b')[i + 1..] == a[i + 1..] + b';
      NextFreeConcat(a[i + 1..], b);
      NextFreeConcat(a[i + 1..], b');
    }
  }

  /** The links of a list that ends in `b` do not depend on what comes before. */
  lemma LinksAfter(m: seq<int>, a: seq<Tile>, b: seq<Tile>)
    requires LinksOk(m, a + b)
    ensures LinksOk(m, b)
  {
    forall i | 0 <= i < |b| && b[i].free
      ensures 0 <= b[i].addr < |m| && m[b[i].addr] == NextFree(b[i + 1..])
    {
      assert (a + b)[|a| + i] == b[i];
      assert (a + b)[|a| + i + 1..] == b[i + 1..];
    }
  }

  lemma LinksJoin(m: seq<int>, a: seq<Tile>, b: seq<Tile>)
    requires forall i | 0 <= i < |a| && a[i].free :: 0 <= a[i].addr < |m| && m[a[i].addr] == NextFree((a + b)[i + 1..])
    requires LinksOk(m, b)
    ensures LinksOk(m, a + b)
  {
    forall i | 0 <= i < |a + b| && (a + b)[i].free
      ensures 0 <= (a + b)[i].addr < |m| && m[(a + b)[i].addr] == NextFree((a + b)[i + 1..])
    {
      if i >= |a| {
        assert (a + b)[i] == b[i - |a|];
        assert (a + b)[i + 1..] == b[i - |a| + 1..];
      }
    }
  }
}

/** The mark-sweep collector and first-fit allocator of gc.c, on an array of words. */
module Collector {
  import opened Common
  import opened HeapTiles
  import opened HeapGraph
  import opened HeapMoves
  import opened HeapSweep
  import opened HeapSound

  datatype Allocation = Allocated(address: int) | Malloced | NothingAllocated | NotEnoughHeap | NullDereference

  const WORD_BYTES: int := 8

  function PadBytes(n: nat): (p: nat)
    ensures p < WORD_BYTES && (n + p) % WORD_BYTES == 0
  {
    (WORD_BYTES - n % WORD_BYTES) % WORD_BYTES
  }

  function Aligned(bytes: nat): nat {
    bytes + PadBytes(bytes)
  }

  datatype Snapshot = Snapshot(words: seq<int>, tiles: seq<Tile>, first: int)

  class Heap {
    const base: int
    const buffer: int
    const mem: array<int>
    var first: int
    var freeSize: int
    var uninterruptable: int
    var globals: seq<Option<(int, int)>>
    var frame: int
    ghost var tiles: seq<Tile>

    /** What holds between operations. */
    ghost predicate Valid()
      reads this, mem
    {
      Sound(mem[..], tiles, first, base, Roots()) && freeSize == FreeWords(tiles)
    }

    /** `gc_initialize`: the whole heap is one free entry. */
    constructor (base: int, words: nat)
      requires 1 <= base && ENTRY_HEADER <= words - base
      ensures Valid() && fresh(mem) && mem.Length == words && this.base == base
      ensures tiles == [Tile(base, words - base, true)] && freeSize == words - base
      ensures Roots() == [] && uninterruptable == 0 && first == base && buffer == (words - base) / 10
    {
      this.base, mem := base, new int[words](_ => 0);
      buffer := (words - base) / 10;
      first, freeSize, uninterruptable, globals, frame := base, words - base, 0, [], 0;
      tiles := [Tile(base, words - base, true)];
      new;
      mem[base + SIZE_WORD] := words - base;
      assert tiles[1..] == [];
      assert Objects(tiles) == [];
      assert FreeWords(tiles[1..]) == 0;
    }

    // ----- marking -----

    /** Marks the object at p, if there is one, and all it reaches over unmarked objects. */
    method MarkObject(p: int, ghost objs: set<int>, ghost g: Graph)
      requires ObjectsOk(mem[..], objs) && GraphOf(mem[..], objs) == g && RefsKnown(g, base, mem.Length)
      requires Known(p, objs, base, mem.Length)
      requires forall a | a in objs :: base <= a <= mem.Length
      modifies mem
      ensures OnlyMarks(old(mem[..]), mem[..], objs) && ObjectsOk(mem[..], objs)
      ensures old(Marked(mem[..], objs)) <= Marked(mem[..], objs)
      ensures p in objs ==> p in Marked(mem[..], objs)
      ensures ClosedSince(g, old(Marked(mem[..], objs)), Marked(mem[..], objs))
      ensures ReachedSince(g, old(Marked(mem[..], objs)), Marked(mem[..], objs), [p])
      decreases |objs - Marked(mem[..], objs)|, 0
    {
      if base <= p <= mem.Length {
        if mem[p + MARK_WORD] != 1 {
          ghost var m0 := mem[..];
          ghost var marked0 := Marked(m0, objs);
          MarkOne(m0, objs, p);
          mem[p + MARK_WORD] := 1;
          assert mem[..] == m0[p + MARK_WORD := 1];
          ghost var marked1 := Marked(mem[..], objs);
          OnlyMarksKeeps(m0, mem[..], objs);
          OneFewerUnmarked(objs, marked0, p);
          ghost var m1 := mem[..];
          MarkReferences(p, objs, g);
          OnlyMarksTrans(m0, m1, mem[..], objs);
          MarkedWith(g, marked0, Marked(mem[..], objs), p);
        }
      }
    }

    /** `mark_references`: the class, then every field. */
    method MarkReferences(o: int, ghost objs: set<int>, ghost g: Graph)
      requires ObjectsOk(mem[..], objs) && GraphOf(mem[..], objs) == g && RefsKnown(g, base, mem.Length)
      requires o in objs
      requires forall a | a in objs :: base <= a <= mem.Length
      modifies mem
      ensures OnlyMarks(old(mem[..]), mem[..], objs) && ObjectsOk(mem[..], objs)
      ensures old(Marked(mem[..], objs)) <= Marked(mem[..], objs)
      ensures forall v | v in g[o] && v in objs :: v in Marked(mem[..], objs)
      ensures ClosedSince(g, old(Marked(mem[..], objs)), Marked(mem[..], objs))
      ensures ReachedSince(g, old(Marked(mem[..], objs)), Marked(mem[..], objs), [o])
      decreases |objs - Marked(mem[..], objs)|, 2
    {
      hide Reaches, ReachedFrom, ReachedSince, ClosedSince, OnlyMarks, ObjectsOk, GraphOf, Refs, Marked, Following,
        RefsKnown, Known;
      ghost var m0 := mem[..];
      RefWords(m0, objs, g, o);
      var itsClass := mem[o + CLASS_WORD];
      RefIsKnown(g, o, 0, itsClass, base, mem.Length);
      MarkObject(itsClass, objs, g);
      FollowedFirst(m0, mem[..], objs, g, o);
      var i := 0;
      while i < mem[o + COUNT_WORD]
        invariant ObjectsOk(mem[..], objs) && GraphOf(mem[..], objs) == g
        invariant 0 <= o && o + OBJECT_HEADER <= mem.Length && mem[o + COUNT_WORD] == |g[o]| - 1
        invariant 0 <= i <= |g[o]| - 1
        invariant Following(m0, mem[..], objs, g, o, i + 1)
      {
        FollowedTermination(m0, mem[..], objs, g, o, i + 1);
        MarkField(o, i, objs, g, m0);
        i := i + 1;
      }
      Followed(m0, mem[..], objs, g, o);
    }

    /** Marks what field i refers to. */
    method MarkField(o: int, i: nat, ghost objs: set<int>, ghost g: Graph, ghost m0: seq<int>)
      requires ObjectsOk(mem[..], objs) && GraphOf(mem[..], objs) == g && RefsKnown(g, base, mem.Length)
      requires o in g && i + 1 < |g[o]| && Following(m0, mem[..], objs, g, o, i + 1)
      requires forall a | a in objs :: base <= a <= mem.Length
      modifies mem
      ensures ObjectsOk(mem[..], objs) && GraphOf(mem[..], objs) == g && Following(m0, mem[..], objs, g, o, i + 2)
      ensures 0 <= o && o + OBJECT_HEADER <= mem.Length && mem[o + COUNT_WORD] == |g[o]| - 1
      decreases |objs - Marked(mem[..], objs)|, 1
    {
      hide Reaches, ReachedFrom, ReachedSince, ClosedSince, OnlyMarks, ObjectsOk, GraphOf, Refs, Marked,
        Following, RefsKnown, Known;
      ghost var m1 := mem[..];
      FollowedTermination(m0, m1, objs, g, o, i + 1);
      var field := mem[o + OBJECT_HEADER + i];
      RefIsKnown(g, o, i + 1, field, base, mem.Length);
      MarkObject(field, objs, g);
      FollowedNext(m0, m1, mem[..], objs, g, o, i + 1);
    }

    /** The roots: the keys and values of all globals, and the current frame. */
    ghost function Roots(): seq<int>
      reads this`globals, this`frame
    {
      GlobalRoots(globals) + (if frame == 0 then [] else [frame])
    }

    /** The roots, told without lists. */
    lemma RootsAre(r: int)
      ensures r in Roots() <==>
                || (frame != 0 && r == frame)
                || exists i | 0 <= i < |globals| ::
                     globals[i].Some? && (r == globals[i].value.0 || r == globals[i].value.1)
    {
      GlobalRootsMembers(globals, r);
    }

    /** What the roots reach is what the frame, or the key or the value of a global, reaches. */
    lemma ReachedIs(g: Graph, a: int)
      ensures ReachedFrom(g, Roots(), a) <==>
                || (frame != 0 && Reaches(g, frame, a))
                || exists i | 0 <= i < |globals| ::
                     globals[i].Some? && (Reaches(g, globals[i].value.0, a) || Reaches(g, globals[i].value.1, a))
    {
      hide Reaches, Roots;
      forall r
        ensures r in Roots() <==>
                  || (frame != 0 && r == frame)
                  || exists i | 0 <= i < |globals| ::
                       globals[i].Some? && (r == globals[i].value.0 || r == globals[i].value.1)
      {
        RootsAre(r);
      }
    }

    lemma MarkedIs(m: seq<int>, objs: set<int>, g: Graph)
      requires ObjectsOk(m, objs) && forall a | a in objs :: a in Marked(m, objs) <==> ReachedFrom(g, Roots(), a)
      ensures forall a | a in objs :: 0 <= a && a + 2 < |m| && (m[a + 2] == 1 <==>
                || (frame != 0 && Reaches(g, frame, a))
                || exists i | 0 <= i < |globals| ::
                     globals[i].Some? && (Reaches(g, globals[i].value.0, a) || Reaches(g, globals[i].value.1, a)))
    {
      hide Reaches, ReachedFrom, Roots;
      forall a | a in objs
        ensures ReachedFrom(g, Roots(), a) <==>
                  || (frame != 0 && Reaches(g, frame, a))
                  || exists i | 0 <= i < |globals| ::
                       globals[i].Some? && (Reaches(g, globals[i].value.0, a) || Reaches(g, globals[i].value.1, a))
      {
        ReachedIs(g, a);
      }
    }

    /** Afterwards an object is marked exactly when a global or the current frame reaches it. */
    method MarkReachableObjects(ghost objs: set<int>, ghost g: Graph)
      requires ObjectsOk(mem[..], objs) && GraphOf(mem[..], objs) == g && RefsKnown(g, base, mem.Length)
      requires forall a | a in objs :: base <= a <= mem.Length
      requires objs == Addresses(tiles) && RootsKnown(tiles, base, mem.Length, Roots()) && Marked(mem[..], objs) == {}
      modifies mem
      ensures OnlyMarks(old(mem[..]), mem[..], objs) && ObjectsOk(mem[..], objs)
      ensures forall a | a in objs :: a in Marked(mem[..], objs) <==> ReachedFrom(g, Roots(), a)
      ensures forall a | a in objs :: 0 <= a && a + 2 < mem.Length && (mem[a + 2] == 1 <==>
                || (frame != 0 && Reaches(g, frame, a))
                || exists i | 0 <= i < |globals| ::
                     globals[i].Some? && (Reaches(g, globals[i].value.0, a) || Reaches(g, globals[i].value.1, a)))
    {
      hide Reaches, ReachedFrom, Roots, GlobalRoots, Marked, ObjectsOk, OnlyMarks, GraphOf, ReachedSince, ClosedSince,
        RefsKnown, RootsKnown, Known, Addresses;
      ghost var m0 := mem[..];
      ghost var done: seq<int> := [];
      MarkStart(m0, objs, g);
      var i := 0;
      while i < |globals|
        invariant 0 <= i <= |globals|
        invariant OnlyMarks(m0, mem[..], objs) && ObjectsOk(mem[..], objs) && GraphOf(mem[..], objs) == g
        invariant done == GlobalRoots(globals[..i])
        invariant forall r | r in done && r in objs :: r in Marked(mem[..], objs)
        invariant ClosedSince(g, {}, Marked(mem[..], objs)) && ReachedSince(g, {}, Marked(mem[..], objs), done)
      {
        GlobalRootsNext(globals, i);
        if globals[i].Some? {
          var key, value := globals[i].value.0, globals[i].value.1;
          RootIsKnown(key);
          RootIsKnown(value);
          MarkRoot(key, objs, g, m0, done);
          MarkRoot(value, objs, g, m0, done + [key]);
          done := done + [key] + [value];
          assert done == GlobalRoots(globals[..i]) + [key, value];
        }
        i := i + 1;
      }
      assert globals[..i] == globals;
      if frame != 0 {
        RootIsKnown(frame);
        MarkRoot(frame, objs, g, m0, done);
        done := done + [frame];
      }
      RootsListed(done);
      MarkedSubset(mem[..], objs, g);
      MarksAreReachable(g, done, Marked(mem[..], objs));
      MarkedIs(mem[..], objs, g);
      assert forall a | a in objs :: mem[..][a + 2] == mem[a + 2];
    }

    lemma RootsListed(done: seq<int>)
      requires done == if frame == 0 then GlobalRoots(globals) else GlobalRoots(globals) + [frame]
      ensures done == Roots()
    {
      assert GlobalRoots(globals) + [] == GlobalRoots(globals);
    }

    lemma RootIsKnown(r: int)
      requires RootsKnown(tiles, base, mem.Length, Roots())
      requires
        || (frame != 0 && r == frame)
        || exists i | 0 <= i < |globals| :: globals[i].Some? && (r == globals[i].value.0 || r == globals[i].value.1)
      ensures Known(r, Addresses(tiles), base, mem.Length)
    {
      RootsAre(r);
    }

    /** Marking one more root. */
    method MarkRoot(p: int, ghost objs: set<int>, ghost g: Graph, ghost m0: seq<int>, ghost done: seq<int>)
      requires ObjectsOk(mem[..], objs) && GraphOf(mem[..], objs) == g && RefsKnown(g, base, mem.Length)
      requires forall a | a in objs :: base <= a <= mem.Length
      requires Known(p, objs, base, mem.Length) && OnlyMarks(m0, mem[..], objs)
      requires forall r | r in done && r in objs :: r in Marked(mem[..], objs)
      requires ClosedSince(g, {}, Marked(mem[..], objs)) && ReachedSince(g, {}, Marked(mem[..], objs), done)
      modifies mem
      ensures OnlyMarks(m0, mem[..], objs) && ObjectsOk(mem[..], objs) && GraphOf(mem[..], objs) == g
      ensures forall r | r in done + [p] && r in objs :: r in Marked(mem[..], objs)
      ensures ClosedSince(g, {}, Marked(mem[..], objs)) && ReachedSince(g, {}, Marked(mem[..], objs), done + [p])
    {
      ghost var m1 := mem[..];
      MarkObject(p, objs, g);
      OnlyMarksKeeps(m1, mem[..], objs);
      OnlyMarksTrans(m0, m1, mem[..], objs);
      ClosedTrans(g, {}, Marked(m1, objs), Marked(mem[..], objs));
      ReachedTrans(g, {}, Marked(m1, objs), Marked(mem[..], objs), done, [p]);
    }

    // ----- collecting -----

    method Clear(lo: int, hi: int)
      requires 0 <= lo <= hi <= mem.Length
      modifies mem
      ensures forall k | 0 <= k < mem.Length :: mem[k] == if lo <= k < hi then 0 else old(mem[k])
    {
      for k := lo to hi
        invariant forall j | 0 <= j < mem.Length :: mem[j] == if lo <= j < k then 0 else old(mem[j])
      {
        mem[k] := 0;
      }
    }

    /** Moves to the last free entry before the cursor. */
    method FindEntry(pointer: int, entry: int, ghost i: nat, ghost c0: nat) returns (current: int, ghost c: nat)
      requires Layout(mem[..], tiles, first, base, 0) && i < |tiles| && pointer == tiles[i].addr
      requires Current(tiles, i, c0, entry)
      ensures Current(tiles, i, c, current) && 0 <= current < mem.Length
      ensures pointer <= mem[current] || mem[current] == 0
    {
      hide NextFree, Tiled, NoFree;
      current, c := entry, c0;
      EntryInside(mem[..], tiles, first, base, c);
      while pointer > mem[current] && mem[current] != 0
        invariant Current(tiles, i, c, current) && 0 <= current < mem.Length
        decreases |tiles| - c
      {
        c := CurrentAdvances(mem[..], tiles, first, base, i, c);
        current := mem[current];
        EntryInside(mem[..], tiles, first, base, c);
      }
    }

    /** Turns the object at the cursor into a free entry. */
    method FreeObjectAt(pointer: int, size: int, entry: int, ghost i: nat, ghost c: nat)
        returns (current: int, ghost d: nat)
      requires Layout(mem[..], tiles, first, base, 0) && i < |tiles| && !tiles[i].free
      requires pointer == tiles[i].addr && size == tiles[i].size
      requires Current(tiles, i, c, entry) && 0 <= entry < mem.Length
      requires pointer <= mem[entry] || mem[entry] == 0
      modifies mem, this`first, this`tiles
      ensures tiles == old(tiles)[i := old(tiles)[i].(free := true)]
      ensures Current(tiles, i + 1, d, current)
      ensures Inserted(old(mem[..]), mem[..], old(tiles), i, if c < i then c else -1)
      ensures first == if c < i then old(first) else pointer
    {
      hide NextFree, Tiled, NoFree, LinksOk, SizesOk;
      ghost var m, t := mem[..], tiles;
      CurrentFound(m, t, first, base, i, c);
      OtherTiles(t, base, mem.Length, i);
      OtherTiles(t, base, mem.Length, c);
      Clear(pointer, pointer + size);
      mem[pointer + SIZE_WORD] := size;
      current, d := entry, c;
      if pointer < first {
        mem[pointer] := first;
        first, current, d := pointer, pointer, i;
      } else {
        mem[pointer] := mem[current];
        mem[current] := pointer;
      }
      tiles := t[i := t[i].(free := true)];
    }

    /** The single pass over the heap: unmarked objects become free entries, marks are removed. */
    method Sweep(ghost live: set<int>)
      requires Layout(mem[..], tiles, first, base, 0) && ObjectTiles(mem[..], tiles) && first != 0
      requires MarksAre(mem[..], tiles, live)
      modifies mem, this`first, this`tiles
      ensures tiles == SweptTo(old(tiles), |old(tiles)|, live)
      ensures Sweeping(old(mem[..]), mem[..], old(tiles), |old(tiles)|, live, first, base) && first != 0
      ensures |tiles| == |old(tiles)| && forall i | 0 <= i < |tiles| ::
                tiles[i] == Tile(old(tiles)[i].addr, old(tiles)[i].size,
                                 old(tiles)[i].free || old(tiles)[i].addr !in live)
      ensures forall o, k | o in tiles && !o.free && o.addr <= k < o.End() && 0 <= k < mem.Length ::
                mem[..][k] == if k == o.addr + 2 then 0 else old(mem[..])[k]
    {
      hide SweptTo, Sweeping, Layout, ObjectTiles, NoFree, MarksAre, Inserted;
      ghost var m0, t0 := mem[..], tiles;
      SweepStart(m0, t0, live, first, base);
      var pointer, current := base, first;
      ghost var i: nat := 0;
      ghost var c := FirstEntry(m0, t0, first, base);
      while pointer < mem.Length
        invariant i <= |t0| == |tiles| && tiles == SweptTo(t0, i, live) &&
                  Sweeping(m0, mem[..], t0, i, live, first, base)
        invariant pointer == if i < |t0| then t0[i].addr else mem.Length
        invariant i < |t0| ==> pointer < mem.Length
        invariant Current(tiles, i, c, current) && first != 0
        decreases |t0| - i
      {
        ghost var m, t, first0 := mem[..], tiles, first;
        SweepReads(m0, m, t0, i, live, first, base);
        SweepLayout(m0, m, t0, i, live, first, base);
        current, c := FindEntry(pointer, current, i, c);
        CurrentFound(m, tiles, first, base, i, c);
        CurrentWidens(tiles, i, c, current);
        var size;
        if mem[current] == pointer || current == pointer {
          if current == pointer {
            size := mem[current + SIZE_WORD];
          } else {
            size := mem[mem[current] + SIZE_WORD];
          }
          SweepFree(m0, m, t0, i, live, first, base);
        } else {
          size := mem[pointer + SIZE_WORD];
          MarkRead(m0, t0, live, i);
          if mem[pointer + MARK_WORD] == 1 {
            mem[pointer + MARK_WORD] := 0;
            SweepLive(m0, m, t0, i, live, first, base);
            assert mem[..] == m[pointer + MARK_WORD := 0];
          } else {
            ghost var c0 := c;
            current, c := FreeObjectAt(pointer, size, current, i, c);
            SweptNext(t0, i, live);
            SweepDead(m0, m, mem[..], t0, t, i, live, first0, base, if c0 < i then c0 else -1);
          }
        }
        NextTile(t0, base, |m0|, i);
        pointer := pointer + size;
        i := i + 1;
      }
      assert tiles == SweptTo(t0, |t0|, live);
      SweptIs(m0, mem[..], t0, live, first, base);
    }

    /** Appends the entry that directly follows the given one to it. */
    method AppendNext(entry: int, ghost e: nat)
      requires Layout(mem[..], tiles, first, base, 0) && e + 1 < |tiles| && tiles[e].free && tiles[e + 1].free
      requires entry == tiles[e].addr && 0 <= entry && entry + SIZE_WORD < mem.Length
      requires mem[entry] == tiles[e + 1].addr
      modifies mem, this`tiles
      ensures tiles == Joined(old(tiles), e) && Layout(mem[..], tiles, first, base, 0)
      ensures SameWords(old(mem[..]), mem[..], Objects(old(tiles)))
    {
      hide NextFree, Tiled, LinksOk, Joined, Objects;
      ghost var m, t := mem[..], tiles;
      OtherTiles(t, base, mem.Length, e);
      OtherTiles(t, base, mem.Length, e + 1);
      TiledOrder(t, base, mem.Length, e, e + 1);
      LinkIs(m, t, first, base, e + 1);
      var append := mem[entry];
      var newSize := mem[entry + SIZE_WORD] + mem[append + SIZE_WORD];
      var newNext := mem[append];
      Clear(append, append + mem[append + SIZE_WORD]);
      mem[entry] := newNext;
      mem[entry + SIZE_WORD] := newSize;
      JoinEntries(m, mem[..], t, first, base, e);
      ObjectsUntouched(m, mem[..], t, base, e, e + 1, -1);
      tiles := Joined(t, e);
    }

    /** Joins adjacent free entries, and recomputes the size of the free heap. */
    method MergeFreeSpaces()
      requires Layout(mem[..], tiles, first, base, 0) && first != 0
      modifies mem, this`freeSize, this`tiles
      ensures Layout(mem[..], tiles, first, base, 0)
      ensures Objects(tiles) == Objects(old(tiles)) && SameWords(old(mem[..]), mem[..], Objects(tiles))
      ensures freeSize == FreeWords(tiles) == FreeWords(old(tiles)) && NoAdjacentFree(tiles, |tiles|)
      ensures forall i | 0 <= i < |tiles| - 1 :: !tiles[i].free || !tiles[i + 1].free
      ensures forall o: Tile | !o.free :: o in tiles <==> o in old(tiles)
      ensures forall o, k | o in tiles && !o.free && o.addr <= k < o.End() && 0 <= k < mem.Length ::
                mem[k] == old(mem[..])[k]
    {
      hide NextFree, Tiled, Layout, NoAdjacentFree, Objects, FreeWords, NoFree, Joined, SameWords;
      ghost var m0, t0 := mem[..], tiles;
      var entry := first;
      freeSize := 0;
      ghost var e: nat := FirstEntry(m0, t0, first, base);
      MergeStart(m0, t0, e);
      EntryInside(mem[..], tiles, first, base, e);
      while mem[entry] != 0
        invariant Layout(mem[..], tiles, first, base, 0) && e < |tiles| && tiles[e].free && tiles[e].addr == entry
        invariant 0 <= entry && entry + SIZE_WORD < mem.Length
        invariant Objects(tiles) == Objects(t0) && SameWords(m0, mem[..], Objects(t0)) &&
                  FreeWords(tiles) == FreeWords(t0)
        invariant freeSize == FreeWords(tiles[..e]) && NoAdjacentFree(tiles, e)
        decreases |tiles| - e
      {
        ghost var m, t := mem[..], tiles;
        ghost var k := NextEntry(m, t, first, base, e);
        SizeIs(m, t, first, base, e);
        if entry + mem[entry + SIZE_WORD] == mem[entry] {
          AppendNext(entry, e);
          JoinSeparates(t, e);
          JoinedSame(m, t, first, base, e);
          SameWordsTrans(m0, m, mem[..], Objects(t0));
          EntryInside(mem[..], tiles, first, base, e);
        } else {
          freeSize := freeSize + mem[entry + SIZE_WORD];
          entry := mem[entry];
          CountPast(t, e, k);
          e := k;
          EntryInside(mem[..], tiles, first, base, e);
        }
      }
      ghost var k := NextEntry(mem[..], tiles, first, base, e);
      SizeIs(mem[..], tiles, first, base, e);
      CountPast(tiles, e, k);
      assert tiles[..k] == tiles;
      freeSize := freeSize + mem[entry + SIZE_WORD];
      MergedIs(m0, t0, mem[..], tiles);
    }

    /** What a collection leaves, told of tiles and words. */
    lemma CollectedIs(m: seq<int>, t: seq<Tile>, n: seq<int>, t': seq<Tile>)
      requires Tiled(t, base, |m|) && ObjectTiles(m, t) && Collected(m, t, n, t', base, Roots())
      ensures var g := HeapGraphOf(m, t, base);
              forall o: Tile | !o.free :: o in t' <==>
                o in t && (
                  || (frame != 0 && Reaches(g, frame, o.addr))
                  || exists i | 0 <= i < |globals| ::
                       && globals[i].Some?
                       && (Reaches(g, globals[i].value.0, o.addr) || Reaches(g, globals[i].value.1, o.addr)))
      ensures |n| == |m| && forall o, k | o in t' && !o.free && o.addr <= k < o.End() && 0 <= k < |m| :: n[k] == m[k]
      ensures forall i | 0 <= i < |t'| - 1 :: !t'[i].free || !t'[i + 1].free
    {
      hide Reaches, ReachedFrom, Roots, HeapGraphOf, Tiled, ObjectTiles;
      var g := HeapGraphOf(m, t, base);
      ObjectsMembers(t);
      ObjectsMembers(t');
      KeptMembers(Objects(t), Live(m, t, base, Roots()));
      hide Objects, Kept;
      forall o: Tile | !o.free
        ensures o in t' <==> o in t && ReachedFrom(g, Roots(), o.addr)
      {
      }
      forall a
        ensures ReachedFrom(g, Roots(), a) <==>
                  || (frame != 0 && Reaches(g, frame, a))
                  || exists i | 0 <= i < |globals| ::
                       globals[i].Some? && (Reaches(g, globals[i].value.0, a) || Reaches(g, globals[i].value.1, a))
      {
        ReachedIs(g, a);
      }
    }

    /** The frame itself is kept. */
    lemma FrameKept(m: seq<int>, t: seq<Tile>, n: seq<int>, t': seq<Tile>)
      requires Tiled(t, base, |m|) && ObjectTiles(m, t) && 1 <= base && Collected(m, t, n, t', base, Roots())
      ensures frame in Addresses(t) ==> frame in Addresses(t')
    {
      hide Reaches, ReachedFrom, Roots, HeapGraphOf, Collected;
      if frame in Addresses(t) {
        CollectedIs(m, t, n, t');
        AddressesFit(m, t, base);
        ReachesSelf(HeapGraphOf(m, t, base), frame);
        var i :| 0 <= i < |t| && !t[i].free && t[i].addr == frame;
        assert t[i] in t';
      }
    }

    /** `gc_collect`, which needs a free entry to start from.  The objects that remain are those which the
        current frame, or the key or value of a global, reaches. */
    method Collect() returns (ok: bool)
      requires Valid()
      modifies mem, this`first, this`freeSize, this`tiles
      ensures ok <==> old(first) != 0
      ensures ok ==> forall o: Tile | !o.free :: o in tiles <==>
                o in old(tiles) && (
                  || (frame != 0 && Reaches(old(HeapGraphOf(mem[..], tiles, base)), frame, o.addr))
                  || exists i | 0 <= i < |globals| :: globals[i].Some? && (
                       || Reaches(old(HeapGraphOf(mem[..], tiles, base)), globals[i].value.0, o.addr)
                       || Reaches(old(HeapGraphOf(mem[..], tiles, base)), globals[i].value.1, o.addr)))
      ensures ok ==> forall o, k | o in tiles && !o.free && o.addr <= k < o.End() && 0 <= k < mem.Length ::
                mem[k] == old(mem[k])
      ensures ok ==> forall i | 0 <= i < |tiles| - 1 :: !tiles[i].free || !tiles[i + 1].free
      ensures ok && frame in old(Addresses(tiles)) ==> frame in Addresses(tiles)
      ensures ok ==> first != 0 && Valid() && Collected(old(mem[..]), old(tiles), mem[..], tiles, base, Roots())
    {
      hide NextFree, Tiled, SizesOk, LinksOk, NoAdjacentFree, Objects, FreeWords, NoFree, SameWords, SameButMark,
        Addresses, Marked, OnlyMarks, Kept, Unmarked, RefsKnown;
      ghost var m0, t0, first0 := mem[..], tiles, first;
      AddressesFit(m0, t0, base);
      ghost var objs, g := Addresses(t0), HeapGraphOf(m0, t0, base);
      ghost var live := Live(m0, t0, base, Roots());
      NothingMarked(m0, t0, base);
      MarkReachableObjects(objs, g);
      ghost var m1 := mem[..];
      MarkedLayout(m0, m1, t0, first, base);
      if first == 0 {
        return false;
      }
      LiveMarked(m1, t0, g, Roots());
      Sweep(live);
      SweptSound(m0, m1, mem[..], t0, first0, first, base, Roots(), live);
      ghost var m2, t2 := mem[..], tiles;
      MergeFreeSpaces();
      RearrangedSound(m2, t2, first, mem[..], tiles, first, base, Roots());
      SameWordsTrans(m0, m2, mem[..], Objects(tiles));
      hide Collected, Reaches, ReachedFrom, HeapGraphOf, Sound, Layout, ObjectTiles, Roots;
      CollectedIs(m0, t0, mem[..], tiles);
      FrameKept(m0, t0, mem[..], tiles);
      return true;
    }

    // ----- allocating -----

    /** The search of `gc_allocate`: the lowest entry that fits is given away. */
    method TakeFirstFit(size: int) returns (r: Allocation, ghost e: nat)
      requires ENTRY_HEADER <= size && Layout(mem[..], tiles, first, base, 0) && freeSize == FreeWords(tiles)
      modifies mem, this`first, this`freeSize, this`tiles
      ensures r.Allocated? || r.NotEnoughHeap? || r.NullDereference?
      ensures r.NullDereference? <==> old(first) == 0
      ensures r.NotEnoughHeap? <==>
                old(first) != 0 &&
                forall i | 0 <= i < |old(tiles)| && old(tiles)[i].free ::
                  old(tiles)[i].size != size && old(tiles)[i].size < size + 2
      ensures r.Allocated? ==>
                && e < |old(tiles)| && old(tiles)[e].free
                && (old(tiles)[e].size == size || old(tiles)[e].size >= size + 2)
                && r.address == old(tiles)[e].addr
                && forall i | 0 <= i < e && old(tiles)[i].free ::
                     old(tiles)[i].size != size && old(tiles)[i].size < size + 2
      ensures r.Allocated? ==>
                tiles ==
                if old(tiles)[e].size == size
                then old(tiles)[..e] + [Tile(r.address, size, false)] + old(tiles)[e + 1..]
                else old(tiles)[..e] +
                     [Tile(r.address, size, false), Tile(r.address + size, old(tiles)[e].size - size, true)] +
                     old(tiles)[e + 1..]
      ensures r.Allocated? ==> freeSize == FreeWords(tiles)
      ensures r.Allocated? ==> Layout(mem[..], tiles, first, base, r.address)
      ensures r.Allocated? ==> SameWords(old(mem[..]), mem[..], Objects(old(tiles)))
      ensures r.Allocated? ==>
                1 <= r.address <= r.address + size <= mem.Length &&
                forall k | r.address <= k < r.address + size :: mem[k] == 0
    {
      hide NextFree, Tiled, Layout, Objects, FreeWords, NoFree, SameWords, LastFreeBefore, Searched, Taken, FirstFit,
        Fits;
      ghost var t := tiles;
      e := 0;
      if first == 0 {
        return NullDereference, e;
      }
      var entry, before;
      ghost var c;
      entry, before, e, c := SearchFit(size);
      SearchFound(t, e, c, size);
      FirstFitIs(t, e, size);
      TakenIs(t, e, size);
      NoneFits(t, size);
      if mem[entry + SIZE_WORD] == size || mem[entry + SIZE_WORD] >= size + ENTRY_HEADER {
        SearchFirst(mem[..], t, first, base, e, c);
        FitsIs(t[e], size);
        TakeEntryAt(entry, size, before, e, c);
        return Allocated(entry), e;
      } else {
        return NotEnoughHeap, e;
      }
    }

    /** The loop of `gc_allocate`: stops at the lowest entry that fits, or at the last entry. */
    method SearchFit(size: int) returns (entry: int, before: int, ghost e: nat, ghost c: int)
      requires ENTRY_HEADER <= size && Layout(mem[..], tiles, first, base, 0) && first != 0
      ensures Searched(tiles, e, c, size) && e < |tiles| && entry == tiles[e].addr && tiles[e].free
      ensures 1 <= entry && entry + SIZE_WORD < mem.Length && mem[entry + SIZE_WORD] == tiles[e].size
      ensures -1 <= c < e && (c >= 0 ==> before == tiles[c].addr)
      ensures Fits(tiles[e], size) || forall i | 0 <= i < |tiles| :: !Fits(tiles[i], size)
    {
      hide NextFree, Tiled, Layout, Objects, FreeWords, NoFree, SameWords, LastFreeBefore, Searched;
      ghost var m, t := mem[..], tiles;
      e := FirstEntry(m, t, first, base);
      c := -1;
      SearchStart(t, e, size, first);
      SizeIs(m, t, first, base, e);
      entry, before := first, 0;
      while !(mem[entry + SIZE_WORD] == size || mem[entry] == 0 || mem[entry + SIZE_WORD] >= size + ENTRY_HEADER)
        invariant Searched(t, e, c, size) && e < |t| && entry == t[e].addr && t[e].free
        invariant 1 <= entry && entry + SIZE_WORD < mem.Length && mem[entry + SIZE_WORD] == t[e].size
        invariant -1 <= c < e && (c >= 0 ==> before == t[c].addr)
        decreases |t| - e
      {
        ghost var k := NextEntry(m, t, first, base, e);
        SearchNext(t, e, c, k, size);
        before, c := entry, e;
        entry, e := mem[entry], k;
        SizeIs(m, t, first, base, e);
      }
      ghost var k := NextEntry(m, t, first, base, e);
      if !Fits(t[e], size) {
        SearchNext(t, e, c, k, size);
      }
    }

    /** Gives the found entry away, whole or in part, and clears what is given. */
    method TakeEntryAt(entry: int, size: int, before: int, ghost e: nat, ghost c: int)
      requires ENTRY_HEADER <= size && Layout(mem[..], tiles, first, base, 0) && freeSize == FreeWords(tiles)
      requires FirstFit(tiles, e, size) && -1 <= c < e && LastFreeBefore(tiles, e, c) && entry == tiles[e].addr
      requires c == -1 <==> entry == first
      requires c >= 0 ==> 1 <= before == tiles[c].addr && before < entry
      modifies mem, this`first, this`freeSize, this`tiles
      ensures tiles == Taken(old(tiles), e, size) && freeSize == FreeWords(tiles)
      ensures Layout(mem[..], tiles, first, base, entry)
      ensures SameWords(old(mem[..]), mem[..], Objects(old(tiles)))
      ensures 1 <= entry <= entry + size <= mem.Length && forall k | entry <= k < entry + size :: mem[k] == 0
    {
      hide NextFree, Tiled, Layout, Objects, FreeWords, NoFree, SameWords, Taken, LastFreeBefore, FirstFit,
        ChangedOnly, Unlinked;
      ghost var m, t, first0 := mem[..], tiles, first;
      FitsInside(t, e, size);
      EntryInside(m, t, first, base, e);
      SizeIs(m, t, first, base, e);
      LinkIs(m, t, first, base, e);
      ghost var next := if t[e].size == size then NextFree(t[e + 1..]) else t[e].addr + size;
      if mem[entry + SIZE_WORD] == size {
        Unlink(entry, mem[entry], before, e, c);
      } else {
        var entrySize, entryNext := mem[entry + SIZE_WORD], mem[entry];
        mem[entry + size + SIZE_WORD] := entrySize - size;
        mem[entry + size] := entryNext;
        Unlink(entry, entry + size, before, e, c);
      }
      UnlinkedBy(m, mem[..], t, e, c, next);
      ghost var n := mem[..];
      Clear(entry, entry + size);
      ClearedUnlinked(m, n, mem[..], t, e, c, next);
      TakenLayout(m, mem[..], t, first0, base, e, c, size, next);
      TakenObjects(t, e, size);
      tiles := Taken(t, e, size);
      freeSize := freeSize - size;
    }

    /** Removes an entry from the list: what came before it is followed by `next`. */
    method Unlink(entry: int, next: int, before: int, ghost e: nat, ghost c: int)
      requires -1 <= c < e < |tiles| && entry == tiles[e].addr
      requires c >= 0 ==> before == tiles[c].addr && 0 <= before < mem.Length
      requires c == -1 <==> entry == first
      modifies mem, this`first
      ensures first == if c == -1 then next else old(first)
      ensures mem[..] == if c == -1 then old(mem[..]) else old(mem[..])[before := next]
    {
      if entry == first {
        first := next;
      } else {
        mem[before] := next;
      }
    }

    lemma ValidLayout()
      requires Valid()
      ensures Layout(mem[..], tiles, first, base, 0) && freeSize == FreeWords(tiles)
    {
    }

    /** The test at the head of `gc_allocate`. */
    method CollectIfLow() returns (ok: bool, ghost s: Snapshot)
      requires Valid()
      modifies mem, this`first, this`freeSize, this`tiles
      ensures !ok <==> old(freeSize) <= buffer && uninterruptable <= 0 && old(first) == 0
      ensures ok ==> Valid() && s == Snapshot(mem[..], tiles, first) && (first == 0 <==> old(first) == 0)
      ensures ok ==>
                if old(freeSize) <= buffer && uninterruptable <= 0
                then Collected(old(mem[..]), old(tiles), s.words, s.tiles, base, Roots())
                else s == Snapshot(old(mem[..]), old(tiles), old(first))
    {
      hide Sound, Collected, HeapGraphOf, Reaches, Addresses, FreeWords;
      ok := true;
      if freeSize <= buffer && uninterruptable <= 0 {
        ok := Collect();
      }
      s := Snapshot(mem[..], tiles, first);
    }

    /** `gc_allocate`: collects when free space runs low and nothing forbids it, then takes the
        lowest entry that fits.  An empty free list is dereferenced. */
    method Allocate(size: nat) returns (r: Allocation, ghost s: Snapshot, ghost e: nat)
      requires Valid()
      modifies mem, this`first, this`freeSize, this`tiles
      ensures r.NothingAllocated? <==> size == 0
      ensures r.Malloced? <==> size == 1
      ensures size < 2 ==> mem[..] == old(mem[..]) && tiles == old(tiles) && Valid()
      ensures r.NullDereference? <==> size >= 2 && old(first) == 0
      ensures r.NotEnoughHeap? <==>
                size >= 2 && old(first) != 0 &&
                forall i | 0 <= i < |s.tiles| && s.tiles[i].free ::
                  s.tiles[i].size != size && s.tiles[i].size < size + 2
      ensures size >= 2 && old(first) != 0 ==>
                if old(freeSize) <= buffer && uninterruptable <= 0
                then Collected(old(mem[..]), old(tiles), s.words, s.tiles, base, Roots()) &&
                     Sound(s.words, s.tiles, s.first, base, Roots())
                else s == Snapshot(old(mem[..]), old(tiles), old(first))
      ensures r.Allocated? ==>
                && e < |s.tiles| && s.tiles[e].free && (s.tiles[e].size == size || s.tiles[e].size >= size + 2)
                && r.address == s.tiles[e].addr
                && forall i | 0 <= i < e && s.tiles[i].free :: s.tiles[i].size != size && s.tiles[i].size < size + 2
      ensures r.Allocated? ==>
                tiles ==
                if s.tiles[e].size == size
                then s.tiles[..e] + [Tile(r.address, size, false)] + s.tiles[e + 1..]
                else s.tiles[..e] +
                     [Tile(r.address, size, false), Tile(r.address + size, s.tiles[e].size - size, true)] +
                     s.tiles[e + 1..]
      ensures r.Allocated? ==> FirstFit(s.tiles, e, size) && tiles == Taken(s.tiles, e, size)
      ensures r.Allocated? ==> freeSize == FreeWords(tiles)
      ensures r.Allocated? ==>
                SameWords(s.words, mem[..], Objects(s.tiles)) && Layout(mem[..], tiles, first, base, r.address)
      ensures r.Allocated? ==>
                1 <= r.address <= r.address + size <= mem.Length &&
                forall k | r.address <= k < r.address + size :: mem[k] == 0
    {
      hide Tiled, LinksOk, SizesOk, NextFree, Objects, FreeWords, FirstFit, Collected, Unmarked, RefsKnown, Taken, Fits,
        RootsKnown, HeapGraphOf, SameWords, Roots, Sound, Layout;
      s, e := Snapshot(mem[..], tiles, first), 0;
      if size == 0 {
        return NothingAllocated, s, e;
      }
      if size < ENTRY_HEADER {
        return Malloced, s, e;
      }
      var ok;
      ok, s := CollectIfLow();
      if !ok {
        return NullDereference, s, e;
      }
      ValidLayout();
      r, e := TakeFirstFit(size);
      if r.Allocated? {
        FirstFitIs(s.tiles, e, size);
        TakenIs(s.tiles, e, size);
      }
    }

    /** `gc_allocate_object`: a cleared object of the given size, rounded up to whole words. */
    method AllocateObject(bytes: nat) returns (r: Allocation, ghost s: Snapshot, ghost e: nat)
      requires Valid()
      requires bytes <= WORD_BYTES || Aligned(bytes) >= OBJECT_HEADER * WORD_BYTES
      modifies mem, this`first, this`freeSize, this`tiles
      ensures r.NothingAllocated? <==> bytes == 0
      ensures r.Malloced? <==> 0 < bytes <= WORD_BYTES
      ensures r.NullDereference? <==> bytes > WORD_BYTES && old(first) == 0
      ensures r.NotEnoughHeap? <==>
                bytes > WORD_BYTES && old(first) != 0 &&
                forall i | 0 <= i < |s.tiles| && s.tiles[i].free ::
                  s.tiles[i].size != (bytes + 7) / 8 && s.tiles[i].size < (bytes + 7) / 8 + 2
      ensures bytes > WORD_BYTES && old(first) != 0 ==>
                if old(freeSize) <= buffer && uninterruptable <= 0
                then Collected(old(mem[..]), old(tiles), s.words, s.tiles, base, Roots()) &&
                     Sound(s.words, s.tiles, s.first, base, Roots())
                else s == Snapshot(old(mem[..]), old(tiles), old(first))
      ensures r.Allocated? ==>
                && e < |s.tiles| && s.tiles[e].free
                && (s.tiles[e].size == (bytes + 7) / 8 || s.tiles[e].size >= (bytes + 7) / 8 + 2)
                && r.address == s.tiles[e].addr
                && forall i | 0 <= i < e && s.tiles[i].free ::
                     s.tiles[i].size != (bytes + 7) / 8 && s.tiles[i].size < (bytes + 7) / 8 + 2
      ensures r.Allocated? ==> tiles == Taken(s.tiles, e, (bytes + 7) / 8)
      ensures r.Allocated? ==>
                1 <= r.address <= r.address + (bytes + 7) / 8 <= mem.Length &&
                forall k | r.address <= k < r.address + (bytes + 7) / 8 ::
                  mem[k] == if k == r.address + 1 then (bytes + 7) / 8 else 0
      ensures r.Allocated? ==> SameWords(s.words, mem[..], Objects(s.tiles))
      ensures !r.NullDereference? && !r.NotEnoughHeap? ==> Valid()
    {
      hide Tiled, LinksOk, SizesOk, NextFree, Objects, FreeWords, FirstFit, Collected, Unmarked, RefsKnown,
        Fits, Taken;
      var alignedSize := bytes + PadBytes(bytes);
      AlignedBounds(bytes);
      var size := alignedSize / WORD_BYTES;
      r, s, e := Allocate(size);
      if r.Allocated? {
        FitsInside(s.tiles, e, size);
        TakenAt(s.tiles, e, size);
        ghost var m, x := mem[..], Tile(r.address, size, false);
        SizeWritten(m, tiles, first, base, e);
        mem[r.address + SIZE_WORD] := size;
        assert mem[..] == m[r.address + SIZE_WORD := size];
        BlankWritten(s.words, m, mem[..], s.tiles, tiles, base, e, size, r.address);
        BlankSound(s.words, s.tiles, s.first, mem[..], tiles, first, base, Roots(), x);
      }
    }

    // ----- what the program does between allocations -----

    /** `set_field`, and `set_class`: replaces one reference of an object. */
    method StoreReference(o: int, k: nat, v: int, ghost i: nat)
      requires Valid() && i < |tiles| && !tiles[i].free && tiles[i].addr == o && ObjectTile(mem[..], tiles[i])
      requires k < |RefsOf(mem[..], tiles[i])| && Known(v, Addresses(tiles), base, mem.Length)
      modifies mem
      ensures Valid()
      ensures HeapGraphOf(mem[..], tiles, base)
           == old(HeapGraphOf(mem[..], tiles, base))[o := old(RefsOf(mem[..], tiles[i]))[k := v]]
      ensures o + 5 + k < mem.Length && mem[..] == old(mem[..])[o + 5 + k := v]
    {
      hide Tiled, LinksOk, SizesOk, NextFree, Objects, FreeWords, Unmarked, RefsKnown, HeapGraphOf, Addresses,
        ObjectTiles;
      ghost var m := mem[..];
      StoreSound(m, tiles, first, base, Roots(), i, k, v);
      mem[o + CLASS_WORD + k] := v;
      assert mem[..] == m[o + CLASS_WORD + k := v];
    }

    /** `set_number_of_fields`: the object has n fields, all nil. */
    method SetNumberOfFields(o: int, n: nat, nil: int, ghost i: nat)
      requires Valid() && i < |tiles| && !tiles[i].free && tiles[i].addr == o && OBJECT_HEADER + n <= tiles[i].size
      requires Known(nil, Addresses(tiles), base, mem.Length)
      modifies mem
      ensures Valid() && o in old(HeapGraphOf(mem[..], tiles, base)) && |old(HeapGraphOf(mem[..], tiles, base))[o]| > 0
      ensures HeapGraphOf(mem[..], tiles, base)
           == var g := old(HeapGraphOf(mem[..], tiles, base)); g[o := [g[o][0]] + seq(n, j => nil)]
      ensures o + 6 + n <= mem.Length && forall k | 0 <= k < mem.Length ::
                mem[k] == if k == o + 4 then n else if o + 6 <= k < o + 6 + n then nil else old(mem[..])[k]
    {
      hide Tiled, LinksOk, SizesOk, NextFree, Objects, FreeWords, Unmarked, RefsKnown, HeapGraphOf, Addresses,
        ObjectTiles;
      ghost var m := mem[..];
      ghost var tile := tiles[i];
      RefsAreKnown(m, tiles, first, base, Roots(), i);
      GraphOfTile(m, tiles, base, i);
      mem[o + COUNT_WORD] := n;
      for j := 0 to n
        invariant OnlyFields(m, mem[..], tile) && mem[o + COUNT_WORD] == n && mem[o + CLASS_WORD] == m[o + CLASS_WORD]
        invariant forall k | 0 <= k < mem.Length ::
                    mem[k] == if k == o + 4 then n else if o + 6 <= k < o + 6 + j then nil else m[k]
      {
        mem[o + OBJECT_HEADER + j] := nil;
      }
      NilFields(mem[..], tile, n, nil);
      FieldsSound(m, mem[..], tiles, first, base, Roots(), i);
    }

    /** `Universe_set_global`, as the collector sees it: the put takes a hole of the dictionary. */
    method SetGlobal(slot: nat, name: int, value: int)
      requires Valid() && slot < |globals| && globals[slot] == None
      requires Known(name, Addresses(tiles), base, mem.Length) && Known(value, Addresses(tiles), base, mem.Length)
      modifies this`globals
      ensures Valid() && globals == old(globals)[slot := Some((name, value))]
      ensures forall r :: r in Roots() <==> r in old(Roots()) || r == name || r == value
    {
      hide Sound, GlobalRoots, Addresses, FreeWords;
      SlotRoots(globals, slot, name, value);
      ghost var roots, current := Roots(), if frame == 0 then [] else [frame];
      assert roots == GlobalRoots(globals) + current;
      globals := globals[slot := Some((name, value))];
      assert Roots() == GlobalRoots(globals) + current;
      OtherRoots(mem[..], tiles, first, base, roots, Roots());
    }

    /** A new table for the dictionary, with the elements of the old one. */
    method MoveGlobals(elements: seq<Option<(int, int)>>)
      requires Valid() && forall r :: r in GlobalRoots(elements) <==> r in GlobalRoots(globals)
      modifies this`globals
      ensures Valid() && globals == elements
      ensures forall r :: r in Roots() <==> r in old(Roots())
    {
      hide Sound, GlobalRoots, Addresses, FreeWords;
      ghost var roots := Roots();
      globals := elements;
      OtherRoots(mem[..], tiles, first, base, roots, Roots());
    }

    method SetFrame(f: int)
      requires Valid() && (f == 0 || Known(f, Addresses(tiles), base, mem.Length))
      modifies this`frame
      ensures Valid() && frame == f
      ensures f != 0 ==> f in Roots()
      ensures forall r | r != f && r != old(frame) :: r in Roots() <==> r in old(Roots())
      ensures forall r | r in Roots() && r != f ::
                exists i | 0 <= i < |globals| ::
                  globals[i].Some? && (r == globals[i].value.0 || r == globals[i].value.1)
    {
      hide Sound, GlobalRoots, Addresses, FreeWords;
      ghost var roots := Roots();
      frame := f;
      forall r | r in Roots() && r != f
        ensures exists i | 0 <= i < |globals| ::
                  globals[i].Some? && (r == globals[i].value.0 || r == globals[i].value.1)
      {
        RootsAre(r);
      }
      OtherRoots(mem[..], tiles, first, base, roots, Roots());
    }

    /** Every word of the heap belongs to an object or to the free space. */
    lemma NothingLost()
      requires Valid()
      ensures freeSize + ObjectWords(tiles) == mem.Length - base
      ensures first == 0 <==> freeSize == 0
    {
      WordsConserved(tiles, base, mem.Length);
      assert tiles[0..] == tiles;
      NextFreeZero(tiles, base, mem.Length);
      SomeFreeWords(tiles, base, mem.Length);
    }
  }

  lemma {:induction false} SomeFreeWords(t: seq<Tile>, lo: int, hi: int)
    requires Tiled(t, lo, hi)
    ensures FreeWords(t) >= 0 && (FreeWords(t) == 0 <==> NoFree(t))
    decreases |t|
  {
    if t != [] {
      SomeFreeWords(t[1..], t[0].End(), hi);
      assert forall i | 0 <= i < |t[1..]| :: t[1..][i] == t[i + 1];
      assert forall i | 1 <= i < |t| :: t[i] == t[1..][i - 1];
    }
  }

  /** An allocation leaves no free entry, and so no heap to collect, exactly when it takes the whole
      of the only one. */
  lemma ListExhausted(t: seq<Tile>, e: nat, size: int)
    requires FirstFit(t, e, size)
    ensures NoFree(Taken(t, e, size)) <==> t[e].size == size && forall i | 0 <= i < |t| && i != e :: !t[i].free
  {
    var s := Taken(t, e, size);
    if t[e].size == size {
      assert forall i | 0 <= i < |t| && i != e :: s[i] == t[i];
    } else {
      assert s[e + 1].free;
    }
  }

  /** Filling a hole adds its name and value to the roots. */
  lemma SlotRoots(globals: seq<Option<(int, int)>>, slot: nat, name: int, value: int)
    requires slot < |globals| && globals[slot] == None
    ensures forall r :: r in GlobalRoots(globals[slot := Some((name, value))]) <==>
                        r in GlobalRoots(globals) || r == name || r == value
  {
    var a, b := globals[..slot], globals[slot + 1..];
    var x: Option<(int, int)> := Some((name, value));
    assert globals == a + ([None] + b) && globals[slot := x] == a + ([x] + b);
    GlobalRootsConcat(a, [None] + b);
    GlobalRootsConcat(a, [x] + b);
    assert ([x] + b)[1..] == b && ([None] + b)[1..] == b;
  }

  lemma GraphOfTile(m: seq<int>, t: seq<Tile>, base: int, i: nat)
    requires Tiled(t, base, |m|) && ObjectTiles(m, t) && i < |t| && !t[i].free
    ensures ObjectTile(m, t[i]) && t[i].addr in Addresses(t)
    ensures HeapGraphOf(m, t, base)[t[i].addr] == RefsOf(m, t[i])
    ensures |RefsOf(m, t[i])| > 0 && RefsOf(m, t[i])[0] == m[t[i].addr + CLASS_WORD]
  {
    ObjectsMembers(t);
    GraphAt(m, t, base, t[i]);
  }

  /** A heap of one entry, given away whole: the list is empty, and the next allocation dereferences
      its head. */
  method Exhaustion(base: int, words: nat) returns (all: Allocation, next: Allocation)
    requires 1 <= base && base + OBJECT_HEADER <= words
    ensures all == Allocated(base) && next == NullDereference
  {
    hide Tiled, LinksOk, SizesOk, ObjectTiles, Unmarked, RefsKnown, Collected, SameWords, Blank, FreeWords, NextFree,
      FirstFit, Fits, Taken, Objects, NoFree;
    var h := new Heap(base, words);
    ghost var s, e, s', e';
    ghost var t := h.tiles;
    AlignedWords(words - base);
    all, s, e := h.AllocateObject((words - base) * WORD_BYTES);
    WholeEntry(t, base, words - base);
    NothingFree(h.mem[..], h.tiles, h.first, base);
    next, s', e' := h.Allocate(ENTRY_HEADER);
  }

  lemma WholeEntry(t: seq<Tile>, base: int, size: int)
    requires t == [Tile(base, size, true)]
    ensures Fits(t[0], size) && Taken(t, 0, size) == [Tile(base, size, false)]
    ensures forall e: nat | FirstFit(t, e, size) :: e == 0
    ensures NoFree(Taken(t, 0, size))
  {
  }

  lemma NothingFree(m: seq<int>, t: seq<Tile>, first: int, base: int)
    requires Layout(m, t, first, base, 0) && NoFree(t)
    ensures first == 0
  {
    NoFreeNext(t);
  }

  lemma AlignedWords(n: nat)
    ensures Aligned(n * WORD_BYTES) == n * WORD_BYTES && Aligned(n * WORD_BYTES) / WORD_BYTES == n
  {
  }

  lemma AlignedBounds(bytes: nat)
    ensures Aligned(bytes) == Aligned(bytes) / WORD_BYTES * WORD_BYTES
    ensures Aligned(bytes) / WORD_BYTES == 0 <==> bytes == 0
    ensures Aligned(bytes) / WORD_BYTES < ENTRY_HEADER <==> bytes <= WORD_BYTES
    ensures Aligned(bytes) / WORD_BYTES == (bytes + 7) / 8
  {
  }

  /** Writing the size word leaves the older objects alone. */
  lemma BlankWritten(m0: seq<int>, m: seq<int>, n: seq<int>, t0: seq<Tile>, t: seq<Tile>, base: int, e: nat,
                     size: int, a: int)
    requires FirstFit(t0, e, size) && t == Taken(t0, e, size) && a == t0[e].addr && OBJECT_HEADER <= size
    requires Tiled(t0, base, |m0|)
    requires SameWords(m0, m, Objects(t0)) && 0 <= a && a + size <= |m| && n == m[a + SIZE_WORD := size]
    requires forall k | a <= k < a + size :: m[k] == 0
    ensures SameWords(m0, n, Objects(t0)) && Blank(n, Tile(a, size, false))
    ensures forall o :: o in Objects(t) <==> o in Objects(t0) || o == Tile(a, size, false)
  {
    hide Taken, Tiled, Objects;
    FitsInside(t0, e, size);
    ObjectsMembers(t0);
    forall o | o in Objects(t0)
      ensures SameTile(m0, n, o)
    {
      var j :| 0 <= j < |t0| && t0[j] == o;
      TilesApart(t0, base, |m0|, j, e);
      assert SameTile(m0, m, o);
    }
    TakenMembers(t0, e, size);
  }

  lemma TakenMembers(t: seq<Tile>, e: nat, size: int)
    requires FirstFit(t, e, size)
    ensures forall o :: o in Objects(Taken(t, e, size)) <==> o in Objects(t) || o == Tile(t[e].addr, size, false)
  {
    hide Taken, Objects;
    TakenObjects(t, e, size);
  }

  function GlobalRoots(globals: seq<Option<(int, int)>>): seq<int> {
    if globals == [] then []
    else (if globals[0].None? then [] else [globals[0].value.0, globals[0].value.1]) + GlobalRoots(globals[1..])
  }

  lemma {:induction false} GlobalRootsConcat(a: seq<Option<(int, int)>>, b: seq<Option<(int, int)>>)
    ensures GlobalRoots(a + b) == GlobalRoots(a) + GlobalRoots(b)
    decreases |a|
  {
    if a == [] {
      assert a + b == b;
    } else {
      assert (a + b)[1..] == a[1..] + b;
      GlobalRootsConcat(a[1..], b);
    }
  }

  lemma GlobalRootsNext(globals: seq<Option<(int, int)>>, i: nat)
    requires i < |globals|
    ensures GlobalRoots(globals[..i + 1]) ==
              GlobalRoots(globals[..i]) + if globals[i].None? then [] else [globals[i].value.0, globals[i].value.1]
    ensures forall r | r in GlobalRoots(globals[..i + 1]) :: r in GlobalRoots(globals)
  {
    hide GlobalRoots;
    var a, b := globals[..i], globals[i + 1..];
    assert globals[..i + 1] == a + [globals[i]];
    assert globals == (a + [globals[i]]) + b;
    GlobalRootsOne(globals[i]);
    GlobalRootsConcat(a, [globals[i]]);
    GlobalRootsConcat(a + [globals[i]], b);
  }

  lemma {:induction false} GlobalRootsMembers(globals: seq<Option<(int, int)>>, r: int)
    ensures r in GlobalRoots(globals) <==>
              exists i | 0 <= i < |globals| :: globals[i].Some? && (r == globals[i].value.0 || r == globals[i].value.1)
    decreases |globals|
  {
    if globals != [] {
      var more := globals[1..];
      GlobalRootsMembers(more, r);
      assert forall i | 0 <= i < |more| :: more[i] == globals[i + 1];
      assert forall i | 1 <= i < |globals| :: globals[i] == more[i - 1];
    }
  }

  lemma SweptIs(m0: seq<int>, m: seq<int>, t: seq<Tile>, live: set<int>, first: int, base: int)
    requires Sweeping(m0, m, t, |t|, live, first, base)
    ensures var s := SweptTo(t, |t|, live);
            && (forall i | 0 <= i < |s| :: s[i] == Tile(t[i].addr, t[i].size, t[i].free || t[i].addr !in live))
            && |m| == |m0|
            && forall o, k | o in s && !o.free && o.addr <= k < o.End() && 0 <= k < |m| ::
                 m[k] == if k == o.addr + 2 then 0 else m0[k]
  {
    hide Layout, Tiled;
    var s := SweptTo(t, |t|, live);
    forall o, k | o in s && !o.free && o.addr <= k < o.End() && 0 <= k < |m|
      ensures m[k] == if k == o.addr + 2 then 0 else m0[k]
    {
      var i :| 0 <= i < |s| && s[i] == o;
      assert SweptTile(m0, m, t[i], true);
    }
  }

  lemma MergedIs(m: seq<int>, t: seq<Tile>, n: seq<int>, t': seq<Tile>)
    requires Objects(t') == Objects(t) && SameWords(m, n, Objects(t)) && NoAdjacentFree(t', |t'|)
    ensures |n| == |m| && forall i | 0 <= i < |t'| - 1 :: !t'[i].free || !t'[i + 1].free
    ensures forall o: Tile | !o.free :: o in t' <==> o in t
    ensures forall o, k | o in t' && !o.free && o.addr <= k < o.End() && 0 <= k < |n| :: n[k] == m[k]
  {
    ObjectsMembers(t);
    ObjectsMembers(t');
    hide Objects;
  }

  lemma MarkStart(m: seq<int>, objs: set<int>, g: Graph)
    requires ObjectsOk(m, objs) && Marked(m, objs) == {}
    ensures OnlyMarks(m, m, objs) && GlobalRoots([]) == []
    ensures ClosedSince(g, {}, Marked(m, objs)) && ReachedSince(g, {}, Marked(m, objs), [])
  {
  }

  lemma MarkedSubset(m: seq<int>, objs: set<int>, g: Graph)
    requires ObjectsOk(m, objs) && GraphOf(m, objs) == g
    ensures Marked(m, objs) <= g.Keys == objs
  {
  }

  lemma GlobalRootsOne(global: Option<(int, int)>)
    ensures GlobalRoots([global]) == if global.None? then [] else [global.value.0, global.value.1]
  {
    assert [global][1..] == [];
  }
}

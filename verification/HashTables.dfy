/** The virtual machine's hash tables: Hashmap.c, and StringHashmap.c for string keys. */
module HashTables {
  import opened Common
  import opened Probing

  const HASHMAP_DEFAULT_SIZE: nat := 101

  const PRIMES: seq<nat> := [
    2, 3, 5, 7, 11, 13, 17, 19, 23, 29, 31, 37, 41, 43, 47, 53, 59, 61, 67, 71, 73, 79, 83, 89, 97,
    101, 103, 107, 109, 113, 127, 131, 137, 139, 149, 151, 157, 163, 167, 173, 179, 181, 191, 193, 197,
    199, 211, 223, 227, 229, 233, 239, 241, 251, 257, 263, 269, 271, 277, 281, 283, 293, 307, 311, 313,
    317, 331, 337, 347, 349, 353, 359, 367, 373, 379, 383, 389, 397, 401, 409, 419, 421, 431, 433, 439,
    443, 449, 457, 461, 463, 467, 479, 487, 491, 499, 503, 509, 521, 523, 541, 547, 557, 563, 569, 571,
    577, 587, 593, 599, 601, 607, 613, 617, 619, 631, 641, 643, 647, 653, 659, 661, 673, 677, 683, 691,
    701, 709, 719, 727, 733, 739, 743, 751, 757, 761, 769, 773, 787, 797, 809, 811, 821, 823, 827, 829,
    839, 853, 857, 859, 863, 877, 881, 883, 887, 907, 911, 919, 929, 937, 941, 947, 953, 967, 971, 977,
    983, 991, 997, 1009, 1013, 1019, 1021, 1031, 1033, 1039, 1049, 1051, 1061, 1063, 1069, 1087, 1091,
    1093, 1097, 1103, 1109, 1117, 1123, 1129, 1151, 1153, 1163, 1171, 1181, 1187, 1193, 1201, 1213,
    1217, 1223, 1229, 1231, 1237, 1249, 1259, 1277, 1279, 1283, 1289, 1291, 1297, 1301, 1303, 1307,
    1319, 1321, 1327, 1361, 1367, 1373, 1381, 1399, 1409, 1423, 1427, 1429, 1433, 1439, 1447, 1451,
    1453, 1459, 1471, 1481, 1483, 1487, 1489, 1493, 1499, 1511, 1523, 1531, 1543, 1549, 1553, 1559,
    1567, 1571, 1579, 1583, 1597, 1601, 1607, 1609, 1613, 1619, 1621, 1627, 1637, 1657, 1663, 1667,
    1669, 1693, 1697, 1699, 1709, 1721, 1723, 1733, 1741, 1747, 1753, 1759, 1777, 1783, 1787, 1789,
    1801, 1811, 1823, 1831, 1847, 1861, 1867, 1871, 1873, 1877, 1879, 1889, 1901, 1907, 1913, 1931,
    1933, 1949, 1951, 1973, 1979, 1987, 1993, 1997, 1999
  ]

  const PRIME_COUNT: nat := 303

  lemma PrimesCounted()
    ensures |PRIMES| == PRIME_COUNT
  {
  }

  ghost predicate IsFirstPrime(i: int, k: nat, p: nat) {
    0 <= i < |PRIMES| && p == PRIMES[i] >= k && forall j | 0 <= j < i :: PRIMES[j] < k
  }

  /** The first listed prime that is no less than k, or k when there is none. */
  method NextPrimeOrNumber(k: nat) returns (p: nat)
    ensures p >= k
    ensures (p == k && forall j | 0 <= j < |PRIMES| :: PRIMES[j] < k) ||
            exists i :: IsFirstPrime(i, k, p)
  {
    hide PRIMES;
    PrimesCounted();
    for i := 0 to PRIME_COUNT
      invariant forall j | 0 <= j < i :: PRIMES[j] < k
    {
      if PRIMES[i] >= k {
        assert IsFirstPrime(i, k, PRIMES[i]);
        return PRIMES[i];
      }
    }
    return k;
  }

  class Hashmap<K(==, !new), V> {
    const hash: K -> nat
    var elems: array<Option<Entry<K, V>>>
    var size: nat

    ghost predicate Valid()
      reads this, elems
    {
      size == elems.Length && NoHoles(elems[..], hash)
    }

    /** What the table holds for a key. */
    ghost function At(key: K): Option<V>
      requires Valid()
      reads this, elems
    {
      Lookup(elems[..], hash, key)
    }

    ghost function Contents(): map<K, V>
      requires Valid()
      reads this, elems
    {
      AsMap(elems[..], hash)
    }

    ghost predicate Full()
      reads this, elems
    {
      Count(elems[..]) == elems.Length
    }

    constructor (hash: K -> nat, size: nat)
      requires size > 0
      ensures Valid() && fresh(elems) && this.hash == hash && this.size == size == elems.Length
      ensures Distinct(elems[..]) && forall key :: At(key) == None
    {
      this.hash, this.size := hash, size;
      elems := new Option<Entry<K, V>>[size](_ => None);
      new;
      forall key
        ensures At(key) == None
      {
        LookupExact(elems[..], hash, key);
      }
    }

    /** Probes from a slot on. */
    method PrimitiveGet(key: K, start: nat) returns (r: Option<V>)
      requires Valid() && start < size
      ensures r == Find(elems[..], key, start, 0)
    {
      var slot := start;
      ghost var j := 0;
      ghost var t := elems[..];
      while true
        invariant j < |t| && slot == Slot(start, j, |t|) && Find(t, key, start, 0) == Find(t, key, start, j)
        decreases |t| - j
      {
        if elems[slot].None? {
          return None;
        }
        if elems[slot].value.key == key {
          return Some(elems[slot].value.value);
        }
        slot := slot + 1;
        if slot == size {
          slot := 0;
        }
        j := j + 1;
        if slot == start {
          return None;
        }
      }
    }

    /** The value under the key, if there is one. */
    method Get(key: K) returns (r: Option<V>)
      requires Valid()
      ensures r == At(key)
      ensures r.Some? <==> Contains(elems[..], key)
      ensures r.Some? <==> exists j :: FirstAt(elems[..], hash, key, j)
      ensures forall j | FirstAt(elems[..], hash, key, j) ::
                r == Some(elems[Probed(hash(key), j, elems.Length)].value.value)
    {
      LookupExact(elems[..], hash, key);
      LookupIs(elems[..], hash, key);
      r := PrimitiveGet(key, Home(hash(key), size));
    }

    method ContainsKey(key: K) returns (b: bool)
      requires Valid()
      ensures b <==> Contains(elems[..], key)
    {
      var r := Get(key);
      b := r.Some?;
    }

    /** Takes the first hole from a slot on, if there is one. */
    method AttemptPut(elem: Entry<K, V>, start: nat) returns (done: bool)
      requires Valid() && start == Home(hash(elem.key), size)
      modifies elems
      ensures done <==> Count(old(elems[..])) < elems.Length
      ensures !done ==> elems[..] == old(elems[..])
      ensures done ==> exists j :: HoleAfter(old(elems[..]), start, j) &&
                         elems[..] == old(elems[..])[Slot(start, j, elems.Length) := Some(elem)]
      ensures Valid()
    {
      var slot := start;
      ghost var j := 0;
      ghost var t := elems[..];
      while true
        invariant j < |t| && slot == Slot(start, j, |t|) && TakenBefore(t, start, j) && elems[..] == t
        decreases |t| - j
      {
        if elems[slot].Some? {
          slot := slot + 1;
          if slot == size {
            slot := 0;
          }
          j := j + 1;
        } else {
          HoleCounts(t, slot);
          elems[slot] := Some(elem);
          assert HoleAfter(t, start, j) && elems[..] == t[Slot(start, j, |t|) := Some(elem)];
          FillKeeps(t, hash, elem, j);
          return true;
        }
        if slot == start {
          AllTaken(t, start);
          return false;
        }
      }
    }

    /** Moves every element to a larger table, in the order of the slots. */
    method Rehash(newSize: nat)
      requires Valid() && newSize > Count(elems[..])
      modifies this, elems
      ensures Valid() && fresh(elems) && size == newSize && Count(elems[..]) == old(Count(elems[..]))
      ensures forall key :: At(key) == Lowest(old(elems[..]), key)
      ensures old(Distinct(elems[..])) ==> Distinct(elems[..])
    {
      var oldSize, oldElems := size, elems;
      size := newSize;
      elems := new Option<Entry<K, V>>[newSize](_ => None);
      ghost var t0 := oldElems[..];
      MovedNone(elems[..], hash, t0);
      for i := 0 to oldSize
        invariant size == elems.Length == newSize && fresh(elems) && elems != oldElems &&
                  oldElems.Length == oldSize == |t0|
        invariant forall k | i <= k < oldSize :: oldElems[k] == t0[k]
        invariant Moved(elems[..], hash, t0, i) && (Distinct(t0) ==> Distinct(elems[..]))
        modifies elems, oldElems
      {
        if oldElems[i].Some? {
          MoveOne(oldElems, i, t0);
        } else {
          MovedSkip(elems[..], hash, t0, i);
        }
      }
      assert t0[..oldSize] == t0;
      forall key
        ensures At(key) == Lowest(t0, key)
      {
        assert MovedKey(elems[..], hash, t0, key);
      }
    }

    /** One step of a rehash.  The new table cannot be full. */
    method MoveOne(oldElems: array<Option<Entry<K, V>>>, i: nat, ghost t0: Slots<K, V>)
      requires size == elems.Length > Count(t0) && elems != oldElems && oldElems.Length == |t0| && i < |t0|
      requires oldElems[i].Some? && oldElems[i] == t0[i] && Moved(elems[..], hash, t0, i) &&
               (Distinct(t0) ==> Distinct(elems[..]))
      modifies elems, oldElems
      ensures Moved(elems[..], hash, t0, i + 1) && (Distinct(t0) ==> Distinct(elems[..]))
      ensures oldElems[..] == old(oldElems[..])[i := None]
    {
      CountPrefix(t0, i);
      ghost var t := elems[..];
      var e := oldElems[i].value;
      var done := AttemptPut(e, Home(hash(e.key), size));
      if !done {
        assert false;
      } else {
        ghost var j :| HoleAfter(t, Home(hash(e.key), size), j) &&
                       elems[..] == t[Slot(Home(hash(e.key), size), j, |t|) := Some(e)];
        MovedNext(t, hash, t0, i, j);
        if Distinct(t0) {
          MovedDistinct(t, hash, t0, i, Slot(Home(hash(e.key), size), j, |t|));
        }
        oldElems[i] := None;
      }
    }

    /** What a lookup yields once a full table has been rehashed. */
    ghost function Before(key: K): Option<V>
      requires Valid()
      reads this, elems
    {
      if Full() then Lowest(elems[..], key) else At(key)
    }

    /** A put changes no other lookup if and only if it need not rehash, or the rehash changes none. */
    lemma PutKeepsExact()
      requires Valid()
      ensures elems.Length > 0
      ensures (forall k :: Before(k) == At(k)) <==> !Full() || forall k :: Agree(elems[..], hash, k)
    {
      hide NoHoles, Lowest, Lookup, Agree, Count;
      NotEmpty(elems[..], hash);
      forall k
        ensures Full() ==> (Before(k) == At(k) <==> Agree(elems[..], hash, k))
      {
        AgreeExact(elems[..], hash, k);
      }
    }

    /** `primitivePut` and `put`: never fails.  A key that is present is not overwritten. */
    method Put(key: K, value: V)
      requires Valid()
      modifies this, elems
      ensures Valid() && (elems == old(elems) || fresh(elems))
      ensures forall k :: At(k) == if k == key && old(Before(k)) == None then Some(value) else old(Before(k))
      ensures Count(elems[..]) == old(Count(elems[..])) + 1
      ensures !old(Full()) ==>
                elems == old(elems) &&
                var home := Home(hash(key), elems.Length);
                exists j :: HoleAfter(old(elems[..]), home, j) &&
                  elems[..] == old(elems[..])[Slot(home, j, elems.Length) := Some(Entry(key, value))]
      ensures !old(Full()) ==> exists j | 0 <= j < elems.Length ::
                && old(elems[..])[Probed(hash(key), j, elems.Length)].None?
                && (forall i | 0 <= i < j :: old(elems[..])[Probed(hash(key), i, elems.Length)].Some?)
                && elems[..] == old(elems[..])[Probed(hash(key), j, elems.Length) := Some(Entry(key, value))]
      ensures old(Full()) ==>
                elems.Length == 2 * old(elems.Length) + 1 ||
                exists i | 0 <= i < |PRIMES| ::
                  && elems.Length == PRIMES[i] >= 2 * old(elems.Length) + 1
                  && forall j | 0 <= j < i :: PRIMES[j] < 2 * old(elems.Length) + 1
      ensures old(Distinct(elems[..]) && At(key) == None) ==>
                Distinct(elems[..]) && Contents() == old(Contents())[key := value]
    {
      hide Find, Count, Lowest, Distinct, NoHoles, HoleAfter, PRIMES, Lookup;
      var elem := Entry(key, value);
      ghost var t := elems[..];
      NotEmpty(t, hash);
      if Distinct(t) {
        DistinctLowest(t, hash, key);
      }
      var done := AttemptPut(elem, Home(hash(key), size));
      if done {
        PutEffect(t, elem);
        Placed(t, elem);
      } else {
        CountAtMost(t);
        var newSize := NextPrimeOrNumber(size * 2 + 1);
        Rehash(newSize);
        ghost var t' := elems[..];
        done := AttemptPut(elem, Home(hash(key), size));
        if !done {
          assert false;
        }
        PutEffect(t', elem);
      }
      if Distinct(t) && Lookup(t, hash, key) == None {
        forall k
          ensures At(k) == if k == key then Some(value) else Lookup(t, hash, k)
        {
          DistinctLowest(t, hash, k);
        }
        MapPut(t, elems[..], hash, key, value);
      }
    }

    lemma PutEffect(t: Slots<K, V>, e: Entry<K, V>)
      requires Valid() && NoHoles(t, hash) && |t| == elems.Length
      requires exists j :: HoleAfter(t, Home(hash(e.key), size), j) &&
                 elems[..] == t[Slot(Home(hash(e.key), size), j, elems.Length) := Some(e)]
      ensures forall k ::
                At(k) == if k == e.key && Lookup(t, hash, k) == None then Some(e.value) else Lookup(t, hash, k)
      ensures Count(elems[..]) == Count(t) + 1
      ensures Distinct(t) && Lookup(t, hash, e.key) == None ==> Distinct(elems[..])
    {
      var j :| HoleAfter(t, Home(hash(e.key), size), j) &&
        elems[..] == t[Slot(Home(hash(e.key), size), j, elems.Length) := Some(e)];
      CountFill(t, Slot(Home(hash(e.key), size), j, |t|), e);
      LookupExact(t, hash, e.key);
      forall k
        ensures At(k) == if k == e.key && Lookup(t, hash, k) == None then Some(e.value) else Lookup(t, hash, k)
      {
        FillLookup(t, hash, e, j, k);
      }
      if Distinct(t) && Lookup(t, hash, e.key) == None {
        FillDistinct(t, Slot(Home(hash(e.key), size), j, |t|), e);
      }
    }

    /** A put fills the first hole among the slots at hash, hash + 1, ... */
    lemma Placed(t: Slots<K, V>, e: Entry<K, V>)
      requires |t| == elems.Length > 0
      requires exists j :: HoleAfter(t, Home(hash(e.key), |t|), j) &&
                 elems[..] == t[Slot(Home(hash(e.key), |t|), j, |t|) := Some(e)]
      ensures exists j | 0 <= j < |t| ::
                && t[Probed(hash(e.key), j, |t|)].None?
                && (forall i | 0 <= i < j :: t[Probed(hash(e.key), i, |t|)].Some?)
                && elems[..] == t[Probed(hash(e.key), j, |t|) := Some(e)]
    {
      var j :| HoleAfter(t, Home(hash(e.key), |t|), j) &&
               elems[..] == t[Slot(Home(hash(e.key), |t|), j, |t|) := Some(e)];
      HoleIs(t, hash(e.key), j);
      hide HoleAfter;
    }

    method Clear()
      requires Valid()
      modifies elems
      ensures Valid() && forall key :: At(key) == None
      ensures Distinct(elems[..])
    {
      for i := 0 to size
        invariant forall j | 0 <= j < i :: elems[j] == None
      {
        elems[i] := None;
      }
      forall key
        ensures At(key) == None
      {
        LookupExact(elems[..], hash, key);
      }
    }
  }

  /** A table as it is made by puts on a new table of the default size, all keys at home in the last
      slot: the first put takes that slot, the others wrap around. */
  ghost predicate Wrapped(t: Slots<int, int>, n: nat) {
    && |t| == HASHMAP_DEFAULT_SIZE && n <= |t|
    && (forall j | 0 <= j < |t| :: t[Slot(100, j, |t|)].Some? <==> j < n)
    && (n > 1 ==> t[0] == Some(Entry(0, 20)))
  }

  /** Such a put takes the next slot. */
  lemma WrappedNext(t: Slots<int, int>, n: nat, j: nat, e: Entry<int, int>)
    requires Wrapped(t, n) && n < |t| && HoleAfter(t, 100, j)
    requires n == 1 ==> e == Entry(0, 20)
    ensures j == n && Wrapped(t[Slot(100, j, |t|) := Some(e)], n + 1)
  {
    assert !t[Slot(100, j, |t|)].Some? && j >= n;
    if j > 0 {
      assert t[Slot(100, j - 1, |t|)].Some?;
    }
  }

  /** Two puts of the key 0 fill the last slot and, around the end, the first; the put that finds the
      table full rehashes it in slot order.  Then the second value is found. */
  method RehashReordersDuplicates() returns (before: Option<int>, after: Option<int>)
    ensures before == Some(10) && after == Some(20)
  {
    hide NoHoles, Lookup, PRIMES, TakenBefore, Count, Lowest, Wrapped, Distinct;
    var h := new Hashmap<int, int>(LastSlot, HASHMAP_DEFAULT_SIZE);
    forall key
      ensures Lookup(h.elems[..], LastSlot, key) == None
    {
      assert h.At(key) == None;
    }
    WrappedNone(h.elems[..]);
    for n := 0 to HASHMAP_DEFAULT_SIZE
      invariant h.Valid() && h.hash == LastSlot && fresh(h) && fresh(h.elems)
      invariant Wrapped(h.elems[..], n) && Count(h.elems[..]) == n
      invariant h.At(0) == if n == 0 then None else Some(10)
    {
      ghost var t := h.elems[..];
      WrappedSize(t, n);
      var key, value := if n < 2 then 0 else n, if n == 0 then 10 else if n == 1 then 20 else 30;
      h.Put(key, value);
      ghost var j :| HoleAfter(t, 100, j) && h.elems[..] == t[Slot(100, j, |t|) := Some(Entry(key, value))];
      WrappedNext(t, n, j, Entry(key, value));
    }
    before := h.Get(0);
    WrappedSize(h.elems[..], HASHMAP_DEFAULT_SIZE);
    SecondLowest(h.elems[..]);
    h.Put(HASHMAP_DEFAULT_SIZE, 30);
    after := h.Get(0);
  }

  function LastSlot(key: int): nat {
    100
  }

  lemma WrappedNone(t: Slots<int, int>)
    requires |t| == HASHMAP_DEFAULT_SIZE && NoHoles(t, LastSlot)
    requires forall key :: Lookup(t, LastSlot, key) == None
    ensures Wrapped(t, 0) && Count(t) == 0
  {
    forall i | 0 <= i < |t|
      ensures t[i] == None
    {
      if t[i].Some? {
        assert Holds(t, i, t[i].value.key);
        LookupExact(t, LastSlot, t[i].value.key);
      }
    }
    CountNone(t);
  }

  lemma WrappedSize(t: Slots<int, int>, n: nat)
    requires Wrapped(t, n)
    ensures |t| == HASHMAP_DEFAULT_SIZE && Home(100, |t|) == 100
  {
  }

  lemma SecondLowest(t: Slots<int, int>)
    requires Wrapped(t, HASHMAP_DEFAULT_SIZE)
    ensures Lowest(t, 0) == Some(20)
  {
  }
}

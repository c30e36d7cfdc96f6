/** Open addressing with linear probing: what a table of slots means, and what filling a slot does. */
module Probing {
  import opened Common

  datatype Entry<+K, +V> = Entry(key: K, value: V)

  type Slots<+K, +V> = seq<Option<Entry<K, V>>>

  /** `hashf`: the home slot of a hash value. */
  function Home(hash: nat, n: nat): (slot: nat)
    requires n > 0
    ensures slot < n
  {
    hash % n
  }

  /** The slot that is probed after j steps from start, wrapping around at the end. */
  function Slot(start: nat, j: nat, n: nat): (slot: nat)
    requires start < n && j < n
    ensures slot < n
  {
    if start + j < n then start + j else start + j - n
  }

  /** The j-th slot probed for a hash value, told without its home. */
  function Probed(hash: nat, j: nat, n: nat): (slot: nat)
    requires n > 0
    ensures slot < n
  {
    (hash + j) % n
  }

  lemma ProbedSlot(hash: nat, j: nat, n: nat)
    requires j < n
    ensures Slot(Home(hash, n), j, n) == Probed(hash, j, n)
  {
    var h, q := hash % n, hash / n;
    assert hash + j == q * n + (h + j);
    if h + j < n {
      Remainder(q, h + j, n);
    } else {
      assert q * n + (h + j) == (q + 1) * n + (h + j - n);
      Remainder(q + 1, h + j - n, n);
    }
  }

  lemma Remainder(q: nat, r: nat, n: nat)
    requires r < n
    ensures (q * n + r) % n == r
  {
    var x := q * n + r;
    var d := x / n - q;
    assert d * n == r - x % n;
    assert d == 0;
  }

  /** What a lookup finds, told of slots: the first of the slots at hash, hash + 1, ... that is empty or has
      the key; and in that slot, the value. */
  lemma LookupIs<K, V>(t: Slots<K, V>, hash: K -> nat, key: K)
    requires |t| > 0
    ensures Lookup(t, hash, key).Some? <==> exists j :: FirstAt(t, hash, key, j)
    ensures forall j | FirstAt(t, hash, key, j) ::
              Lookup(t, hash, key) == Some(t[Probed(hash(key), j, |t|)].value.value)
  {
    var h := Home(hash(key), |t|);
    if Lookup(t, hash, key).Some? {
      var d := FindFirst(t, hash, key, 0);
      assert FirstAt(t, hash, key, d);
    }
    forall j | FirstAt(t, hash, key, j)
      ensures Lookup(t, hash, key) == Some(t[Probed(hash(key), j, |t|)].value.value)
    {
      FindAt(t, hash, key, j, 0);
    }
  }

  /** The key is in the j-th slot from its hash on; the slots before that have other keys. */
  ghost predicate FirstAt<K, V>(t: Slots<K, V>, hash: K -> nat, key: K, j: nat) {
    && j < |t| && t[Probed(hash(key), j, |t|)].Some? && t[Probed(hash(key), j, |t|)].value.key == key
    && forall i: nat | i < j :: t[Probed(hash(key), i, |t|)].Some? && t[Probed(hash(key), i, |t|)].value.key != key
  }

  /** The first hole on the way, told of slots. */
  lemma HoleIs<K, V>(t: Slots<K, V>, hash: nat, j: nat)
    requires |t| > 0 && HoleAfter(t, Home(hash, |t|), j)
    ensures j < |t| && t[Probed(hash, j, |t|)].None? && Slot(Home(hash, |t|), j, |t|) == Probed(hash, j, |t|)
    ensures forall i: nat | i < j :: t[Probed(hash, i, |t|)].Some?
  {
    ProbedSlot(hash, j, |t|);
    forall i: nat | i < j
      ensures t[Probed(hash, i, |t|)].Some?
    {
      ProbedSlot(hash, i, |t|);
    }
  }

  lemma {:induction false} FindFirst<K, V>(t: Slots<K, V>, hash: K -> nat, key: K, j: nat) returns (d: nat)
    requires |t| > 0 && j <= |t| && Find(t, key, Home(hash(key), |t|), j).Some?
    requires forall i: nat | i < j ::
               t[Probed(hash(key), i, |t|)].Some? && t[Probed(hash(key), i, |t|)].value.key != key
    ensures FirstAt(t, hash, key, d)
    decreases |t| - j
  {
    ProbedSlot(hash(key), j, |t|);
    if t[Probed(hash(key), j, |t|)].value.key == key {
      d := j;
    } else {
      d := FindFirst(t, hash, key, j + 1);
    }
  }

  lemma {:induction false} FindAt<K, V>(t: Slots<K, V>, hash: K -> nat, key: K, j: nat, i: nat)
    requires |t| > 0 && FirstAt(t, hash, key, j) && i <= j
    ensures Find(t, key, Home(hash(key), |t|), i) == Some(t[Probed(hash(key), j, |t|)].value.value)
    decreases j - i
  {
    ProbedSlot(hash(key), i, |t|);
    if i < j {
      FindAt(t, hash, key, j, i + 1);
    }
  }

  /** How many steps lead from start to a slot. */
  function Distance(start: nat, slot: nat, n: nat): (j: nat)
    requires start < n && slot < n
    ensures j < n && Slot(start, j, n) == slot
  {
    if start <= slot then slot - start else slot + n - start
  }

  /** What probing from the j-th step on finds: the first entry for the key before any hole. */
  ghost function Find<K, V>(t: Slots<K, V>, key: K, start: nat, j: nat): Option<V>
    requires start < |t| && j <= |t|
    decreases |t| - j
  {
    if j == |t| then None
    else
      var e := t[Slot(start, j, |t|)];
      if e.None? then None
      else if e.value.key == key then Some(e.value.value)
      else Find(t, key, start, j + 1)
  }

  /** What the table holds for a key. */
  ghost function Lookup<K, V>(t: Slots<K, V>, hash: K -> nat, key: K): Option<V>
    requires |t| > 0
  {
    Find(t, key, Home(hash(key), |t|), 0)
  }

  ghost predicate Holds<K, V>(t: Slots<K, V>, i: int, key: K) {
    0 <= i < |t| && t[i].Some? && t[i].value.key == key
  }

  ghost predicate Contains<K, V>(t: Slots<K, V>, key: K) {
    exists i :: Holds(t, i, key)
  }

  /** The first `d` slots of a key's probe sequence are taken. */
  ghost predicate TakenBefore<K, V>(t: Slots<K, V>, start: nat, d: nat) {
    start < |t| && d <= |t| && forall j | 0 <= j < d :: t[Slot(start, j, |t|)].Some?
  }

  /** The probing invariant: no hole between an element and its home slot. */
  ghost predicate NoHoles<K, V>(t: Slots<K, V>, hash: K -> nat) {
    |t| > 0 && forall i | 0 <= i < |t| && t[i].Some? :: Reachable(t, hash, i)
  }

  ghost predicate Reachable<K, V>(t: Slots<K, V>, hash: K -> nat, i: nat)
    requires i < |t| && t[i].Some?
  {
    var start := Home(hash(t[i].value.key), |t|);
    TakenBefore(t, start, Distance(start, i, |t|))
  }

  /** The first hole on the way from start is j steps away. */
  ghost predicate HoleAfter<K, V>(t: Slots<K, V>, start: nat, j: nat) {
    TakenBefore(t, start, j) && j < |t| && t[Slot(start, j, |t|)].None?
  }

  // ----- lookup finds what is there -----

  /** Probing from step j on meets a key that is further on, if no hole comes first. */
  lemma {:induction false} FindMeets<K, V>(t: Slots<K, V>, key: K, start: nat, j: nat, d: nat)
    requires start < |t| && j <= d < |t| && TakenBefore(t, start, d) && Holds(t, Slot(start, d, |t|), key)
    ensures Find(t, key, start, j).Some?
    decreases d - j
  {
    if j < d {
      assert t[Slot(start, j, |t|)].Some?;
      FindMeets(t, key, start, j + 1, d);
    }
  }

  /** What probing finds is there. */
  lemma {:induction false} FindFound<K, V>(t: Slots<K, V>, key: K, start: nat, j: nat) returns (d: nat)
    requires start < |t| && j <= |t| && Find(t, key, start, j).Some?
    ensures j <= d < |t| && Holds(t, Slot(start, d, |t|), key)
    ensures t[Slot(start, d, |t|)].value.value == Find(t, key, start, j).value
    ensures forall i | j <= i < d :: t[Slot(start, i, |t|)].Some? && !Holds(t, Slot(start, i, |t|), key)
    decreases |t| - j
  {
    if Holds(t, Slot(start, j, |t|), key) {
      d := j;
    } else {
      d := FindFound(t, key, start, j + 1);
    }
  }

  lemma LookupExact<K, V>(t: Slots<K, V>, hash: K -> nat, key: K)
    requires NoHoles(t, hash)
    ensures Lookup(t, hash, key).Some? <==> Contains(t, key)
  {
    var start := Home(hash(key), |t|);
    if Contains(t, key) {
      var i :| Holds(t, i, key);
      assert Reachable(t, hash, i);
      FindMeets(t, key, start, 0, Distance(start, i, |t|));
    }
    if Lookup(t, hash, key).Some? {
      var d := FindFound(t, key, start, 0);
    }
  }

  // ----- filling a hole -----

  /** Filling the first hole on a key's way keeps the probing invariant. */
  lemma FillKeeps<K, V>(t: Slots<K, V>, hash: K -> nat, e: Entry<K, V>, j: nat)
    requires NoHoles(t, hash) && HoleAfter(t, Home(hash(e.key), |t|), j)
    ensures NoHoles(t[Slot(Home(hash(e.key), |t|), j, |t|) := Some(e)], hash)
  {
    var n := |t|;
    var start := Home(hash(e.key), n);
    var s := Slot(start, j, n);
    var t' := t[s := Some(e)];
    forall i | 0 <= i < n && t'[i].Some?
      ensures Reachable(t', hash, i)
    {
      if i != s {
        assert Reachable(t, hash, i);
      }
    }
  }

  /** A search that ends before any hole does not see a hole being filled. */
  lemma {:induction false} FindKept<K, V>(t: Slots<K, V>, key: K, start: nat, j: nat, s: nat, e: Entry<K, V>)
    requires start < |t| && j <= |t| && s < |t| && t[s].None? && Find(t, key, start, j).Some?
    ensures Find(t[s := Some(e)], key, start, j) == Find(t, key, start, j)
    decreases |t| - j
  {
    if !Holds(t, Slot(start, j, |t|), key) {
      FindKept(t, key, start, j + 1, s, e);
    }
  }

  /** The new entry is found where the search used to end in its hole. */
  lemma {:induction false} FindNew<K, V>(t: Slots<K, V>, start: nat, i: nat, j: nat, e: Entry<K, V>)
    requires start < |t| && i <= j && HoleAfter(t, start, j) && Find(t, e.key, start, i).None?
    ensures Find(t[Slot(start, j, |t|) := Some(e)], e.key, start, i) == Some(e.value)
    decreases j - i
  {
    if i < j {
      assert t[Slot(start, i, |t|)].Some?;
      SlotsDiffer(start, i, j, |t|);
      FindNew(t, start, i + 1, j, e);
    }
  }

  lemma SlotsDiffer(start: nat, i: nat, j: nat, n: nat)
    requires start < n && i < j < n
    ensures Slot(start, i, n) != Slot(start, j, n)
  {
  }

  /** Filling the first hole on the way adds the entry if its key was absent; a key that was present
      keeps its value. */
  lemma FillLookup<K, V>(t: Slots<K, V>, hash: K -> nat, e: Entry<K, V>, j: nat, key: K)
    requires NoHoles(t, hash) && HoleAfter(t, Home(hash(e.key), |t|), j)
    ensures Lookup(t[Slot(Home(hash(e.key), |t|), j, |t|) := Some(e)], hash, key)
         == if key == e.key && Lookup(t, hash, key).None? then Some(e.value) else Lookup(t, hash, key)
  {
    var start := Home(hash(e.key), |t|);
    var s := Slot(start, j, |t|);
    var t' := t[s := Some(e)];
    FillKeeps(t, hash, e, j);
    LookupExact(t, hash, key);
    LookupExact(t', hash, key);
    if Lookup(t, hash, key).Some? {
      FindKept(t, key, Home(hash(key), |t|), 0, s, e);
    } else if key == e.key {
      FindNew(t, start, 0, j, e);
    } else {
      assert forall i :: Holds(t', i, key) ==> Holds(t, i, key);
    }
  }

  // ----- counting -----

  function Count<K, V>(t: Slots<K, V>): nat {
    if t == [] then 0 else (if t[0].Some? then 1 else 0) + Count(t[1..])
  }

  lemma {:induction false} CountSplit<K, V>(a: Slots<K, V>, b: Slots<K, V>)
    ensures Count(a + b) == Count(a) + Count(b)
    decreases |a|
  {
    if a == [] {
      assert a + b == b;
    } else {
      assert (a + b)[1..] == a[1..] + b;
      CountSplit(a[1..], b);
    }
  }

  lemma CountFill<K, V>(t: Slots<K, V>, s: nat, e: Entry<K, V>)
    requires s < |t| && t[s].None?
    ensures Count(t[s := Some(e)]) == Count(t) + 1
  {
    var a, b := t[..s], t[s + 1..];
    assert t == a + ([t[s]] + b) && t[s := Some(e)] == a + ([Some(e)] + b);
    CountSplit(a, [t[s]] + b);
    CountSplit(a, [Some(e)] + b);
    assert ([t[s]] + b)[1..] == b && ([Some(e)] + b)[1..] == b;
  }

  lemma {:induction false} CountAtMost<K, V>(t: Slots<K, V>)
    ensures Count(t) <= |t|
    ensures Count(t) == |t| <==> forall i | 0 <= i < |t| :: t[i].Some?
    decreases |t|
  {
    if t != [] {
      CountAtMost(t[1..]);
      assert forall i | 1 <= i < |t| :: t[i] == t[1..][i - 1];
    }
  }

  lemma {:induction false} CountNone<K, V>(t: Slots<K, V>)
    requires forall i | 0 <= i < |t| :: t[i].None?
    ensures Count(t) == 0
    decreases |t|
  {
    if t != [] {
      CountNone(t[1..]);
    }
  }

  // ----- rehashing -----

  /** The entry for a key with the lowest slot number. */
  ghost function Lowest<K, V>(t: Slots<K, V>, key: K): Option<V> {
    if t == [] then None
    else if t[0].Some? && t[0].value.key == key then Some(t[0].value.value)
    else Lowest(t[1..], key)
  }

  lemma {:induction false} LowestConcat<K, V>(a: Slots<K, V>, b: Slots<K, V>, key: K)
    ensures Lowest(a + b, key) == if Lowest(a, key).Some? then Lowest(a, key) else Lowest(b, key)
    decreases |a|
  {
    if a == [] {
      assert a + b == b;
    } else {
      assert (a + b)[1..] == a[1..] + b;
      LowestConcat(a[1..], b, key);
    }
  }

  /** The table after i slots of the old one have been moved: the keys of those slots, each with its
      lowest entry. */
  ghost predicate Moved<K(!new), V>(t: Slots<K, V>, hash: K -> nat, before: Slots<K, V>, i: nat) {
    && NoHoles(t, hash) && i <= |before| && Count(t) == Count(before[..i])
    && forall key :: MovedKey(t, hash, before[..i], key)
  }

  ghost predicate MovedKey<K, V>(t: Slots<K, V>, hash: K -> nat, before: Slots<K, V>, key: K)
    requires |t| > 0
  {
    Lookup(t, hash, key) == Lowest(before, key)
  }

  lemma MovedNext<K(!new), V>(t: Slots<K, V>, hash: K -> nat, before: Slots<K, V>, i: nat, j: nat)
    requires Moved(t, hash, before, i) && i < |before| && before[i].Some?
    requires HoleAfter(t, Home(hash(before[i].value.key), |t|), j)
    ensures Moved(t[Slot(Home(hash(before[i].value.key), |t|), j, |t|) := before[i]], hash, before, i + 1)
  {
    var e := before[i].value;
    var s := Slot(Home(hash(e.key), |t|), j, |t|);
    FillKeeps(t, hash, e, j);
    CountFill(t, s, e);
    assert before[..i + 1] == before[..i] + [before[i]];
    CountSplit(before[..i], [before[i]]);
    var done, t' := before[..i + 1], t[s := before[i]];
    forall key
      ensures MovedKey(t', hash, done, key)
    {
      assert MovedKey(t, hash, before[..i], key);
      FillLookup(t, hash, e, j, key);
      LowestConcat(before[..i], [before[i]], key);
    }
  }

  lemma MovedSkip<K(!new), V>(t: Slots<K, V>, hash: K -> nat, before: Slots<K, V>, i: nat)
    requires Moved(t, hash, before, i) && i < |before| && before[i].None?
    ensures Moved(t, hash, before, i + 1)
  {
    assert before[..i + 1] == before[..i] + [before[i]];
    CountSplit(before[..i], [before[i]]);
    var done := before[..i + 1];
    forall key
      ensures MovedKey(t, hash, done, key)
    {
      assert MovedKey(t, hash, before[..i], key);
      LowestConcat(before[..i], [before[i]], key);
    }
  }

  lemma MovedNone<K(!new), V>(t: Slots<K, V>, hash: K -> nat, before: Slots<K, V>)
    requires |t| > 0 && forall i | 0 <= i < |t| :: t[i].None?
    ensures Moved(t, hash, before, 0)
  {
    CountNone(t);
    var none := before[..0];
    forall key
      ensures MovedKey(t, hash, none, key)
    {
      LookupExact(t, hash, key);
    }
  }

  // ----- duplicates -----

  /** No key stands in two slots. */
  ghost predicate Distinct<K, V>(t: Slots<K, V>) {
    forall i, j | 0 <= i < j < |t| && t[i].Some? && t[j].Some? :: t[i].value.key != t[j].value.key
  }

  lemma {:induction false} LowestFound<K, V>(t: Slots<K, V>, key: K) returns (i: nat)
    requires Lowest(t, key).Some?
    ensures Holds(t, i, key) && t[i].value.value == Lowest(t, key).value
    decreases |t|
  {
    if Holds(t, 0, key) {
      i := 0;
    } else {
      var k := LowestFound(t[1..], key);
      i := k + 1;
    }
  }

  lemma {:induction false} LowestMeets<K, V>(t: Slots<K, V>, key: K, i: nat)
    requires Holds(t, i, key)
    ensures Lowest(t, key).Some?
    decreases |t|
  {
    if !Holds(t, 0, key) {
      LowestMeets(t[1..], key, i - 1);
    }
  }

  /** Without duplicates, probing and slot order agree, so a rehash changes no lookup. */
  lemma DistinctLowest<K, V>(t: Slots<K, V>, hash: K -> nat, key: K)
    requires NoHoles(t, hash) && Distinct(t)
    ensures Lookup(t, hash, key) == Lowest(t, key)
  {
    hide NoHoles, Find, Lowest;
    assert |t| > 0 by { NotEmpty(t, hash); }
    LookupExact(t, hash, key);
    if Lookup(t, hash, key).Some? {
      var d := FindFound(t, key, Home(hash(key), |t|), 0);
      LowestMeets(t, key, Slot(Home(hash(key), |t|), d, |t|));
    }
    if Lowest(t, key).Some? {
      var i := LowestFound(t, key);
      assert Contains(t, key);
    }
  }

  lemma NotEmpty<K, V>(t: Slots<K, V>, hash: K -> nat)
    requires NoHoles(t, hash)
    ensures |t| > 0
  {
  }

  lemma FillDistinct<K, V>(t: Slots<K, V>, s: nat, e: Entry<K, V>)
    requires Distinct(t) && s < |t| && t[s].None? && !Contains(t, e.key)
    ensures Distinct(t[s := Some(e)])
  {
    assert forall i | 0 <= i < |t| && t[i].Some? :: Holds(t, i, t[i].value.key);
  }

  lemma MovedDistinct<K(!new), V>(t: Slots<K, V>, hash: K -> nat, before: Slots<K, V>, i: nat, s: nat)
    requires Moved(t, hash, before, i) && i < |before| && before[i].Some? && Distinct(before) && Distinct(t)
    requires s < |t| && t[s].None?
    ensures Distinct(t[s := before[i]])
  {
    var key, done := before[i].value.key, before[..i];
    assert MovedKey(t, hash, done, key);
    LookupExact(t, hash, key);
    if Lowest(done, key).Some? {
      var k := LowestFound(done, key);
    }
    FillDistinct(t, s, before[i].value);
  }

  lemma CountPrefix<K, V>(t: Slots<K, V>, i: nat)
    requires i <= |t|
    ensures Count(t[..i]) <= Count(t)
  {
    assert t == t[..i] + t[i..];
    CountSplit(t[..i], t[i..]);
  }

  /** A table with a hole has room. */
  lemma {:induction false} HoleCounts<K, V>(t: Slots<K, V>, i: nat)
    requires i < |t| && t[i].None?
    ensures Count(t) < |t|
  {
    CountAtMost(t);
  }

  /** Probing that comes back to its start has seen every slot. */
  lemma AllTaken<K, V>(t: Slots<K, V>, start: nat)
    requires TakenBefore(t, start, |t|)
    ensures Count(t) == |t|
  {
    CountAtMost(t);
    forall i | 0 <= i < |t|
      ensures t[i].Some?
    {
      assert t[Slot(start, Distance(start, i, |t|), |t|)].Some?;
    }
  }

  // ----- the finite map -----

  ghost function Keys<K, V>(t: Slots<K, V>): set<K> {
    set i | 0 <= i < |t| && t[i].Some? :: t[i].value.key
  }

  /** The table as a finite map. */
  ghost function AsMap<K, V>(t: Slots<K, V>, hash: K -> nat): map<K, V>
    requires |t| > 0
  {
    map key | key in Keys(t) && Lookup(t, hash, key).Some? :: Lookup(t, hash, key).value
  }

  lemma AsMapExact<K, V>(t: Slots<K, V>, hash: K -> nat, key: K)
    requires NoHoles(t, hash)
    ensures key in AsMap(t, hash) <==> Lookup(t, hash, key).Some?
    ensures key in AsMap(t, hash) ==> AsMap(t, hash)[key] == Lookup(t, hash, key).value
  {
    LookupExact(t, hash, key);
    if Contains(t, key) {
      var i :| Holds(t, i, key);
      assert t[i].value.key in Keys(t);
    }
  }

  lemma MapPut<K(!new), V>(t: Slots<K, V>, t': Slots<K, V>, hash: K -> nat, key: K, value: V)
    requires NoHoles(t, hash) && NoHoles(t', hash)
    requires forall k :: Lookup(t', hash, k) == if k == key then Some(value) else Lookup(t, hash, k)
    ensures AsMap(t', hash) == AsMap(t, hash)[key := value]
  {
    hide Lookup, NoHoles;
    NotEmpty(t, hash);
    NotEmpty(t', hash);
    forall k
      ensures k in AsMap(t', hash) <==> k == key || k in AsMap(t, hash)
      ensures k in AsMap(t', hash) ==> AsMap(t', hash)[k] == if k == key then value else AsMap(t, hash)[k]
    {
      AsMapExact(t, hash, k);
      AsMapExact(t', hash, k);
    }
  }

  // ----- duplicates can change places -----

  lemma {:induction false} LowestAt<K, V>(t: Slots<K, V>, key: K, d: nat)
    requires Holds(t, d, key) && forall i | 0 <= i < d :: !Holds(t, i, key)
    ensures Lowest(t, key) == Some(t[d].value.value)
    decreases d
  {
    if d > 0 {
      assert !Holds(t, 0, key);
      assert forall i | 0 <= i < d - 1 :: Holds(t[1..], i, key) ==> Holds(t, i + 1, key);
      LowestAt(t[1..], key, d - 1);
    }
  }

  /** Probing is reading the table from the key's home on, around its end. */
  lemma LookupRotated<K, V>(t: Slots<K, V>, hash: K -> nat, key: K)
    requires NoHoles(t, hash)
    ensures var h := Home(hash(key), |t|);
            Lookup(t, hash, key) == if Lowest(t[h..], key).Some? then Lowest(t[h..], key) else Lowest(t[..h], key)
  {
    hide NoHoles, Lowest, Find;
    NotEmpty(t, hash);
    var h := Home(hash(key), |t|);
    var r := t[h..] + t[..h];
    LowestConcat(t[h..], t[..h], key);
    LookupExact(t, hash, key);
    Rotation(t, h, key);
    if Lookup(t, hash, key).Some? {
      var d := FindFound(t, key, h, 0);
      LowestAt(r, key, d);
    }
    if Lowest(r, key).Some? {
      var i := LowestFound(r, key);
      assert Contains(t, key);
    }
  }

  lemma Rotation<K, V>(t: Slots<K, V>, h: nat, key: K)
    requires h < |t|
    ensures var r := t[h..] + t[..h];
            |r| == |t| &&
            forall i | 0 <= i < |t| ::
              r[i] == t[Slot(h, i, |t|)] &&
              (Holds(r, i, key) <==> Holds(t, Slot(h, i, |t|), key))
  {
  }

  /** The first values for the key before its home slot, and from it on, are the same, if there are
      both. */
  ghost predicate Agree<K, V>(t: Slots<K, V>, hash: K -> nat, key: K)
    requires |t| > 0
  {
    var h := Home(hash(key), |t|);
    Lowest(t[..h], key).Some? && Lowest(t[h..], key).Some? ==> Lowest(t[..h], key) == Lowest(t[h..], key)
  }

  /** Probing and slot order find the same value exactly under that condition. */
  lemma AgreeExact<K, V>(t: Slots<K, V>, hash: K -> nat, key: K)
    requires NoHoles(t, hash)
    ensures |t| > 0
    ensures Lookup(t, hash, key) == Lowest(t, key) <==> Agree(t, hash, key)
  {
    hide NoHoles, Lowest, Lookup;
    NotEmpty(t, hash);
    var h := Home(hash(key), |t|);
    LookupRotated(t, hash, key);
    LowestConcat(t[..h], t[h..], key);
    assert t == t[..h] + t[h..];
  }

  /** A rehash keeps every lookup if and only if no key has a different value before its home slot
      than from there on. */
  lemma RehashKeeps<K(!new), V>(t: Slots<K, V>, hash: K -> nat, t': Slots<K, V>)
    requires NoHoles(t, hash) && Moved(t', hash, t, |t|)
    ensures |t| > 0 && |t'| > 0
    ensures (forall key :: Lookup(t', hash, key) == Lookup(t, hash, key)) <==> (forall key :: Agree(t, hash, key))
  {
    hide NoHoles, Lowest, Lookup, Agree;
    NotEmpty(t, hash);
    NotEmpty(t', hash);
    assert t[..|t|] == t;
    forall key
      ensures Lookup(t', hash, key) == Lookup(t, hash, key) <==> Agree(t, hash, key)
    {
      assert MovedKey(t', hash, t, key);
      AgreeExact(t, hash, key);
    }
  }

  /** Keys whose home is the first slot have nothing before it. */
  lemma HomeFirstAgrees<K, V>(t: Slots<K, V>, hash: K -> nat, key: K)
    requires |t| > 0 && Home(hash(key), |t|) == 0
    ensures Agree(t, hash, key)
  {
    assert t[..0] == [];
  }
}

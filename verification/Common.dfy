/** Small datatypes and list operations shared by the other modules. */
module Common {

  datatype Option<+T> = None | Some(value: T)

  /** A C `uint8_t`: the width of a bytecode and of its operands. */
  type byte = x: int | 0 <= x < 256

  /** The conversion of a C integer to `uint8_t`. */
  function ToByte(x: int): (b: byte)
    ensures exists q: int :: x == 256 * q + b
  {
    assert x == 256 * (x / 256) + x % 256;
    x % 256
  }

  /** `List.indexOf`: the least index of `x`, or -1. */
  function IndexOf<T(==)>(s: seq<T>, x: T): (i: int)
    ensures i == -1 <==> x !in s
    ensures i != -1 ==> 0 <= i < |s| && s[i] == x && x !in s[..i]
  {
    if s == [] then -1
    else if s[0] == x then 0
    else
      var r := IndexOf(s[1..], x);
      assert x in s ==> x in s[1..];
      if r == -1 then -1 else
        assert s[..r + 1] == [s[0]] + s[1..][..r];
        r + 1
  }

  /** `List.addIfAbsent` and `List.addStringIfAbsent`. */
  function AddIfAbsent<T(==)>(s: seq<T>, x: T): (r: seq<T>)
    ensures s <= r && x in r
    ensures x in s ==> r == s
    ensures x !in s ==> r == s + [x]
  {
    if IndexOf(s, x) == -1 then s + [x] else s
  }

  /** `addStringIfAbsent` of each name in turn, as the parser does for the names of a pattern. */
  function AddAllAbsent<T(==)>(s: seq<T>, xs: seq<T>): (r: seq<T>)
    ensures s <= r
    ensures forall x | x in r :: x in s || x in xs
    ensures forall x | x in xs :: x in r
    decreases |xs|
  {
    if xs == [] then s
    else
      assert xs == [xs[0]] + xs[1..];
      AddAllAbsent(AddIfAbsent(s, xs[0]), xs[1..])
  }

  /** Names are added one after the other, each behind those before it. */
  lemma {:induction false} AddAllSnoc<T>(s: seq<T>, xs: seq<T>, x: T)
    ensures AddAllAbsent(s, xs + [x]) == AddIfAbsent(AddAllAbsent(s, xs), x)
    decreases |xs|
  {
    if xs == [] {
      assert [] + [x] == [x] && [x][1..] == [];
    } else {
      assert (xs + [x])[1..] == xs[1..] + [x] && (xs + [x])[0] == xs[0];
      AddAllSnoc(AddIfAbsent(s, xs[0]), xs[1..], x);
    }
  }

  /** Names that differ from each other and from those there are appended in their order. */
  lemma {:induction false} AddAllDistinct<T>(s: seq<T>, xs: seq<T>)
    requires forall i, j | 0 <= i < j < |xs| :: xs[i] != xs[j]
    requires forall x | x in xs :: x !in s
    ensures AddAllAbsent(s, xs) == s + xs
    decreases |xs|
  {
    if xs == [] {
      assert s + [] == s;
    } else {
      var t := s + [xs[0]];
      assert AddIfAbsent(s, xs[0]) == t;
      forall x | x in xs[1..]
        ensures x !in t
      {
        var j :| 0 <= j < |xs[1..]| && xs[1..][j] == x;
        assert xs[0] != xs[j + 1];
      }
      AddAllDistinct(t, xs[1..]);
      assert s + xs == t + xs[1..];
    }
  }

  /** An index found in a prefix is the index found in the whole list: literal references are stable. */
  lemma IndexOfPrefix<T>(s: seq<T>, t: seq<T>, x: T)
    requires s <= t && x in s
    ensures IndexOf(t, x) == IndexOf(s, x)
  {
    var i, j := IndexOf(s, x), IndexOf(t, x);
    assert forall k | 0 <= k < i :: s[..i][k] != x;
    assert forall k | 0 <= k < j :: t[..j][k] != x;
    assert forall k | 0 <= k < |s| :: t[k] == s[k];
  }
}

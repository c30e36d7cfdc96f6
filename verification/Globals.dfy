/** The dictionary of globals (Universe.c): a hash map whose keys are symbols, known by their addresses.
    Every symbol has the hash value 0. */
module Globals {
  import opened Common
  import opened Probing
  import opened HashTables

  function SymbolHash(symbol: int): nat {
    0
  }

  class Dictionary {
    const table: Hashmap<int, int>

    ghost predicate Valid()
      reads this, table, table.elems
    {
      table.Valid() && table.hash == SymbolHash
    }

    constructor ()
      ensures Valid() && fresh(table) && fresh(table.elems)
      ensures forall name :: table.At(name) == None
      ensures table.elems.Length == 101
    {
      table := new Hashmap<int, int>(SymbolHash, HASHMAP_DEFAULT_SIZE);
    }

    method HasGlobal(name: int) returns (b: bool)
      requires Valid()
      ensures b <==> table.At(name).Some?
    {
      LookupExact(table.elems[..], SymbolHash, name);
      b := table.ContainsKey(name);
    }

    method GetGlobal(name: int) returns (r: Option<int>)
      requires Valid()
      ensures r == table.At(name)
    {
      var there := HasGlobal(name);
      if there {
        r := table.Get(name);
      } else {
        r := None;
      }
    }

    /** A global keeps the value it was first given: a later one is put behind it, and no rehash
        brings it forward. */
    method SetGlobal(name: int, value: int)
      requires Valid()
      modifies table, table.elems
      ensures Valid() && (table.elems == old(table.elems) || fresh(table.elems))
      ensures forall k :: table.At(k) == if k == name && old(table.At(k)) == None then Some(value) else old(table.At(k))
    {
      RehashHarmless();
      table.Put(name, value);
    }

    /** All symbols are at home in the first slot. */
    lemma RehashHarmless()
      requires Valid()
      ensures forall k :: table.Before(k) == table.At(k)
    {
      hide Lookup, Lowest, NoHoles, Agree;
      table.PutKeepsExact();
      forall k
        ensures Agree(table.elems[..], SymbolHash, k)
      {
        HomeFirstAgrees(table.elems[..], SymbolHash, k);
      }
    }
  }
}

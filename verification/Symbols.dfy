/** Symbol interning: Symboltable.c, and the functions of Universe.c that make symbols. */
module Symbols {
  import opened Common
  import opened Probing
  import opened HashTables

  class VMSymbol {
    const chars: string

    constructor (chars: string)
      ensures this.chars == chars
    {
      this.chars := chars;
    }
  }

  class SymbolTable {
    const symtab: Hashmap<string, VMSymbol>

    /** The symbols there are, by their characters. */
    ghost function Interned(): map<string, VMSymbol>
      requires symtab.Valid()
      reads this, symtab, symtab.elems
    {
      symtab.Contents()
    }

    ghost predicate Valid()
      reads this, symtab, symtab.elems
    {
      && symtab.Valid() && Distinct(symtab.elems[..])
      && forall s | s in Interned() :: Interned()[s].chars == s
    }

    constructor (stringHash: string -> nat)
      ensures Valid() && fresh(symtab) && fresh(symtab.elems)
      ensures Interned() == map[] && symtab.elems.Length == 101
    {
      symtab := new Hashmap(stringHash, HASHMAP_DEFAULT_SIZE);
      new;
      assert Interned() == map[] by {
        assert forall s | s in Interned() :: symtab.At(s).Some?;
      }
    }

    method Lookup(s: string) returns (r: Option<VMSymbol>)
      requires Valid()
      ensures r == if s in Interned() then Some(Interned()[s]) else None
    {
      AsMapExact(symtab.elems[..], symtab.hash, s);
      r := symtab.Get(s);
    }

    method Insert(symbol: VMSymbol)
      requires Valid() && symbol.chars !in Interned()
      modifies symtab, symtab.elems
      ensures Valid() && (symtab.elems == old(symtab.elems) || fresh(symtab.elems))
      ensures Interned() == old(Interned())[symbol.chars := symbol]
    {
      AsMapExact(symtab.elems[..], symtab.hash, symbol.chars);
      symtab.Put(symbol.chars, symbol);
    }

    /** `Universe_symbol_for_str`: the one symbol of these characters, made on first use. */
    method SymbolFor(s: string) returns (symbol: VMSymbol)
      requires Valid()
      modifies symtab, symtab.elems
      ensures Valid() && (symtab.elems == old(symtab.elems) || fresh(symtab.elems))
      ensures symbol.chars == s
      ensures Interned() == old(Interned())[s := symbol]
      ensures if s in old(Interned()) then symbol == old(Interned())[s] else fresh(symbol)
    {
      var found := Lookup(s);
      match found
      case Some(there) =>
        symbol := there;
      case None =>
        symbol := new VMSymbol(s);
        Insert(symbol);
    }

    /** Over any sequence of calls, two calls answer the same symbol exactly when they were given equal
        strings. */
    method SymbolsFor(strings: seq<string>) returns (symbols: seq<VMSymbol>)
      requires Valid()
      modifies symtab, symtab.elems
      ensures Valid() && (symtab.elems == old(symtab.elems) || fresh(symtab.elems))
      ensures Answered(strings, symbols, Interned()) && Kept(old(Interned()), Interned())
      ensures forall i, j | 0 <= i < |strings| && 0 <= j < |strings| ::
                symbols[i] == symbols[j] <==> strings[i] == strings[j]
    {
      hide Hashmap.Valid, Hashmap.Contents, Interned, Distinct, Answered, Kept;
      symbols := [];
      NothingAnswered(Interned());
      for k := 0 to |strings|
        invariant Valid() && (symtab.elems == old(symtab.elems) || fresh(symtab.elems))
        invariant Answered(strings[..k], symbols, Interned()) && Kept(old(Interned()), Interned())
      {
        ghost var before := Interned();
        var symbol := SymbolFor(strings[k]);
        OneMoreAnswered(strings, k, symbols, before, symbol, old(Interned()));
        symbols := symbols + [symbol];
      }
      assert strings[..|strings|] == strings;
      NamesKept();
      AnswersAreExact(strings, symbols, Interned());
    }

    lemma NamesKept()
      requires Valid()
      ensures forall s | s in Interned() :: Interned()[s].chars == s
    {
    }
  }

  /** Each string was answered by its symbol. */
  ghost predicate Answered(strings: seq<string>, symbols: seq<VMSymbol>, interned: map<string, VMSymbol>) {
    |symbols| == |strings| &&
    forall i | 0 <= i < |strings| :: strings[i] in interned && interned[strings[i]] == symbols[i]
  }

  /** Symbols stay what they are. */
  ghost predicate Kept(before: map<string, VMSymbol>, after: map<string, VMSymbol>) {
    forall s | s in before :: s in after && after[s] == before[s]
  }

  lemma NothingAnswered(interned: map<string, VMSymbol>)
    ensures Answered([], [], interned) && Kept(interned, interned)
  {
  }

  lemma OneMoreAnswered(strings: seq<string>, k: nat, symbols: seq<VMSymbol>, interned: map<string, VMSymbol>,
                        symbol: VMSymbol, first: map<string, VMSymbol>)
    requires k < |strings| && Answered(strings[..k], symbols, interned) && Kept(first, interned)
    requires strings[k] in interned ==> symbol == interned[strings[k]]
    ensures Answered(strings[..k + 1], symbols + [symbol], interned[strings[k] := symbol])
    ensures Kept(first, interned[strings[k] := symbol])
  {
    assert strings[..k + 1] == strings[..k] + [strings[k]];
  }

  lemma AnswersAreExact(strings: seq<string>, symbols: seq<VMSymbol>, interned: map<string, VMSymbol>)
    requires Answered(strings, symbols, interned) && forall s | s in interned :: interned[s].chars == s
    ensures forall i, j | 0 <= i < |strings| && 0 <= j < |strings| ::
              symbols[i] == symbols[j] <==> strings[i] == strings[j]
  {
    forall i | 0 <= i < |strings|
      ensures symbols[i].chars == strings[i]
    {
      assert interned[strings[i]] == symbols[i];
    }
  }
}

/** How the arguments of a message are bound to the names of parameters, told without argument lists: each
    name is bound at its first mention, behind the names that differ from it. */
module Parameters {
  import opened Common
  import opened Syntax
  import opened Bytecodes
  import opened Signature
  import opened CodeGen
  import opened Grammar
  import opened Parser
  import opened Semantics

  /** As many names are listed as there are different ones. */
  lemma {:induction false} AddedSet(names: seq<string>)
    ensures forall n :: n in AddAllAbsent([], names) <==> n in names
    ensures |AddAllAbsent([], names)| == |Different(names)|
    decreases |names|
  {
    if names == [] {
      assert Different(names) == {};
    } else {
      hide AddAllAbsent, AddIfAbsent;
      var m := |names| - 1;
      var more, last := names[..m], names[m];
      assert names == more + [last];
      AddedSet(more);
      AddAllSnoc([], more, last);
      DifferentSnoc(more, last);
      if last in more {
        assert Different(more) + {last} == Different(more);
      }
    }
  }

  function Different(names: seq<string>): set<string> {
    set n | n in names
  }

  lemma DifferentSnoc(names: seq<string>, last: string)
    ensures Different(names + [last]) == Different(names) + {last}
  {
  }

  /** A name's place, at its first mention. */
  lemma {:induction false} AddedAt(names: seq<string>, k: nat)
    requires k < |names| && names[k] !in names[..k]
    ensures IndexOf(AddAllAbsent([], names), names[k]) == |Different(names[..k])|
    decreases |names|
  {
    var m := |names| - 1;
    var more, last := names[..m], names[m];
    assert names == more + [last];
    AddAllSnoc([], more, last);
    AddedSet(more);
    if k < m {
      assert more[..k] == names[..k];
      AddedAt(more, k);
      AddedSet(names);
      IndexOfPrefix(AddAllAbsent([], more), AddAllAbsent([], names), names[k]);
    } else {
      var all := AddAllAbsent([], more);
      assert all + [last] == AddAllAbsent([], names) && (all + [last])[|all|] == last;
      assert forall i | 0 <= i < |all| :: (all + [last])[i] == all[i] && all[i] in all;
    }
  }

  lemma AddedFirst(name: string, names: seq<string>)
    ensures AddAllAbsent([], [name] + names) == AddAllAbsent([name], names)
  {
    assert ([name] + names)[1..] == names && AddIfAbsent<string>([], name) == [name];
  }

  /** How many different names come before place k. */
  function Place(names: seq<string>, k: nat): nat
    requires k <= |names|
  {
    |Different(names[..k])|
  }

  /** Every name is bound to the argument at its place, if there is one, and nothing else is bound. */
  ghost predicate Binds(params: map<string, Value>, names: seq<string>, args: seq<Value>) {
    && (forall n | n in params :: n in names)
    && (forall k | 0 <= k < |names| && names[k] !in names[..k] ::
          (names[k] in params <==> Place(names, k) < |args|) &&
          (names[k] in params ==> params[names[k]] == args[Place(names, k)]))
  }

  lemma BoundAt(names: seq<string>, args: seq<Value>)
    ensures Binds(Bind(AddAllAbsent([], names), args), names, args)
  {
    AddedSet(names);
    forall k | 0 <= k < |names| && names[k] !in names[..k]
      ensures IndexOf(AddAllAbsent([], names), names[k]) == Place(names, k)
    {
      AddedAt(names, k);
    }
  }

  /** Of different names, the k-th is bound to the k-th argument. */
  lemma {:induction false} PlaceDistinct(names: seq<string>, k: nat)
    requires AllDistinct(names) && k <= |names|
    ensures Place(names, k) == k && (k < |names| ==> names[k] !in names[..k])
    decreases k
  {
    if k > 0 {
      PlaceDistinct(names, k - 1);
      var fewer := names[..k - 1];
      assert names[..k] == fewer + [names[k - 1]];
      DifferentSnoc(fewer, names[k - 1]);
    }
  }

  lemma BindsDistinct(params: map<string, Value>, names: seq<string>, args: seq<Value>, k: nat)
    requires Binds(params, names, args) && AllDistinct(names) && k < |names| && k < |args|
    ensures names[k] in params && params[names[k]] == args[k]
  {
    PlaceDistinct(names, k);
  }

  /** A method binds self to the receiver and its parameters to the arguments; its locals start as nil. */
  lemma MethodParameters(d: Definition, fields: seq<string>, code: nat, args: seq<Value>)
    ensures var act := NewActivation(DefinitionSource(d, fields), code, None, args);
            Binds(act.params, ["self"] + d.pattern.Names(), args) &&
            act.locals == map n | n in d.locals.Names() :: Oop(0)
  {
    hide AddAllAbsent, Bind, Binds;
    AddedFirst("self", d.pattern.Names());
    BoundAt(["self"] + d.pattern.Names(), args);
    AddedSet(d.locals.Names());
  }

  /** A block binds its parameters behind the block itself. */
  lemma BlockParameters(b: Primary, cx: Context, parent: nat, code: nat, home: nat, args: seq<Value>)
    requires b.Block?
    ensures var act := NewActivation(BlockSource(b, cx, parent), code, Some(home), args);
            Binds(act.params, ["$block self"] + b.params, args) &&
            act.locals == map n | n in b.locals.Names() :: Oop(0)
  {
    hide AddAllAbsent, Bind, Binds, BlockSignature;
    AddedFirst("$block self", b.params);
    BoundAt(["$block self"] + b.params, args);
    AddedSet(b.locals.Names());
  }
}

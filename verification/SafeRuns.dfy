/** Every step keeps the frame invariant: no run of the machine underflows an operand stack, outgrows
    a frame, addresses a slot that is not there, or unwinds past the bootstrap frame. */
module SafeRuns {
  import opened Common
  import opened Bytecodes
  import opened Signature
  import opened StackDepth
  import opened CodeOperands
  import opened Machine
  import opened Chains
  import opened FrameInvariant

  /** Between fetching instruction k and executing it. */
  ghost predicate Mid(t: Table, c: Config, k: nat) {
    && Core(t, c) && 1 <= c.current && c.Top().code in t
    && k < |t[c.Top().code].meth.code| && c.Top().pc == k + 1
    && |c.Stack()| == Height(t[c.Top().code].meth, k)
  }

  function InstrAt(t: Table, c: Config, k: nat): Instr
    requires c.current < |c.frames| && c.Top().code in t && k < |t[c.Top().code].meth.code|
  {
    t[c.Top().code].meth.code[k]
  }

  function Lits(t: Table, c: Config): seq<Value>
    requires c.current < |c.frames| && c.Top().code in t
  {
    t[c.Top().code].meth.literals
  }

  lemma MethodFacts(t: Table, code: nat, k: nat)
    requires TableOk(t) && code in t && k < |t[code].meth.code|
    ensures var m := t[code].meth;
            && Need(m.code[k], m.literals) <= Height(m, k) <= m.maxStack
            && Height(m, k + 1) == Height(m, k) + Effect(m.code[k], m.literals) <= m.maxStack
            && (k + 1 < |m.code| <==> !IsReturn(m.code[k]))
            && !m.code[k].Halt?
            && ReferenceOk(t, code, m.code[k])
  {
    assert MethodOk(t, code);
    var m := t[code].meth;
    HeightAt(m.code, m.literals, k);
    HeightAt(m.code, m.literals, k + 1);
    assert ReferenceOk(t, code, m.code[k]);
  }

  lemma EntryHeight(t: Table, code: nat)
    requires TableOk(t) && code in t
    ensures |t[code].meth.code| > 0 && Height(t[code].meth, 0) == 0
    ensures t[code].parent.Some? ==> t[code].parent.value in t
  {
    assert MethodOk(t, code);
  }

  lemma StackGood(t: Table, c: Config)
    requires Core(t, c)
    ensures GoodValues(t, c.frames, c.Stack())
  {
    assert ValuesInv(t, c.frames, c.current);
  }

  /** An instruction that ends with the static height of the next position. */
  lemma Settle(t: Table, c: Config, k: nat, stack: seq<Value>)
    requires TableOk(t) && Mid(t, c, k) && GoodValues(t, c.frames, stack)
    requires !IsReturn(InstrAt(t, c, k))
    requires |stack| == |c.Stack()| + Effect(InstrAt(t, c, k), Lits(t, c))
    ensures Inv(t, c.WithStack(stack))
  {
    MethodFacts(t, c.Top().code, k);
    CoreStack(t, c, k + 1, stack);
    assert c.WithTop(c.Top().(pc := k + 1, stack := stack)) == c.WithStack(stack);
  }

  // ----- calls -----

  lemma NilsGood(t: Table, frames: seq<Frame>, n: nat)
    ensures GoodValues(t, frames, Nils(n))
  {
  }

  lemma EnterInv(t: Table, c: Config, code: nat, home: Option<nat>, args: seq<Value>, base: seq<Value>)
    requires TableOk(t) && Core(t, c) && 1 <= c.current && c.Top().code in t
    requires c.Stack() == base + args
    requires c.Top().pc < |t[c.Top().code].meth.code| && |base| + 1 == Height(t[c.Top().code].meth, c.Top().pc)
    requires code in t && t[code].meth.Args() == |args|
    requires match home
             case None => t[code].parent.None?
             case Some(h) => 1 <= h < |c.frames| && t[code].parent == Some(c.frames[h].code)
    ensures Inv(t, PushFrame(c, NewFrame(t, code, home, c.current, args)))
  {
    var f := NewFrame(t, code, home, c.current, args);
    EntryHeight(t, code);
    StackGood(t, c);
    NilsGood(t, c.frames, t[code].meth.locals);
    assert (c.frames + [f])[c.current] == c.Top();
    assert SuspendedOk(t, c.frames + [f], |c.frames|);
    CoreEnter(t, c, f);
  }

  /** What invoking a found invokable leads to, at a place where the arguments, replaced by one
      result, make up the static height. */
  lemma InvokeInv(w: World, t: Table, c: Config, inv: Invokable, sel: string, args: seq<Value>, base: seq<Value>)
    requires TableOk(t) && WorldOk(w, t) && Core(t, c) && 1 <= c.current && c.Top().code in t
    requires c.Stack() == base + args && |args| == Arity(sel)
    requires c.Top().pc < |t[c.Top().code].meth.code| && |base| + 1 == Height(t[c.Top().code].meth, c.Top().pc)
    requires FindOk(t, inv, sel, Some(args[0]))
    ensures Inv(t, Invoke(w, t, c, inv, args))
  {
    ArityPositive(sel);
    hide Arity;
    StackGood(t, c);
    assert GoodValues(t, c.frames, args) && GoodValues(t, c.frames, base);
    assert c.Stack()[..|c.Stack()| - |args|] == base;
    match inv
    case MethodI(code) =>
      EnterInv(t, c, code, None, args, base);
    case PrimitiveI(p) =>
      var v := w.primitive(p, args, c.history);
      if v.Closure? && v !in args {
        SeenIsGood(t, c.frames, c.history, v);
      }
      MethodFacts(t, c.Top().code, c.Top().pc);
      CoreStack(t, c, c.Top().pc, base + [v]);
      assert c.WithTop(c.Top().(pc := c.Top().pc, stack := base + [v])) == c.WithStack(base + [v]);
      CoreRecord(t, c.WithStack(base + [v]), PrimitiveE(p, args));
    case EvaluateI(argc) =>
      assert GoodValue(t, c.frames, args[0]);
      EnterInv(t, c, args[0].code, Some(args[0].home), args, base);
    case RestartI =>
      EntryHeight(t, c.Top().code);
      CoreStack(t, c, 0, []);
  }

  /** Messages the machine sends itself: three slots beyond the computed depth are enough. */
  lemma SendToInv(w: World, t: Table, c: Config, sel: string, args: seq<Value>)
    requires TableOk(t) && WorldOk(w, t) && Core(t, c) && 1 <= c.current && c.Top().code in t
    requires c.Top().pc < |t[c.Top().code].meth.code| && |c.Stack()| + 1 == Height(t[c.Top().code].meth, c.Top().pc)
    requires |args| == Arity(sel) <= 3 && (sel == DNU || sel == UNKNOWN_GLOBAL)
    requires GoodValues(t, c.frames, args)
    ensures |c.Stack() + args| <= t[c.Top().code].meth.maxStack + 2
    ensures Inv(t, SendTo(w, t, c, sel, args))
  {
    ArityPositive(sel);
    hide Arity;
    var base := c.Stack();
    StackGood(t, c);
    MethodFacts(t, c.Top().code, c.Top().pc);
    CoreStack(t, c, c.Top().pc, base + args);
    assert c.WithTop(c.Top().(pc := c.Top().pc, stack := base + args)) == c.WithStack(base + args);
    var d := c.WithStack(base + args).Record(SendE(sel, false, args));
    CoreRecord(t, c.WithStack(base + args), SendE(sel, false, args));
    var found := w.lookup(args[0], sel, c.history);
    assert found.Some? && FindOk(t, found.value, sel, Some(args[0]));
    InvokeInv(w, t, d, found.value, sel, args, base);
  }

  lemma SelectorArities()
    ensures Arity(DNU) == 3 && Arity(UNKNOWN_GLOBAL) == 2
  {
    hide Arity;
    DnuArity();
    UnknownGlobalArity();
  }

  lemma DnuArity()
    ensures Arity(DNU) == 3
  {
    hide Arity;
    DoesNotUnderstandIsKeyword();
    ArgumentsIsKeyword();
    TwoKeywords("doesNotUnderstand:", "arguments:");
  }

  lemma UnknownGlobalArity()
    ensures Arity(UNKNOWN_GLOBAL) == 2
  {
    hide Arity;
    UnknownGlobalIsKeyword();
    OneKeyword(UNKNOWN_GLOBAL);
  }

  lemma DoesNotUnderstandIsKeyword()
    ensures IsKeyword("doesNotUnderstand:")
  {
    KeywordOf("doesNotUnderstand", "doesNotUnderstand:");
  }

  lemma ArgumentsIsKeyword()
    ensures IsKeyword("arguments:")
  {
    KeywordOf("arguments", "arguments:");
  }

  lemma UnknownGlobalIsKeyword()
    ensures IsKeyword("unknownGlobal:")
  {
    KeywordOf("unknownGlobal", "unknownGlobal:");
  }

  lemma OneKeyword(a: string)
    requires IsKeyword(a)
    ensures Arity(a) == 2
  {
    hide Arity, IsKeyword;
    KeywordArity([a]);
    ConcatOne(a);
  }

  lemma TwoKeywords(a: string, b: string)
    requires IsKeyword(a) && IsKeyword(b)
    ensures Arity(a + b) == 3
  {
    hide Arity, IsKeyword;
    KeywordArity([a, b]);
    ConcatTwo(a, b);
  }

  lemma ConcatOne(a: string)
    ensures Concat([a]) == a
  {
    assert Concat([a][1..]) == "";
  }

  lemma ConcatTwo(a: string, b: string)
    ensures Concat([a, b]) == a + b
  {
    assert [a, b][1..] == [b];
    ConcatOne(b);
  }

  lemma KeywordOf(id: string, key: string)
    requires |id| > 0 && IsLetter(id[0]) && ':' !in id && key == id + ":"
    ensures IsKeyword(key)
  {
    NoColons(id);
    assert key[..|id|] == id;
  }

  lemma DispatchInv(w: World, t: Table, c: Config, k: nat, sel: string, toSuper: bool, found: Option<Invokable>,
                    args: seq<Value>)
    requires TableOk(t) && WorldOk(w, t) && Mid(t, c, k)
    requires if toSuper then InstrAt(t, c, k).SuperSend? else InstrAt(t, c, k).Send?
    requires sel == Selector(Lits(t, c), InstrAt(t, c, k).lit)
    requires |args| == Arity(sel) <= |c.Stack()| && args == c.Stack()[|c.Stack()| - |args|..]
    requires found.Some? ==> FindOk(t, found.value, sel, Some(args[0]))
    ensures Inv(t, Dispatch(w, t, c, sel, toSuper, found, args))
  {
    ArityPositive(sel);
    hide Arity, Invoke, SendTo, Net, NeverDips, TableOk, WorldOk, FrameInv, GoodHistory;
    MethodFacts(t, c.Top().code, k);
    StackGood(t, c);
    var base := c.Stack()[..|c.Stack()| - |args|];
    assert c.Stack() == base + args;
    var d := c.Record(SendE(sel, toSuper, args));
    CoreRecord(t, c, SendE(sel, toSuper, args));
    match found
    case Some(inv) =>
      InvokeInv(w, t, d, inv, sel, args, base);
    case None =>
      DnuInv(w, t, d, k, sel, if toSuper then args else args[1..], args[0], base);
  }

  /** The arguments give way to the three values of doesNotUnderstand:arguments:. */
  lemma DnuInv(w: World, t: Table, d: Config, k: nat, sel: string, elements: seq<Value>, recv: Value, base: seq<Value>)
    requires TableOk(t) && WorldOk(w, t) && Core(t, d) && 1 <= d.current && d.Top().code in t
    requires d.Top().pc == k + 1 < |t[d.Top().code].meth.code| && |base| + 1 == Height(t[d.Top().code].meth, k + 1)
    requires GoodValues(t, d.frames, base) && GoodValues(t, d.frames, elements) && GoodValue(t, d.frames, recv)
    requires |d.history| > 0
    ensures Inv(t, SendTo(w, t, d.WithStack(base).Record(ArrayE(elements)), DNU,
                          [recv, SymV(sel), ArrayV(|d.history|)]))
  {
    hide Arity, Net;
    MethodFacts(t, d.Top().code, k + 1);
    CoreStack(t, d, k + 1, base);
    var e := d.WithStack(base);
    assert d.WithTop(d.Top().(pc := k + 1, stack := base)) == e;
    GoodExtends(t, d.frames, e.frames, elements);
    GoodExtends(t, d.frames, e.frames, [recv]);
    CoreRecord(t, e, ArrayE(elements));
    SelectorArities();
    assert GoodValue(t, e.frames, [recv][0]);
    SendToInv(w, t, e.Record(ArrayE(elements)), DNU, [recv, SymV(sel), ArrayV(|d.history|)]);
  }

  lemma DoSendInv(w: World, t: Table, c: Config, k: nat)
    requires TableOk(t) && WorldOk(w, t) && Mid(t, c, k) && InstrAt(t, c, k).Send?
    ensures Inv(t, DoSend(w, t, c, Selector(Lits(t, c), InstrAt(t, c, k).lit)))
  {
    hide Arity, TableOk, Dispatch, Height, LinkOk, FrameInv, ValuesInv, GoodHistory, Selector;
    var sel := Selector(Lits(t, c), InstrAt(t, c, k).lit);
    MethodFacts(t, c.Top().code, k);
    ArityPositive(sel);
    var args := c.Stack()[|c.Stack()| - Arity(sel)..];
    DispatchInv(w, t, c, k, sel, false, w.lookup(args[0], sel, c.history), args);
  }

  lemma DoSuperSendInv(w: World, t: Table, c: Config, k: nat)
    requires TableOk(t) && WorldOk(w, t) && Mid(t, c, k) && InstrAt(t, c, k).SuperSend?
    ensures Inv(t, DoSuperSend(w, t, c, Selector(Lits(t, c), InstrAt(t, c, k).lit)))
  {
    hide Arity, TableOk, Dispatch, Height, LinkOk, FrameInv, ValuesInv, GoodHistory, Selector;
    var sel := Selector(Lits(t, c), InstrAt(t, c, k).lit);
    MethodFacts(t, c.Top().code, k);
    ArityPositive(sel);
    OuterExists(t, c, c.current);
    var o := OuterContext(c.frames, c.current).value;
    var args := c.Stack()[|c.Stack()| - Arity(sel)..];
    DispatchInv(w, t, c, k, sel, true, w.superLookup(c.frames[o].code, sel, c.history), args);
  }

  // ----- returns -----

  lemma CorePop(t: Table, c: Config)
    requires Core(t, c) && c.current > 0
    ensures Core(t, PopFrame(c)) && PopFrame(c).current < c.current
    ensures |PopFrame(c).frames| == |c.frames|
    ensures forall i | 0 <= i < |c.frames| && i != c.current :: PopFrame(c).frames[i] == c.frames[i]
    ensures Some(PopFrame(c).current) == c.Top().previous
    ensures PopFrame(c).frames[c.current].code == c.Top().code
  {
    LinkedPop(c);
    var d := PopFrame(c);
    forall i | 0 <= i < |d.frames|
      ensures i > 0 ==> FrameInv(t, d.frames, i)
    {
      assert i > 0 ==> FrameInv(t, c.frames, i);
    }
    forall i | 0 <= i < |d.frames|
      ensures ValuesInv(t, d.frames, i)
    {
      assert ValuesInv(t, c.frames, i);
      GoodExtends(t, c.frames, d.frames, d.frames[i].args);
      GoodExtends(t, c.frames, d.frames, d.frames[i].locals);
      GoodExtends(t, c.frames, d.frames, d.frames[i].stack);
    }
    HistoryExtends(t, c.frames, d.frames, c.history);
  }

  /** A caller gets the result in place of the arguments, and is at its static height again. */
  lemma ReturnInv(t: Table, c: Config, v: Value)
    requires TableOk(t) && Core(t, c) && c.current > 0 && GoodValue(t, c.frames, v)
    ensures Inv(t, PopFrameAndPush(t, c, v))
  {
    hide Arity;
    CorePop(t, c);
    assert FrameInv(t, c.frames, c.current);
    var d := PopFrame(c);
    var n := t[c.Top().code].meth.Args();
    var stack := d.Stack()[..|d.Stack()| - n] + [v];
    assert d.Stack() == c.frames[d.current].stack;
    StackGood(t, d);
    GoodExtends(t, c.frames, d.frames, [v]);
    if d.current > 0 {
      MethodFacts(t, d.Top().code, d.Top().pc);
    }
    CoreStack(t, d, d.Top().pc, stack);
    assert d.WithTop(d.Top().(pc := d.Top().pc, stack := stack)) == d.WithStack(stack);
  }

  lemma {:induction false} CoreUnwind(t: Table, c: Config, home: nat)
    requires Core(t, c) && 1 <= home && OnChain(c.frames, home)
    ensures home <= c.current
    ensures var d := Unwind(c, home);
            Core(t, d) && d.current == home && FramesExtend(c.frames, d.frames)
    decreases c.current
  {
    if c.current != home {
      assert LinkOk(c.frames, c.current);
      assert home < c.current;
      CorePop(t, c);
      CoreUnwind(t, PopFrame(c), home);
    }
  }

  lemma DoReturnLocalInv(t: Table, c: Config, k: nat)
    requires TableOk(t) && Mid(t, c, k) && InstrAt(t, c, k).ReturnLocal?
    ensures Inv(t, DoReturnLocal(t, c))
  {
    MethodFacts(t, c.Top().code, k);
    StackGood(t, c);
    var n := |c.Stack()|;
    var d := c.WithStack(c.Stack()[..n - 1]);
    CoreStack(t, c, k + 1, c.Stack()[..n - 1]);
    assert c.WithTop(c.Top().(pc := k + 1, stack := c.Stack()[..n - 1])) == d;
    GoodExtends(t, c.frames, d.frames, [c.Stack()[n - 1]]);
    ReturnInv(t, d, c.Stack()[n - 1]);
  }

  /** Non-local return is safe: either its home is gone, or unwinding ends there and the home's
      caller continues as after a return of the home method. */
  lemma DoReturnNonLocalInv(t: Table, c: Config, k: nat)
    requires TableOk(t) && Mid(t, c, k) && InstrAt(t, c, k).ReturnNonLocal?
    ensures var d := DoReturnNonLocal(t, c);
            var home := OuterContext(c.frames, c.current);
            home.Some? && if OnChain(c.frames, home.value) then Inv(t, d) else d.status == EscapedBlock
  {
    MethodFacts(t, c.Top().code, k);
    StackGood(t, c);
    OuterExists(t, c, c.current);
    var n := |c.Stack()|;
    var d := c.WithStack(c.Stack()[..n - 1]);
    CoreStack(t, c, k + 1, c.Stack()[..n - 1]);
    assert c.WithTop(c.Top().(pc := k + 1, stack := c.Stack()[..n - 1])) == d;
    OuterUnchanged(c.frames, d.frames, c.current);
    var home := OuterContext(c.frames, c.current).value;
    if OnChain(c.frames, home) {
      CoreUnwind(t, d, home);
      GoodExtends(t, c.frames, Unwind(d, home).frames, [c.Stack()[n - 1]]);
      ReturnInv(t, Unwind(d, home), c.Stack()[n - 1]);
    }
  }

  lemma OuterUnchanged(f: seq<Frame>, g: seq<Frame>, a: nat)
    requires |f| == |g| && forall i | 0 <= i < |f| :: g[i].home == f[i].home
    ensures OuterContext(f, a) == OuterContext(g, a)
    decreases a
  {
    if a < |f| && f[a].home.Some? && f[a].home.value < a {
      OuterUnchanged(f, g, f[a].home.value);
    }
  }

  lemma ContextUnchanged(f: seq<Frame>, g: seq<Frame>, a: nat, level: nat)
    requires |f| == |g| && forall i | 0 <= i < |f| :: g[i].home == f[i].home
    ensures ContextAt(f, a, level) == ContextAt(g, a, level)
    decreases level
  {
    if a < |f| && level > 0 && f[a].home.Some? {
      ContextUnchanged(f, g, f[a].home.value, level - 1);
    }
  }

  // ----- variables -----

  lemma DoPushVariableInv(t: Table, c: Config, k: nat)
    requires TableOk(t) && Mid(t, c, k)
    ensures InstrAt(t, c, k).PushLocal? ==> Inv(t, DoPushLocal(c, InstrAt(t, c, k).index, InstrAt(t, c, k).level))
    ensures InstrAt(t, c, k).PushArgument? ==> Inv(t, DoPushArgument(c, InstrAt(t, c, k).index, InstrAt(t, c, k).level))
  {
    var i := InstrAt(t, c, k);
    if i.PushLocal? || i.PushArgument? {
      MethodFacts(t, c.Top().code, k);
      ContextMirrors(t, c, c.current, i.level);
      var h := ContextAt(c.frames, c.current, i.level).value;
      assert FrameInv(t, c.frames, h) && ValuesInv(t, c.frames, h);
      StackGood(t, c);
      var v := if i.PushLocal? then c.frames[h].locals[i.index] else c.frames[h].args[i.index];
      Settle(t, c, k, c.Stack() + [v]);
    }
  }

  lemma DoPopVariableInv(t: Table, c: Config, k: nat)
    requires TableOk(t) && Mid(t, c, k)
    ensures InstrAt(t, c, k).PopLocal? ==> Inv(t, DoPopLocal(c, InstrAt(t, c, k).index, InstrAt(t, c, k).level))
    ensures InstrAt(t, c, k).PopArgument? ==> Inv(t, DoPopArgument(c, InstrAt(t, c, k).index, InstrAt(t, c, k).level))
  {
    var i := InstrAt(t, c, k);
    if i.PopLocal? || i.PopArgument? {
      MethodFacts(t, c.Top().code, k);
      ContextMirrors(t, c, c.current, i.level);
      StackGood(t, c);
      var n := |c.Stack()|;
      var d := c.WithStack(c.Stack()[..n - 1]);
      Settle(t, c, k, c.Stack()[..n - 1]);
      ContextUnchanged(c.frames, d.frames, c.current, i.level);
      var h := ContextAt(d.frames, d.current, i.level).value;
      GoodExtends(t, c.frames, d.frames, [c.Stack()[n - 1]]);
      assert GoodValue(t, d.frames, [c.Stack()[n - 1]][0]);
      StoreInv(t, d, h, i.PopArgument?, i.index, c.Stack()[n - 1]);
    }
  }

  lemma StoreInv(t: Table, d: Config, h: nat, isArgument: bool, index: nat, v: Value)
    requires Inv(t, d) && 1 <= h < |d.frames| && d.frames[h].code in t && GoodValue(t, d.frames, v)
    requires index < if isArgument then t[d.frames[h].code].meth.Args() else t[d.frames[h].code].meth.locals
    ensures index < if isArgument then |d.frames[h].args| else |d.frames[h].locals|
    ensures var f := d.frames[h];
            var g := if isArgument then f.(args := f.args[index := v]) else f.(locals := f.locals[index := v]);
            Inv(t, d.(frames := d.frames[h := g]))
  {
    var f := d.frames[h];
    assert FrameInv(t, d.frames, h) && ValuesInv(t, d.frames, h);
    var g := if isArgument then f.(args := f.args[index := v]) else f.(locals := f.locals[index := v]);
    CoreReplace(t, d, h, g);
  }

  // ----- fields, globals, blocks -----

  /** The instruction names a field the receiver's class does not have. */
  ghost predicate FieldFault(w: World, t: Table, c: Config, k: nat)
    requires c.current < |c.frames| && c.Top().code in t && k < |t[c.Top().code].meth.code|
  {
    var i := InstrAt(t, c, k);
    var self := SelfOf(c.frames, c.current);
    (i.PushField? || i.PopField?) && self.Some? && !w.hasField(self.value, Selector(Lits(t, c), i.lit))
  }

  lemma DoFieldInv(w: World, t: Table, c: Config, k: nat)
    requires TableOk(t) && WorldOk(w, t) && Mid(t, c, k)
    ensures var i := InstrAt(t, c, k);
            i.PushField? ==>
              var d := DoPushField(w, c, Selector(Lits(t, c), i.lit));
              if FieldFault(w, t, c, k) then d.status == Stuck else Inv(t, d)
    ensures var i := InstrAt(t, c, k);
            i.PopField? ==>
              var d := DoPopField(w, c, Selector(Lits(t, c), i.lit));
              if FieldFault(w, t, c, k) then d.status == Stuck else Inv(t, d)
  {
    var i := InstrAt(t, c, k);
    if i.PushField? || i.PopField? {
      MethodFacts(t, c.Top().code, k);
      StackGood(t, c);
      SelfExists(t, c, c.current);
      var self := SelfOf(c.frames, c.current).value;
      var name := Selector(Lits(t, c), i.lit);
      var n := |c.Stack()|;
      if i.PushField? {
        var v := w.field(self, name, c.history);
        if v.Closure? {
          SeenIsGood(t, c.frames, c.history, v);
        }
        Settle(t, c, k, c.Stack() + [v]);
      } else {
        Settle(t, c, k, c.Stack()[..n - 1]);
        var d := c.WithStack(c.Stack()[..n - 1]);
        GoodExtends(t, c.frames, d.frames, [self, c.Stack()[n - 1]]);
        CoreRecord(t, d, FieldE(self, name, c.Stack()[n - 1]));
      }
    }
  }

  lemma DoPushGlobalInv(w: World, t: Table, c: Config, k: nat)
    requires TableOk(t) && WorldOk(w, t) && Mid(t, c, k) && InstrAt(t, c, k).PushGlobal?
    ensures Inv(t, DoPushGlobal(w, t, c, Selector(Lits(t, c), InstrAt(t, c, k).lit)))
  {
    hide Arity;
    MethodFacts(t, c.Top().code, k);
    StackGood(t, c);
    SelfExists(t, c, c.current);
    var name := Selector(Lits(t, c), InstrAt(t, c, k).lit);
    match w.global(name, c.history)
    case Some(v) =>
      if v.Closure? {
        SeenIsGood(t, c.frames, c.history, v);
      }
      Settle(t, c, k, c.Stack() + [v]);
    case None =>
      SelectorArities();
      SendToInv(w, t, c, UNKNOWN_GLOBAL, [SelfOf(c.frames, c.current).value, SymV(name)]);
  }

  lemma DoSimpleInv(t: Table, c: Config, k: nat)
    requires TableOk(t) && Mid(t, c, k)
    ensures InstrAt(t, c, k).Dup? ==> |c.Stack()| > 0 && Inv(t, Push(c, c.Stack()[|c.Stack()| - 1]))
    ensures InstrAt(t, c, k).Pop? ==> |c.Stack()| > 0 && Inv(t, c.WithStack(c.Stack()[..|c.Stack()| - 1]))
    ensures InstrAt(t, c, k).PushConstant? ==>
              var j := InstrAt(t, c, k).lit; j < |Lits(t, c)| && Inv(t, Push(c, Lits(t, c)[j]))
    ensures InstrAt(t, c, k).PushBlock? ==>
              var j := InstrAt(t, c, k).lit; j < |Lits(t, c)| && Inv(t, DoPushBlock(c, Lits(t, c)[j]))
  {
    var i := InstrAt(t, c, k);
    MethodFacts(t, c.Top().code, k);
    StackGood(t, c);
    var n := |c.Stack()|;
    if i.Dup? {
      Settle(t, c, k, c.Stack() + [c.Stack()[n - 1]]);
    } else if i.Pop? {
      Settle(t, c, k, c.Stack()[..n - 1]);
    } else if i.PushConstant? {
      Settle(t, c, k, c.Stack() + [Lits(t, c)[i.lit]]);
    } else if i.PushBlock? {
      var b := Closure(Lits(t, c)[i.lit].code, c.current);
      assert GoodValue(t, c.frames, b);
      Settle(t, c, k, c.Stack() + [b]);
    }
  }

  // ----- the step -----

  /** Where one step from a good state can lead. */
  ghost predicate GoodStep(w: World, t: Table, c: Config, d: Config) {
    || Inv(t, d)
    || (d.status == Halted && c.current == 0)
    || (d.status == EscapedBlock && c.current > 0 && Fetch(t, c) == Some(ReturnNonLocal) &&
        var home := OuterContext(c.frames, c.current);
        home.Some? && !OnChain(c.frames, home.value))
    || (d.status == Stuck && c.current > 0 && c.Up() && c.Top().code in t &&
        c.Top().pc < |t[c.Top().code].meth.code| && FieldFault(w, t, c, c.Top().pc))
  }

  lemma AdvanceMid(t: Table, c: Config)
    requires TableOk(t) && Inv(t, c) && c.current > 0
    ensures Mid(t, Advance(c), c.Top().pc)
    ensures Fetch(t, c) == Some(InstrAt(t, Advance(c), c.Top().pc))
    ensures Advance(c).Top().code == c.Top().code
    ensures forall i | 0 <= i < |c.frames| ::
              Advance(c).frames[i].home == c.frames[i].home && Advance(c).frames[i].args == c.frames[i].args &&
              Advance(c).frames[i].previous == c.frames[i].previous
  {
    StackGood(t, c);
    assert FrameInv(t, c.frames, c.current);
    CoreStack(t, c, c.Top().pc + 1, c.Stack());
    assert c.WithTop(c.Top().(pc := c.Top().pc + 1, stack := c.Stack())) == Advance(c);
  }

  lemma ExecuteInv(w: World, t: Table, c: Config, k: nat)
    requires TableOk(t) && WorldOk(w, t) && Mid(t, c, k)
    ensures var d := Execute(w, t, c, InstrAt(t, c, k), Lits(t, c));
            || Inv(t, d)
            || (d.status == EscapedBlock && InstrAt(t, c, k).ReturnNonLocal? &&
                var home := OuterContext(c.frames, c.current);
                home.Some? && !OnChain(c.frames, home.value))
            || (d.status == Stuck && FieldFault(w, t, c, k))
  {
    hide DoSend, DoSuperSend, DoReturnLocal, DoReturnNonLocal, DoPushLocal, DoPushArgument, DoPopLocal,
         DoPopArgument, DoPushField, DoPopField, DoPushGlobal, DoPushBlock, Inv;
    match InstrAt(t, c, k)
    case Halt => MethodHasNoHalt(t, c, k);
    case PushLocal(_, _) => DoPushVariableInv(t, c, k);
    case PushArgument(_, _) => DoPushVariableInv(t, c, k);
    case PopLocal(_, _) => DoPopVariableInv(t, c, k);
    case PopArgument(_, _) => DoPopVariableInv(t, c, k);
    case PushField(_) => DoFieldInv(w, t, c, k);
    case PopField(_) => DoFieldInv(w, t, c, k);
    case PushGlobal(_) => DoPushGlobalInv(w, t, c, k);
    case Send(_) => DoSendInv(w, t, c, k);
    case SuperSend(_) => DoSuperSendInv(w, t, c, k);
    case ReturnLocal => DoReturnLocalInv(t, c, k);
    case ReturnNonLocal => DoReturnNonLocalInv(t, c, k);
    case _ => DoSimpleInv(t, c, k);
  }

  lemma MethodHasNoHalt(t: Table, c: Config, k: nat)
    requires TableOk(t) && Mid(t, c, k)
    ensures !InstrAt(t, c, k).Halt?
  {
    MethodFacts(t, c.Top().code, k);
  }

  /** Every step from a good state leads to a good state, to the end of the program, to a return
      from a method that is gone, or to an access to a field the receiver does not have. */
  lemma StepInv(w: World, t: Table, c: Config)
    requires TableOk(t) && WorldOk(w, t) && Inv(t, c)
    ensures GoodStep(w, t, c, Step(w, t, c))
  {
    if c.current > 0 {
      AdvanceMid(t, c);
      ExecuteInv(w, t, Advance(c), c.Top().pc);
      OuterUnchanged(c.frames, Advance(c).frames, c.current);
      assert Lits(t, Advance(c)) == LiteralsOf(t, c.Top().code);
    }
  }

  /** A run that is still going is in a good state, however long it has been going. */
  lemma {:induction false} RunInv(w: World, t: Table, c: Config, n: nat)
    requires TableOk(t) && WorldOk(w, t) && Inv(t, c)
    ensures Run(w, t, c, n).status == Running ==> Inv(t, Run(w, t, c, n))
    decreases n
  {
    hide Step, Inv;
    if n > 0 {
      StepKeeps(w, t, c);
      var d := Step(w, t, c);
      if d.status == Running {
        RunInv(w, t, d, n - 1);
      } else {
        StaysStopped(w, t, d, n - 1);
      }
    }
  }

  lemma StepKeeps(w: World, t: Table, c: Config)
    requires TableOk(t) && WorldOk(w, t) && Inv(t, c)
    ensures Step(w, t, c).status == Running ==> Inv(t, Step(w, t, c))
  {
    hide Step, Inv;
    StepInv(w, t, c);
  }

  /** At every moment of every run, every frame's operands fit the slots allotted to it, and the
      current frame is exactly at its static height. */
  lemma OperandsFit(w: World, t: Table, c: Config, n: nat, i: nat)
    requires TableOk(t) && WorldOk(w, t) && Inv(t, c)
    requires Run(w, t, c, n).status == Running && 1 <= i < |Run(w, t, c, n).frames|
    ensures var d := Run(w, t, c, n);
            && d.frames[i].code in t
            && |d.frames[i].stack| <= t[d.frames[i].code].meth.maxStack + 3
            && (i == d.current ==>
                  && d.frames[i].pc < |t[d.frames[i].code].meth.code|
                  && |d.frames[i].stack| == Height(t[d.frames[i].code].meth, d.frames[i].pc)
                  && |d.frames[i].stack| <= t[d.frames[i].code].meth.maxStack)
  {
    RunInv(w, t, c, n);
    var d := Run(w, t, c, n);
    assert FrameInv(t, d.frames, i);
    if i == d.current {
      MethodFacts(t, d.Top().code, d.Top().pc);
    }
  }
}

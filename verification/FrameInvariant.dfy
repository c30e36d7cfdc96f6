/** What holds in every reachable state of the machine, for any table of methods that keep the stack
    discipline: operand heights are the static ones, frames are large enough, contexts mirror the
    nesting of methods and blocks, and blocks refer to frames of the method they stand in. */
module FrameInvariant {
  import opened Common
  import opened Bytecodes
  import opened Signature
  import opened StackDepth
  import opened CodeGen
  import opened CodeOperands
  import opened Machine
  import opened Chains

  // ----- methods -----

  /** The static operand height before instruction k. */
  function Height(m: Method, k: nat): int
    requires k <= |m.code|
  {
    Net(m.code[..k], m.literals)
  }

  /** The method or block `level` contexts out. */
  function Ancestor(t: Table, code: nat, level: nat): Option<nat>
    decreases level
  {
    if code !in t then None
    else if level == 0 then Some(code)
    else if t[code].parent.None? then None
    else Ancestor(t, t[code].parent.value, level - 1)
  }

  /** Operands refer to slots and literals that exist. */
  ghost predicate ReferenceOk(t: Table, code: nat, i: Instr)
    requires code in t
  {
    var lits := t[code].meth.literals;
    match i
    case PushLocal(x, l) => var a := Ancestor(t, code, l); a.Some? && a.value in t && x < t[a.value].meth.locals
    case PopLocal(x, l) => var a := Ancestor(t, code, l); a.Some? && a.value in t && x < t[a.value].meth.locals
    case PushArgument(x, l) => var a := Ancestor(t, code, l); a.Some? && a.value in t && x < t[a.value].meth.Args()
    case PopArgument(x, l) => var a := Ancestor(t, code, l); a.Some? && a.value in t && x < t[a.value].meth.Args()
    case PushConstant(k) => k < |lits| && !lits[k].Closure?
    case PushBlock(k) =>
      k < |lits| && lits[k].CodeV? && lits[k].code in t && t[lits[k].code].parent == Some(code)
    case _ => true
  }

  ghost predicate MethodOk(t: Table, code: nat)
    requires code in t
  {
    var m := t[code].meth;
    && m.code != [] && IsReturn(m.code[|m.code| - 1])
    && (forall k | 0 <= k < |m.code| - 1 :: !IsReturn(m.code[k]) && !m.code[k].Halt?)
    && NeverDips(m.code, m.literals, 0)
    && Peak(m.code, m.literals, 0) <= m.maxStack
    && (forall k {:trigger ReferenceOk(t, code, m.code[k])} | 0 <= k < |m.code| :: ReferenceOk(t, code, m.code[k]))
    && (t[code].parent.Some? ==> t[code].parent.value in t)
  }

  ghost predicate TableOk(t: Table) {
    forall code {:trigger MethodOk(t, code)} | code in t :: MethodOk(t, code)
  }

  // ----- the world -----

  function EventValues(e: Event): seq<Value> {
    match e
    case SendE(_, _, args) => args
    case PrimitiveE(_, args) => args
    case FieldE(self, _, value) => [self, value]
    case ArrayE(elements) => elements
  }

  ghost predicate Seen(h: History, v: Value) {
    exists i | 0 <= i < |h| :: v in EventValues(h[i])
  }

  /** What a lookup of `sel` may find: invokables have the arity of their selector, and the block
      evaluation primitive for n arguments is found only for a block with n arguments. */
  ghost predicate FindOk(t: Table, inv: Invokable, sel: string, recv: Option<Value>) {
    match inv
    case MethodI(code) => code in t && t[code].parent.None? && t[code].meth.Args() == Arity(sel)
    case EvaluateI(argc) =>
      && argc == Arity(sel) && recv.Some? && recv.value.Closure?
      && recv.value.code in t && t[recv.value.code].meth.Args() == argc
    case _ => true
  }

  /** The rest of the machine hands out no block that it has not been given, and every class
      understands the two messages the machine sends on its own. */
  ghost predicate WorldOk(w: World, t: Table) {
    && (forall recv, sel, h :: w.lookup(recv, sel, h).Some? ==>
          FindOk(t, w.lookup(recv, sel, h).value, sel, Some(recv)))
    && (forall code, sel, h :: w.superLookup(code, sel, h).Some? ==>
          FindOk(t, w.superLookup(code, sel, h).value, sel, None))
    && (forall recv, h :: w.lookup(recv, DNU, h).Some?)
    && (forall recv, h :: w.lookup(recv, UNKNOWN_GLOBAL, h).Some?)
    && (forall p, args, h :: w.primitive(p, args, h).Closure? ==>
          w.primitive(p, args, h) in args || Seen(h, w.primitive(p, args, h)))
    && (forall self, name, h :: w.field(self, name, h).Closure? ==> Seen(h, w.field(self, name, h)))
    && (forall name, h :: w.global(name, h).Some? && w.global(name, h).value.Closure? ==>
          Seen(h, w.global(name, h).value))
  }

  // ----- states -----

  ghost predicate GoodValue(t: Table, frames: seq<Frame>, v: Value) {
    v.Closure? ==> WellMade(t, frames, v) && v.home >= 1
  }

  ghost predicate GoodValues(t: Table, frames: seq<Frame>, s: seq<Value>) {
    forall v | v in s :: GoodValue(t, frames, v)
  }

  ghost predicate GoodHistory(t: Table, frames: seq<Frame>, h: History) {
    forall i | 0 <= i < |h| :: GoodValues(t, frames, EventValues(h[i]))
  }

  ghost predicate Room(t: Table, f: Frame)
    requires f.code in t
  {
    |f.stack| <= t[f.code].meth.maxStack + 3
  }

  /** A suspended frame's operands, less the callee's arguments, plus the result to come, make up
      the static height at its position. */
  ghost predicate SuspendedOk(t: Table, frames: seq<Frame>, i: nat)
    requires i < |frames| && frames[i].code in t
  {
    frames[i].previous.Some? ==>
      var p := frames[i].previous.value;
      var n := t[frames[i].code].meth.Args();
      && p < |frames| && |frames[p].stack| >= n
      && (p > 0 ==>
            && frames[p].code in t && frames[p].pc < |t[frames[p].code].meth.code|
            && |frames[p].stack| - n + 1 == Height(t[frames[p].code].meth, frames[p].pc))
  }

  ghost predicate ContextOk(t: Table, frames: seq<Frame>, i: nat)
    requires i < |frames| && frames[i].code in t
  {
    match frames[i].home
    case None => t[frames[i].code].parent.None?
    case Some(h) => 1 <= h < i && t[frames[i].code].parent == Some(frames[h].code)
  }

  ghost predicate FrameInv(t: Table, frames: seq<Frame>, i: nat)
    requires i < |frames|
  {
    && frames[i].code in t
    && |frames[i].args| == t[frames[i].code].meth.Args()
    && |frames[i].locals| == t[frames[i].code].meth.locals
    && Room(t, frames[i])
    && ContextOk(t, frames, i)
    && SuspendedOk(t, frames, i)
  }

  ghost predicate ValuesInv(t: Table, frames: seq<Frame>, i: nat)
    requires i < |frames|
  {
    && GoodValues(t, frames, frames[i].args)
    && GoodValues(t, frames, frames[i].locals)
    && GoodValues(t, frames, frames[i].stack)
  }

  /** Everything but the height of the current frame. */
  ghost predicate Core(t: Table, c: Config) {
    && c.status == Running
    && Linked(c.frames, c.current) && c.frames[0].home.None? && c.frames[0].code !in t
    && (forall i {:trigger FrameInv(t, c.frames, i)} | 1 <= i < |c.frames| :: FrameInv(t, c.frames, i))
    && (forall i {:trigger ValuesInv(t, c.frames, i)} | 0 <= i < |c.frames| :: ValuesInv(t, c.frames, i))
    && GoodHistory(t, c.frames, c.history)
  }

  /** The current frame stands before an instruction, at the static height of that place. */
  ghost predicate AtHeight(t: Table, c: Config) {
    c.current < |c.frames| &&
    (c.current > 0 ==>
       && c.Top().code in t && c.Top().pc < |t[c.Top().code].meth.code|
       && |c.Stack()| == Height(t[c.Top().code].meth, c.Top().pc))
  }

  ghost predicate Inv(t: Table, c: Config) {
    Core(t, c) && AtHeight(t, c)
  }

  // ----- values stay good -----

  ghost predicate FramesExtend(f: seq<Frame>, g: seq<Frame>) {
    |f| <= |g| && forall i | 0 <= i < |f| :: g[i].code == f[i].code
  }

  lemma GoodExtends(t: Table, f: seq<Frame>, g: seq<Frame>, s: seq<Value>)
    requires FramesExtend(f, g) && GoodValues(t, f, s)
    ensures GoodValues(t, g, s)
  {
  }

  lemma HistoryExtends(t: Table, f: seq<Frame>, g: seq<Frame>, h: History)
    requires FramesExtend(f, g) && GoodHistory(t, f, h)
    ensures GoodHistory(t, g, h)
  {
    forall i | 0 <= i < |h|
      ensures GoodValues(t, g, EventValues(h[i]))
    {
      GoodExtends(t, f, g, EventValues(h[i]));
    }
  }

  lemma SeenIsGood(t: Table, frames: seq<Frame>, h: History, v: Value)
    requires GoodHistory(t, frames, h) && Seen(h, v)
    ensures GoodValue(t, frames, v)
  {
    var i :| 0 <= i < |h| && v in EventValues(h[i]);
    assert GoodValues(t, frames, EventValues(h[i]));
  }

  // ----- changing one frame -----

  /** Replacing a frame nobody waits for, or whose operands stay, by one with good values and room. */
  lemma CoreReplace(t: Table, c: Config, h: nat, f: Frame)
    requires Core(t, c) && h < |c.frames|
    requires f.code == c.frames[h].code && f.home == c.frames[h].home && f.previous == c.frames[h].previous
    requires |f.args| == |c.frames[h].args| && |f.locals| == |c.frames[h].locals|
    requires h > 0 ==> f.code in t && Room(t, f)
    requires h == c.current || (f.stack == c.frames[h].stack && f.pc == c.frames[h].pc)
    requires GoodValues(t, c.frames, f.args) && GoodValues(t, c.frames, f.locals) && GoodValues(t, c.frames, f.stack)
    ensures Core(t, c.(frames := c.frames[h := f]))
  {
    var g := c.frames[h := f];
    LinkedReplace(c.frames, c.current, h, f);
    NothingAbove(c.frames, c.current);
    forall i | 0 <= i < |g|
      ensures i > 0 ==> FrameInv(t, g, i)
    {
      assert i > 0 ==> FrameInv(t, c.frames, i);
    }
    forall i | 0 <= i < |g|
      ensures ValuesInv(t, g, i)
    {
      assert ValuesInv(t, c.frames, i);
      GoodExtends(t, c.frames, g, g[i].args);
      GoodExtends(t, c.frames, g, g[i].locals);
      GoodExtends(t, c.frames, g, g[i].stack);
    }
    HistoryExtends(t, c.frames, g, c.history);
  }

  lemma CoreStack(t: Table, c: Config, pc: nat, stack: seq<Value>)
    requires Core(t, c) && GoodValues(t, c.frames, stack)
    requires c.current > 0 ==> c.Top().code in t && |stack| <= t[c.Top().code].meth.maxStack + 3
    ensures Core(t, c.WithTop(c.Top().(pc := pc, stack := stack)))
  {
    assert ValuesInv(t, c.frames, c.current);
    CoreReplace(t, c, c.current, c.Top().(pc := pc, stack := stack));
  }

  lemma CoreRecord(t: Table, c: Config, e: Event)
    requires Core(t, c) && GoodValues(t, c.frames, EventValues(e))
    ensures Core(t, c.Record(e))
  {
  }

  lemma CoreEnter(t: Table, c: Config, f: Frame)
    requires Core(t, c) && f.previous == Some(c.current)
    requires f.code in t && |f.args| == t[f.code].meth.Args() && |f.locals| == t[f.code].meth.locals
    requires f.stack == []
    requires match f.home
             case None => t[f.code].parent.None?
             case Some(h) => 1 <= h < |c.frames| && t[f.code].parent == Some(c.frames[h].code)
    requires SuspendedOk(t, c.frames + [f], |c.frames|)
    requires GoodValues(t, c.frames, f.args) && GoodValues(t, c.frames, f.locals)
    ensures Core(t, PushFrame(c, f))
  {
    var g := c.frames + [f];
    LinkedEnter(c.frames, c.current, f);
    forall i | 0 <= i < |g|
      ensures i > 0 ==> FrameInv(t, g, i)
    {
      assert 0 < i < |c.frames| ==> FrameInv(t, c.frames, i);
    }
    forall i | 0 <= i < |g|
      ensures ValuesInv(t, g, i)
    {
      assert i < |c.frames| ==> ValuesInv(t, c.frames, i);
      GoodExtends(t, c.frames, g, g[i].args);
      GoodExtends(t, c.frames, g, g[i].locals);
      GoodExtends(t, c.frames, g, g[i].stack);
    }
    HistoryExtends(t, c.frames, g, c.history);
  }

  // ----- contexts -----

  /** The context chain of a frame mirrors the nesting of its method. */
  lemma {:induction false} ContextMirrors(t: Table, c: Config, a: nat, level: nat)
    requires Core(t, c) && 1 <= a < |c.frames| && Ancestor(t, c.frames[a].code, level).Some?
    ensures var h := ContextAt(c.frames, a, level);
            && h.Some? && 1 <= h.value <= a
            && c.frames[h.value].code in t
            && Ancestor(t, c.frames[a].code, level) == Some(c.frames[h.value].code)
    decreases level
  {
    assert FrameInv(t, c.frames, a);
    if level > 0 {
      ContextMirrors(t, c, c.frames[a].home.value, level - 1);
    }
  }

  lemma {:induction false} OuterExists(t: Table, c: Config, a: nat)
    requires Core(t, c) && 1 <= a < |c.frames|
    ensures var o := OuterContext(c.frames, a);
            o.Some? && 1 <= o.value <= a && c.frames[o.value].code in t && t[c.frames[o.value].code].parent.None?
    decreases a
  {
    assert FrameInv(t, c.frames, a);
    if c.frames[a].home.Some? {
      OuterExists(t, c, c.frames[a].home.value);
    }
  }

  lemma ArityPositive(sel: string)
    ensures Arity(sel) >= 1
  {
  }

  lemma SelfExists(t: Table, c: Config, a: nat)
    requires Core(t, c) && 1 <= a < |c.frames|
    ensures SelfOf(c.frames, a).Some? && GoodValue(t, c.frames, SelfOf(c.frames, a).value)
  {
    OuterExists(t, c, a);
    var o := OuterContext(c.frames, a).value;
    assert FrameInv(t, c.frames, o) && ValuesInv(t, c.frames, o);
    ArityPositive(t[c.frames[o].code].meth.signature);
  }
}

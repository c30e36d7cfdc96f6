/** One instruction of compiled code does what the source construct it stands for does. */
module Steps {
  import opened Common
  import opened Bytecodes
  import opened Signature
  import opened StackDepth
  import opened CodeGen
  import opened CodeOperands
  import opened Machine
  import opened Chains
  import opened Semantics
  import opened Simulation
  import opened Lexical

  lemma Limits(P: Program, code: nat)
    requires Good(P) && code in P.src
    ensures |Compile(P.src[code]).literals| <= 256 && Small(P.src[code].Cx().scopes)
  {
    assert SourceOk(P.src, code);
  }

  /** The current frame runs a method or block of the program. */
  lemma CurrentInSource(P: Program, st: State, c: Config)
    requires Rel(P, st, c)
    ensures c.Up() && c.Top().code in P.src && c.Top().previous.Some?
  {
    assert FrameOk(P, st.acts, c.frames, c.current);
  }

  /** Moving on and replacing the operands of the current frame. */
  lemma LandsTop(P: Program, st: State, c: Config, pc: nat, stack: seq<Value>)
    requires Rel(P, st, c)
    ensures Lands(P, c, c.WithTop(c.Top().(pc := pc, stack := stack)), pc, stack, st)
  {
    RelTop(P, st, c, c.Top().(pc := pc, stack := stack));
  }

  /** The configuration in which an instruction executes, with its operands replaced. */
  lemma AdvancedStack(c: Config, stack: seq<Value>)
    requires c.Up()
    ensures Advance(c).WithStack(stack) == c.WithTop(c.Top().(pc := c.Top().pc + 1, stack := stack))
    ensures Advance(c).Stack() == c.Stack() && Advance(c).Up() && Advance(c).current == c.current
  {
  }

  /** An instruction that only replaces operands. */
  lemma LandsStack(P: Program, st: State, c: Config, stack: seq<Value>)
    requires Rel(P, st, c)
    ensures Lands(P, c, Advance(c).WithStack(stack), c.Top().pc + 1, stack, st)
  {
    AdvancedStack(c, stack);
    LandsTop(P, st, c, c.Top().pc + 1, stack);
  }

  lemma ContextAtAdvance(c: Config, stack: seq<Value>, a: nat, level: nat)
    requires c.Up()
    ensures ContextAt(Advance(c).WithStack(stack).frames, a, level) == ContextAt(c.frames, a, level)
    ensures ContextAt(Advance(c).frames, a, level) == ContextAt(c.frames, a, level)
    decreases level
  {
    if a < |c.frames| && level > 0 && c.frames[a].home.Some? {
      ContextAtAdvance(c, stack, c.frames[a].home.value, level - 1);
    }
  }

  lemma OuterAdvance(c: Config, stack: seq<Value>, a: nat)
    requires c.Up()
    ensures OuterContext(Advance(c).WithStack(stack).frames, a) == OuterContext(c.frames, a)
    ensures OuterContext(Advance(c).frames, a) == OuterContext(c.frames, a)
    decreases a
  {
    if a < |c.frames| && c.frames[a].home.Some? && c.frames[a].home.value < a {
      OuterAdvance(c, stack, c.frames[a].home.value);
    }
  }

  lemma SelfAdvance(c: Config, stack: seq<Value>)
    requires c.Up()
    ensures SelfOf(Advance(c).WithStack(stack).frames, c.current) == SelfOf(c.frames, c.current)
    ensures SelfOf(Advance(c).frames, c.current) == SelfOf(c.frames, c.current)
  {
    OuterAdvance(c, stack, c.current);
  }

  // ----- reading a variable -----

  /** A frame's slot holds the value of the name it stands for. */
  lemma SlotValue(P: Program, acts: seq<Activation>, frames: seq<Frame>, h: nat, name: string, s: Slot)
    requires FramesOk(P, acts, frames) && Denotes(P, acts, frames, h, name, s)
    ensures s.isArgument ==> s.index < |frames[h].args| && frames[h].args[s.index] == Get(acts[h], name)
    ensures !s.isArgument ==> s.index < |frames[h].locals| && frames[h].locals[s.index] == Get(acts[h], name)
  {
    assert FrameOk(P, acts, frames, h);
  }

  /** The operands of a variable instruction are the resolved index and level, unwrapped. */
  lemma SlotBytes(P: Program, code: nat, name: string)
    requires Good(P) && code in P.src && FindVar(P.src[code].Cx().scopes, name).Some?
    ensures var s := FindVar(P.src[code].Cx().scopes, name).value;
            ToByte(s.index) == s.index && ToByte(s.level) == s.level
  {
    hide Good, Compile;
    Limits(P, code);
    FindVarInBounds(P.src[code].Cx().scopes, name);
  }

  lemma StepPushBound(P: Program, st: State, c: Config, name: string, lits: seq<Value>)
    requires Good(P) && Rel(P, st, c) && c.Top().code in P.src
    requires FindVar(P.src[c.Top().code].Cx().scopes, name).Some?
    requires HasCode(P, c.Top(), PushVariable(P.src[c.Top().code].Cx(), name, lits).code)
    ensures var b := Binder(st.acts, c.current, name);
            b.Some? &&
            Lands(P, c, Step(P.w, P.t, c), c.Top().pc + 1, c.Stack() + [Get(st.acts[b.value], name)], st)
  {
    hide Good, HasCode, Lands, Step, Compile, Represents;
    var cx := P.src[c.Top().code].Cx();
    var s := FindVar(cx.scopes, name).value;
    Addressing(P, st.acts, c.frames, c.current, name);
    SlotBytes(P, c.Top().code, name);
    var h := Binder(st.acts, c.current, name).value;
    SlotValue(P, st.acts, c.frames, h, name, s);
    var i := if s.isArgument then PushArgument(s.index, s.level) else PushLocal(s.index, s.level);
    assert PushVariable(cx, name, lits).code == [i];
    StepExecutes(P, c, i);
    ContextAtAdvance(c, c.Stack(), c.current, s.level);
    LandsStack(P, st, c, c.Stack() + [Get(st.acts[h], name)]);
    AdvancedStack(c, c.Stack());
    assert Advance(c).frames[h].args == c.frames[h].args && Advance(c).frames[h].locals == c.frames[h].locals;
  }

  // ----- writing a variable -----

  lemma IndexOfDistinct(names: seq<string>, m: string, n: string)
    requires m in names && n in names && m != n
    ensures IndexOf(names, m) != IndexOf(names, n)
  {
  }

  lemma RepresentsSet(s: Source, act: Activation, f: Frame, name: string, v: Value)
    requires Represents(s, act, f)
    ensures name in act.locals ==>
              var i := IndexOf(s.locals, name);
              0 <= i < |f.locals| && Represents(s, Set(act, name, v), f.(locals := f.locals[i := v]))
    ensures name !in act.locals && name in act.params ==>
              var i := IndexOf(s.args, name);
              0 <= i < |f.args| && Represents(s, Set(act, name, v), f.(args := f.args[i := v]))
  {
    hide Represents, IndexOf;
    if name in act.locals {
      RepresentsLocal(s, act, f, name, v);
    } else if name in act.params {
      RepresentsParameter(s, act, f, name, v);
    }
  }

  lemma RepresentsLocal(s: Source, act: Activation, f: Frame, name: string, v: Value)
    requires Represents(s, act, f) && name in act.locals
    ensures 0 <= IndexOf(s.locals, name) < |f.locals|
    ensures Represents(s, Set(act, name, v), f.(locals := f.locals[IndexOf(s.locals, name) := v]))
  {
    hide IndexOf, Arity;
    SlotsSet(s.locals, act.locals, f.locals, name, v);
  }

  lemma RepresentsParameter(s: Source, act: Activation, f: Frame, name: string, v: Value)
    requires Represents(s, act, f) && name !in act.locals && name in act.params
    ensures 0 <= IndexOf(s.args, name) < |f.args|
    ensures Represents(s, Set(act, name, v), f.(args := f.args[IndexOf(s.args, name) := v]))
  {
    hide IndexOf, Arity;
    SlotsSet(s.args, act.params, f.args, name, v);
  }

  /** Names and slots still agree after a variable and its slot have changed. */
  lemma SlotsSet(names: seq<string>, vars: map<string, Value>, slots: seq<Value>, name: string, v: Value)
    requires |names| <= |slots| && name in vars
    requires forall n | n in vars :: n in names && vars[n] == slots[IndexOf(names, n)]
    ensures 0 <= IndexOf(names, name) < |slots|
    ensures forall n | n in vars[name := v] ::
              n in names && vars[name := v][n] == slots[IndexOf(names, name) := v][IndexOf(names, n)]
  {
    hide IndexOf;
    forall n | n in vars && n != name
      ensures IndexOf(names, n) != IndexOf(names, name)
    {
      IndexOfDistinct(names, n, name);
    }
  }

  /** Writing the slot of a name writes the variable. */
  lemma RelSet(P: Program, st: State, c: Config, h: nat, name: string, s: Slot, v: Value)
    requires Rel(P, st, c) && Denotes(P, st.acts, c.frames, h, name, s)
    ensures s.index < if s.isArgument then |c.frames[h].args| else |c.frames[h].locals|
    ensures var f := c.frames[h];
            var g := if s.isArgument then f.(args := f.args[s.index := v]) else f.(locals := f.locals[s.index := v]);
            Rel(P, st.(acts := st.acts[h := Set(st.acts[h], name, v)]), c.(frames := c.frames[h := g]))
  {
    var f := c.frames[h];
    assert FrameOk(P, st.acts, c.frames, h);
    RepresentsSet(P.src[f.code], st.acts[h], f, name, v);
    var g := if s.isArgument then f.(args := f.args[s.index := v]) else f.(locals := f.locals[s.index := v]);
    FramesReplace(P, st.acts, c.frames, h, Set(st.acts[h], name, v), g);
    LinkedReplace(c.frames, c.current, h, g);
  }

  function WithSlot(f: Frame, s: Slot, v: Value): Frame
    requires s.index < if s.isArgument then |f.args| else |f.locals|
  {
    if s.isArgument then f.(args := f.args[s.index := v]) else f.(locals := f.locals[s.index := v])
  }

  lemma ExecutePop(c: Config, s: Slot, h: nat, base: seq<Value>, v: Value)
    requires c.Up() && c.Stack() == base + [v]
    requires ContextAt(c.frames, c.current, s.level) == Some(h)
    requires s.index < if s.isArgument then |c.frames[h].args| else |c.frames[h].locals|
    ensures var d := Advance(c).WithStack(base);
            && d.frames[h].args == c.frames[h].args && d.frames[h].locals == c.frames[h].locals
            && (if s.isArgument then DoPopArgument(Advance(c), s.index, s.level)
                else DoPopLocal(Advance(c), s.index, s.level))
               == d.(frames := d.frames[h := WithSlot(d.frames[h], s, v)])
  {
    AdvancedStack(c, base);
    ContextAtAdvance(c, base, c.current, s.level);
    assert Advance(c).Stack()[..|c.Stack()| - 1] == base;
  }

  lemma LandsReplaced(P: Program, c: Config, d: Config, pc: nat, stack: seq<Value>, st: State, st1: State,
                      h: nat, g: Frame)
    requires Lands(P, c, d, pc, stack, st) && h < |d.frames|
    requires SameFrame(d.frames[h], g) && g.stack == d.frames[h].stack && g.pc == d.frames[h].pc
    requires Rel(P, st1, d.(frames := d.frames[h := g]))
    ensures Lands(P, c, d.(frames := d.frames[h := g]), pc, stack, st1)
  {
  }

  lemma StepPopBound(P: Program, st: State, c: Config, name: string, lits: seq<Value>, base: seq<Value>, v: Value)
    requires Good(P) && Rel(P, st, c) && c.Top().code in P.src && c.Stack() == base + [v]
    requires FindVar(P.src[c.Top().code].Cx().scopes, name).Some?
    requires HasCode(P, c.Top(), [PopVariable(P.src[c.Top().code].Cx(), name, lits)])
    ensures var b := Binder(st.acts, c.current, name);
            b.Some? &&
            Lands(P, c, Step(P.w, P.t, c), c.Top().pc + 1, base,
                  st.(acts := st.acts[b.value := Set(st.acts[b.value], name, v)]))
  {
    hide Good, HasCode, Lands, Step, Compile, Represents, FindVar, Binder, Set;
    var cx := P.src[c.Top().code].Cx();
    var s := FindVar(cx.scopes, name).value;
    Addressing(P, st.acts, c.frames, c.current, name);
    SlotBytes(P, c.Top().code, name);
    var h := Binder(st.acts, c.current, name).value;
    SlotValue(P, st.acts, c.frames, h, name, s);
    var i := if s.isArgument then PopArgument(s.index, s.level) else PopLocal(s.index, s.level);
    assert PopVariable(cx, name, lits) == i;
    StepExecutes(P, c, i);
    ExecutePop(c, s, h, base, v);
    LandsStack(P, st, c, base);
    var d := Advance(c).WithStack(base);
    assert Denotes(P, st.acts, d.frames, h, name, s);
    RelSet(P, st, d, h, name, s, v);
    LandsReplaced(P, c, d, c.Top().pc + 1, base, st,
                  st.(acts := st.acts[h := Set(st.acts[h], name, v)]), h, WithSlot(d.frames[h], s, v));
  }

  // ----- fields -----

  lemma StepPushField(P: Program, st: State, c: Config, name: string, k: byte)
    requires Good(P) && Rel(P, st, c) && HasCode(P, c.Top(), [PushField(k)])
    requires Selector(Literals(P, c.Top()), k) == name
    ensures var self := Self(st.acts, c.current);
            self.Some? &&
            var d := Step(P.w, P.t, c);
            if P.w.hasField(self.value, name)
            then Lands(P, c, d, c.Top().pc + 1, c.Stack() + [P.w.field(self.value, name, st.history)], st)
            else d.status == Stuck
  {
    hide Good, HasCode, Compile, Represents, Selector;
    StepExecutes(P, c, PushField(k));
    SelfAgrees(P, st.acts, c.frames, c.current);
    SelfAdvance(c, c.Stack());
    AdvancedStack(c, c.Stack());
    var self := SelfOf(c.frames, c.current).value;
    LandsStack(P, st, c, c.Stack() + [P.w.field(self, name, st.history)]);
  }

  lemma StepPopField(P: Program, st: State, c: Config, name: string, k: byte, base: seq<Value>, v: Value)
    requires Good(P) && Rel(P, st, c) && HasCode(P, c.Top(), [PopField(k)]) && c.Stack() == base + [v]
    requires Selector(Literals(P, c.Top()), k) == name
    ensures var self := Self(st.acts, c.current);
            self.Some? &&
            var d := Step(P.w, P.t, c);
            if P.w.hasField(self.value, name)
            then Lands(P, c, d, c.Top().pc + 1, base, st.Record(FieldE(self.value, name, v)))
            else d.status == Stuck
  {
    hide Good, HasCode, Compile, Represents, Selector;
    StepExecutes(P, c, PopField(k));
    SelfAgrees(P, st.acts, c.frames, c.current);
    SelfAdvance(c, c.Stack());
    AdvancedStack(c, c.Stack());
    assert c.Stack()[..|c.Stack()| - 1] == base;
    var self := SelfOf(c.frames, c.current).value;
    LandsStack(P, st, c, base);
    RelRecord(P, st, Advance(c).WithStack(base), FieldE(self, name, v));
  }

  // ----- assignments -----

  lemma StepDup(P: Program, st: State, c: Config, base: seq<Value>, v: Value)
    requires Good(P) && Rel(P, st, c) && HasCode(P, c.Top(), [Dup]) && c.Stack() == base + [v]
    ensures Lands(P, c, Step(P.w, P.t, c), c.Top().pc + 1, base + [v, v], st)
  {
    StepExecutes(P, c, Dup);
    AdvancedStack(c, c.Stack());
    assert base + [v, v] == c.Stack() + [v];
    LandsStack(P, st, c, base + [v, v]);
  }

  lemma StepPop(P: Program, st: State, c: Config, base: seq<Value>, v: Value)
    requires Good(P) && Rel(P, st, c) && HasCode(P, c.Top(), [Pop]) && c.Stack() == base + [v]
    ensures Lands(P, c, Step(P.w, P.t, c), c.Top().pc + 1, base, st)
  {
    StepExecutes(P, c, Pop);
    AdvancedStack(c, c.Stack());
    assert c.Stack()[..|c.Stack()| - 1] == base;
    LandsStack(P, st, c, base);
  }

  lemma SelectorStable(lits: seq<Value>, final: seq<Value>, name: string)
    requires SymV(name) in lits && lits <= final && |final| <= 256
    ensures Selector(final, LitIndex(lits, SymV(name))) == name
  {
    LiteralStable(lits, final, SymV(name));
  }

  lemma StepPopVariable(P: Program, st: State, c: Config, name: string, lits: seq<Value>, base: seq<Value>, v: Value)
    requires Good(P) && Rel(P, st, c) && c.Top().code in P.src && c.Stack() == base + [v]
    requires SymV(name) in lits && lits <= Literals(P, c.Top())
    requires HasCode(P, c.Top(), [PopVariable(P.src[c.Top().code].Cx(), name, lits)])
    ensures match WriteVariable(P.w, c.current, name, v, st)
            case Ok(_, st1) => Lands(P, c, Step(P.w, P.t, c), c.Top().pc + 1, base, st1)
            case Left(why, _) => why == Fault && Step(P.w, P.t, c).status == Stuck
  {
    var cx := P.src[c.Top().code].Cx();
    Addressing(P, st.acts, c.frames, c.current, name);
    if FindVar(cx.scopes, name).Some? {
      StepPopBound(P, st, c, name, lits, base, v);
    } else {
      Limits(P, c.Top().code);
      SelectorStable(lits, Literals(P, c.Top()), name);
      StepPopField(P, st, c, name, LitIndex(lits, SymV(name)), base, v);
    }
  }

  // ----- constants, blocks, globals, sends -----

  lemma StepPushBlock(P: Program, st: State, c: Config, id: nat, lits: seq<Value>, base: seq<Value>)
    requires Good(P) && Rel(P, st, c) && c.Top().code in P.src && c.Stack() == base
    requires CodeV(id) in lits && lits <= Literals(P, c.Top())
    requires HasCode(P, c.Top(), [PushBlock(LitIndex(lits, CodeV(id)))])
    ensures Lands(P, c, Step(P.w, P.t, c), c.Top().pc + 1, base + [Closure(id, c.current)], st)
  {
    Limits(P, c.Top().code);
    LiteralStable(lits, Literals(P, c.Top()), CodeV(id));
    StepExecutes(P, c, PushBlock(LitIndex(lits, CodeV(id))));
    AdvancedStack(c, base);
    LandsStack(P, st, c, base + [Closure(id, c.current)]);
  }

  lemma StepPushConstant(P: Program, st: State, c: Config, v: Value, lits: seq<Value>, base: seq<Value>)
    requires Good(P) && Rel(P, st, c) && c.Top().code in P.src && c.Stack() == base
    requires v in lits && lits <= Literals(P, c.Top())
    requires HasCode(P, c.Top(), [PushConstant(LitIndex(lits, v))])
    ensures Lands(P, c, Step(P.w, P.t, c), c.Top().pc + 1, base + [v], st)
  {
    Limits(P, c.Top().code);
    LiteralStable(lits, Literals(P, c.Top()), v);
    StepExecutes(P, c, PushConstant(LitIndex(lits, v)));
    AdvancedStack(c, base);
    LandsStack(P, st, c, base + [v]);
  }

  lemma AdvanceLands(P: Program, st: State, c: Config)
    requires Rel(P, st, c)
    ensures Lands(P, c, Advance(c), c.Top().pc + 1, c.Stack(), st)
  {
    LandsStack(P, st, c, c.Stack());
    assert Advance(c).WithStack(c.Stack()) == Advance(c);
  }

  /** An unknown global is the receiver's business. */
  lemma StepPushGlobal(P: Program, st: State, c: Config, name: string, k: byte, base: seq<Value>)
    requires Good(P) && Rel(P, st, c) && c.Stack() == base
    requires HasCode(P, c.Top(), [PushGlobal(k)]) && Selector(Literals(P, c.Top()), k) == name
    ensures P.w.global(name, st.history).Some? ==>
              Lands(P, c, Step(P.w, P.t, c), c.Top().pc + 1, base + [P.w.global(name, st.history).value], st)
    ensures P.w.global(name, st.history).None? ==>
              var self := Self(st.acts, c.current);
              self.Some? &&
              Step(P.w, P.t, c) == SendTo(P.w, P.t, Advance(c), UNKNOWN_GLOBAL, [self.value, SymV(name)])
  {
    hide Good, HasCode, Compile, Represents, Selector, SendTo;
    StepExecutes(P, c, PushGlobal(k));
    AdvancedStack(c, base);
    SelfAgrees(P, st.acts, c.frames, c.current);
    SelfAdvance(c, base);
    if P.w.global(name, st.history).Some? {
      LandsStack(P, st, c, base + [P.w.global(name, st.history).value]);
    }
  }

  /** The lookup of a send. */
  function Found(w: World, acts: seq<Activation>, a: nat, sel: string, toSuper: bool, recv: Value,
                 h: History): Option<Invokable>
    requires toSuper ==> Outermost(acts, a).Some?
  {
    if toSuper then w.superLookup(acts[Outermost(acts, a).value].code, sel, h) else w.lookup(recv, sel, h)
  }

  lemma StepSend(P: Program, st: State, c: Config, sel: string, toSuper: bool, lits: seq<Value>, args: seq<Value>,
                 base: seq<Value>)
    requires Good(P) && Rel(P, st, c) && c.Top().code in P.src && c.Stack() == base + args
    requires SymV(sel) in lits && lits <= Literals(P, c.Top()) && |args| == Arity(sel)
    requires HasCode(P, c.Top(), [Message(sel, toSuper, lits)])
    ensures Outermost(st.acts, c.current).Some?
    ensures Advance(c).current < |Advance(c).frames| && 0 < |args| <= |Advance(c).Stack()|
    ensures Step(P.w, P.t, c) ==
              Dispatch(P.w, P.t, Advance(c), sel, toSuper,
                       Found(P.w, st.acts, c.current, sel, toSuper, args[0], st.history), args)
  {
    hide Compile, HasCode;
    MessageExecutes(P, c, sel, toSuper, lits);
    AdvancedStack(c, c.Stack());
    assert c.Stack()[|c.Stack()| - |args|..] == args;
    OutermostAgrees(P, st.acts, c.frames, c.current);
    OuterAdvance(c, c.Stack(), c.current);
    var o := OuterContext(c.frames, c.current).value;
    assert SameShape(st.acts[o], c.frames[o]);
    assert Advance(c).frames[o].code == c.frames[o].code;
  }

  lemma MessageExecutes(P: Program, c: Config, sel: string, toSuper: bool, lits: seq<Value>)
    requires Good(P) && c.Up() && c.current > 0 && c.Top().code in P.src
    requires SymV(sel) in lits && lits <= Literals(P, c.Top())
    requires HasCode(P, c.Top(), [Message(sel, toSuper, lits)])
    ensures Step(P.w, P.t, c) ==
              if toSuper then DoSuperSend(P.w, P.t, Advance(c), sel) else DoSend(P.w, P.t, Advance(c), sel)
  {
    hide Good, HasCode, Step, Compile, DoSend, DoSuperSend, Dispatch, Arity, OuterContext;
    Limits(P, c.Top().code);
    SelectorStable(lits, Literals(P, c.Top()), sel);
    StepExecutes(P, c, Message(sel, toSuper, lits));
  }
}

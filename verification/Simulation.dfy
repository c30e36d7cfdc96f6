/** How machine configurations represent source states, and what it means for a run of the machine
    to do what the source evaluator says. */
module Simulation {
  import opened Common
  import opened Bytecodes
  import opened Signature
  import opened CodeGen
  import opened CodeOperands
  import opened CodeShape
  import opened Machine
  import opened Chains
  import opened Semantics

  /** A program as source, its compiled methods, and the world it runs in. */
  datatype Program = Program(w: World, src: Sources, t: Table)

  /** What the compiler guarantees of the sources it hands on. */
  predicate SourceOk(src: Sources, code: nat)
    requires code in src
  {
    var s := src[code];
    && BodyOk(s.body) && WithinLimits(s)
    && |s.args| <= Arity(s.signature)
    && (match s.parent
        case None => !s.isBlock && s.outer == [] && s.args != [] && s.args[0] == "self"
        case Some(p) => s.isBlock && p in src && s.outer == src[p].Cx().scopes && s.fields == src[p].fields)
    && forall b | b in BodyBlocks(s.body) ::
         b.Block? && b.id in src && src[b.id] == BlockSource(b, s.Cx(), code)
  }

  predicate EntryOk(P: Program, code: nat)
    requires code in P.src
  {
    code in P.t && P.t[code] == Entry(Compile(P.src[code]), P.src[code].parent)
  }

  /** Every method and block of the program is in the table, compiled. */
  predicate Good(P: Program) {
    && P.t.Keys == P.src.Keys
    && (forall code {:trigger SourceOk(P.src, code)} | code in P.src :: SourceOk(P.src, code))
    && (forall code {:trigger EntryOk(P, code)} | code in P.src :: EntryOk(P, code))
  }

  // ----- representation -----

  /** An activation's names and a frame's slots agree. */
  predicate Represents(s: Source, act: Activation, f: Frame) {
    && |f.args| == Arity(s.signature) && |f.locals| == |s.locals|
    && |s.args| <= |f.args|
    && (forall n | n in act.params :: n in s.args && act.params[n] == f.args[IndexOf(s.args, n)])
    && (forall n | n in s.args :: n in act.params)
    && (forall n | n in act.locals :: n in s.locals && act.locals[n] == f.locals[IndexOf(s.locals, n)])
    && (forall n | n in s.locals :: n in act.locals)
  }

  predicate SameShape(act: Activation, f: Frame) {
    act.code == f.code && act.home == f.home && (act.live <==> f.previous.Some?)
  }

  /** Contexts mirror the nesting of the source. */
  predicate HomeOk(P: Program, frames: seq<Frame>, i: nat)
    requires i < |frames| && frames[i].code in P.src
  {
    match frames[i].home
    case None => P.src[frames[i].code].parent.None?
    case Some(h) => 1 <= h < i && P.src[frames[i].code].parent == Some(frames[h].code)
  }

  /** The caller of a running frame still has the arguments on its stack. */
  predicate CallOk(P: Program, frames: seq<Frame>, i: nat)
    requires i < |frames| && frames[i].code in P.src
  {
    match frames[i].previous
    case None => true
    case Some(p) => p < |frames| && |frames[p].stack| >= Arity(P.src[frames[i].code].signature)
  }

  predicate FrameOk(P: Program, acts: seq<Activation>, frames: seq<Frame>, i: nat)
    requires i < |frames| == |acts|
  {
    && frames[i].code in P.src
    && Represents(P.src[frames[i].code], acts[i], frames[i])
    && HomeOk(P, frames, i)
    && CallOk(P, frames, i)
  }

  predicate FramesOk(P: Program, acts: seq<Activation>, frames: seq<Frame>) {
    && |acts| == |frames| > 0
    && (forall i {:trigger SameShape(acts[i], frames[i])} | 0 <= i < |frames| :: SameShape(acts[i], frames[i]))
    && frames[0].code !in P.src && frames[0].home.None?
    && (forall i {:trigger FrameOk(P, acts, frames, i)} | 1 <= i < |frames| :: FrameOk(P, acts, frames, i))
  }

  predicate Rel(P: Program, st: State, c: Config) {
    && c.status == Running && c.history == st.history
    && FramesOk(P, st.acts, c.frames)
    && Linked(c.frames, c.current) && c.current > 0
  }

  /** As `Rel`, when the bootstrap frame may be current: the program has ended. */
  predicate RelEnd(P: Program, st: State, c: Config) {
    && c.status == Running && c.history == st.history
    && FramesOk(P, st.acts, c.frames)
    && Linked(c.frames, c.current)
  }

  // ----- what runs achieve -----

  predicate SameFrame(f: Frame, g: Frame) {
    f.code == g.code && f.home == g.home && f.previous == g.previous
  }

  /** Frames below `limit`, other than `a`, keep their place, their operands and their position. */
  predicate Undisturbed(c: Config, d: Config, limit: nat, a: nat)
    requires limit <= |c.frames|
  {
    && limit <= |d.frames|
    && (forall i | 0 <= i < limit :: SameFrame(c.frames[i], d.frames[i]))
    && (forall i | 0 <= i < limit && i != a ::
          c.frames[i].stack == d.frames[i].stack && c.frames[i].pc == d.frames[i].pc)
  }

  /** The same frame is current again, at `pc` and with the given operands. */
  predicate Lands(P: Program, c: Config, d: Config, pc: nat, stack: seq<Value>, st: State) {
    && Rel(P, st, d) && d.current == c.current < |c.frames| <= |d.frames|
    && Undisturbed(c, d, |c.frames|, c.current)
    && d.Top().pc == pc && d.Top().stack == stack
  }

  /** Frame `h` has returned `v` to its caller: h and everything above it is off the chain, and the
      caller has the result in place of the arguments. */
  predicate Returned(P: Program, c: Config, d: Config, h: nat, v: Value) {
    && h < |c.frames| <= |d.frames| && c.frames[h].previous.Some? && c.frames[h].code in P.src
    && var p := c.frames[h].previous.value;
       var n := Arity(P.src[c.frames[h].code].signature);
       && p < h && d.current == p
       && Undisturbed(c, d, h, p)
       && |c.frames[p].stack| >= n
       && d.frames[p].stack == c.frames[p].stack[..|c.frames[p].stack| - n] + [v]
       && d.frames[p].pc == c.frames[p].pc
  }

  predicate Leaves(P: Program, c: Config, d: Config, n: nat, why: Exit, st: State, fuel: nat) {
    match why
    case ReturnFrom(h, v) => h <= c.current && Returned(P, c, d, h, v) && RelEnd(P, st, d)
    case Restarted => n >= 1 && Lands(P, c, d, 0, [], st)
    case Escaped => d.status == EscapedBlock
    case Fault => d.status == Stuck
    case OutOfFuel => n >= fuel && d.status == Running
  }

  /** d, reached after n steps, is where the outcome of an expression leaves the machine. */
  predicate After(P: Program, c: Config, d: Config, n: nat, o: Outcome<Value>, pc: nat, base: seq<Value>, fuel: nat) {
    match o
    case Ok(v, st) => Lands(P, c, d, pc, base + [v], st)
    case Left(why, st) => Leaves(P, c, d, n, why, st, fuel)
  }

  predicate AfterArgs(P: Program, c: Config, d: Config, n: nat, o: Outcome<seq<Value>>, pc: nat,
                      base: seq<Value>, fuel: nat) {
    match o
    case Ok(vs, st) => Lands(P, c, d, pc, base + vs, st)
    case Left(why, st) => Leaves(P, c, d, n, why, st, fuel)
  }

  /** As `After`, for a body: it ends by returning from the current frame. */
  predicate AfterBody(P: Program, c: Config, d: Config, n: nat, o: Outcome<Value>, fuel: nat) {
    match o
    case Ok(v, st) => Returned(P, c, d, c.current, v) && RelEnd(P, Kill(st, c.current), d)
    case Left(why, st) => Leaves(P, c, d, n, why, st, fuel)
  }

  // ----- composition -----

  lemma LeavesThrough(P: Program, c: Config, c1: Config, d: Config, n1: nat, n2: nat, pc1: nat, s1: seq<Value>,
                      st1: State, why: Exit, st: State, fuel: nat)
    requires Lands(P, c, c1, pc1, s1, st1)
    requires Leaves(P, c1, d, n2, why, st, fuel)
    ensures Leaves(P, c, d, n1 + n2, why, st, fuel)
  {
  }

  lemma Compose(P: Program, c: Config, c1: Config, d: Config, n1: nat, n2: nat, pc1: nat, s1: seq<Value>,
                st1: State, o: Outcome<Value>, pc: nat, base: seq<Value>, fuel: nat)
    requires Lands(P, c, c1, pc1, s1, st1)
    requires After(P, c1, d, n2, o, pc, base, fuel)
    ensures After(P, c, d, n1 + n2, o, pc, base, fuel)
  {
    if o.Left? {
      LeavesThrough(P, c, c1, d, n1, n2, pc1, s1, st1, o.why, o.state, fuel);
    }
  }

  lemma ComposeArgs(P: Program, c: Config, c1: Config, d: Config, n1: nat, n2: nat, pc1: nat, s1: seq<Value>,
                    st1: State, o: Outcome<seq<Value>>, pc: nat, base: seq<Value>, fuel: nat)
    requires Lands(P, c, c1, pc1, s1, st1)
    requires AfterArgs(P, c1, d, n2, o, pc, base, fuel)
    ensures AfterArgs(P, c, d, n1 + n2, o, pc, base, fuel)
  {
    if o.Left? {
      LeavesThrough(P, c, c1, d, n1, n2, pc1, s1, st1, o.why, o.state, fuel);
    }
  }

  lemma ComposeBody(P: Program, c: Config, c1: Config, d: Config, n1: nat, n2: nat, pc1: nat, s1: seq<Value>,
                    st1: State, o: Outcome<Value>, fuel: nat)
    requires Lands(P, c, c1, pc1, s1, st1)
    requires AfterBody(P, c1, d, n2, o, fuel)
    ensures AfterBody(P, c, d, n1 + n2, o, fuel)
  {
    if o.Left? {
      LeavesThrough(P, c, c1, d, n1, n2, pc1, s1, st1, o.why, o.state, fuel);
    }
  }

  /** Reference configurations that differ in the operands and position of the current frame only. */
  lemma LeavesRebase(P: Program, c: Config, c': Config, d: Config, n: nat, why: Exit, st: State, fuel: nat)
    requires c.current == c'.current < |c.frames| == |c'.frames|
    requires Undisturbed(c, c', |c.frames|, c.current)
    requires Leaves(P, c', d, n, why, st, fuel)
    ensures Leaves(P, c, d, n, why, st, fuel)
  {
  }

  lemma AfterRebase(P: Program, c: Config, c': Config, d: Config, n: nat, o: Outcome<Value>, pc: nat,
                    base: seq<Value>, fuel: nat)
    requires c.current == c'.current < |c.frames| == |c'.frames|
    requires Undisturbed(c, c', |c.frames|, c.current)
    requires After(P, c', d, n, o, pc, base, fuel)
    ensures After(P, c, d, n, o, pc, base, fuel)
  {
    if o.Left? {
      LeavesRebase(P, c, c', d, n, o.why, o.state, fuel);
    }
  }

  // ----- code at the current position -----

  predicate HasCode(P: Program, f: Frame, seg: seq<Instr>) {
    && f.code in P.src
    && var code := Compile(P.src[f.code]).code;
       f.pc + |seg| <= |code| && code[f.pc..f.pc + |seg|] == seg
  }

  lemma HasCodeSplit(P: Program, f: Frame, a: seq<Instr>, b: seq<Instr>)
    requires HasCode(P, f, a + b)
    ensures HasCode(P, f, a)
    ensures HasCode(P, f.(pc := f.pc + |a|), b)
  {
    var code := Compile(P.src[f.code]).code;
    assert code[f.pc..f.pc + |a + b|] == a + b;
    assert code[f.pc..f.pc + |a|] == (a + b)[..|a|];
    assert code[f.pc + |a|..f.pc + |a| + |b|] == (a + b)[|a|..];
  }

  /** Code that follows is still there when the frame has moved on to it. */
  lemma HasCodeMoved(P: Program, f: Frame, g: Frame, seg: seq<Instr>)
    requires HasCode(P, f, seg) && g.code == f.code && g.pc == f.pc
    ensures HasCode(P, g, seg)
  {
  }

  function Literals(P: Program, f: Frame): seq<Value>
    requires f.code in P.src
  {
    Compile(P.src[f.code]).literals
  }

  lemma StepExecutes(P: Program, c: Config, i: Instr)
    requires Good(P) && c.Up() && c.current > 0 && HasCode(P, c.Top(), [i])
    ensures Step(P.w, P.t, c) == Execute(P.w, P.t, Advance(c), i, Literals(P, c.Top()))
  {
    assert EntryOk(P, c.Top().code);
    var code := Compile(P.src[c.Top().code]).code;
    assert code[c.Top().pc] == code[c.Top().pc..c.Top().pc + 1][0];
  }

  lemma RunOne(P: Program, c: Config)
    ensures Run(P.w, P.t, c, 1) == Step(P.w, P.t, c)
  {
    assert Run(P.w, P.t, Step(P.w, P.t, c), 0) == Step(P.w, P.t, c);
  }

  // ----- representation is kept -----

  /** Replacing the names of one activation and the slots of its frame. */
  lemma FramesReplace(P: Program, acts: seq<Activation>, frames: seq<Frame>, h: nat, act: Activation, f: Frame)
    requires FramesOk(P, acts, frames) && h < |frames|
    requires SameFrame(frames[h], f)
    requires act.code == acts[h].code && act.home == acts[h].home && act.live == acts[h].live
    requires h > 0 ==> f.code in P.src && Represents(P.src[f.code], act, f)
    requires forall i | 0 <= i < |frames| && frames[i].previous == Some(h) :: |f.stack| >= |frames[h].stack|
    ensures FramesOk(P, acts[h := act], frames[h := f])
  {
    var acts', frames' := acts[h := act], frames[h := f];
    forall i | 0 <= i < |frames'|
      ensures SameShape(acts'[i], frames'[i])
      ensures i > 0 ==> FrameOk(P, acts', frames', i)
    {
      assert SameShape(acts[i], frames[i]);
      assert i > 0 ==> FrameOk(P, acts, frames, i);
    }
  }

  /** The relation does not look at operands and positions. */
  lemma RelTop(P: Program, st: State, c: Config, f: Frame)
    requires Rel(P, st, c)
    requires SameFrame(f, c.Top()) && f.args == c.Top().args && f.locals == c.Top().locals
    ensures Rel(P, st, c.WithTop(f))
    ensures Undisturbed(c, c.WithTop(f), |c.frames|, c.current)
  {
    assert FrameOk(P, st.acts, c.frames, c.current);
    NothingAbove(c.frames, c.current);
    FramesReplace(P, st.acts, c.frames, c.current, st.acts[c.current], f);
    assert st.acts[c.current := st.acts[c.current]] == st.acts;
    LinkedReplace(c.frames, c.current, c.current, f);
  }

  lemma RelRecord(P: Program, st: State, c: Config, e: Event)
    requires Rel(P, st, c)
    ensures Rel(P, st.Record(e), c.Record(e))
  {
  }

  lemma EntryFacts(P: Program, code: nat)
    requires Good(P) && code in P.src
    ensures code in P.t && P.t[code].parent == P.src[code].parent
    ensures P.t[code].meth.Args() == Arity(P.src[code].signature)
    ensures P.t[code].meth.locals == |P.src[code].locals|
    ensures |P.src[code].args| <= Arity(P.src[code].signature)
    ensures P.src[code].parent.Some? ==> P.src[code].parent.value in P.src
  {
    assert SourceOk(P.src, code) && EntryOk(P, code);
  }

  lemma BindAgrees(names: seq<string>, values: seq<Value>)
    requires |names| <= |values|
    ensures forall n | n in Bind(names, values) :: n in names && Bind(names, values)[n] == values[IndexOf(names, n)]
    ensures forall n | n in names :: n in Bind(names, values)
  {
  }

  lemma RepresentsNew(P: Program, code: nat, home: Option<nat>, previous: nat, args: seq<Value>)
    requires Good(P) && code in P.src && |args| == Arity(P.src[code].signature)
    ensures code in P.t
    ensures Represents(P.src[code], NewActivation(P.src[code], code, home, args),
                       NewFrame(P.t, code, home, previous, args))
  {
    EntryFacts(P, code);
    BindAgrees(P.src[code].args, args);
  }

  lemma FramesEnter(P: Program, acts: seq<Activation>, frames: seq<Frame>, act: Activation, f: Frame)
    requires FramesOk(P, acts, frames) && SameShape(act, f)
    requires f.code in P.src && Represents(P.src[f.code], act, f)
    requires match f.home
             case None => P.src[f.code].parent.None?
             case Some(h) => 1 <= h < |frames| && P.src[f.code].parent == Some(frames[h].code)
    requires CallOk(P, frames + [f], |frames|)
    ensures FramesOk(P, acts + [act], frames + [f])
  {
    var acts', frames' := acts + [act], frames + [f];
    forall i | 0 <= i < |frames'|
      ensures SameShape(acts'[i], frames'[i])
      ensures i > 0 ==> FrameOk(P, acts', frames', i)
    {
      if i < |frames| {
        assert SameShape(acts[i], frames[i]);
        assert i > 0 ==> FrameOk(P, acts, frames, i);
      }
    }
  }

  /** Entering an activation. */
  lemma RelEnter(P: Program, st: State, c: Config, code: nat, home: Option<nat>, args: seq<Value>)
    requires Good(P) && RelEnd(P, st, c) && code in P.src && |args| == Arity(P.src[code].signature)
    requires code in P.t && |args| <= |c.Stack()|
    requires match home
             case None => P.src[code].parent.None?
             case Some(h) => h < |c.frames| && P.src[code].parent == Some(c.frames[h].code)
    ensures Rel(P, st.(acts := st.acts + [NewActivation(P.src[code], code, home, args)]),
                PushFrame(c, NewFrame(P.t, code, home, c.current, args)))
  {
    var act := NewActivation(P.src[code], code, home, args);
    var f := NewFrame(P.t, code, home, c.current, args);
    EntryFacts(P, code);
    RepresentsNew(P, code, home, c.current, args);
    LinkedEnter(c.frames, c.current, f);
    FramesEnter(P, st.acts, c.frames, act, f);
  }
}

/** Compilation preserves meaning.  For every program, every world and every source construct, the
    machine running the compiled code does what the evaluator of module Semantics says: the same
    value, the same variables, the same sequence of sends, the same way of leaving. */
module Correctness {
  import opened Common
  import opened Syntax
  import opened Bytecodes
  import opened Signature
  import opened StackDepth
  import opened CodeGen
  import opened CodeOperands
  import opened CodeShape
  import opened Machine
  import opened Chains
  import opened Semantics
  import opened Simulation
  import opened Lexical
  import opened Steps
  import opened Returns

  /** The machine stands in a frame that represents the current activation. */
  predicate Ready(P: Program, cx: Context, st: State, c: Config) {
    c.Up() && Good(P) && Rel(P, st, c) && c.Top().code in P.src && cx == P.src[c.Top().code].Cx()
  }

  /** After a first piece of code has run to its end, the second is next. */
  lemma Continue(P: Program, cx: Context, st: State, c: Config, c1: Config, a: seq<Instr>, b: seq<Instr>,
                 s1: seq<Value>, st1: State)
    requires Ready(P, cx, st, c) && HasCode(P, c.Top(), a + b)
    requires Lands(P, c, c1, c.Top().pc + |a|, s1, st1)
    ensures Ready(P, cx, st1, c1) && HasCode(P, c1.Top(), b)
    ensures Literals(P, c1.Top()) == Literals(P, c.Top())
    ensures c1.current == c.current && c1.Stack() == s1 && c1.Top().code == c.Top().code &&
            c1.Top().pc == c.Top().pc + |a|
  {
    HasCodeSplit(P, c.Top(), a, b);
    HasCodeMoved(P, c.Top().(pc := c.Top().pc + |a|), c1.Top(), b);
  }

  lemma RunNothing(P: Program, st: State, c: Config)
    requires Rel(P, st, c)
    ensures Run(P.w, P.t, c, 0) == c && Lands(P, c, c, c.Top().pc, c.Stack(), st)
  {
  }

  // ----- calls -----

  /** As `AfterBody`, once the evaluator has ended the activation. */
  predicate AfterRun(P: Program, c: Config, d: Config, n: nat, o: Outcome<Value>, fuel: nat) {
    match o
    case Ok(v, st) => Returned(P, c, d, c.current, v) && RelEnd(P, st, d)
    case Left(why, st) =>
      && !why.Restarted? && (why.ReturnFrom? ==> why.home < c.current)
      && Leaves(P, c, d, n, why, st, fuel)
  }

  /** What a callee does, as its caller sees it. */
  lemma FromCallee(P: Program, c: Config, f: Frame, d: Config, n: nat, o: Outcome<Value>, base: seq<Value>,
                   args: seq<Value>, fuel: nat)
    requires Linked(c.frames, c.current) && c.current > 0
    requires f.previous == Some(c.current) && f.code in P.src && Arity(P.src[f.code].signature) == |args|
    requires c.Stack() == base + args
    requires AfterRun(P, PushFrame(c, f), d, n, o, fuel)
    ensures After(P, c, d, n + 1, o, c.Top().pc, base, fuel + 1)
  {
    var c2 := PushFrame(c, f);
    assert c2.frames[c.current] == c.Top();
    if o.Ok? {
      assert c.Stack()[..|c.Stack()| - |args|] == base;
    } else if o.why.ReturnFrom? {
      var h := o.why.home;
      assert c2.frames[h] == c.frames[h];
      assert h <= c.current;
    }
  }

  lemma SimCall(P: Program, code: nat, home: Option<nat>, args: seq<Value>, base: seq<Value>, st: State,
                fuel: nat, c: Config) returns (n: nat)
    requires Good(P) && Rel(P, st, c) && c.Stack() == base + args
    requires code in P.src && code in P.t && Arity(P.src[code].signature) == |args|
    requires match home
             case None => P.src[code].parent.None?
             case Some(h) => h < |c.frames| && P.src[code].parent == Some(c.frames[h].code)
    ensures var f := NewFrame(P.t, code, home, c.current, args);
            var st1 := st.(acts := st.acts + [NewActivation(P.src[code], code, home, args)]);
            After(P, c, Run(P.w, P.t, PushFrame(c, f), n), n + 1,
                  RunBody(P.w, P.src, code, |st.acts|, st1, fuel), c.Top().pc, base, fuel + 1)
    decreases fuel, 2, 0, 1
  {
    hide Run, RunBody;
    var f := NewFrame(P.t, code, home, c.current, args);
    var st1 := st.(acts := st.acts + [NewActivation(P.src[code], code, home, args)]);
    RelEnter(P, st, c, code, home, args);
    n := SimRunBody(P, code, st1, fuel, PushFrame(c, f));
    FromCallee(P, c, f, Run(P.w, P.t, PushFrame(c, f), n), n,
               RunBody(P.w, P.src, code, |st.acts|, st1, fuel), base, args, fuel);
  }

  lemma SimInvoked(P: Program, inv: Invokable, args: seq<Value>, base: seq<Value>, st: State, fuel: nat, c: Config)
    returns (n: nat)
    requires Good(P) && Rel(P, st, c) && c.Stack() == base + args && args != []
    ensures After(P, c, Run(P.w, P.t, Invoke(P.w, P.t, c, inv, args), n), n + 1,
                  Invoked(P.w, P.src, inv, args, st, fuel), c.Top().pc, base, fuel + 1)
    decreases fuel, 2
  {
    hide Run, HasCode, Literals, Compile;
    n := 0;
    RunZero(P.w, P.t, Invoke(P.w, P.t, c, inv, args));
    assert c.Stack()[..|c.Stack()| - |args|] == base;
    match inv
    case MethodI(code) =>
      if code in P.src {
        EntryFacts(P, code);
        if P.src[code].parent.None? && Arity(P.src[code].signature) == |args| {
          n := SimCall(P, code, None, args, base, st, fuel, c);
        }
      }
    case PrimitiveI(p) =>
      var v := P.w.primitive(p, args, c.history);
      LandsTop(P, st, c, c.Top().pc, base + [v]);
      RelRecord(P, st, c.WithStack(base + [v]), PrimitiveE(p, args));
    case EvaluateI(argc) =>
      var b := args[0];
      if b.Closure? && b.code in P.src && b.home < |st.acts| {
        EntryFacts(P, b.code);
        assert SameShape(st.acts[b.home], c.frames[b.home]);
        if argc == |args| && P.src[b.code].parent == Some(st.acts[b.home].code)
           && Arity(P.src[b.code].signature) == argc {
          n := SimCall(P, b.code, Some(b.home), args, base, st, fuel, c);
        }
      }
    case RestartI =>
      LandsTop(P, st, c, 0, []);
  }

  lemma SimDirect(P: Program, sel: string, args: seq<Value>, base: seq<Value>, st: State, fuel: nat, c: Config)
    returns (n: nat)
    requires Good(P) && Rel(P, st, c) && c.Stack() == base && args != []
    ensures After(P, c, Run(P.w, P.t, SendTo(P.w, P.t, c, sel, args), n), n + 1,
                  SendDirect(P.w, P.src, sel, args, st, fuel), c.Top().pc, base, fuel + 1)
    decreases fuel, 3
  {
    hide Run, Invoked, Invoke;
    n := 0;
    RunZero(P.w, P.t, SendTo(P.w, P.t, c, sel, args));
    LandsTop(P, st, c, c.Top().pc, base + args);
    var d := c.WithStack(base + args).Record(SendE(sel, false, args));
    RelRecord(P, st, c.WithStack(base + args), SendE(sel, false, args));
    match P.w.lookup(args[0], sel, c.history)
    case None =>
    case Some(inv) =>
      n := SimInvoked(P, inv, args, base, st.Record(SendE(sel, false, args)), fuel, d);
      AfterRebase(P, c, d, Run(P.w, P.t, Invoke(P.w, P.t, d, inv, args), n), n + 1,
                  Invoked(P.w, P.src, inv, args, st.Record(SendE(sel, false, args)), fuel), c.Top().pc, base, fuel + 1);
  }

  lemma SimAnswered(P: Program, sel: string, toSuper: bool, found: Option<Invokable>, args: seq<Value>,
                    base: seq<Value>, st: State, fuel: nat, c: Config) returns (n: nat)
    requires Good(P) && Rel(P, st, c) && c.Stack() == base + args && args != []
    ensures After(P, c, Run(P.w, P.t, Dispatch(P.w, P.t, c, sel, toSuper, found, args), n), n + 1,
                  Answered(P.w, P.src, sel, toSuper, found, args, st, fuel), c.Top().pc, base, fuel + 1)
    decreases fuel, 4
  {
    hide Run, Invoked, SendDirect, Invoke, SendTo, Good, HasCode, Literals, Compile, Lands, Leaves;
    var st1 := st.Record(SendE(sel, toSuper, args));
    var d := c.Record(SendE(sel, toSuper, args));
    RelRecord(P, st, c, SendE(sel, toSuper, args));
    match found
    case Some(inv) =>
      n := SimInvoked(P, inv, args, base, st1, fuel, d);
      AfterRebase(P, c, d, Run(P.w, P.t, Invoke(P.w, P.t, d, inv, args), n), n + 1,
                  Invoked(P.w, P.src, inv, args, st1, fuel), c.Top().pc, base, fuel + 1);
    case None =>
      var elements := if toSuper then args else args[1..];
      assert d.Stack()[..|d.Stack()| - |args|] == base;
      LandsTop(P, st1, d, d.Top().pc, base);
      var e := d.WithStack(base).Record(ArrayE(elements));
      RelRecord(P, st1, d.WithStack(base), ArrayE(elements));
      var dnu := [args[0], SymV(sel), ArrayV(|d.history|)];
      n := SimDirect(P, DNU, dnu, base, st1.Record(ArrayE(elements)), fuel, e);
      AfterRebase(P, c, e, Run(P.w, P.t, SendTo(P.w, P.t, e, DNU, dnu), n), n + 1,
                  SendDirect(P.w, P.src, DNU, dnu, st1.Record(ArrayE(elements)), fuel), c.Top().pc, base, fuel + 1);
  }

  /** A send instruction with its arguments in place. */
  lemma SimSend(P: Program, cx: Context, sel: string, toSuper: bool, lits: seq<Value>, args: seq<Value>,
                base: seq<Value>, st: State, fuel: nat, c: Config) returns (n: nat)
    requires Ready(P, cx, st, c) && c.Stack() == base + args
    requires SymV(sel) in lits && lits <= Literals(P, c.Top()) && |args| == Arity(sel)
    requires HasCode(P, c.Top(), [Message(sel, toSuper, lits)])
    ensures After(P, c, Run(P.w, P.t, c, n), n,
                  EvalSend(P.w, P.src, c.current, sel, toSuper, args, st, fuel), c.Top().pc + 1, base, fuel)
    decreases fuel, 0
  {
    hide Run, Step, Answered, Good, Rel, HasCode, Literals, Compile, Dispatch;
    if fuel == 0 {
      RunZero(P.w, P.t, c);
      return 0;
    }
    StepSend(P, st, c, sel, toSuper, lits, args, base);
    AdvanceLands(P, st, c);
    var c1 := Advance(c);
    var found := Found(P.w, st.acts, c.current, sel, toSuper, args[0], st.history);
    var m := SimAnswered(P, sel, toSuper, found, args, base, st, fuel - 1, c1);
    n := m + 1;
    RunStep(P.w, P.t, c, m);
    AfterRebase(P, c, c1, Run(P.w, P.t, Step(P.w, P.t, c), m), n,
                Answered(P.w, P.src, sel, toSuper, found, args, st, fuel - 1), c.Top().pc + 1, base, fuel);
  }

  // ----- expressions -----

  lemma SimVariable(P: Program, cx: Context, name: string, lits: seq<Value>, base: seq<Value>, st: State,
                    fuel: nat, c: Config) returns (n: nat)
    requires Ready(P, cx, st, c) && c.Stack() == base
    requires HasCode(P, c.Top(), PushVariable(cx, name, lits).code)
    requires PushVariable(cx, name, lits).lits <= Literals(P, c.Top())
    ensures After(P, c, Run(P.w, P.t, c, n), n,
                  ReadVariable(P.w, P.src, cx, c.current, name, st, fuel), c.Top().pc + 1, base, fuel)
    decreases fuel, 0
  {
    hide Good, Rel, HasCode, Run, Lands, Literals, Compile, FindVar, Binder, PushVariable;
    VariableKinds(P, cx, name, lits, st, fuel, c);
    if FindVar(cx.scopes, name).Some? {
      StepPushBound(P, st, c, name, lits);
      RunOne(P, c);
      n := 1;
    } else if name in cx.fields {
      StepPushField(P, st, c, name, LitIndex(AddIfAbsent(lits, SymV(name)), SymV(name)));
      RunOne(P, c);
      n := 1;
    } else {
      n := SimGlobal(P, cx, name, LitIndex(AddIfAbsent(lits, SymV(name)), SymV(name)), base, st, fuel, c);
    }
  }

  /** A variable is bound, a field, or a global, for the compiler and for the source alike. */
  lemma VariableKinds(P: Program, cx: Context, name: string, lits: seq<Value>, st: State, fuel: nat, c: Config)
    requires Ready(P, cx, st, c) && PushVariable(cx, name, lits).lits <= Literals(P, c.Top())
    ensures FindVar(cx.scopes, name).Some? <==> Binder(st.acts, c.current, name).Some?
    ensures FindVar(cx.scopes, name).None? ==>
              var k := LitIndex(AddIfAbsent(lits, SymV(name)), SymV(name));
              Selector(Literals(P, c.Top()), k) == name &&
              PushVariable(cx, name, lits).code == [if name in cx.fields then PushField(k) else PushGlobal(k)]
  {
    Addressing(P, st.acts, c.frames, c.current, name);
    if FindVar(cx.scopes, name).None? {
      var lits' := AddIfAbsent(lits, SymV(name));
      Limits(P, c.Top().code);
      SelectorStable(lits', Literals(P, c.Top()), name);
    }
  }

  /** What reading a global means, also in an empty block. */
  function ReadGlobal(w: World, src: Sources, a: nat, name: string, st: State, fuel: nat): Outcome<Value> {
    match w.global(name, st.history)
    case Some(v) => Ok(v, st)
    case None =>
      if fuel == 0 then Left(OutOfFuel, st)
      else
        match Self(st.acts, a)
        case None => Left(Fault, st)
        case Some(self) => SendDirect(w, src, UNKNOWN_GLOBAL, [self, SymV(name)], st, fuel - 1)
  }

  lemma SimGlobal(P: Program, cx: Context, name: string, k: byte, base: seq<Value>, st: State, fuel: nat, c: Config)
    returns (n: nat)
    requires Ready(P, cx, st, c) && c.Stack() == base
    requires HasCode(P, c.Top(), [PushGlobal(k)]) && Selector(Literals(P, c.Top()), k) == name
    ensures After(P, c, Run(P.w, P.t, c, n), n,
                  ReadGlobal(P.w, P.src, c.current, name, st, fuel), c.Top().pc + 1, base, fuel)
    decreases fuel, 0, 0
  {
    hide Run, Step, SendDirect, Good, HasCode, Literals, Compile, Rel, Selector;
    StepPushGlobal(P, st, c, name, k, base);
    RunOne(P, c);
    match P.w.global(name, st.history)
    case Some(v) =>
      n := 1;
    case None =>
      if fuel == 0 {
        RunZero(P.w, P.t, c);
        return 0;
      }
      var args := [Self(st.acts, c.current).value, SymV(name)];
      AdvanceLands(P, st, c);
      var c1 := Advance(c);
      var m := SimDirect(P, UNKNOWN_GLOBAL, args, base, st, fuel - 1, c1);
      n := m + 1;
      RunStep(P.w, P.t, c, m);
      AfterRebase(P, c, c1, Run(P.w, P.t, Step(P.w, P.t, c), m), n,
                  SendDirect(P.w, P.src, UNKNOWN_GLOBAL, args, st, fuel - 1), c.Top().pc + 1, base, fuel);
  }

  lemma SimPrimary(P: Program, cx: Context, p: Primary, lits: seq<Value>, base: seq<Value>, st: State,
                   fuel: nat, c: Config) returns (n: nat)
    requires Ready(P, cx, st, c) && c.Stack() == base && PrimaryOk(p)
    requires HasCode(P, c.Top(), PrimaryCode(cx, p, lits).code)
    requires PrimaryCode(cx, p, lits).lits <= Literals(P, c.Top())
    ensures After(P, c, Run(P.w, P.t, c, n), n, EvalPrimary(P.w, P.src, cx, c.current, p, st, fuel),
                  c.Top().pc + |PrimaryCode(cx, p, lits).code|, base, fuel)
    decreases fuel, 1, p, 0
  {
    hide Good, Rel, Lands, Leaves, HasCode, Literals, Compile, Run, ExprCode, EvalExpr, BlockSource, Execute;
    match p
    case Variable(name) =>
      n := SimVariable(P, cx, if name == "super" then "self" else name, lits, base, st, fuel, c);
    case Nested(term) =>
      n := SimExpr(P, cx, term, lits, base, st, fuel, c);
    case Block(id, _, _, _) =>
      StepPushBlock(P, st, c, id, lits + [CodeV(id)], base);
      RunOne(P, c);
      n := 1;
    case LiteralNode(lit, id) =>
      var v := LiteralObject(lit, id);
      StepPushConstant(P, st, c, v, AddIfAbsent(lits, v), base);
      RunOne(P, c);
      n := 1;
  }

  lemma SimUnaries(P: Program, cx: Context, us: Unaries, toSuper: bool, lits: seq<Value>, base: seq<Value>,
                   recv: Value, st: State, fuel: nat, c: Config) returns (n: nat)
    requires Ready(P, cx, st, c) && c.Stack() == base + [recv] && UnariesOk(us)
    requires HasCode(P, c.Top(), UnariesCode(us, toSuper, lits).code)
    requires UnariesCode(us, toSuper, lits).lits <= Literals(P, c.Top())
    ensures After(P, c, Run(P.w, P.t, c, n), n,
                  EvalUnaries(P.w, P.src, c.current, us, toSuper, recv, st, fuel),
                  c.Top().pc + |UnariesCode(us, toSuper, lits).code|, base, fuel)
    decreases fuel, 1, us, 0
  {
    hide Good, Rel, Lands, Leaves, HasCode, Literals, Compile, Run, EvalSend, Message, UnariesCode, EvalUnaries,
      LitIndex, Arity, EvalBinaries;
    match us
    case NoUnary =>
      n := 0;
      NoUnariesEval(P, toSuper, lits, recv, st, fuel, c.current);
      RunNothing(P, st, c);
    case Unary(sel, more) =>
      var lits' := AddIfAbsent(lits, SymV(sel));
      var a, b := [Message(sel, toSuper, lits')], UnariesCode(more, false, lits').code;
      UnariesEval(P, us, toSuper, lits, recv, st, fuel, c.current);
      HasCodeSplit(P, c.Top(), a, b);
      UnariesLits(more, false, lits');
      UnaryArity(sel);
      var n1 := SimSend(P, cx, sel, toSuper, lits', [recv], base, st, fuel, c);
      var o1 := EvalSend(P.w, P.src, c.current, sel, toSuper, [recv], st, fuel);
      if o1.Left? {
        return n1;
      }
      var c1 := Run(P.w, P.t, c, n1);
      Continue(P, cx, st, c, c1, a, b, base + [o1.value], o1.state);
      var n2 := SimUnaries(P, cx, more, false, lits', base, o1.value, o1.state, fuel, c1);
      n := n1 + n2;
      RunAdd(P.w, P.t, c, n1, n2);
      Compose(P, c, c1, Run(P.w, P.t, c, n), n1, n2, c.Top().pc + |a|, base + [o1.value], o1.state,
              EvalUnaries(P.w, P.src, c.current, more, false, o1.value, o1.state, fuel),
              c.Top().pc + |a + b|, base, fuel);
  }

  lemma NoUnariesEval(P: Program, toSuper: bool, lits: seq<Value>, recv: Value, st: State, fuel: nat, a: nat)
    ensures UnariesCode(NoUnary, toSuper, lits) == Gen([], lits)
    ensures EvalUnaries(P.w, P.src, a, NoUnary, toSuper, recv, st, fuel) == Ok(recv, st)
  {
  }

  lemma UnariesEval(P: Program, us: Unaries, toSuper: bool, lits: seq<Value>, recv: Value, st: State, fuel: nat, a: nat)
    requires us.Unary?
    ensures var lits' := AddIfAbsent(lits, SymV(us.sel));
            var h := UnariesCode(us.more, false, lits');
            UnariesCode(us, toSuper, lits) == Gen([Message(us.sel, toSuper, lits')] + h.code, h.lits)
    ensures var o := EvalSend(P.w, P.src, a, us.sel, toSuper, [recv], st, fuel);
            EvalUnaries(P.w, P.src, a, us, toSuper, recv, st, fuel) ==
            if o.Left? then Left(o.why, o.state) else EvalUnaries(P.w, P.src, a, us.more, false, o.value, o.state, fuel)
  {
    hide EvalSend, Message;
  }

  lemma SimOperand(P: Program, cx: Context, op: Operand, lits: seq<Value>, base: seq<Value>, st: State,
                   fuel: nat, c: Config) returns (n: nat)
    requires Ready(P, cx, st, c) && c.Stack() == base && OperandOk(op)
    requires HasCode(P, c.Top(), OperandCode(cx, op, lits).code)
    requires OperandCode(cx, op, lits).lits <= Literals(P, c.Top())
    ensures After(P, c, Run(P.w, P.t, c, n), n, EvalOperand(P.w, P.src, cx, c.current, op, st, fuel),
                  c.Top().pc + |OperandCode(cx, op, lits).code|, base, fuel)
    decreases fuel, 1, op, 0
  {
    hide Good, Rel, Lands, Leaves, HasCode, Literals, Compile, Run, PrimaryCode, UnariesCode, EvalPrimary,
      EvalUnaries;
    var g := PrimaryCode(cx, op.head, lits);
    var sup := IsSuper(op.head);
    var a, b := g.code, UnariesCode(op.unaries, sup, g.lits).code;
    HasCodeSplit(P, c.Top(), a, b);
    OperandLits(cx, op, lits);
    var n1 := SimPrimary(P, cx, op.head, lits, base, st, fuel, c);
    var o1 := EvalPrimary(P.w, P.src, cx, c.current, op.head, st, fuel);
    if o1.Left? {
      return n1;
    }
    var c1 := Run(P.w, P.t, c, n1);
    Continue(P, cx, st, c, c1, a, b, base + [o1.value], o1.state);
    var n2 := SimUnaries(P, cx, op.unaries, sup, g.lits, base, o1.value, o1.state, fuel, c1);
    n := n1 + n2;
    RunAdd(P.w, P.t, c, n1, n2);
    Compose(P, c, c1, Run(P.w, P.t, c, n), n1, n2, c.Top().pc + |a|, base + [o1.value], o1.state,
            EvalUnaries(P.w, P.src, c.current, op.unaries, sup, o1.value, o1.state, fuel),
            c.Top().pc + |a + b|, base, fuel);
  }

  lemma SimBinaries(P: Program, cx: Context, bs: Binaries, toSuper: bool, lits: seq<Value>, base: seq<Value>,
                    recv: Value, st: State, fuel: nat, c: Config) returns (n: nat)
    requires Ready(P, cx, st, c) && c.Stack() == base + [recv] && BinariesOk(bs)
    requires HasCode(P, c.Top(), BinariesCode(cx, bs, toSuper, lits).code)
    requires BinariesCode(cx, bs, toSuper, lits).lits <= Literals(P, c.Top())
    ensures After(P, c, Run(P.w, P.t, c, n), n,
                  EvalBinaries(P.w, P.src, cx, c.current, bs, toSuper, recv, st, fuel),
                  c.Top().pc + |BinariesCode(cx, bs, toSuper, lits).code|, base, fuel)
    decreases fuel, 1, bs, 0
  {
    hide Good, Rel, Lands, Leaves, HasCode, Literals, Compile, Run, OperandCode, EvalOperand, Message,
      BinariesCode, EvalBinaries, BinaryTail;
    match bs
    case NoBinary =>
      n := 0;
      NoBinariesEval(P, cx, toSuper, lits, recv, st, fuel, c.current);
      RunNothing(P, st, c);
    case Binary(_, sel, arg, rest) =>
      var lits' := AddIfAbsent(lits, SymV(sel));
      var g := OperandCode(cx, arg, lits');
      var m := [Message(sel, toSuper, g.lits)];
      var h := BinariesCode(cx, rest, false, g.lits);
      BinariesEval(P, cx, bs, toSuper, lits, recv, st, fuel, c.current);
      HasCodeSplit(P, c.Top(), g.code, m + h.code);
      BinariesLits(cx, bs, toSuper, lits);
      var n1 := SimOperand(P, cx, arg, lits', base + [recv], st, fuel, c);
      var o1 := EvalOperand(P.w, P.src, cx, c.current, arg, st, fuel);
      if o1.Left? {
        return n1;
      }
      var c1 := Run(P.w, P.t, c, n1);
      Continue(P, cx, st, c, c1, g.code, m + h.code, base + [recv] + [o1.value], o1.state);
      var n2 := SimBinaryTail(P, cx, bs, toSuper, g.lits, base, recv, o1.value, o1.state, fuel, c1);
      n := n1 + n2;
      RunAdd(P.w, P.t, c, n1, n2);
      Compose(P, c, c1, Run(P.w, P.t, c, n), n1, n2, c.Top().pc + |g.code|, base + [recv] + [o1.value], o1.state,
              BinaryTail(P, cx, bs, toSuper, recv, o1.value, o1.state, fuel, c.current),
              c.Top().pc + |g.code + (m + h.code)|, base, fuel);
  }

  lemma NoBinariesEval(P: Program, cx: Context, toSuper: bool, lits: seq<Value>, recv: Value, st: State,
                       fuel: nat, a: nat)
    ensures BinariesCode(cx, NoBinary, toSuper, lits) == Gen([], lits)
    ensures EvalBinaries(P.w, P.src, cx, a, NoBinary, toSuper, recv, st, fuel) == Ok(recv, st)
  {
  }

  lemma BinariesEval(P: Program, cx: Context, bs: Binaries, toSuper: bool, lits: seq<Value>, recv: Value, st: State,
                     fuel: nat, a: nat)
    requires bs.Binary?
    ensures var g := OperandCode(cx, bs.arg, AddIfAbsent(lits, SymV(bs.sel)));
            var h := BinariesCode(cx, bs.rest, false, g.lits);
            BinariesCode(cx, bs, toSuper, lits) == Gen(g.code + ([Message(bs.sel, toSuper, g.lits)] + h.code), h.lits)
    ensures var o := EvalOperand(P.w, P.src, cx, a, bs.arg, st, fuel);
            EvalBinaries(P.w, P.src, cx, a, bs, toSuper, recv, st, fuel) ==
            if o.Left? then Left(o.why, o.state) else BinaryTail(P, cx, bs, toSuper, recv, o.value, o.state, fuel, a)
  {
    hide OperandCode, EvalOperand, EvalSend, Message, LitIndex;
    var g := OperandCode(cx, bs.arg, AddIfAbsent(lits, SymV(bs.sel)));
    var h := BinariesCode(cx, bs.rest, false, g.lits);
    var m := [Message(bs.sel, toSuper, g.lits)];
    assert g.code + m + h.code == g.code + (m + h.code);
  }

  /** A binary message whose argument is evaluated, and the messages after it. */
  function BinaryTail(P: Program, cx: Context, bs: Binaries, toSuper: bool, recv: Value, arg: Value, st: State,
                      fuel: nat, a: nat): Outcome<Value>
    requires bs.Binary?
  {
    var (r, st2) :- EvalSend(P.w, P.src, a, bs.sel, toSuper, [recv, arg], st, fuel);
    EvalBinaries(P.w, P.src, cx, a, bs.rest, false, r, st2, fuel)
  }

  lemma SimBinaryTail(P: Program, cx: Context, bs: Binaries, toSuper: bool, lits: seq<Value>, base: seq<Value>,
                      recv: Value, arg: Value, st: State, fuel: nat, c: Config) returns (n: nat)
    requires bs.Binary? && BinariesOk(bs)
    requires Ready(P, cx, st, c) && c.Stack() == base + [recv] + [arg]
    requires SymV(bs.sel) in lits
    requires HasCode(P, c.Top(), [Message(bs.sel, toSuper, lits)] + BinariesCode(cx, bs.rest, false, lits).code)
    requires BinariesCode(cx, bs.rest, false, lits).lits <= Literals(P, c.Top())
    ensures After(P, c, Run(P.w, P.t, c, n), n, BinaryTail(P, cx, bs, toSuper, recv, arg, st, fuel, c.current),
                  c.Top().pc + 1 + |BinariesCode(cx, bs.rest, false, lits).code|, base, fuel)
    decreases fuel, 1, bs.rest, 1
  {
    hide Good, Rel, Lands, Leaves, HasCode, Literals, Compile, Run, BinariesCode, EvalBinaries, EvalSend, Message;
    var m, h := [Message(bs.sel, toSuper, lits)], BinariesCode(cx, bs.rest, false, lits).code;
    HasCodeSplit(P, c.Top(), m, h);
    BinariesLits(cx, bs.rest, false, lits);
    assert base + [recv] + [arg] == base + [recv, arg];
    var n1 := SimSend(P, cx, bs.sel, toSuper, lits, [recv, arg], base, st, fuel, c);
    var o1 := EvalSend(P.w, P.src, c.current, bs.sel, toSuper, [recv, arg], st, fuel);
    if o1.Left? {
      return n1;
    }
    var c1 := Run(P.w, P.t, c, n1);
    Continue(P, cx, st, c, c1, m, h, base + [o1.value], o1.state);
    var n2 := SimBinaries(P, cx, bs.rest, false, lits, base, o1.value, o1.state, fuel, c1);
    n := n1 + n2;
    RunAdd(P.w, P.t, c, n1, n2);
    Compose(P, c, c1, Run(P.w, P.t, c, n), n1, n2, c.Top().pc + 1, base + [o1.value], o1.state,
            EvalBinaries(P.w, P.src, cx, c.current, bs.rest, false, o1.value, o1.state, fuel),
            c.Top().pc + 1 + |h|, base, fuel);
  }

  lemma SimFormula(P: Program, cx: Context, f: Formula, lits: seq<Value>, base: seq<Value>, st: State,
                   fuel: nat, c: Config) returns (n: nat)
    requires Ready(P, cx, st, c) && c.Stack() == base && FormulaOk(f)
    requires HasCode(P, c.Top(), FormulaCode(cx, f, lits).code)
    requires FormulaCode(cx, f, lits).lits <= Literals(P, c.Top())
    ensures After(P, c, Run(P.w, P.t, c, n), n, EvalFormula(P.w, P.src, cx, c.current, f, st, fuel),
                  c.Top().pc + |FormulaCode(cx, f, lits).code|, base, fuel)
    decreases fuel, 1, f, 0
  {
    hide Good, Rel, Lands, Leaves, HasCode, Literals, Compile, Run, OperandCode, BinariesCode, EvalOperand,
      EvalBinaries;
    var g := OperandCode(cx, f.operand, lits);
    var sup := PendingSuper(f.operand);
    var a, b := g.code, BinariesCode(cx, f.binaries, sup, g.lits).code;
    HasCodeSplit(P, c.Top(), a, b);
    FormulaLits(cx, f, lits);
    var n1 := SimOperand(P, cx, f.operand, lits, base, st, fuel, c);
    var o1 := EvalOperand(P.w, P.src, cx, c.current, f.operand, st, fuel);
    if o1.Left? {
      return n1;
    }
    var c1 := Run(P.w, P.t, c, n1);
    Continue(P, cx, st, c, c1, a, b, base + [o1.value], o1.state);
    var n2 := SimBinaries(P, cx, f.binaries, sup, g.lits, base, o1.value, o1.state, fuel, c1);
    n := n1 + n2;
    RunAdd(P.w, P.t, c, n1, n2);
    Compose(P, c, c1, Run(P.w, P.t, c, n), n1, n2, c.Top().pc + |a|, base + [o1.value], o1.state,
            EvalBinaries(P.w, P.src, cx, c.current, f.binaries, sup, o1.value, o1.state, fuel),
            c.Top().pc + |a + b|, base, fuel);
  }

  lemma SimArgs(P: Program, cx: Context, ks: Keywords, lits: seq<Value>, base: seq<Value>, st: State,
                fuel: nat, c: Config) returns (n: nat)
    requires Ready(P, cx, st, c) && c.Stack() == base && KeywordsOk(ks)
    requires HasCode(P, c.Top(), KeywordArgsCode(cx, ks, lits).code)
    requires KeywordArgsCode(cx, ks, lits).lits <= Literals(P, c.Top())
    ensures AfterArgs(P, c, Run(P.w, P.t, c, n), n, EvalArgs(P.w, P.src, cx, c.current, ks, st, fuel),
                      c.Top().pc + |KeywordArgsCode(cx, ks, lits).code|, base, fuel)
    decreases fuel, 1, ks, 0
  {
    hide Good, Rel, Lands, Leaves, HasCode, Literals, Compile, Run, FormulaCode, EvalFormula;
    match ks
    case NoKeyword =>
      n := 0;
      assert base + [] == base;
      RunNothing(P, st, c);
    case KeywordPart(_, arg, tail) =>
      var g := FormulaCode(cx, arg, lits);
      var a, b := g.code, KeywordArgsCode(cx, tail, g.lits).code;
      HasCodeSplit(P, c.Top(), a, b);
      KeywordArgsLits(cx, ks, lits);
      var n1 := SimFormula(P, cx, arg, lits, base, st, fuel, c);
      var o1 := EvalFormula(P.w, P.src, cx, c.current, arg, st, fuel);
      if o1.Left? {
        return n1;
      }
      var c1 := Run(P.w, P.t, c, n1);
      Continue(P, cx, st, c, c1, a, b, base + [o1.value], o1.state);
      var n2 := SimArgs(P, cx, tail, g.lits, base + [o1.value], o1.state, fuel, c1);
      var o2 := EvalArgs(P.w, P.src, cx, c.current, tail, o1.state, fuel);
      n := n1 + n2;
      RunAdd(P.w, P.t, c, n1, n2);
      ComposeArgs(P, c, c1, Run(P.w, P.t, c, n), n1, n2, c.Top().pc + |a|, base + [o1.value], o1.state,
                  o2, c.Top().pc + |a + b|, base + [o1.value], fuel);
      if o2.Ok? {
        assert base + [o1.value] + o2.value == base + ([o1.value] + o2.value);
      }
  }

  lemma SimKeywords(P: Program, cx: Context, ks: Keywords, toSuper: bool, lits: seq<Value>, base: seq<Value>,
                    recv: Value, st: State, fuel: nat, c: Config) returns (n: nat)
    requires Ready(P, cx, st, c) && c.Stack() == base + [recv] && KeywordsOk(ks)
    requires HasCode(P, c.Top(), KeywordMessageCode(cx, ks, toSuper, lits).code)
    requires KeywordMessageCode(cx, ks, toSuper, lits).lits <= Literals(P, c.Top())
    ensures After(P, c, Run(P.w, P.t, c, n), n,
                  EvalKeywords(P.w, P.src, cx, c.current, ks, toSuper, recv, st, fuel),
                  c.Top().pc + |KeywordMessageCode(cx, ks, toSuper, lits).code|, base, fuel)
    decreases fuel, 1, ks, 1
  {
    hide Good, Rel, Lands, Leaves, HasCode, Literals, Compile, Run, KeywordArgsCode, EvalArgs, EvalSend, Message;
    if ks.NoKeyword? {
      RunNothing(P, st, c);
      return 0;
    }
    var g := KeywordArgsCode(cx, ks, lits);
    var sel := Concat(KeywordList(ks));
    var lits' := AddIfAbsent(g.lits, SymV(sel));
    var a, b := g.code, [Message(sel, toSuper, lits')];
    HasCodeSplit(P, c.Top(), a, b);
    var n1 := SimArgs(P, cx, ks, lits, base + [recv], st, fuel, c);
    var o1 := EvalArgs(P.w, P.src, cx, c.current, ks, st, fuel);
    if o1.Left? {
      return n1;
    }
    var c1 := Run(P.w, P.t, c, n1);
    Continue(P, cx, st, c, c1, a, b, base + [recv] + o1.value, o1.state);
    KeywordListOk(ks);
    KeywordArity(KeywordList(ks));
    assert base + [recv] + o1.value == base + ([recv] + o1.value);
    var n2 := SimSend(P, cx, sel, toSuper, lits', [recv] + o1.value, base, o1.state, fuel, c1);
    n := n1 + n2;
    RunAdd(P.w, P.t, c, n1, n2);
    Compose(P, c, c1, Run(P.w, P.t, c, n), n1, n2, c.Top().pc + |a|, base + [recv] + o1.value, o1.state,
            EvalSend(P.w, P.src, c.current, sel, toSuper, [recv] + o1.value, o1.state, fuel),
            c.Top().pc + |a + b|, base, fuel);
  }

  lemma SimEvaluation(P: Program, cx: Context, e: Expr, lits: seq<Value>, base: seq<Value>, st: State,
                      fuel: nat, c: Config) returns (n: nat)
    requires Ready(P, cx, st, c) && c.Stack() == base && ExprOk(e)
    requires HasCode(P, c.Top(), EvaluationCode(cx, e, lits).code)
    requires EvaluationCode(cx, e, lits).lits <= Literals(P, c.Top())
    ensures After(P, c, Run(P.w, P.t, c, n), n, Evaluate(P.w, P.src, cx, c.current, e, st, fuel),
                  c.Top().pc + |EvaluationCode(cx, e, lits).code|, base, fuel)
    decreases fuel, 1, e, 0
  {
    hide Good, Rel, Lands, Leaves, HasCode, Literals, Compile, Run, FormulaCode, KeywordMessageCode,
      EvalFormula, EvalKeywords;
    var g := FormulaCode(cx, e.formula, lits);
    var sup := KeywordToSuper(e);
    var a, b := g.code, KeywordMessageCode(cx, e.keywords, sup, g.lits).code;
    HasCodeSplit(P, c.Top(), a, b);
    EvaluationLits(cx, e, lits);
    var n1 := SimFormula(P, cx, e.formula, lits, base, st, fuel, c);
    var o1 := EvalFormula(P.w, P.src, cx, c.current, e.formula, st, fuel);
    if o1.Left? {
      return n1;
    }
    var c1 := Run(P.w, P.t, c, n1);
    Continue(P, cx, st, c, c1, a, b, base + [o1.value], o1.state);
    var n2 := SimKeywords(P, cx, e.keywords, sup, g.lits, base, o1.value, o1.state, fuel, c1);
    n := n1 + n2;
    RunAdd(P.w, P.t, c, n1, n2);
    Compose(P, c, c1, Run(P.w, P.t, c, n), n1, n2, c.Top().pc + |a|, base + [o1.value], o1.state,
            EvalKeywords(P.w, P.src, cx, c.current, e.keywords, sup, o1.value, o1.state, fuel),
            c.Top().pc + |a + b|, base, fuel);
  }

  // ----- assignments -----

  function Copies(v: Value, n: nat): (s: seq<Value>)
    ensures |s| == n
  {
    seq(n, i => v)
  }

  lemma {:induction false} RunDups(P: Program, cx: Context, k: nat, base: seq<Value>, v: Value, st: State, c: Config)
    requires Ready(P, cx, st, c) && c.Stack() == base + [v] && HasCode(P, c.Top(), Dups(k))
    ensures Lands(P, c, Run(P.w, P.t, c, k), c.Top().pc + k, base + [v] + Copies(v, k), st)
    decreases k
  {
    hide Run, Step, Good, Rel, HasCode, Literals, Compile;
    if k == 0 {
      RunNothing(P, st, c);
      assert base + [v] + Copies(v, 0) == base + [v];
    } else {
      HasCodeSplit(P, c.Top(), [Dup], Dups(k - 1));
      StepDup(P, st, c, base, v);
      var c1 := Step(P.w, P.t, c);
      Continue(P, cx, st, c, c1, [Dup], Dups(k - 1), base + [v, v], st);
      assert base + [v, v] == (base + [v]) + [v];
      RunDups(P, cx, k - 1, base + [v], v, st, c1);
      RunStep(P.w, P.t, c, k - 1);
      assert base + [v] + [v] + Copies(v, k - 1) == base + [v] + Copies(v, k);
    }
  }

  /** The pops that follow store the value in every target, outermost first, and leave one copy. */
  lemma {:induction false} SimAssign(P: Program, cx: Context, targets: seq<string>, lits: seq<Value>, base: seq<Value>,
                                     v: Value, st: State, fuel: nat, c: Config) returns (n: nat)
    requires Ready(P, cx, st, c) && c.Stack() == base + [v] + Copies(v, |targets|)
    requires HasCode(P, c.Top(), PopTargets(cx, targets, lits))
    requires lits <= Literals(P, c.Top()) && forall t | t in targets :: SymV(t) in lits
    ensures After(P, c, Run(P.w, P.t, c, n), n, AssignAll(P.w, c.current, targets, v, st),
                  c.Top().pc + |targets|, base, fuel)
    decreases |targets|
  {
    hide Good, Rel, Lands, HasCode, Literals, Compile, Run, Step, WriteVariable;
    var k := |targets|;
    if k == 0 {
      assert base + [v] + Copies(v, 0) == base + [v];
      RunNothing(P, st, c);
      return 0;
    }
    var a, b := [PopVariable(cx, targets[0], lits)], PopTargets(cx, targets[1..], lits);
    HasCodeSplit(P, c.Top(), a, b);
    var rest := base + [v] + Copies(v, k - 1);
    assert c.Stack() == rest + [v];
    StepPopVariable(P, st, c, targets[0], lits, rest, v);
    RunOne(P, c);
    var o1 := WriteVariable(P.w, c.current, targets[0], v, st);
    if o1.Left? {
      return 1;
    }
    var c1 := Step(P.w, P.t, c);
    Continue(P, cx, st, c, c1, a, b, rest, o1.state);
    var n2 := SimAssign(P, cx, targets[1..], lits, base, v, o1.state, fuel, c1);
    n := 1 + n2;
    RunAdd(P.w, P.t, c, 1, n2);
    Compose(P, c, c1, Run(P.w, P.t, c, n), 1, n2, c.Top().pc + 1, rest, o1.state,
            AssignAll(P.w, c.current, targets[1..], v, o1.state), c.Top().pc + k, base, fuel);
  }

  lemma SimExpr(P: Program, cx: Context, e: Expr, lits: seq<Value>, base: seq<Value>, st: State,
                fuel: nat, c: Config) returns (n: nat)
    requires Ready(P, cx, st, c) && c.Stack() == base && ExprOk(e)
    requires HasCode(P, c.Top(), ExprCode(cx, e, lits).code)
    requires ExprCode(cx, e, lits).lits <= Literals(P, c.Top())
    ensures After(P, c, Run(P.w, P.t, c, n), n, EvalExpr(P.w, P.src, cx, c.current, e, st, fuel),
                  c.Top().pc + |ExprCode(cx, e, lits).code|, base, fuel)
    decreases fuel, 1, e, 1
  {
    hide Good, Rel, Lands, Leaves, HasCode, Literals, Compile, Run, EvaluationCode, Evaluate, AssignAll,
      PopTargets, Dups, AddIfAbsent, IndexOf, ExprOk, FormulaOk, AssignAll;
    var lits' := AddTargets(e.targets, lits);
    var g := EvaluationCode(cx, e, lits');
    var k := |e.targets|;
    var dups, pops := Dups(k), PopTargets(cx, e.targets, g.lits);
    assert ExprCode(cx, e, lits).code == g.code + (dups + pops);
    HasCodeSplit(P, c.Top(), g.code, dups + pops);
    EvaluationLits(cx, e, lits');
    var n1 := SimEvaluation(P, cx, e, lits', base, st, fuel, c);
    var o1 := Evaluate(P.w, P.src, cx, c.current, e, st, fuel);
    if o1.Left? {
      return n1;
    }
    var c1 := Run(P.w, P.t, c, n1);
    Continue(P, cx, st, c, c1, g.code, dups + pops, base + [o1.value], o1.state);
    assert forall t | t in e.targets :: SymV(t) in lits';
    var n2 := SimStore(P, cx, e.targets, g.lits, base, o1.value, o1.state, fuel, c1);
    n := n1 + n2;
    RunAdd(P.w, P.t, c, n1, n2);
    Compose(P, c, c1, Run(P.w, P.t, c, n), n1, n2, c.Top().pc + |g.code|, base + [o1.value], o1.state,
            AssignAll(P.w, c.current, e.targets, o1.value, o1.state),
            c.Top().pc + |g.code + (dups + pops)|, base, fuel);
  }

  lemma SimStore(P: Program, cx: Context, targets: seq<string>, lits: seq<Value>, base: seq<Value>, v: Value,
                 st: State, fuel: nat, c: Config) returns (n: nat)
    requires Ready(P, cx, st, c) && c.Stack() == base + [v]
    requires HasCode(P, c.Top(), Dups(|targets|) + PopTargets(cx, targets, lits))
    requires lits <= Literals(P, c.Top()) && forall t | t in targets :: SymV(t) in lits
    ensures After(P, c, Run(P.w, P.t, c, n), n, AssignAll(P.w, c.current, targets, v, st),
                  c.Top().pc + 2 * |targets|, base, fuel)
  {
    hide Good, Rel, Lands, Leaves, HasCode, Literals, Compile, Run, AssignAll, PopTargets, Dups;
    var k := |targets|;
    HasCodeSplit(P, c.Top(), Dups(k), PopTargets(cx, targets, lits));
    RunDups(P, cx, k, base, v, st, c);
    var c1 := Run(P.w, P.t, c, k);
    Continue(P, cx, st, c, c1, Dups(k), PopTargets(cx, targets, lits), base + [v] + Copies(v, k), st);
    var n2 := SimAssign(P, cx, targets, lits, base, v, st, fuel, c1);
    n := k + n2;
    RunAdd(P.w, P.t, c, k, n2);
    Compose(P, c, c1, Run(P.w, P.t, c, n), k, n2, c.Top().pc + k, base + [v] + Copies(v, k), st,
            AssignAll(P.w, c.current, targets, v, st), c.Top().pc + 2 * k, base, fuel);
  }

  // ----- bodies -----

  lemma StepPushSelf(P: Program, st: State, c: Config, base: seq<Value>)
    requires Good(P) && Rel(P, st, c) && c.Top().code in P.src && P.src[c.Top().code].parent.None?
    requires HasCode(P, c.Top(), [PushArgument(0, 0)]) && c.Stack() == base
    ensures ImplicitSelf(c.current, st).Ok? && ImplicitSelf(c.current, st).state == st
    ensures Lands(P, c, Step(P.w, P.t, c), c.Top().pc + 1, base + [ImplicitSelf(c.current, st).value], st)
  {
    SelfSlot(P, st.acts, c.frames, c.current);
    StepExecutes(P, c, PushArgument(0, 0));
    AdvancedStack(c, base);
    assert ContextAt(Advance(c).frames, c.current, 0) == Some(c.current);
    LandsStack(P, st, c, base + [c.Top().args[0]]);
  }

  /** `^self` at the end of a method. */
  lemma SimReturnSelf(P: Program, cx: Context, st: State, base: seq<Value>, fuel: nat, c: Config)
    requires Ready(P, cx, st, c) && P.src[c.Top().code].parent.None?
    requires HasCode(P, c.Top(), RETURN_SELF) && c.Stack() == base
    ensures AfterBody(P, c, Run(P.w, P.t, c, 2), 2, ImplicitSelf(c.current, st), fuel)
  {
    hide Run, Step;
    assert RETURN_SELF == [PushArgument(0, 0)] + [ReturnLocal];
    HasCodeSplit(P, c.Top(), [PushArgument(0, 0)], [ReturnLocal]);
    StepPushSelf(P, st, c, base);
    var v := ImplicitSelf(c.current, st).value;
    var c1 := Step(P.w, P.t, c);
    Continue(P, cx, st, c, c1, [PushArgument(0, 0)], [ReturnLocal], base + [v], st);
    StepReturnLocal(P, st, c1, base, v);
    RunOne(P, c1);
    ComposeBody(P, c, c1, Step(P.w, P.t, c1), 1, 1, c.Top().pc + 1, base + [v], st, Ok(v, st), fuel);
    RunStep(P.w, P.t, c, 1);
  }

  /** A value in place and a local return. */
  lemma SimReturnValue(P: Program, cx: Context, st: State, base: seq<Value>, v: Value, fuel: nat, c: Config)
    requires Ready(P, cx, st, c) && HasCode(P, c.Top(), [ReturnLocal]) && c.Stack() == base + [v]
    ensures AfterBody(P, c, Run(P.w, P.t, c, 1), 1, Ok(v, st), fuel)
  {
    StepReturnLocal(P, st, c, base, v);
    RunOne(P, c);
  }

  lemma SimReturnHome(P: Program, cx: Context, st: State, base: seq<Value>, v: Value, fuel: nat, c: Config)
    requires Ready(P, cx, st, c) && HasCode(P, c.Top(), [ReturnNonLocal]) && c.Stack() == base + [v]
    ensures AfterBody(P, c, Run(P.w, P.t, c, 1), 1, ReturnHome(c.current, v, st), fuel)
  {
    OutermostAgrees(P, st.acts, c.frames, c.current);
    StepReturnNonLocal(P, st, c, base, v);
    RunOne(P, c);
  }

  /** An expression, and what a body does with its value. */
  lemma SimThenReturn(P: Program, cx: Context, e: Expr, lits: seq<Value>, isBlock: bool, tail: seq<Instr>,
                      st: State, fuel: nat, c: Config) returns (n: nat)
    requires Ready(P, cx, st, c) && c.Stack() == [] && ExprOk(e)
    requires isBlock == P.src[c.Top().code].isBlock
    requires ExprCode(cx, e, lits).lits <= Literals(P, c.Top())
    requires HasCode(P, c.Top(), ExprCode(cx, e, lits).code + tail)
    requires tail == [ReturnLocal] || (isBlock && tail == [ReturnNonLocal]) || (!isBlock && tail == [Pop] + RETURN_SELF)
    ensures AfterBody(P, c, Run(P.w, P.t, c, n), n,
                      ThenReturn(P, cx, e, tail, c.current, st, fuel), fuel)
    decreases fuel, 1, e, 2
  {
    hide Good, Rel, Lands, Leaves, HasCode, Literals, Compile, Run, ExprCode, EvalExpr;
    var a := ExprCode(cx, e, lits).code;
    HasCodeSplit(P, c.Top(), a, tail);
    var n1 := SimExpr(P, cx, e, lits, [], st, fuel, c);
    var o1 := EvalExpr(P.w, P.src, cx, c.current, e, st, fuel);
    if o1.Left? {
      return n1;
    }
    var c1 := Run(P.w, P.t, c, n1);
    Continue(P, cx, st, c, c1, a, tail, [] + [o1.value], o1.state);
    var n2 := SimTail(P, cx, o1.state, o1.value, isBlock, tail, fuel, c1);
    n := n1 + n2;
    RunAdd(P.w, P.t, c, n1, n2);
    ComposeBody(P, c, c1, Run(P.w, P.t, c, n), n1, n2, c.Top().pc + |a|, [] + [o1.value], o1.state,
                TailMeaning(tail, c.current, o1.value, o1.state), fuel);
  }

  /** What the end of a body makes of its last value. */
  function TailMeaning(tail: seq<Instr>, a: nat, v: Value, st: State): Outcome<Value> {
    if tail == [ReturnLocal] then Ok(v, st)
    else if tail == [ReturnNonLocal] then ReturnHome(a, v, st)
    else ImplicitSelf(a, st)
  }

  function ThenReturn(P: Program, cx: Context, e: Expr, tail: seq<Instr>, a: nat, st: State,
                      fuel: nat): Outcome<Value> {
    var (v, st1) :- EvalExpr(P.w, P.src, cx, a, e, st, fuel);
    TailMeaning(tail, a, v, st1)
  }

  lemma KindOf(P: Program, code: nat)
    requires Good(P) && code in P.src
    ensures P.src[code].isBlock <==> P.src[code].parent.Some?
    ensures BodyOk(P.src[code].body)
  {
    assert SourceOk(P.src, code);
  }

  lemma SimTail(P: Program, cx: Context, st: State, v: Value, isBlock: bool, tail: seq<Instr>, fuel: nat, c: Config)
    returns (n: nat)
    requires Ready(P, cx, st, c) && c.Stack() == [] + [v] && HasCode(P, c.Top(), tail)
    requires isBlock == P.src[c.Top().code].isBlock
    requires tail == [ReturnLocal] || (isBlock && tail == [ReturnNonLocal]) || (!isBlock && tail == [Pop] + RETURN_SELF)
    ensures AfterBody(P, c, Run(P.w, P.t, c, n), n, TailMeaning(tail, c.current, v, st), fuel)
  {
    hide Run, Step, ImplicitSelf;
    if tail == [ReturnLocal] {
      SimReturnValue(P, cx, st, [], v, fuel, c);
      n := 1;
    } else if isBlock {
      SimReturnHome(P, cx, st, [], v, fuel, c);
      n := 1;
    } else {
      KindOf(P, c.Top().code);
      HasCodeSplit(P, c.Top(), [Pop], RETURN_SELF);
      StepPop(P, st, c, [], v);
      var c1 := Step(P.w, P.t, c);
      Continue(P, cx, st, c, c1, [Pop], RETURN_SELF, [], st);
      SimReturnSelf(P, cx, st, [], fuel, c1);
      n := 3;
      ComposeBody(P, c, c1, Run(P.w, P.t, c1, 2), 1, 2, c.Top().pc + 1, [], st, ImplicitSelf(c.current, st), fuel);
      RunStep(P.w, P.t, c, 2);
    }
  }

  lemma SimEmptyBlock(P: Program, cx: Context, lits: seq<Value>, st: State, fuel: nat, c: Config) returns (n: nat)
    requires Ready(P, cx, st, c) && c.Stack() == []
    requires HasCode(P, c.Top(), BodyCode(cx, Finished, true, lits).code)
    requires BodyCode(cx, Finished, true, lits).lits <= Literals(P, c.Top())
    ensures AfterBody(P, c, Run(P.w, P.t, c, n), n,
                      ReadGlobal(P.w, P.src, c.current, "nil", st, fuel), fuel)
    decreases fuel, 0, 1
  {
    hide Good, Rel, Lands, Leaves, HasCode, Run, ReadGlobal, Represents, Arity, SendDirect, FindVar, Binder;
    var lits' := AddIfAbsent(lits, SymV("nil"));
    var k := LitIndex(lits', SymV("nil"));
    Limits(P, c.Top().code);
    SelectorStable(lits', Literals(P, c.Top()), "nil");
    assert BodyCode(cx, Finished, true, lits).code == [PushGlobal(k)] + [ReturnLocal];
    HasCodeSplit(P, c.Top(), [PushGlobal(k)], [ReturnLocal]);
    var n1 := SimGlobal(P, cx, "nil", k, [], st, fuel, c);
    var o1 := ReadGlobal(P.w, P.src, c.current, "nil", st, fuel);
    if o1.Left? {
      return n1;
    }
    var c1 := Run(P.w, P.t, c, n1);
    Continue(P, cx, st, c, c1, [PushGlobal(k)], [ReturnLocal], [] + [o1.value], o1.state);
    SimReturnValue(P, cx, o1.state, [], o1.value, fuel, c1);
    n := n1 + 1;
    RunAdd(P.w, P.t, c, n1, 1);
    ComposeBody(P, c, c1, Run(P.w, P.t, c, n), n1, 1, c.Top().pc + 1, [] + [o1.value], o1.state,
                Ok(o1.value, o1.state), fuel);
  }

  lemma SimBody(P: Program, cx: Context, b: Body, isBlock: bool, lits: seq<Value>, st: State, fuel: nat, c: Config)
    returns (n: nat)
    requires Ready(P, cx, st, c) && c.Stack() == [] && BodyOk(b)
    requires isBlock == P.src[c.Top().code].isBlock
    requires HasCode(P, c.Top(), BodyCode(cx, b, isBlock, lits).code)
    requires BodyCode(cx, b, isBlock, lits).lits <= Literals(P, c.Top())
    ensures AfterBody(P, c, Run(P.w, P.t, c, n), n, EvalBody(P.w, P.src, cx, c.current, b, isBlock, st, fuel), fuel)
    decreases fuel, 1, b, 3
  {
    hide Run, Good, Rel, Lands, Leaves, HasCode, Literals, Compile, ExprCode, EvalExpr;
    match b
    case Answer(e, _) =>
      n := SimThenReturn(P, cx, e, lits, isBlock, if isBlock then [ReturnNonLocal] else [ReturnLocal], st, fuel, c);
    case Finished =>
      if isBlock {
        n := SimEmptyBlock(P, cx, lits, st, fuel, c);
      } else {
        KindOf(P, c.Top().code);
        SimReturnSelf(P, cx, st, [], fuel, c);
        n := 2;
      }
    case Last(e) =>
      n := SimThenReturn(P, cx, e, lits, isBlock, if isBlock then [ReturnLocal] else [Pop] + RETURN_SELF, st, fuel, c);
    case Then(e, rest) =>
      if isBlock && rest.Finished? {
        n := SimThenReturn(P, cx, e, lits, isBlock, [ReturnLocal], st, fuel, c);
      } else {
        n := SimStatement(P, cx, e, rest, isBlock, lits, st, fuel, c);
      }
  }

  lemma SimStatement(P: Program, cx: Context, e: Expr, rest: Body, isBlock: bool, lits: seq<Value>, st: State,
                     fuel: nat, c: Config) returns (n: nat)
    requires !(isBlock && rest.Finished?)
    requires Ready(P, cx, st, c) && c.Stack() == [] && BodyOk(Then(e, rest))
    requires isBlock == P.src[c.Top().code].isBlock
    requires HasCode(P, c.Top(), BodyCode(cx, Then(e, rest), isBlock, lits).code)
    requires BodyCode(cx, Then(e, rest), isBlock, lits).lits <= Literals(P, c.Top())
    ensures AfterBody(P, c, Run(P.w, P.t, c, n), n,
                      EvalBody(P.w, P.src, cx, c.current, Then(e, rest), isBlock, st, fuel), fuel)
    decreases fuel, 1, Then(e, rest), 2
  {
    hide Good, Rel, Lands, Leaves, HasCode, Literals, Compile, Run, Step, ExprCode, EvalExpr;
    var g := ExprCode(cx, e, lits);
    var h := BodyCode(cx, rest, isBlock, g.lits);
    assert BodyCode(cx, Then(e, rest), isBlock, lits).code == g.code + ([Pop] + h.code);
    HasCodeSplit(P, c.Top(), g.code, [Pop] + h.code);
    BodyLits(cx, Then(e, rest), isBlock, lits);
    var n1 := SimExpr(P, cx, e, lits, [], st, fuel, c);
    var o1 := EvalExpr(P.w, P.src, cx, c.current, e, st, fuel);
    if o1.Left? {
      return n1;
    }
    var c1 := Run(P.w, P.t, c, n1);
    Continue(P, cx, st, c, c1, g.code, [Pop] + h.code, [] + [o1.value], o1.state);
    HasCodeSplit(P, c1.Top(), [Pop], h.code);
    StepPop(P, o1.state, c1, [], o1.value);
    var c2 := Step(P.w, P.t, c1);
    Continue(P, cx, o1.state, c1, c2, [Pop], h.code, [], o1.state);
    var n2 := SimBody(P, cx, rest, isBlock, g.lits, o1.state, fuel, c2);
    var o := EvalBody(P.w, P.src, cx, c.current, rest, isBlock, o1.state, fuel);
    ComposeBody(P, c1, c2, Run(P.w, P.t, c2, n2), 1, n2, c1.Top().pc + 1, [], o1.state, o, fuel);
    RunStep(P.w, P.t, c1, n2);
    n := n1 + (n2 + 1);
    RunAdd(P.w, P.t, c, n1, n2 + 1);
    ComposeBody(P, c, c1, Run(P.w, P.t, c, n), n1, n2 + 1, c.Top().pc + |g.code|, [] + [o1.value], o1.state, o, fuel);
  }

  /** Running an activation to its end. */
  lemma SimRunBody(P: Program, code: nat, st: State, fuel: nat, c: Config) returns (n: nat)
    requires Good(P) && Rel(P, st, c) && c.Top().code == code && code in P.src
    requires c.Top().pc == 0 && c.Stack() == []
    ensures AfterRun(P, c, Run(P.w, P.t, c, n), n, RunBody(P.w, P.src, code, c.current, st, fuel), fuel)
    decreases fuel, 2, 0, 0
  {
    hide Run, BodyCode, EvalBody;
    var s := P.src[code];
    var g := BodyCode(s.Cx(), s.body, s.isBlock, []);
    KindOf(P, code);
    assert g.code == Compile(s).code[0..0 + |g.code|];
    n := SimBody(P, s.Cx(), s.body, s.isBlock, [], st, fuel, c);
    var o := EvalBody(P.w, P.src, s.Cx(), c.current, s.body, s.isBlock, st, fuel);
    if o.Left? && o.why.Restarted? && fuel > 0 {
      var c1 := Run(P.w, P.t, c, n);
      var m := SimRunBody(P, code, o.state, fuel - 1, c1);
      RunAdd(P.w, P.t, c, n, m);
      RestartThrough(P, c, c1, Run(P.w, P.t, c1, m), n, m, o.state,
                     RunBody(P.w, P.src, code, c.current, o.state, fuel - 1), fuel);
      n := n + m;
    }
  }

  lemma RestartThrough(P: Program, c: Config, c1: Config, d: Config, n: nat, m: nat, st1: State,
                       o: Outcome<Value>, fuel: nat)
    requires n >= 1 && fuel >= 1 && Lands(P, c, c1, 0, [], st1)
    requires AfterRun(P, c1, d, m, o, fuel - 1)
    ensures AfterRun(P, c, d, n + m, o, fuel)
  {
  }
}

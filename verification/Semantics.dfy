/** The meaning of source code, told without bytecode, stacks or slot indices: activations bind
    names to values, and an expression evaluates to a value or leaves its activation. */
module Semantics {
  import opened Common
  import opened Syntax
  import opened Bytecodes
  import opened Signature
  import opened CodeGen
  import opened Machine

  /** The methods and blocks of a program. */
  type Sources = map<nat, Source>

  /** One activation of a method or block. `home` is the activation a block was created in. */
  datatype Activation = Activation(code: nat, home: Option<nat>, params: map<string, Value>,
                                   locals: map<string, Value>, live: bool)

  datatype State = State(acts: seq<Activation>, history: History)
  {
    function Record(e: Event): State {
      this.(history := history + [e])
    }
  }

  /** Ways to leave an expression other than with a value. */
  datatype Exit =
    | ReturnFrom(home: nat, value: Value)   // a non-local return is under way
    | Restarted                             // the current method or block starts over
    | Escaped                               // a return from a method that has already returned
    | Fault                                 // undefined in C
    | OutOfFuel                             // the evaluator gave up

  datatype Outcome<+T> = Ok(value: T, state: State) | Left(why: Exit, state: State)
  {
    predicate IsFailure() {
      Left?
    }

    function PropagateFailure<U>(): Outcome<U>
      requires Left?
    {
      Left(why, state)
    }

    function Extract(): (T, State)
      requires Ok?
    {
      (value, state)
    }
  }

  // ----- variables -----

  /** The activation, from `a` outwards, that binds a name; locals hide parameters. */
  function Binder(acts: seq<Activation>, a: nat, name: string): (r: Option<nat>)
    ensures r.Some? ==> r.value < |acts| && (name in acts[r.value].locals || name in acts[r.value].params)
    decreases a
  {
    if a >= |acts| then None
    else if name in acts[a].locals || name in acts[a].params then Some(a)
    else if acts[a].home.None? || acts[a].home.value >= a then None
    else Binder(acts, acts[a].home.value, name)
  }

  function Get(act: Activation, name: string): Value
    requires name in act.locals || name in act.params
  {
    if name in act.locals then act.locals[name] else act.params[name]
  }

  function Set(act: Activation, name: string, v: Value): Activation {
    if name in act.locals then act.(locals := act.locals[name := v])
    else act.(params := act.params[name := v])
  }

  function Outermost(acts: seq<Activation>, a: nat): (r: Option<nat>)
    ensures r.Some? ==> r.value < |acts| && r.value <= a
    decreases a
  {
    if a >= |acts| then None
    else if acts[a].home.None? then Some(a)
    else if acts[a].home.value >= a then None
    else Outermost(acts, acts[a].home.value)
  }

  /** The object whose method is running, also inside blocks. */
  function Self(acts: seq<Activation>, a: nat): Option<Value> {
    match Outermost(acts, a)
    case None => None
    case Some(o) => if "self" in acts[o].params then Some(acts[o].params["self"]) else None
  }

  /** Parameters bound to arguments; of equal names the first counts. */
  function Bind(names: seq<string>, values: seq<Value>): map<string, Value> {
    map n | n in names && IndexOf(names, n) < |values| :: values[IndexOf(names, n)]
  }

  // ----- sends -----

  function Kill(st: State, a: nat): State {
    if a < |st.acts| then st.(acts := st.acts[a := st.acts[a].(live := false)]) else st
  }

  /** A non-local return ends its home and everything started since. */
  function KillFrom(st: State, home: nat): State {
    st.(acts := seq(|st.acts|, i requires 0 <= i < |st.acts| =>
          if i >= home then st.acts[i].(live := false) else st.acts[i]))
  }

  function NewActivation(s: Source, code: nat, home: Option<nat>, args: seq<Value>): Activation {
    Activation(code, home, Bind(s.args, args), map n | n in s.locals :: Nil, true)
  }

  function Invoked(w: World, src: Sources, inv: Invokable, args: seq<Value>, st: State, fuel: nat): Outcome<Value>
    decreases fuel, 2
  {
    if args == [] then Left(Fault, st)
    else
      match inv
      case MethodI(code) =>
        if code in src && src[code].parent.None? && Arity(src[code].signature) == |args|
        then
          var st1 := st.(acts := st.acts + [NewActivation(src[code], code, None, args)]);
          RunBody(w, src, code, |st.acts|, st1, fuel)
        else Left(Fault, st)
      case PrimitiveI(p) =>
        Ok(w.primitive(p, args, st.history), st.Record(PrimitiveE(p, args)))
      case EvaluateI(argc) =>
        var b := args[0];
        if argc == |args| && b.Closure? && b.code in src && b.home < |st.acts|
           && src[b.code].parent == Some(st.acts[b.home].code) && Arity(src[b.code].signature) == argc
        then
          var st1 := st.(acts := st.acts + [NewActivation(src[b.code], b.code, Some(b.home), args)]);
          RunBody(w, src, b.code, |st.acts|, st1, fuel)
        else Left(Fault, st)
      case RestartI => Left(Restarted, st)
  }

  /** A message the virtual machine itself sends. */
  function SendDirect(w: World, src: Sources, sel: string, args: seq<Value>, st: State, fuel: nat): Outcome<Value>
    requires args != []
    decreases fuel, 3
  {
    var st1 := st.Record(SendE(sel, false, args));
    match w.lookup(args[0], sel, st.history)
    case None => Left(Fault, st1)
    case Some(inv) => Invoked(w, src, inv, args, st1, fuel)
  }

  function Answered(w: World, src: Sources, sel: string, toSuper: bool, found: Option<Invokable>,
                    args: seq<Value>, st: State, fuel: nat): Outcome<Value>
    requires args != []
    decreases fuel, 4
  {
    var st1 := st.Record(SendE(sel, toSuper, args));
    match found
    case Some(inv) => Invoked(w, src, inv, args, st1, fuel)
    case None =>
      var st2 := st1.Record(ArrayE(if toSuper then args else args[1..]));
      SendDirect(w, src, DNU, [args[0], SymV(sel), ArrayV(|st1.history|)], st2, fuel)
  }

  /** A message send in activation `a`. */
  function SendMessage(w: World, src: Sources, a: nat, sel: string, toSuper: bool, args: seq<Value>, st: State,
                       fuel: nat): Outcome<Value>
    requires args != []
    decreases fuel, 5
  {
    if !toSuper then Answered(w, src, sel, false, w.lookup(args[0], sel, st.history), args, st, fuel)
    else
      match Outermost(st.acts, a)
      case None => Left(Fault, st)
      case Some(o) => Answered(w, src, sel, true, w.superLookup(st.acts[o].code, sel, st.history), args, st, fuel)
  }

  // ----- expressions -----

  function ReadVariable(w: World, src: Sources, cx: Context, a: nat, name: string, st: State, fuel: nat): Outcome<Value>
    decreases fuel, 0
  {
    match Binder(st.acts, a, name)
    case Some(b) => Ok(Get(st.acts[b], name), st)
    case None =>
      if name in cx.fields then
        match Self(st.acts, a)
        case None => Left(Fault, st)
        case Some(self) =>
          if w.hasField(self, name) then Ok(w.field(self, name, st.history), st) else Left(Fault, st)
      else
        match w.global(name, st.history)
        case Some(v) => Ok(v, st)
        case None =>
          if fuel == 0 then Left(OutOfFuel, st)
          else
            match Self(st.acts, a)
            case None => Left(Fault, st)
            case Some(self) => SendDirect(w, src, UNKNOWN_GLOBAL, [self, SymV(name)], st, fuel - 1)
  }

  /** An assignment to a name that nothing binds goes to a field of the receiver. */
  function WriteVariable(w: World, a: nat, name: string, v: Value, st: State): Outcome<Value> {
    match Binder(st.acts, a, name)
    case Some(b) => Ok(v, st.(acts := st.acts[b := Set(st.acts[b], name, v)]))
    case None =>
      match Self(st.acts, a)
      case None => Left(Fault, st)
      case Some(self) =>
        if w.hasField(self, name) then Ok(v, st.Record(FieldE(self, name, v))) else Left(Fault, st)
  }

  function AssignAll(w: World, a: nat, targets: seq<string>, v: Value, st: State): Outcome<Value>
    decreases |targets|
  {
    if targets == [] then Ok(v, st)
    else
      var (_, st1) :- WriteVariable(w, a, targets[0], v, st);
      AssignAll(w, a, targets[1..], v, st1)
  }

  function EvalPrimary(w: World, src: Sources, cx: Context, a: nat, p: Primary, st: State, fuel: nat): Outcome<Value>
    decreases fuel, 1, p, 0
  {
    match p
    case Variable(name) => ReadVariable(w, src, cx, a, if name == "super" then "self" else name, st, fuel)
    case Nested(term) => EvalExpr(w, src, cx, a, term, st, fuel)
    case Block(id, _, _, _) => Ok(Closure(id, a), st)
    case LiteralNode(lit, id) => Ok(LiteralObject(lit, id), st)
  }

  function EvalSend(w: World, src: Sources, a: nat, sel: string, toSuper: bool, args: seq<Value>, st: State,
                    fuel: nat): Outcome<Value>
    requires args != []
    decreases fuel, 0
  {
    if fuel == 0 then Left(OutOfFuel, st) else SendMessage(w, src, a, sel, toSuper, args, st, fuel - 1)
  }

  function EvalUnaries(w: World, src: Sources, a: nat, us: Unaries, toSuper: bool, recv: Value, st: State,
                       fuel: nat): Outcome<Value>
    decreases fuel, 1, us, 0
  {
    match us
    case NoUnary => Ok(recv, st)
    case Unary(sel, more) =>
      var (v, st1) :- EvalSend(w, src, a, sel, toSuper, [recv], st, fuel);
      EvalUnaries(w, src, a, more, false, v, st1, fuel)
  }

  function EvalOperand(w: World, src: Sources, cx: Context, a: nat, o: Operand, st: State, fuel: nat): Outcome<Value>
    decreases fuel, 1, o, 0
  {
    var (v, st1) :- EvalPrimary(w, src, cx, a, o.head, st, fuel);
    EvalUnaries(w, src, a, o.unaries, IsSuper(o.head), v, st1, fuel)
  }

  function EvalBinaries(w: World, src: Sources, cx: Context, a: nat, bs: Binaries, toSuper: bool, recv: Value,
                        st: State, fuel: nat): Outcome<Value>
    decreases fuel, 1, bs, 0
  {
    match bs
    case NoBinary => Ok(recv, st)
    case Binary(_, sel, arg, rest) =>
      var (v, st1) :- EvalOperand(w, src, cx, a, arg, st, fuel);
      var (r, st2) :- EvalSend(w, src, a, sel, toSuper, [recv, v], st1, fuel);
      EvalBinaries(w, src, cx, a, rest, false, r, st2, fuel)
  }

  function EvalFormula(w: World, src: Sources, cx: Context, a: nat, f: Formula, st: State, fuel: nat): Outcome<Value>
    decreases fuel, 1, f, 0
  {
    var (v, st1) :- EvalOperand(w, src, cx, a, f.operand, st, fuel);
    EvalBinaries(w, src, cx, a, f.binaries, PendingSuper(f.operand), v, st1, fuel)
  }

  /** The arguments of a keyword message, left to right. */
  function EvalArgs(w: World, src: Sources, cx: Context, a: nat, ks: Keywords, st: State,
                    fuel: nat): (r: Outcome<seq<Value>>)
    ensures r.Ok? ==> |r.value| == |KeywordList(ks)|
    decreases fuel, 1, ks, 0
  {
    match ks
    case NoKeyword => Ok([], st)
    case KeywordPart(_, arg, tail) =>
      var (v, st1) :- EvalFormula(w, src, cx, a, arg, st, fuel);
      var (vs, st2) :- EvalArgs(w, src, cx, a, tail, st1, fuel);
      Ok([v] + vs, st2)
  }

  function EvalKeywords(w: World, src: Sources, cx: Context, a: nat, ks: Keywords, toSuper: bool, recv: Value,
                        st: State, fuel: nat): Outcome<Value>
    decreases fuel, 1, ks, 1
  {
    if ks.NoKeyword? then Ok(recv, st)
    else
      var (vs, st1) :- EvalArgs(w, src, cx, a, ks, st, fuel);
      EvalSend(w, src, a, Concat(KeywordList(ks)), toSuper, [recv] + vs, st1, fuel)
  }

  function Evaluate(w: World, src: Sources, cx: Context, a: nat, e: Expr, st: State, fuel: nat): Outcome<Value>
    decreases fuel, 1, e, 0
  {
    var (v, st1) :- EvalFormula(w, src, cx, a, e.formula, st, fuel);
    EvalKeywords(w, src, cx, a, e.keywords, KeywordToSuper(e), v, st1, fuel)
  }

  function EvalExpr(w: World, src: Sources, cx: Context, a: nat, e: Expr, st: State, fuel: nat): Outcome<Value>
    decreases fuel, 1, e, 1
  {
    var (v, st1) :- Evaluate(w, src, cx, a, e, st, fuel);
    AssignAll(w, a, e.targets, v, st1)
  }

  // ----- bodies -----

  /** A method without a return answers its receiver. */
  function ImplicitSelf(a: nat, st: State): Outcome<Value> {
    if a < |st.acts| && "self" in st.acts[a].params then Ok(st.acts[a].params["self"], st) else Left(Fault, st)
  }

  /** A return inside a block returns from the method the block stands in. */
  function ReturnHome(a: nat, v: Value, st: State): Outcome<Value> {
    match Outermost(st.acts, a)
    case None => Left(Fault, st)
    case Some(home) =>
      if st.acts[home].live then Left(ReturnFrom(home, v), KillFrom(st, home)) else Left(Escaped, st)
  }

  function EvalBody(w: World, src: Sources, cx: Context, a: nat, b: Body, isBlock: bool, st: State,
                    fuel: nat): Outcome<Value>
    decreases fuel, 1, b, 0
  {
    match b
    case Answer(e, _) =>
      var (v, st1) :- EvalExpr(w, src, cx, a, e, st, fuel);
      if isBlock then ReturnHome(a, v, st1) else Ok(v, st1)
    case Finished =>
      if isBlock then
        // an empty block answers nil
        match w.global("nil", st.history)
        case Some(v) => Ok(v, st)
        case None =>
          if fuel == 0 then Left(OutOfFuel, st)
          else
            match Self(st.acts, a)
            case None => Left(Fault, st)
            case Some(self) => SendDirect(w, src, UNKNOWN_GLOBAL, [self, SymV("nil")], st, fuel - 1)
      else ImplicitSelf(a, st)
    case Last(e) =>
      var (v, st1) :- EvalExpr(w, src, cx, a, e, st, fuel);
      if isBlock then Ok(v, st1) else ImplicitSelf(a, st1)
    case Then(e, rest) =>
      var (v, st1) :- EvalExpr(w, src, cx, a, e, st, fuel);
      // a block answers its last expression, whether or not a period follows it
      if isBlock && rest.Finished? then Ok(v, st1)
      else EvalBody(w, src, cx, a, rest, isBlock, st1, fuel)
  }

  /** Run activation `a` of method or block `code` to its end. */
  function RunBody(w: World, src: Sources, code: nat, a: nat, st: State, fuel: nat): Outcome<Value>
    requires code in src
    decreases fuel, 2, 0
  {
    match EvalBody(w, src, src[code].Cx(), a, src[code].body, src[code].isBlock, st, fuel)
    case Ok(v, st1) => Ok(v, Kill(st1, a))
    case Left(ReturnFrom(home, v), st1) =>
      if home == a then Ok(v, st1) else Left(ReturnFrom(home, v), st1)
    case Left(Restarted, st1) =>
      if fuel == 0 then Left(OutOfFuel, st1) else RunBody(w, src, code, a, st1, fuel - 1)
    case Left(why, st1) => Left(why, st1)
  }
}

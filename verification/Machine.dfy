/** The bytecode machine: frames, and one step of the interpreter loop, as functions on values.
    The classes of module Interpreter are proved to take these steps. */
module Machine {
  import opened Common
  import opened Bytecodes
  import opened Signature
  import opened StackDepth
  import opened CodeGen

  /** What happens outside the frames, in order.  Everything that can influence the answers of
      the `World` is recorded here. */
  datatype Event =
    | SendE(selector: string, toSuper: bool, args: seq<Value>)
    | PrimitiveE(primitive: nat, args: seq<Value>)
    | FieldE(self: Value, name: string, value: Value)
    | ArrayE(elements: seq<Value>)

  type History = seq<Event>

  /** What a lookup finds: a method, an ordinary primitive, the primitive that evaluates a block,
      or the primitive `restart`. */
  datatype Invokable =
    | MethodI(code: nat)
    | PrimitiveI(primitive: nat)
    | EvaluateI(argc: nat)
    | RestartI

  /** The rest of the virtual machine: classes, primitives, object fields and globals.  Each answer
      may depend on the whole history. */
  datatype World = World(
    lookup: (Value, string, History) -> Option<Invokable>,
    superLookup: (nat, string, History) -> Option<Invokable>,
    primitive: (nat, seq<Value>, History) -> Value,
    hasField: (Value, string) -> bool,
    field: (Value, string, History) -> Value,
    global: (string, History) -> Option<Value>)

  const Nil: Value := Oop(0)
  const DNU: string := "doesNotUnderstand:" + "arguments:"
  const UNKNOWN_GLOBAL: string := "unknownGlobal:"

  /** A method object, and the method or block it stands in when it is a block's. */
  datatype Entry = Entry(meth: Method, parent: Option<nat>)

  type Table = map<nat, Entry>

  /** A frame.  `home` is its context: the frame a block was made in. */
  datatype Frame = Frame(code: nat, home: Option<nat>, previous: Option<nat>, args: seq<Value>,
                         locals: seq<Value>, stack: seq<Value>, pc: nat)

  datatype Status = Running | Halted | EscapedBlock | Stuck

  /** `Stuck` stands for what C leaves undefined: null dereferences and accesses out of bounds. */
  datatype Config = Config(frames: seq<Frame>, current: nat, history: History, status: Status)
  {
    predicate Up() {
      status == Running && current < |frames|
    }

    function Top(): Frame
      requires current < |frames|
    {
      frames[current]
    }

    function Stack(): seq<Value>
      requires current < |frames|
    {
      frames[current].stack
    }

    function WithTop(f: Frame): Config
      requires current < |frames|
    {
      this.(frames := frames[current := f])
    }

    function WithStack(s: seq<Value>): Config
      requires current < |frames|
    {
      WithTop(frames[current].(stack := s))
    }

    function Fail(): Config {
      this.(status := Stuck)
    }

    function Record(e: Event): Config {
      this.(history := history + [e])
    }
  }

  // ----- contexts -----

  /** `get_context_level`. */
  function ContextAt(frames: seq<Frame>, a: nat, level: nat): (r: Option<nat>)
    ensures r.Some? ==> r.value < |frames|
    decreases level
  {
    if a >= |frames| then None
    else if level == 0 then Some(a)
    else if frames[a].home.None? then None
    else ContextAt(frames, frames[a].home.value, level - 1)
  }

  /** `get_outer_context`: contexts are older than the frames that refer to them. */
  function OuterContext(frames: seq<Frame>, a: nat): (r: Option<nat>)
    ensures r.Some? ==> r.value < |frames| && r.value <= a
    decreases a
  {
    if a >= |frames| then None
    else if frames[a].home.None? then Some(a)
    else if frames[a].home.value >= a then None
    else OuterContext(frames, frames[a].home.value)
  }

  /** `Interpreter_get_self`: argument 0 of the outermost context. */
  function SelfOf(frames: seq<Frame>, a: nat): Option<Value> {
    match OuterContext(frames, a)
    case None => None
    case Some(o) => if frames[o].args == [] then None else Some(frames[o].args[0])
  }

  // ----- invocation -----

  function Nils(n: nat): (s: seq<Value>)
    ensures |s| == n
  {
    seq(n, i => Nil)
  }

  function NewFrame(t: Table, code: nat, home: Option<nat>, previous: nat, args: seq<Value>): Frame
    requires code in t
  {
    Frame(code, home, Some(previous), args, Nils(t[code].meth.locals), [], 0)
  }

  function PushFrame(c: Config, f: Frame): Config {
    c.(frames := c.frames + [f], current := |c.frames|)
  }

  /** A block object that the instruction PUSH_BLOCK could have made. */
  predicate WellMade(t: Table, frames: seq<Frame>, v: Value) {
    v.Closure? && v.code in t && v.home < |frames| && t[v.code].parent == Some(frames[v.home].code)
  }

  /** `invoke` with the arguments on top of the current frame's stack. */
  function Invoke(w: World, t: Table, c: Config, inv: Invokable, args: seq<Value>): Config
    requires c.current < |c.frames|
  {
    var rest := |c.Stack()| - |args|;
    if rest < 0 || args == [] then c.Fail()
    else
      match inv
      case MethodI(code) =>
        if code in t && t[code].parent.None? && t[code].meth.Args() == |args|
        then PushFrame(c, NewFrame(t, code, None, c.current, args))
        else c.Fail()
      case PrimitiveI(p) =>
        c.WithStack(c.Stack()[..rest] + [w.primitive(p, args, c.history)]).Record(PrimitiveE(p, args))
      case EvaluateI(argc) =>
        var b := args[0];
        if argc == |args| && WellMade(t, c.frames, b) && t[b.code].meth.Args() == argc
        then PushFrame(c, NewFrame(t, b.code, Some(b.home), c.current, args))
        else c.Fail()
      case RestartI =>
        c.WithTop(c.Top().(pc := 0, stack := []))
  }

  /** `VMObject.send`: push receiver and arguments, look up, invoke. */
  function SendTo(w: World, t: Table, c: Config, sel: string, args: seq<Value>): Config
    requires c.current < |c.frames| && args != []
  {
    var d := c.WithStack(c.Stack() + args).Record(SendE(sel, false, args));
    match w.lookup(args[0], sel, c.history)
    case None => d.Fail()
    case Some(inv) => Invoke(w, t, d, inv, args)
  }

  /** The end of a send: invoke what was found, or send doesNotUnderstand:arguments: with the
      arguments in an array.  A failing super send puts the receiver into that array as well. */
  function Dispatch(w: World, t: Table, c: Config, sel: string, toSuper: bool, found: Option<Invokable>,
                    args: seq<Value>): Config
    requires c.current < |c.frames| && 0 < |args| <= |c.Stack()|
  {
    var d := c.Record(SendE(sel, toSuper, args));
    match found
    case Some(inv) => Invoke(w, t, d, inv, args)
    case None =>
      var e := d.WithStack(d.Stack()[..|d.Stack()| - |args|]).Record(ArrayE(if toSuper then args else args[1..]));
      SendTo(w, t, e, DNU, [args[0], SymV(sel), ArrayV(|d.history|)])
  }

  function DoSend(w: World, t: Table, c: Config, sel: string): Config
    requires c.current < |c.frames|
  {
    var n := Arity(sel);
    if |c.Stack()| < n then c.Fail()
    else
      var args := c.Stack()[|c.Stack()| - n..];
      Dispatch(w, t, c, sel, false, w.lookup(args[0], sel, c.history), args)
  }

  /** A super send starts at the superclass of the class that holds the outermost method. */
  function DoSuperSend(w: World, t: Table, c: Config, sel: string): Config
    requires c.current < |c.frames|
  {
    var n := Arity(sel);
    match OuterContext(c.frames, c.current)
    case None => c.Fail()
    case Some(o) =>
      if |c.Stack()| < n then c.Fail()
      else
        var args := c.Stack()[|c.Stack()| - n..];
        Dispatch(w, t, c, sel, true, w.superLookup(c.frames[o].code, sel, c.history), args)
  }

  // ----- returns -----

  /** `pop_frame`. */
  function PopFrame(c: Config): Config
    requires c.current < |c.frames|
  {
    match c.Top().previous
    case None => c.Fail()
    case Some(p) =>
      if p < c.current then c.WithTop(c.Top().(previous := None)).(current := p) else c.Fail()
  }

  /** `pop_frame_and_push_result`. */
  function PopFrameAndPush(t: Table, c: Config, result: Value): Config
    requires c.current < |c.frames|
  {
    var d := PopFrame(c);
    if d.status != Running || c.Top().code !in t then d.Fail()
    else
      var n := t[c.Top().code].meth.Args();
      if |d.Stack()| < n then d.Fail() else d.WithStack(d.Stack()[..|d.Stack()| - n] + [result])
  }

  /** The unwinding loop of a non-local return. */
  function Unwind(c: Config, home: nat): Config
    requires c.current < |c.frames|
    decreases c.current
  {
    if c.current == home then c
    else
      var d := PopFrame(c);
      if d.status != Running || d.current >= c.current then d.Fail() else Unwind(d, home)
  }

  function DoReturnLocal(t: Table, c: Config): Config
    requires c.current < |c.frames|
  {
    var n := |c.Stack()|;
    if n == 0 then c.Fail()
    else PopFrameAndPush(t, c.WithStack(c.Stack()[..n - 1]), c.Stack()[n - 1])
  }

  /** A block that outlived its method cannot return from it: the escapedBlock: recovery is
      modelled as a final outcome. */
  function DoReturnNonLocal(t: Table, c: Config): Config
    requires c.current < |c.frames|
  {
    var n := |c.Stack()|;
    if n == 0 then c.Fail()
    else
      var result := c.Stack()[n - 1];
      var d := c.WithStack(c.Stack()[..n - 1]);
      match OuterContext(d.frames, d.current)
      case None => d.Fail()
      case Some(home) =>
        if d.frames[home].previous.None? then d.(status := EscapedBlock)
        else
          var e := Unwind(d, home);
          if e.status != Running || e.current >= |e.frames| then e.Fail() else PopFrameAndPush(t, e, result)
  }

  // ----- variables, fields, globals -----

  function Push(c: Config, v: Value): Config
    requires c.current < |c.frames|
  {
    c.WithStack(c.Stack() + [v])
  }

  function DoPushLocal(c: Config, index: nat, level: nat): Config
    requires c.current < |c.frames|
  {
    match ContextAt(c.frames, c.current, level)
    case None => c.Fail()
    case Some(h) => if index < |c.frames[h].locals| then Push(c, c.frames[h].locals[index]) else c.Fail()
  }

  function DoPushArgument(c: Config, index: nat, level: nat): Config
    requires c.current < |c.frames|
  {
    match ContextAt(c.frames, c.current, level)
    case None => c.Fail()
    case Some(h) => if index < |c.frames[h].args| then Push(c, c.frames[h].args[index]) else c.Fail()
  }

  function DoPopLocal(c: Config, index: nat, level: nat): Config
    requires c.current < |c.frames|
  {
    var n := |c.Stack()|;
    if n == 0 then c.Fail()
    else
      var d := c.WithStack(c.Stack()[..n - 1]);
      match ContextAt(d.frames, d.current, level)
      case None => d.Fail()
      case Some(h) =>
        var f := d.frames[h];
        if index < |f.locals|
        then d.(frames := d.frames[h := f.(locals := f.locals[index := c.Stack()[n - 1]])])
        else d.Fail()
  }

  function DoPopArgument(c: Config, index: nat, level: nat): Config
    requires c.current < |c.frames|
  {
    var n := |c.Stack()|;
    if n == 0 then c.Fail()
    else
      var d := c.WithStack(c.Stack()[..n - 1]);
      match ContextAt(d.frames, d.current, level)
      case None => d.Fail()
      case Some(h) =>
        var f := d.frames[h];
        if index < |f.args|
        then d.(frames := d.frames[h := f.(args := f.args[index := c.Stack()[n - 1]])])
        else d.Fail()
  }

  function DoPushField(w: World, c: Config, name: string): Config
    requires c.current < |c.frames|
  {
    match SelfOf(c.frames, c.current)
    case None => c.Fail()
    case Some(self) =>
      if w.hasField(self, name) then Push(c, w.field(self, name, c.history)) else c.Fail()
  }

  function DoPopField(w: World, c: Config, name: string): Config
    requires c.current < |c.frames|
  {
    var n := |c.Stack()|;
    match SelfOf(c.frames, c.current)
    case None => c.Fail()
    case Some(self) =>
      if n == 0 || !w.hasField(self, name) then c.Fail()
      else c.WithStack(c.Stack()[..n - 1]).Record(FieldE(self, name, c.Stack()[n - 1]))
  }

  function DoPushGlobal(w: World, t: Table, c: Config, name: string): Config
    requires c.current < |c.frames|
  {
    match w.global(name, c.history)
    case Some(v) => Push(c, v)
    case None =>
      match SelfOf(c.frames, c.current)
      case None => c.Fail()
      case Some(self) => SendTo(w, t, c, UNKNOWN_GLOBAL, [self, SymV(name)])
  }

  function DoPushBlock(c: Config, lit: Value): Config
    requires c.current < |c.frames|
  {
    if lit.CodeV? then Push(c, Closure(lit.code, c.current)) else c.Fail()
  }

  // ----- the interpreter loop -----

  function Execute(w: World, t: Table, c: Config, i: Instr, lits: seq<Value>): Config
    requires c.current < |c.frames|
  {
    var n := |c.Stack()|;
    match i
    case Halt => c.(status := Halted)
    case Dup => if n == 0 then c.Fail() else Push(c, c.Stack()[n - 1])
    case PushLocal(x, l) => DoPushLocal(c, x, l)
    case PushArgument(x, l) => DoPushArgument(c, x, l)
    case PushField(k) => DoPushField(w, c, Selector(lits, k))
    case PushBlock(k) => if k < |lits| then DoPushBlock(c, lits[k]) else c.Fail()
    case PushConstant(k) => if k < |lits| then Push(c, lits[k]) else c.Fail()
    case PushGlobal(k) => DoPushGlobal(w, t, c, Selector(lits, k))
    case Pop => if n == 0 then c.Fail() else c.WithStack(c.Stack()[..n - 1])
    case PopLocal(x, l) => DoPopLocal(c, x, l)
    case PopArgument(x, l) => DoPopArgument(c, x, l)
    case PopField(k) => DoPopField(w, c, Selector(lits, k))
    case Send(k) => DoSend(w, t, c, Selector(lits, k))
    case SuperSend(k) => DoSuperSend(w, t, c, Selector(lits, k))
    case ReturnLocal => DoReturnLocal(t, c)
    case ReturnNonLocal => DoReturnNonLocal(t, c)
  }

  /** The instruction about to be executed.  Frame 0 is the bootstrap frame, whose method is the
      single instruction HALT. */
  function Fetch(t: Table, c: Config): Option<Instr> {
    if c.Up() && c.current == 0 then Some(Halt)
    else if c.Up() && c.Top().code in t && c.Top().pc < |t[c.Top().code].meth.code|
    then Some(t[c.Top().code].meth.code[c.Top().pc]) else None
  }

  function LiteralsOf(t: Table, code: nat): seq<Value> {
    if code in t then t[code].meth.literals else []
  }

  function Advance(c: Config): Config
    requires c.current < |c.frames|
  {
    c.WithTop(c.Top().(pc := c.Top().pc + 1))
  }

  /** One iteration of `Interpreter_start`: fetch, advance the index, execute. */
  function Step(w: World, t: Table, c: Config): Config {
    if c.status != Running then c
    else
      match Fetch(t, c)
      case None => c.Fail()
      case Some(i) => Execute(w, t, Advance(c), i, LiteralsOf(t, c.Top().code))
  }

  function Run(w: World, t: Table, c: Config, n: nat): Config
    decreases n
  {
    if n == 0 then c else Run(w, t, Step(w, t, c), n - 1)
  }

  lemma {:induction false} RunAdd(w: World, t: Table, c: Config, m: nat, n: nat)
    ensures Run(w, t, c, m + n) == Run(w, t, Run(w, t, c, m), n)
    decreases m
  {
    if m > 0 {
      RunAdd(w, t, Step(w, t, c), m - 1, n);
    }
  }

  lemma RunZero(w: World, t: Table, c: Config)
    ensures Run(w, t, c, 0) == c
  {
  }

  lemma RunStep(w: World, t: Table, c: Config, n: nat)
    ensures Run(w, t, c, n + 1) == Run(w, t, Step(w, t, c), n)
  {
  }

  // ----- the messages the machine sends on its own -----

  /** The selectors, written out. */
  lemma OwnSelectors()
    ensures DNU == "doesNotUnderstand:arguments:" && UNKNOWN_GLOBAL == "unknownGlobal:"
  {
  }

  lemma InvokeGrows(w: World, t: Table, c: Config, inv: Invokable, args: seq<Value>)
    requires c.current < |c.frames|
    ensures c.history <= Invoke(w, t, c, inv, args).history
  {
  }

  /** What is recorded when a message is sent to a receiver that does not understand it: the message, the
      array of its arguments, and then doesNotUnderstand:arguments: with the selector and that array. */
  lemma UnknownMessage(w: World, t: Table, c: Config, sel: string, toSuper: bool, args: seq<Value>)
    requires c.current < |c.frames| && 0 < |args| <= |c.Stack()|
    ensures c.history + [SendE(sel, toSuper, args), ArrayE(if toSuper then args else args[1..]),
                         SendE("doesNotUnderstand:arguments:", false, [args[0], SymV(sel), ArrayV(|c.history| + 1)])] <=
            Dispatch(w, t, c, sel, toSuper, None, args).history
  {
    OwnSelectors();
    hide DNU, Invoke;
    var e1, e2 := SendE(sel, toSuper, args), ArrayE(if toSuper then args else args[1..]);
    var d := c.Record(e1);
    var e := d.WithStack(d.Stack()[..|d.Stack()| - |args|]).Record(e2);
    var dnu := [args[0], SymV(sel), ArrayV(|d.history|)];
    var f := e.WithStack(e.Stack() + dnu).Record(SendE(DNU, false, dnu));
    assert f.history == c.history + [e1, e2, SendE(DNU, false, dnu)];
    var found := w.lookup(args[0], DNU, e.history);
    if found.Some? {
      InvokeGrows(w, t, f, found.value, dnu);
    }
  }

  /** A global that is not there: unknownGlobal: with its name is sent to self. */
  lemma UnknownGlobal(w: World, t: Table, c: Config, name: string)
    requires c.current < |c.frames| && w.global(name, c.history).None? && SelfOf(c.frames, c.current).Some?
    ensures c.history + [SendE("unknownGlobal:", false, [SelfOf(c.frames, c.current).value, SymV(name)])] <=
            DoPushGlobal(w, t, c, name).history
  {
    OwnSelectors();
    hide UNKNOWN_GLOBAL, Invoke, SelfOf;
    var args := [SelfOf(c.frames, c.current).value, SymV(name)];
    var d := c.WithStack(c.Stack() + args).Record(SendE(UNKNOWN_GLOBAL, false, args));
    var found := w.lookup(args[0], UNKNOWN_GLOBAL, c.history);
    if found.Some? {
      InvokeGrows(w, t, d, found.value, args);
    }
  }

  /** A machine that has stopped stays as it is. */
  lemma {:induction false} StaysStopped(w: World, t: Table, c: Config, n: nat)
    requires c.status != Running
    ensures Run(w, t, c, n) == c
    decreases n
  {
    if n > 0 {
      StaysStopped(w, t, c, n - 1);
    }
  }
}

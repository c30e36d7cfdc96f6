/** The parts together: a compiled program, run by the interpreter as `Universe_interpret` runs it,
    answers what its source says. */
module VirtualMachine {
  import opened Common
  import opened Bytecodes
  import opened Signature
  import StackDepth
  import opened CodeGen
  import GenerationContext
  import Grammar
  import Emission
  import opened Machine
  import opened FrameInvariant
  import opened Frames
  import I = Interpreter
  import opened Simulation
  import opened WholeProgram
  import opened CompiledRuns
  import opened Listing
  import opened Classdefs
  import opened Linking
  import opened CompiledFields

  lemma BootstrapArity()
    ensures Arity("bootstrap") == 1
  {
    NoColons("bootstrap");
    UnaryArity("bootstrap");
  }

  /** What the started machine is, seen from the bootstrap frame. */
  lemma StartIs(P: Program, boot: nat, main: nat, args: seq<Value>)
    requires Startable(P, boot, main, args)
    ensures var c0 := Config([BootFrame(boot, args)], 0, [], Running);
            main in P.t && args != [] && P.t[main].meth.Args() == |args| &&
            Start(P, boot, main, args) == PushFrame(c0, NewFrame(P.t, main, None, 0, args))
  {
    EntryFacts(P, main);
    ArityPositive(P.src[main].signature);
  }

  /** `Universe_interpret`: pushes receiver and arguments on a bootstrap frame, invokes the method, and
      runs the interpreter, here for at most the given number of bytecodes. */
  method Interpret(ghost P: Program, w: World, methods: map<nat, GenerationContext.VMMethod>, boot: nat, main: nat,
                   args: seq<Value>, iterations: nat) returns (vm: I.Interpreter, result: Option<Value>)
    requires Startable(P, boot, main, args) && DepthsFit(P) && w == P.w && WorldOk(P.w, P.t)
    requires I.ImagesOk(methods, P.t) && |args| <= 2 && forall v | v in args :: !v.Closure?
    ensures vm.status == Run(P.w, P.t, Start(P, boot, main, args), iterations).status
    ensures vm.history == Run(P.w, P.t, Start(P, boot, main, args), iterations).history
    ensures result.Some? <==> vm.status == Halted
    ensures result.Some? ==> HaltsWith(Run(P.w, P.t, Start(P, boot, main, args), iterations), result.value, vm.history)
    ensures result.Some? ==> exists fuel: nat :: Answers(P, boot, main, args, result.value, vm.history, fuel)
    ensures vm.status == Stuck <==> exists k: nat | k < iterations :: FieldFaultAt(P, boot, main, args, k)
    ensures FieldsFit(P, main, args) ==> vm.status != Stuck
  {
    hide Good, DepthsFit, Start, Inv, WorldOk, TableOk, Run, I.ImagesOk, Answers, Arity, Nils, HaltsWith,
      FieldFaultAt, BootFrame, VMFrame.Ok, I.Interpreter.Others, FieldsFit;
    vm := Boot(P, w, methods, boot, main, args);
    StartInv(P, boot, main, args);
    CompiledTableOk(P);
    StartWaits(P, boot, main, args);
    StuckAtFields(P, boot, main, args, iterations);
    if FieldsFit(P, main, args) {
      DeclaredFieldsAreFound(P, boot, main, args, iterations);
    }
    vm.Start(iterations, Start(P, boot, main, args));
    result := None;
    if vm.status == Halted {
      ghost var v, h := HaltedAnswers(P, boot, main, args, iterations);
      HaltedStack(Run(P.w, P.t, Start(P, boot, main, args), iterations), v, h);
      var top := vm.PopOperand(Run(P.w, P.t, Start(P, boot, main, args), iterations));
      result := Some(top);
    }
  }

  /** No method or block needs more operands than a byte can say. */
  predicate AllDepthsFit(l: Listed) {
    forall e | e in l :: StackDepth.Peak(Compile(e.1).code, Compile(e.1).literals, 0) <= 255
  }

  /** A method of a class, with as many arguments as are given, is to be started. */
  ghost predicate MainListed(l: Listed, boot: nat, main: nat, args: seq<Value>) {
    && (forall e | e in l :: e.0 != boot)
    && exists e | e in l :: e.0 == main && e.1.parent.None? && |args| == Arity(e.1.signature)
  }

  /** Texts of class definitions, as the lexer delivers them, within the limits of the bytecode. */
  ghost predicate TextsOk(texts: seq<Grammar.Tokens>, cs: seq<ClassDef>, inherited: Inherited) {
    && Define(texts, cs) && TokensOk(AllTokens(texts)) && DistinctIds(AllTokens(texts))
    && AllWithinLimits(ClassesListed(cs, inherited)) && AllDepthsFit(ClassesListed(cs, inherited))
  }

  lemma LinkedStartable(texts: seq<Grammar.Tokens>, cs: seq<ClassDef>, inherited: Inherited, w: World, boot: nat,
                        main: nat, args: seq<Value>)
    requires TextsOk(texts, cs, inherited) && MainListed(ClassesListed(cs, inherited), boot, main, args)
    ensures var l := ClassesListed(cs, inherited);
            Startable(Linked(w, l), boot, main, args) && DepthsFit(Linked(w, l)) &&
            I.ImagesOk(MapOf(Images(l)), Linked(w, l).t)
  {
    hide Define, TokensOk, DistinctIds, Good, Compile, MapOf, Unique, Whole, BodiesOk, AllWithinLimits, StackDepth.Peak,
      ClassesListed, Images, GenerationContext.Image;
    var l := ClassesListed(cs, inherited);
    ClassesRead(texts, cs, inherited);
    TextsUnique(texts, cs, inherited);
    LinkedGood(w, l);
    LinkedImages(w, l);
    forall code | code in MapOf(l)
      ensures (code, MapOf(l)[code]) in l
    {
      MapOfIs(l, code, MapOf(l)[code]);
    }
    var e :| e in l && e.0 == main && e.1.parent.None? && |args| == Arity(e.1.signature);
    MapOfIs(l, main, e.1);
  }

  /** From tokens to an answer: class definitions are parsed and compiled, and the main method is run;
      the answer is that of the sources the tokens spell. */
  method InterpretTexts(texts: seq<Grammar.Tokens>, inherited: Inherited, ghost cs: seq<ClassDef>, w: World, boot: nat,
                        main: nat, args: seq<Value>, iterations: nat)
      returns (o: GenerationContext.Status, result: Option<Value>, history: History)
    requires TextsOk(texts, cs, inherited) && MainListed(ClassesListed(cs, inherited), boot, main, args)
    requires WorldOk(w, Linked(w, ClassesListed(cs, inherited)).t) && |args| <= 2 && forall v | v in args :: !v.Closure?
    ensures o.Done? <==> Emission.AllFit(Images(ClassesListed(cs, inherited)))
    ensures var P := Linked(w, ClassesListed(cs, inherited));
            o.Done? ==>
              var c := Run(P.w, P.t, Start(P, boot, main, args), iterations);
              history == c.history && (result.Some? <==> c.status == Halted) &&
              (result.Some? ==> exists fuel: nat :: Answers(P, boot, main, args, result.value, history, fuel)) &&
              (FieldsFit(P, main, args) ==> c.status != Stuck)
  {
    hide TextsOk, MainListed, Startable, DepthsFit, WorldOk, ClassesListed, Images, MapOf, Linked, Run, Start,
      Emission.AllFit, I.ImagesOk, Answers, HaltsWith, FieldsFit;
    ghost var P := Linked(w, ClassesListed(cs, inherited));
    LinkedStartable(texts, cs, inherited, w, boot, main, args);
    TextsDefine(texts, cs, inherited);
    result, history := None, [];
    var methods;
    o, methods := CompileAll(texts, inherited, cs);
    if o.Done? {
      LinkedWorld(w, ClassesListed(cs, inherited));
      var vm;
      vm, result := Interpret(P, w, methods, boot, main, args, iterations);
      history := vm.history;
    }
  }

  lemma TextsDefine(texts: seq<Grammar.Tokens>, cs: seq<ClassDef>, inherited: Inherited)
    requires TextsOk(texts, cs, inherited)
    ensures Define(texts, cs)
  {
  }

  lemma LinkedWorld(w: World, l: Listed)
    ensures Linked(w, l).w == w
  {
  }

  /** A new interpreter, about to run the main method. */
  method Boot(ghost P: Program, w: World, methods: map<nat, GenerationContext.VMMethod>, boot: nat, main: nat,
              args: seq<Value>)
      returns (vm: I.Interpreter)
    requires Startable(P, boot, main, args) && w == P.w && I.ImagesOk(methods, P.t) && |args| <= 2
    ensures fresh(vm) && vm.w == P.w && vm.t == P.t && vm.Holds(Start(P, boot, main, args))
    ensures forall f | f in vm.frames :: fresh(f) && fresh(f.slots)
  {
    hide Good, Start, Arity, Nils, I.ImagesOk, I.Interpreter.Holds, NewFrame;
    KeysAgree(P);
    vm := Bootstrapped(w, methods, boot, P.t, args);
    StartIs(P, boot, main, args);
    BootReady(boot, args);
    ghost var c := BootConfig(boot, Nils(Arity("bootstrap")), args);
    assert vm.Holds(c);
    vm.InvokeMethod(main, null, None, args, c);
    assert vm.Holds(PushFrame(c, NewFrame(P.t, main, None, c.current, args)));
    assert Start(P, boot, main, args) == PushFrame(c, NewFrame(P.t, main, None, c.current, args));
  }

  /** A new interpreter, with receiver and arguments on the bootstrap frame. */
  method Bootstrapped(w: World, methods: map<nat, GenerationContext.VMMethod>, boot: nat, ghost t: Table,
                      args: seq<Value>)
      returns (vm: I.Interpreter)
    requires I.ImagesOk(methods, t) && boot !in t && |args| <= 2
    ensures fresh(vm) && vm.w == w && vm.t == t && vm.Holds(BootConfig(boot, Nils(Arity("bootstrap")), args))
    ensures forall f | f in vm.frames :: fresh(f) && fresh(f.slots)
  {
    hide Arity, Nils, I.ImagesOk, I.Interpreter.Holds, VMFrame.Ok;
    vm := new I.Interpreter(w, methods, boot, t);
    for k := 0 to |args|
      invariant vm.w == w && vm.t == t && fresh(vm) && fresh(vm.frame) && fresh(vm.frame.slots)
      invariant vm.Holds(BootConfig(boot, Nils(Arity("bootstrap")), args[..k])) && vm.frames == [vm.frame]
      invariant vm.frame.methodObject.maximumStack == 2
    {
      vm.PushOperand(args[k], BootConfig(boot, Nils(Arity("bootstrap")), args[..k]));
      PushedOne(boot, Nils(Arity("bootstrap")), args, k);
    }
    assert args[..|args|] == args;
  }

  function BootConfig(boot: nat, bootArgs: seq<Value>, pushed: seq<Value>): Config {
    Config([Frame(boot, None, None, bootArgs, [], pushed, 0)], 0, [], Running)
  }

  lemma PushedOne(boot: nat, bootArgs: seq<Value>, args: seq<Value>, k: nat)
    requires k < |args|
    ensures var c := BootConfig(boot, bootArgs, args[..k]);
            c.WithStack(c.Stack() + [args[k]]) == BootConfig(boot, bootArgs, args[..k + 1])
  {
    assert args[..k] + [args[k]] == args[..k + 1];
  }

  lemma BootReady(boot: nat, args: seq<Value>)
    ensures BootConfig(boot, Nils(Arity("bootstrap")), args) == Config([BootFrame(boot, args)], 0, [], Running)
  {
    BootstrapArity();
    assert Nils(1) == [Nil];
  }

  lemma StartWaits(P: Program, boot: nat, main: nat, args: seq<Value>)
    requires Startable(P, boot, main, args)
    ensures I.BootWaits(Start(P, boot, main, args))
  {
    StartIs(P, boot, main, args);
  }

  lemma HaltedStack(c: Config, v: Value, h: History)
    requires HaltsWith(c, v, h)
    ensures c.current < |c.frames| && c.Stack() == [v] && c.history == h
  {
  }

  /** A machine that has halted shows the value of the source. */
  lemma HaltedAnswers(P: Program, boot: nat, main: nat, args: seq<Value>, n: nat) returns (v: Value, h: History)
    requires Startable(P, boot, main, args) && Run(P.w, P.t, Start(P, boot, main, args), n).status == Halted
    ensures HaltsWith(Run(P.w, P.t, Start(P, boot, main, args), n), v, h)
    ensures exists fuel: nat :: Answers(P, boot, main, args, v, h, fuel)
  {
    hide Start, Run, Good;
    StopsAsSource(P, boot, main, args, n);
    var o := WholeProgram.Source(P, boot, main, args, n + 1);
    v, h := o.value, o.state.history;
    assert Answers(P, boot, main, args, v, h, n + 1);
  }
}

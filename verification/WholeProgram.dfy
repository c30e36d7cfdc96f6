/** The main theorem: a program started as `Universe_interpret` starts it answers a value, after a
    given sequence of sends, primitive calls and field writes, exactly when its source does. */
module WholeProgram {
  import opened Common
  import opened Bytecodes
  import opened Signature
  import opened Machine
  import opened Semantics
  import opened Simulation
  import opened Correctness

  /** The bootstrap frame, with the receiver and arguments of the first message pushed. */
  function BootFrame(boot: nat, args: seq<Value>): Frame {
    Frame(boot, None, None, [Nil], [], args, 0)
  }

  /** The machine after the first method has been invoked. */
  function Start(P: Program, boot: nat, main: nat, args: seq<Value>): Config {
    Invoke(P.w, P.t, Config([BootFrame(boot, args)], 0, [], Running), MethodI(main), args)
  }

  function Source(P: Program, boot: nat, main: nat, args: seq<Value>, fuel: nat): Outcome<Value> {
    Invoked(P.w, P.src, MethodI(main), args, State([Activation(boot, None, map[], map[], false)], []), fuel)
  }

  predicate Startable(P: Program, boot: nat, main: nat, args: seq<Value>) {
    && Good(P) && boot !in P.src && main in P.src
    && P.src[main].parent.None? && |args| == Arity(P.src[main].signature)
  }

  /** The evaluator, given enough fuel, answers v with history h. */
  predicate Answers(P: Program, boot: nat, main: nat, args: seq<Value>, v: Value, h: History, fuel: nat) {
    var o := Source(P, boot, main, args, fuel);
    o.Ok? && o.value == v && o.state.history == h
  }

  /** The machine has halted with v on the bootstrap frame, and history h. */
  predicate HaltsWith(c: Config, v: Value, h: History) {
    c.status == Halted && c.current == 0 && c.history == h && |c.frames| > 0 && c.frames[0].stack == [v]
  }

  /** Every outcome of the evaluator, as the machine shows it after n steps. */
  predicate Shows(d: Config, o: Outcome<Value>, n: nat, fuel: nat) {
    match o
    case Ok(v, st) => HaltsWith(d, v, st.history)
    case Left(Escaped, _) => d.status == EscapedBlock
    case Left(Fault, _) => d.status == Stuck
    case Left(OutOfFuel, _) => n >= fuel && d.status == Running
    case _ => false
  }

  lemma HaltStep(P: Program, c: Config, v: Value, h: History)
    requires c.Up() && c.current == 0 && c.frames[0].stack == [v] && c.history == h
    ensures HaltsWith(Step(P.w, P.t, c), v, h)
  {
  }

  function StartState(P: Program, boot: nat, main: nat, args: seq<Value>): State
    requires main in P.src
  {
    State([Activation(boot, None, map[], map[], false), NewActivation(P.src[main], main, None, args)], [])
  }

  lemma StartRel(P: Program, boot: nat, main: nat, args: seq<Value>)
    requires Startable(P, boot, main, args)
    ensures var c := Start(P, boot, main, args);
            && Rel(P, StartState(P, boot, main, args), c)
            && c.current == 1 && c.Top().code == main && c.Top().pc == 0 && c.Stack() == []
            && c.Top().previous == Some(0) && c.frames[0].stack == args
  {
    var c0 := Config([BootFrame(boot, args)], 0, [], Running);
    var st0 := State([Activation(boot, None, map[], map[], false)], []);
    assert RelEnd(P, st0, c0);
    EntryFacts(P, main);
    RelEnter(P, st0, c0, main, None, args);
    assert st0.acts + [NewActivation(P.src[main], main, None, args)] == StartState(P, boot, main, args).acts;
  }

  lemma SourceStarts(P: Program, boot: nat, main: nat, args: seq<Value>, fuel: nat)
    requires Startable(P, boot, main, args)
    ensures Source(P, boot, main, args, fuel) == RunBody(P.w, P.src, main, 1, StartState(P, boot, main, args), fuel)
  {
    var st0 := State([Activation(boot, None, map[], map[], false)], []);
    assert st0.acts + [NewActivation(P.src[main], main, None, args)] == StartState(P, boot, main, args).acts;
  }

  /** Whatever the source does, the compiled program does. */
  lemma Preservation(P: Program, boot: nat, main: nat, args: seq<Value>, fuel: nat) returns (n: nat)
    requires Startable(P, boot, main, args)
    ensures Shows(Run(P.w, P.t, Start(P, boot, main, args), n), Source(P, boot, main, args, fuel), n, fuel)
  {
    hide Start, StartState, Source, RunBody, Run, Step;
    var c := Start(P, boot, main, args);
    StartRel(P, boot, main, args);
    SourceStarts(P, boot, main, args, fuel);
    n := SimRunBody(P, main, StartState(P, boot, main, args), fuel, c);
    var o := Source(P, boot, main, args, fuel);
    var d := Run(P.w, P.t, c, n);
    if o.Ok? {
      assert args[..|args| - |args|] + [o.value] == [o.value];
      HaltStep(P, d, o.value, o.state.history);
      RunAdd(P.w, P.t, c, n, 1);
      RunOne(P, d);
      n := n + 1;
    }
  }

  /** Once stopped, the machine stays as it is. */
  lemma StoppedOnce(w: World, t: Table, c: Config, m: nat, n: nat)
    requires Run(w, t, c, m).status != Running && m <= n
    ensures Run(w, t, c, n) == Run(w, t, c, m)
  {
    RunAdd(w, t, c, m, n - m);
    StaysStopped(w, t, Run(w, t, c, m), n - m);
  }

  lemma StoppedAlike(w: World, t: Table, c: Config, m: nat, n: nat)
    requires Run(w, t, c, m).status != Running && Run(w, t, c, n).status != Running
    ensures Run(w, t, c, m) == Run(w, t, c, n)
  {
    if m <= n {
      StoppedOnce(w, t, c, m, n);
    } else {
      StoppedOnce(w, t, c, n, m);
    }
  }

  /** A machine that stops after m steps shows the outcome of an evaluation with more fuel than that. */
  lemma StopsAsSource(P: Program, boot: nat, main: nat, args: seq<Value>, m: nat)
    requires Startable(P, boot, main, args)
    requires Run(P.w, P.t, Start(P, boot, main, args), m).status != Running
    ensures Shows(Run(P.w, P.t, Start(P, boot, main, args), m), Source(P, boot, main, args, m + 1), 0, m + 1)
  {
    hide Good, Run, Start, Source;
    var c := Start(P, boot, main, args);
    var n := Preservation(P, boot, main, args, m + 1);
    if Run(P.w, P.t, c, n).status == Running {
      StoppedOnce(P.w, P.t, c, m, n);
    } else {
      StoppedAlike(P.w, P.t, c, m, n);
    }
  }

  /** Compilation preserves meaning, in both directions: the compiled program halts with v and
      history h if and only if the source evaluates to v with history h. */
  lemma MeaningPreserved(P: Program, boot: nat, main: nat, args: seq<Value>, v: Value, h: History)
    requires Startable(P, boot, main, args)
    ensures (exists fuel: nat :: Answers(P, boot, main, args, v, h, fuel))
            <==> (exists n: nat :: HaltsWith(Run(P.w, P.t, Start(P, boot, main, args), n), v, h))
  {
    if fuel: nat :| Answers(P, boot, main, args, v, h, fuel) {
      var n := Preservation(P, boot, main, args, fuel);
      assert HaltsWith(Run(P.w, P.t, Start(P, boot, main, args), n), v, h);
    }
    if n: nat :| HaltsWith(Run(P.w, P.t, Start(P, boot, main, args), n), v, h) {
      StopsAsSource(P, boot, main, args, n);
      assert Answers(P, boot, main, args, v, h, n + 1);
    }
  }

  predicate Fails(P: Program, boot: nat, main: nat, args: seq<Value>, why: Exit, fuel: nat) {
    var o := Source(P, boot, main, args, fuel);
    o.Left? && o.why == why
  }

  /** The same for the two ways of going wrong: a return from a method that has already returned,
      and behaviour that C leaves undefined. */
  lemma FailuresPreserved(P: Program, boot: nat, main: nat, args: seq<Value>, why: Exit)
    requires Startable(P, boot, main, args) && (why == Escaped || why == Fault)
    ensures (exists fuel: nat :: Fails(P, boot, main, args, why, fuel))
            <==> (exists n: nat :: Run(P.w, P.t, Start(P, boot, main, args), n).status ==
                                   if why == Escaped then EscapedBlock else Stuck)
  {
    var s := if why == Escaped then EscapedBlock else Stuck;
    if fuel: nat :| Fails(P, boot, main, args, why, fuel) {
      var n := Preservation(P, boot, main, args, fuel);
      assert Run(P.w, P.t, Start(P, boot, main, args), n).status == s;
    }
    if n: nat :| Run(P.w, P.t, Start(P, boot, main, args), n).status == s {
      StopsAsSource(P, boot, main, args, n);
      assert Fails(P, boot, main, args, why, n + 1);
    }
  }
}

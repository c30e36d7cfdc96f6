/** Compiled programs run safely: the output of the compiler has the properties the frame invariant
    needs, so the invariant holds throughout every run of every program. */
module CompiledRuns {
  import opened Common
  import opened Bytecodes
  import opened StackDepth
  import opened CodeGen
  import opened CodeOperands
  import opened CodeShape
  import opened Machine
  import opened Simulation
  import opened Lexical
  import opened Steps
  import opened WholeProgram
  import opened FrameInvariant
  import opened SafeRuns

  /** The operand depth of every method fits the byte it is computed in. */
  ghost predicate DepthsFit(P: Program) {
    forall code | code in P.src :: Peak(Compile(P.src[code]).code, Compile(P.src[code]).literals, 0) <= 255
  }

  /** The scope `level` levels out is that of the method or block `level` contexts out. */
  lemma {:induction false} AncestorScopes(P: Program, code: nat, level: nat)
    requires Good(P) && code in P.src && level < |P.src[code].Cx().scopes|
    ensures var a := Ancestor(P.t, code, level);
            a.Some? && a.value in P.src && P.src[a.value].Own() == P.src[code].Cx().scopes[level]
    decreases level
  {
    EntryFacts(P, code);
    if level > 0 {
      match P.src[code].parent
      case None => OutermostScopes(P, code);
      case Some(p) =>
        ParentScopes(P, code);
        AncestorScopes(P, p, level - 1);
    }
  }

  lemma BlockRegistered(P: Program, code: nat, id: nat)
    requires Good(P) && code in P.src
    requires exists b | b in BodyBlocks(P.src[code].body) :: b.Block? && b.id == id
    ensures id in P.t && P.t[id].parent == Some(code)
  {
    assert SourceOk(P.src, code);
    var b :| b in BodyBlocks(P.src[code].body) && b.Block? && b.id == id;
    EntryFacts(P, id);
  }

  lemma ProperOperand(P: Program, code: nat, i: Instr)
    requires Good(P) && code in P.src && code in P.t
    requires P.t[code].meth == Compile(P.src[code])
    requires Proper(i, P.src[code].Cx(), Compile(P.src[code]).literals, BodyBlocks(P.src[code].body))
    ensures ReferenceOk(P.t, code, i)
  {
    hide Compile, Good;
    if i.PushLocal? || i.PopLocal? || i.PushArgument? || i.PopArgument? {
      AncestorScopes(P, code, i.level);
      EntryFacts(P, Ancestor(P.t, code, i.level).value);
    } else if i.PushBlock? {
      BlockRegistered(P, code, Compile(P.src[code]).literals[i.lit].code);
    }
  }

  lemma CompiledFacts(P: Program, code: nat)
    requires Good(P) && code in P.src
    ensures code in P.t && P.t[code].meth == Compile(P.src[code])
    ensures BodyOk(P.src[code].body) && WithinLimits(P.src[code])
    ensures P.src[code].isBlock || P.src[code].args != []
  {
    assert SourceOk(P.src, code) && EntryOk(P, code);
  }

  /** A compiled method keeps the stack discipline and refers to what exists. */
  lemma CompiledMethodOk(P: Program, code: nat)
    requires Good(P) && code in P.src
    requires Peak(Compile(P.src[code]).code, Compile(P.src[code]).literals, 0) <= 255
    ensures code in P.t && MethodOk(P.t, code)
  {
    var s := P.src[code];
    CompiledFacts(P, code);
    EntryFacts(P, code);
    CompiledShape(s);
    Limits(P, code);
    BodyOperands(s.Cx(), s.body, s.isBlock, [], Compile(s).literals, BodyBlocks(s.body));
    InstructionsOk(P, code);
  }

  lemma InstructionsOk(P: Program, code: nat)
    requires Good(P) && code in P.src && code in P.t && P.t[code].meth == Compile(P.src[code])
    requires BodyProper(Compile(P.src[code]).code, P.src[code].Cx(), Compile(P.src[code]).literals,
                        BodyBlocks(P.src[code].body))
    ensures var c := P.t[code].meth.code;
            forall k | 0 <= k < |c| :: ReferenceOk(P.t, code, c[k]) && (k < |c| - 1 ==> !IsReturn(c[k]) && !c[k].Halt?)
  {
    hide Compile, Good;
    var c := P.t[code].meth.code;
    forall k | 0 <= k < |c|
      ensures ReferenceOk(P.t, code, c[k]) && (k < |c| - 1 ==> !IsReturn(c[k]) && !c[k].Halt?)
    {
      if k < |c| - 1 {
        assert c[k] in c[..|c| - 1];
        ProperOperand(P, code, c[k]);
      }
    }
  }

  /** The compiler's output satisfies what the frame invariant asks of a table. */
  lemma CompiledTableOk(P: Program)
    requires Good(P) && DepthsFit(P)
    ensures TableOk(P.t)
  {
    forall code | code in P.t
      ensures MethodOk(P.t, code)
    {
      CompiledMethodOk(P, code);
    }
  }

  lemma StartInv(P: Program, boot: nat, main: nat, args: seq<Value>)
    requires Startable(P, boot, main, args) && DepthsFit(P)
    requires forall v | v in args :: !v.Closure?
    ensures Inv(P.t, Start(P, boot, main, args))
  {
    hide Good, DepthsFit;
    CompiledTableOk(P);
    KeysAgree(P);
    EntryFacts(P, main);
    EntryHeight(P.t, main);
    var c0 := Config([BootFrame(boot, args)], 0, [], Running);
    assert ValuesInv(P.t, c0.frames, 0);
    StartCore(P, boot, c0);
    var f := NewFrame(P.t, main, None, 0, args);
    NilsGood(P.t, c0.frames, P.t[main].meth.locals);
    assert (c0.frames + [f])[0] == BootFrame(boot, args);
    CoreEnter(P.t, c0, f);
  }

  lemma StartCore(P: Program, boot: nat, c0: Config)
    requires c0.status == Running && |c0.frames| == 1 && c0.current == 0 && c0.history == []
    requires c0.frames[0].previous.None? && c0.frames[0].home.None? && c0.frames[0].code !in P.t
    requires ValuesInv(P.t, c0.frames, 0)
    ensures Core(P.t, c0)
  {
  }

  lemma KeysAgree(P: Program)
    requires Good(P)
    ensures P.t.Keys == P.src.Keys
  {
  }

  /** The compiled program, at every moment of its run: as long as it is running, every operand
      stack has its static height and fits its frame; and it never gets stuck, unless an instruction
      names a field that the receiver's class does not have. */
  lemma CompiledProgramsAreSafe(P: Program, boot: nat, main: nat, args: seq<Value>, n: nat)
    requires Startable(P, boot, main, args) && DepthsFit(P) && WorldOk(P.w, P.t)
    requires forall v | v in args :: !v.Closure?
    ensures var c := Run(P.w, P.t, Start(P, boot, main, args), n);
            && (c.status == Running ==> Inv(P.t, c))
            && (c.status == Running ==> GoodStep(P.w, P.t, c, Step(P.w, P.t, c)))
  {
    hide Good, DepthsFit, Start, Run, Step, WorldOk;
    CompiledTableOk(P);
    StartInv(P, boot, main, args);
    RunInv(P.w, P.t, Start(P, boot, main, args), n);
    var c := Run(P.w, P.t, Start(P, boot, main, args), n);
    if c.status == Running {
      StepInv(P.w, P.t, c);
    }
  }
}

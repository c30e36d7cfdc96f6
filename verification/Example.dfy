/** A small program that meets every hypothesis of the main theorems: a method whose only statement is
    an empty block. */
module Example {
  import opened Common
  import opened Syntax
  import opened Bytecodes
  import opened Signature
  import opened StackDepth
  import opened CodeGen
  import opened CodeOperands
  import opened Machine
  import opened FrameInvariant
  import opened Simulation
  import opened WholeProgram
  import opened CompiledRuns
  import opened FieldSafety
  import opened CompiledFields
  import Grammar
  import opened Parser
  import opened Listing
  import opened Classdefs
  import opened Linking
  import opened VirtualMachine

  const BLOCK: Primary := Block(1, [], NoLocals, Finished)
  const BODY: Body := Last(Expr([], Formula(Operand(BLOCK, NoUnary), NoBinary), NoKeyword))
  const MAIN: Source := Source("run", false, ["self"], [], BODY, [], [], None)

  function Inner(): Source {
    BlockSource(BLOCK, MAIN.Cx(), 0)
  }

  /** A world in which every message finds the same primitive, every object has every field, and every
      global is nil. */
  function Outside(): World {
    World((recv, sel, h) => Some(PrimitiveI(0)), (code, sel, h) => Some(PrimitiveI(0)), (p, args, h) => Nil,
          (self, name) => true, (self, name, h) => Nil, (name, h) => Some(Nil))
  }

  function Whole(): Program {
    Program(Outside(), map[0 := MAIN, 1 := Inner()],
            map[0 := Entry(Compile(MAIN), None), 1 := Entry(Compile(Inner()), Some(0))])
  }

  lemma BlockCode(cx: Context)
    ensures ExprCode(cx, BODY.value, []) == Gen([PushBlock(0)], [CodeV(1)])
  {
    var lits := [CodeV(1)];
    var g := Gen([PushBlock(0)], lits);
    var o := Operand(BLOCK, NoUnary);
    var f := Formula(o, NoBinary);
    assert [] + lits == lits && LitIndex(lits, CodeV(1)) == 0;
    assert PrimaryCode(cx, BLOCK, []) == g;
    assert OperandCode(cx, o, []) == g by {
      assert UnariesCode(NoUnary, false, lits) == Gen([], lits);
    }
    assert FormulaCode(cx, f, []) == g by {
      assert BinariesCode(cx, NoBinary, false, lits) == Gen([], lits);
    }
    assert EvaluationCode(cx, BODY.value, []) == g;
    assert Dups(0) == [] && PopTargets(cx, [], lits) == [];
  }

  lemma MainCode()
    ensures Compile(MAIN).literals == [CodeV(1)]
    ensures Compile(MAIN).code == [PushBlock(0), Pop, PushArgument(0, 0), ReturnLocal]
  {
    hide Scan, ExprCode;
    BlockCode(MAIN.Cx());
  }

  lemma InnerCode()
    ensures Compile(Inner()).literals == [SymV("nil")]
    ensures Compile(Inner()).code == [PushGlobal(0), ReturnLocal]
    ensures Inner().args == ["$block self"] && Inner().locals == [] && Inner().body == Finished && Inner().isBlock
    ensures Inner().outer == MAIN.Cx().scopes && Inner().parent == Some(0)
  {
    hide Scan;
    assert AddIfAbsent([], SymV("nil")) == [SymV("nil")];
  }

  lemma Peaks()
    ensures Peak(Compile(MAIN).code, Compile(MAIN).literals, 0) <= 255
    ensures Peak(Compile(Inner()).code, Compile(Inner()).literals, 0) <= 255
  {
    hide Compile;
    MainCode();
    InnerCode();
    PeakOf(Compile(MAIN).code, Compile(MAIN).literals, 0);
    PeakOf(Compile(Inner()).code, Compile(Inner()).literals, 0);
  }

  /** Without sends, each instruction adds at most one operand. */
  lemma {:induction false} PeakOf(code: seq<Instr>, lits: seq<Value>, h: nat)
    requires forall i | i in code :: !i.Send? && !i.SuperSend?
    ensures Peak(code, lits, h) <= h + |code|
    decreases |code|
  {
    hide Arity, Selector;
    if code != [] {
      var g := h + Effect(code[0], lits);
      assert code == [code[0]] + code[1..];
      if g >= 0 {
        PeakOf(code[1..], lits, g);
      } else {
        PeakLow(code[1..], lits, g);
      }
    }
  }

  lemma {:induction false} PeakLow(code: seq<Instr>, lits: seq<Value>, h: int)
    requires h < 0 && forall i | i in code :: !i.Send? && !i.SuperSend?
    ensures Peak(code, lits, h) <= |code|
    decreases |code|
  {
    hide Arity, Selector;
    if code != [] {
      var g := h + Effect(code[0], lits);
      assert code == [code[0]] + code[1..];
      if g >= 0 {
        PeakOf(code[1..], lits, g);
      } else {
        PeakLow(code[1..], lits, g);
      }
    }
  }

  lemma Arities()
    ensures Arity("run") == 1 && Arity(Inner().signature) == 1
  {
    NoColons("run");
    UnaryArity("run");
    InnerCode();
    BlockSignatureArity(1);
  }

  lemma WithinTheLimits()
    ensures WithinLimits(MAIN) && WithinLimits(Inner())
  {
    hide Compile;
    MainCode();
    InnerCode();
  }

  lemma ExampleGood()
    ensures Good(Whole())
  {
    hide Compile, Arity;
    MainCode();
    InnerCode();
    Arities();
    var P := Whole();
    assert SourceOk(P.src, 0) by {
      assert BodyBlocks(BODY) == {BLOCK};
    }
    assert SourceOk(P.src, 1);
    assert EntryOk(P, 0) && EntryOk(P, 1);
  }

  /** The hypotheses of `MeaningPreserved` and `CompiledProgramsAreSafe` can be met, and with them
      those of the lemmas about good states. */
  lemma HypothesesCanBeMet(recv: Value)
    requires !recv.Closure?
    ensures Startable(Whole(), 7, 0, [recv]) && DepthsFit(Whole()) && WorldOk(Whole().w, Whole().t)
    ensures TableOk(Whole().t) && Inv(Whole().t, Start(Whole(), 7, 0, [recv]))
    ensures Rel(Whole(), StartState(Whole(), 7, 0, [recv]), Start(Whole(), 7, 0, [recv]))
  {
    ExampleGood();
    Arities();
    Peaks();
    hide Good, Compile, Arity, Start, Inv, Rel;
    assert Startable(Whole(), 7, 0, [recv]);
    assert DepthsFit(Whole());
    assert WorldOk(Whole().w, Whole().t);
    CompiledTableOk(Whole());
    StartInv(Whole(), 7, 0, [recv]);
    StartRel(Whole(), 7, 0, [recv]);
  }

  // ----- the same program as a text -----

  /** `Main = ( run = ( [] ) )`. */
  const TEXT: Grammar.Tokens := [
    Token(Identifier, "Main", 2), Token(Equal, "=", 3), Token(NewTerm, "(", 4),
    Token(Identifier, "run", 0), Token(Equal, "=", 5), Token(NewTerm, "(", 6),
    Token(NewBlock, "[", 1), Token(EndBlock, "]", 7), Token(EndTerm, ")", 8), Token(EndTerm, ")", 9)]

  const METHOD: Grammar.Definition := Grammar.Definition(0, Grammar.UnaryPattern("run"), false, NoLocals, BODY)
  const CLASS: ClassDef := ClassDef("Main", None, Side(NoLocals, [METHOD]), None)

  /** No superclass has fields. */
  function NoneInherited(): Inherited {
    name => ([], [])
  }

  lemma BlockIsRead()
    ensures Grammar.EatPrimary(BLOCK, TEXT[6..]) == Some(TEXT[8..])
  {
    var us := TEXT[7..];
    assert TEXT[6..][1..] == us && us[1..] == TEXT[8..];
    assert TEXT[6..][0] == Token(NewBlock, "[", 1) && us[0].sym == EndBlock;
    hide TEXT;
    assert Grammar.EatBody(Finished, EndBlock, us) == Some(us);
  }

  lemma ExpressionIsRead()
    ensures Grammar.EatExpr(BODY.value, TEXT[6..]) == Some(TEXT[8..])
  {
    BlockIsRead();
    var ts, us, o := TEXT[6..], TEXT[8..], Operand(BLOCK, NoUnary);
    hide TEXT, BLOCK;
    assert Grammar.EatOperand(o, ts) == Some(us) by {
      assert Grammar.EatUnaries(NoUnary, us) == Some(us);
    }
    assert Grammar.EatFormula(Formula(o, NoBinary), ts) == Some(us) by {
      assert Grammar.EatBinaries(NoBinary, us) == Some(us);
    }
    assert Grammar.EatKeywords(NoKeyword, us) == Some(us);
    assert Grammar.EatTargets([], ts) == Some(ts);
  }

  lemma BodyIsRead()
    ensures Grammar.EatMethodBlock(NoLocals, BODY, TEXT[5..]) == Some(TEXT[9..])
  {
    ExpressionIsRead();
    assert TEXT[5..][1..] == TEXT[6..] && TEXT[8..][1..] == TEXT[9..];
    assert TEXT[5..][0].sym == NewTerm && TEXT[8..][0].sym == EndTerm;
    hide TEXT, Grammar.EatExpr;
    assert Grammar.EatBody(BODY, EndTerm, TEXT[6..]) == Some(TEXT[8..]);
  }

  lemma HeadIsRead()
    ensures EatHead(CLASS, TEXT) == Some(TEXT[3..])
  {
    assert TEXT[1..][1..] == TEXT[2..] && TEXT[2..][1..] == TEXT[3..];
  }

  lemma MethodIsRead()
    ensures Grammar.EatDefinition(METHOD, TEXT[3..]) == Some(TEXT[9..]) && TEXT[3] == Token(Identifier, "run", 0)
  {
    hide Grammar.EatMethodBlock;
    BodyIsRead();
    assert TEXT[3..][1..] == TEXT[4..] && TEXT[4..][1..] == TEXT[5..];
  }

  lemma ClassIsRead()
    ensures EatClass(CLASS, TEXT) == Some([])
  {
    hide Grammar.EatDefinition, EatHead;
    HeadIsRead();
    MethodIsRead();
    assert TEXT[9..][1..] == [] && TEXT[9..][0].sym == EndTerm && TEXT[3..][0].sym == Identifier;
    hide TEXT;
    assert EatDefinitions([METHOD], TEXT[3..]) == Some(TEXT[9..]) by {
      assert [METHOD][1..] == [] && EatDefinitions([], TEXT[9..]) == Some(TEXT[9..]);
    }
    assert EatSide(CLASS.instances, TEXT[3..]) == Some(TEXT[9..]);
  }

  lemma TextListed()
    ensures ClassesListed([CLASS], NoneInherited()) == [(1, Inner()), (0, MAIN)]
  {
    var fields := InstanceFields(CLASS, NoneInherited());
    assert fields == [];
    assert DefinitionSource(METHOD, []) == MAIN;
    assert BodyListed(MAIN.Cx(), BODY, 0) == [(1, Inner())] by {
      assert BlockListed(MAIN.Cx(), BLOCK, 0) == [(1, Inner())];
      assert FormulaListed(MAIN.Cx(), BODY.value.formula, 0) == [(1, Inner())];
    }
    assert DefinitionsListed([METHOD], []) == [(1, Inner()), (0, MAIN)] by {
      assert [METHOD][1..] == [];
    }
    assert [CLASS][..0] == [];
  }

  /** The hypotheses about texts can be met: this one is the program above. */
  lemma TextsCanBeMet(recv: Value)
    ensures TextsOk([TEXT], [CLASS], NoneInherited())
    ensures MainListed(ClassesListed([CLASS], NoneInherited()), 7, 0, [recv])
  {
    ClassIsRead();
    TextListed();
    Peaks();
    Arities();
    WithinTheLimits();
    TextTokens();
    hide EatClass, ClassesListed, Compile, Arity, Peak, TokensOk, DistinctIds, WithinLimits;
    var l := ClassesListed([CLASS], NoneInherited());
    assert l[1] == (0, MAIN);
  }

  lemma TextTokens()
    ensures AllTokens([TEXT]) == TEXT && TokensOk(TEXT) && DistinctIds(TEXT)
  {
    assert [TEXT][..0] == [];
    assert AllTokens([TEXT]) == TEXT by {
      hide TEXT;
      assert AllTokens([TEXT]) == [] + TEXT;
    }
    TextTokensOk();
    TextIds();
  }

  lemma TextIds()
    ensures DistinctIds(TEXT)
  {
    forall i, j | 0 <= i < j < |TEXT|
      ensures TEXT[i].id != TEXT[j].id
    {
      assert Places(TEXT) == [2, 3, 4, 0, 5, 6, 1, 7, 8, 9];
      assert Places(TEXT)[i] != Places(TEXT)[j];
    }
  }

  lemma WordsOk()
    ensures IsIdentifier("Main") && IsIdentifier("run") && IsOperator("=")
  {
    NoColons("Main");
    NoColons("run");
  }

  lemma TextTokensOk()
    ensures TokensOk(TEXT)
  {
    hide IsIdentifier, IsOperator, IsKeyword, TokenOk, TEXT;
    WordsOk();
    NamesOk("Main", 2);
    NamesOk("run", 0);
    EqualsOk(3);
    EqualsOk(5);
    BracketsOk();
    TextIs();
  }

  lemma TextIs()
    ensures TEXT == [
              Token(Identifier, "Main", 2), Token(Equal, "=", 3), Token(NewTerm, "(", 4),
              Token(Identifier, "run", 0), Token(Equal, "=", 5), Token(NewTerm, "(", 6),
              Token(NewBlock, "[", 1), Token(EndBlock, "]", 7), Token(EndTerm, ")", 8), Token(EndTerm, ")", 9)]
  {
  }

  lemma NamesOk(name: string, id: nat)
    requires IsIdentifier(name)
    ensures TokenOk(Token(Identifier, name, id))
  {
    hide IsIdentifier, IsOperator, IsKeyword;
  }

  lemma EqualsOk(id: nat)
    ensures TokenOk(Token(Equal, "=", id))
  {
    WordsOk();
    hide IsIdentifier, IsOperator, IsKeyword;
  }

  lemma BracketsOk()
    ensures forall s, text, id | s in {NewTerm, EndTerm, NewBlock, EndBlock} :: TokenOk(Token(s, text, id))
  {
    hide IsIdentifier, IsOperator, IsKeyword;
  }

  // ----- a store that goes nowhere -----

  /** `x := self` in a method that declares no x, in a class without fields. */
  const STORE: Source :=
    Source("run", false, ["self"], [],
           Last(Expr(["x"], Formula(Operand(Variable("self"), NoUnary), NoBinary), NoKeyword)),
           [], [], None)

  /** As `Outside`, but no object has a field. */
  function Bare(): World {
    Outside().(hasField := (self, name) => false)
  }

  function Storing(): Program {
    Program(Bare(), map[0 := STORE], map[0 := Entry(Compile(STORE), None)])
  }

  lemma StoreExpression()
    ensures ExprCode(STORE.Cx(), STORE.body.value, []) == Gen([PushArgument(0, 0), Dup, PopField(0)], [SymV("x")])
  {
    var cx, lits := STORE.Cx(), [SymV("x")];
    var e := STORE.body.value;
    assert cx.scopes == [Scope(["self"], [])] && cx.scopes[1..] == [];
    assert AddTargets(["x"], []) == lits by {
      assert ["x"][1..] == [];
    }
    assert FindVar(cx.scopes, "self") == Some(Slot(true, 0, 0));
    var g := Gen([PushArgument(0, 0)], lits);
    assert PrimaryCode(cx, Variable("self"), lits) == g;
    assert OperandCode(cx, e.formula.operand, lits) == g by {
      assert UnariesCode(NoUnary, false, lits) == Gen([], lits);
    }
    assert FormulaCode(cx, e.formula, lits) == g by {
      assert BinariesCode(cx, NoBinary, false, lits) == Gen([], lits);
    }
    assert EvaluationCode(cx, e, lits) == g;
    assert Dups(1) == [Dup];
    assert FindVar(cx.scopes[1..], "x").None?;
    assert PopTargets(cx, ["x"], lits) == [PopField(0)] by {
      assert ["x"][1..] == [];
    }
  }

  lemma StoreCode()
    ensures Compile(STORE).literals == [SymV("x")] && Compile(STORE).locals == 0 && Compile(STORE).signature == "run"
    ensures Compile(STORE).code == [PushArgument(0, 0), Dup, PopField(0), Pop, PushArgument(0, 0), ReturnLocal]
  {
    hide Scan, ExprCode;
    StoreExpression();
  }

  /** What a store to an undeclared name does: the program meets every hypothesis of the main theorems but
      that it declares what it assigns, and it gets stuck. */
  lemma UndeclaredStoreGetsStuck(recv: Value)
    requires !recv.Closure?
    ensures Startable(Storing(), 7, 0, [recv]) && DepthsFit(Storing()) && WorldOk(Storing().w, Storing().t)
    ensures WorldHasFields(Storing().w, ClaimsOf(Storing().src)) && !AllDeclare(Storing().src)
    ensures Run(Storing().w, Storing().t, Start(Storing(), 7, 0, [recv]), 3).status == Stuck
  {
    StoreFacts();
    hide Compile, Arity, Good, WithinLimits;
    StoreRun(recv);
  }

  lemma StoreFacts()
    ensures Good(Storing()) && DepthsFit(Storing()) && Arity("run") == 1 && !AllDeclare(Storing().src)
  {
    hide Compile, Arity, Peak, SourceOk, Declares;
    Arities();
    StoreSource();
    Undeclared();
    var P := Storing();
    assert P.src[0] == STORE && EntryOk(P, 0);
  }

  lemma StoreSource()
    ensures SourceOk(Storing().src, 0) && Peak(Compile(STORE).code, Compile(STORE).literals, 0) <= 255
  {
    StoreCode();
    Arities();
    hide Compile, Arity, Peak;
    PeakOf(Compile(STORE).code, Compile(STORE).literals, 0);
    assert BodyBlocks(STORE.body) == {};
  }

  lemma Undeclared()
    ensures !Declares(STORE)
  {
    var scopes := [Scope(["self"], [])];
    assert STORE.Cx() == Context([], scopes);
    assert FindVar(scopes, "x").None? by {
      assert scopes[1..] == [] && FindVar([], "x").None?;
    }
    assert STORE.body.value.targets == ["x"];
    assert !TargetOk(STORE.Cx(), "x") && "x" in STORE.body.value.targets;
  }

  /** The machine in the method, with the given operands. */
  function At(recv: Value, pc: nat, stack: seq<Value>): Config {
    Config([BootFrame(7, [recv]), Frame(0, None, Some(0), [recv], [], stack, pc)], 1, [], Running)
  }

  lemma StoreStart(recv: Value)
    ensures Start(Storing(), 7, 0, [recv]) == At(recv, 0, [])
  {
    StoreCode();
    Arities();
    hide Compile, Arity;
    var f := NewFrame(Storing().t, 0, None, 0, [recv]);
    assert f == Frame(0, None, Some(0), [recv], [], [], 0) by {
      assert Nils(0) == [];
    }
    assert [BootFrame(7, [recv])] + [f] == At(recv, 0, []).frames;
  }

  lemma StoreStep(recv: Value, pc: nat, stack: seq<Value>)
    requires pc < 6
    ensures Step(Storing().w, Storing().t, At(recv, pc, stack)) ==
            Execute(Storing().w, Storing().t, At(recv, pc + 1, stack), Compile(STORE).code[pc], [SymV("x")])
  {
    StoreCode();
    hide Compile, Execute;
    var c := At(recv, pc, stack);
    assert Fetch(Storing().t, c) == Some(Compile(STORE).code[pc]);
    assert Advance(c).frames == At(recv, pc + 1, stack).frames;
  }

  lemma PushesSelf(recv: Value)
    ensures Step(Storing().w, Storing().t, At(recv, 0, [])) == At(recv, 1, [recv])
  {
    hide Step, Execute, Storing, Compile;
    StoreCode();
    StoreStep(recv, 0, []);
    ExecuteArgument(Storing().w, Storing().t, At(recv, 1, []), [SymV("x")]);
    assert [] + [recv] == [recv];
    assert Push(At(recv, 1, []), recv).frames == At(recv, 1, [recv]).frames;
  }

  lemma CopiesSelf(recv: Value)
    ensures Step(Storing().w, Storing().t, At(recv, 1, [recv])) == At(recv, 2, [recv, recv])
  {
    hide Step, Execute, Storing, Compile;
    StoreCode();
    StoreStep(recv, 1, [recv]);
    ExecuteDup(Storing().w, Storing().t, At(recv, 2, [recv]), [SymV("x")]);
    assert [recv] + [recv] == [recv, recv];
    assert Push(At(recv, 2, [recv]), recv).frames == At(recv, 2, [recv, recv]).frames;
  }

  lemma StoreFault(recv: Value)
    ensures Step(Storing().w, Storing().t, At(recv, 2, [recv, recv])).status == Stuck
  {
    hide Step, Execute, Storing, Compile;
    StoreCode();
    StoreStep(recv, 2, [recv, recv]);
    NoFields();
    ExecutePopField(Storing().w, Storing().t, At(recv, 3, [recv, recv]), "x");
  }

  lemma NoFields()
    ensures forall v, n :: !Storing().w.hasField(v, n)
  {
  }

  lemma ExecuteArgument(w: World, t: Table, c: Config, lits: seq<Value>)
    requires c.current < |c.frames| && c.Top().args != []
    ensures Execute(w, t, c, PushArgument(0, 0), lits) == Push(c, c.Top().args[0])
  {
  }

  lemma ExecuteDup(w: World, t: Table, c: Config, lits: seq<Value>)
    requires c.current < |c.frames| && c.Stack() != []
    ensures Execute(w, t, c, Dup, lits) == Push(c, c.Stack()[|c.Stack()| - 1])
  {
  }

  lemma ExecutePopField(w: World, t: Table, c: Config, name: string)
    requires c.current < |c.frames| && forall v :: !w.hasField(v, name)
    ensures Execute(w, t, c, PopField(0), [SymV(name)]).status == Stuck
  {
  }

  lemma StoreRun(recv: Value)
    ensures Run(Storing().w, Storing().t, Start(Storing(), 7, 0, [recv]), 3).status == Stuck
  {
    hide Step;
    StoreStart(recv);
    PushesSelf(recv);
    CopiesSelf(recv);
    StoreFault(recv);
    var w, t := Storing().w, Storing().t;
    RunStep(w, t, At(recv, 0, []), 2);
    RunStep(w, t, At(recv, 1, [recv]), 1);
    RunStep(w, t, At(recv, 2, [recv, recv]), 0);
    RunZero(w, t, Step(w, t, At(recv, 2, [recv, recv])));
  }
}

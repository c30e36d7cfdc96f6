/** Compiled programs find their fields: a program that assigns only variables and fields it declares, that
    neither assigns nor redeclares self, and whose world finds a method only for receivers with its fields,
    never gets stuck. */
module CompiledFields {
  import opened Common
  import opened Syntax
  import opened Bytecodes
  import opened Signature
  import opened StackDepth
  import opened CodeGen
  import opened CodeOperands
  import opened CodeShape
  import opened Machine
  import opened FrameInvariant
  import opened SafeRuns
  import opened Semantics
  import opened Simulation
  import opened Lexical
  import opened WholeProgram
  import opened CompiledRuns
  import opened FieldSafety

  // ----- what the source has to declare -----

  /** An assigned name is a variable in scope or a field; `gen_pop_variable` takes any other name for a
      field too. */
  predicate TargetOk(cx: Context, name: string) {
    name != "self" && (FindVar(cx.scopes, name).Some? || name in cx.fields)
  }

  predicate PrimaryAssigns(cx: Context, p: Primary)
    decreases p, 0
  {
    p.Nested? ==> ExprAssigns(cx, p.term)
  }

  predicate BinariesAssign(cx: Context, bs: Binaries)
    decreases bs, 0
  {
    bs.Binary? ==> PrimaryAssigns(cx, bs.arg.head) && BinariesAssign(cx, bs.rest)
  }

  predicate FormulaAssigns(cx: Context, f: Formula)
    decreases f, 0
  {
    PrimaryAssigns(cx, f.operand.head) && BinariesAssign(cx, f.binaries)
  }

  predicate KeywordsAssign(cx: Context, ks: Keywords)
    decreases ks, 0
  {
    ks.KeywordPart? ==> FormulaAssigns(cx, ks.arg) && KeywordsAssign(cx, ks.tail)
  }

  /** Every assignment in an expression, but for those in blocks, is to a declared name. */
  predicate ExprAssigns(cx: Context, e: Expr)
    decreases e, 1
  {
    (forall t | t in e.targets :: TargetOk(cx, t)) && FormulaAssigns(cx, e.formula) && KeywordsAssign(cx, e.keywords)
  }

  predicate BodyAssigns(cx: Context, b: Body) {
    match b
    case Answer(e, _) => ExprAssigns(cx, e)
    case Finished => true
    case Last(e) => ExprAssigns(cx, e)
    case Then(e, rest) => ExprAssigns(cx, e) && BodyAssigns(cx, rest)
  }

  /** A method or block assigns declared names only, and declares no variable named self. */
  predicate Declares(s: Source) {
    BodyAssigns(s.Cx(), s.body) && "self" !in s.locals && (s.isBlock ==> "self" !in s.args)
  }

  predicate AllDeclare(src: Sources) {
    forall code | code in src :: Declares(src[code])
  }

  function ClaimOf(s: Source): Claim {
    Claim(set n | n in s.fields, |s.outer|)
  }

  /** The fields that the methods and blocks of a program count on. */
  function ClaimsOf(src: Sources): Claims {
    map code | code in src :: ClaimOf(src[code])
  }

  // ----- self -----

  /** self is argument 0 of the outermost scope, and no other variable. */
  predicate SelfOnce(scopes: seq<Scope>) {
    && scopes != [] && scopes[|scopes| - 1].args != [] && scopes[|scopes| - 1].args[0] == "self"
    && (forall k | 0 <= k < |scopes| :: "self" !in scopes[k].locals)
    && (forall k | 0 <= k < |scopes| - 1 :: "self" !in scopes[k].args)
  }

  lemma {:induction false} SelfResolves(scopes: seq<Scope>)
    requires SelfOnce(scopes)
    ensures FindVar(scopes, "self") == Some(Slot(true, 0, |scopes| - 1))
    decreases |scopes|
  {
    var s := scopes[0];
    assert "self" !in s.locals && IndexOf(s.locals, "self") == -1;
    if |scopes| == 1 {
      assert IndexOf(s.args, "self") == 0;
    } else {
      assert IndexOf(s.args, "self") == -1;
      SelfResolves(scopes[1..]);
    }
  }

  /** A name leads to a slot of that name. */
  lemma {:induction false} FoundName(scopes: seq<Scope>, name: string)
    requires FindVar(scopes, name).Some?
    ensures var s := FindVar(scopes, name).value;
            && s.level < |scopes|
            && s.index < |if s.isArgument then scopes[s.level].args else scopes[s.level].locals|
            && name == (if s.isArgument then scopes[s.level].args else scopes[s.level].locals)[s.index]
    decreases |scopes|
  {
    if IndexOf(scopes[0].locals, name) == -1 && IndexOf(scopes[0].args, name) == -1 {
      FoundName(scopes[1..], name);
    }
  }

  lemma {:induction false} ScopesOfSource(P: Program, code: nat)
    requires Good(P) && AllDeclare(P.src) && code in P.src
    ensures SelfOnce(P.src[code].Cx().scopes)
    ensures TopLevel(P.t, code, |P.src[code].outer|)
    decreases |P.src[code].outer|
  {
    hide Compile, BodyAssigns;
    EntryFacts(P, code);
    var s := P.src[code];
    assert Declares(s) && SourceOk(P.src, code);
    match s.parent
    case None => OutermostScopes(P, code);
    case Some(p) =>
      ParentScopes(P, code);
      assert P.src[p].Cx().scopes == [P.src[p].Own()] + P.src[p].outer;
      ScopesOfSource(P, p);
      var all := s.Cx().scopes;
      assert all == [s.Own()] + P.src[p].Cx().scopes;
  }

  // ----- segments of code -----

  /** Code that names declared fields only, stores nowhere into self, sends to super nothing but self, and
      leaves the given marks. */
  predicate Segment(code: seq<Instr>, final: seq<Value>, claim: Claim, ms: seq<bool>, out: seq<bool>) {
    && Marks(code, final, claim.outer, ms) == out && SupersOk(code, final, claim.outer, ms)
    && forall i | i in code :: InstrOk(i, final, claim)
  }

  lemma SegmentNone(final: seq<Value>, claim: Claim, ms: seq<bool>)
    ensures Segment([], final, claim, ms, ms)
  {
  }

  lemma SegmentConcat(a: seq<Instr>, b: seq<Instr>, final: seq<Value>, claim: Claim, ms: seq<bool>, mid: seq<bool>,
                      out: seq<bool>)
    requires Segment(a, final, claim, ms, mid) && Segment(b, final, claim, mid, out)
    ensures Segment(a + b, final, claim, ms, out)
  {
    hide Track, InstrOk;
    MarksConcat(a, b, final, claim.outer, ms);
  }

  lemma SegmentOne(i: Instr, final: seq<Value>, claim: Claim, ms: seq<bool>)
    requires InstrOk(i, final, claim)
    requires i.SuperSend? ==> SelfBelow(ms, Arity(Selector(final, i.lit)))
    ensures Segment([i], final, claim, ms, Track(i, final, claim.outer, ms))
  {
    hide Track, InstrOk, SelfBelow, Arity;
    var out := Track(i, final, claim.outer, ms);
    assert [i][1..] == [];
    assert Marks([], final, claim.outer, out) == out && SupersOk([], final, claim.outer, out);
  }

  /** What the segments of a method or block are about. */
  predicate Fitting(cx: Context, final: seq<Value>, claim: Claim) {
    && |final| <= 256 && Small(cx.scopes) && SelfOnce(cx.scopes)
    && claim.outer == |cx.scopes| - 1 && forall n | n in cx.fields :: n in claim.fields
  }

  lemma NameAt(lits: seq<Value>, final: seq<Value>, name: string)
    requires SymV(name) in lits && lits <= final && |final| <= 256
    ensures Selector(final, LitIndex(lits, SymV(name))) == name
  {
    LiteralStable(lits, final, SymV(name));
  }

  /** Pushing a variable; the word self pushes self. */
  lemma VariableSegment(cx: Context, name: string, lits: seq<Value>, final: seq<Value>, claim: Claim, ms: seq<bool>)
    returns (mark: bool)
    requires PushVariable(cx, name, lits).lits <= final && Fitting(cx, final, claim)
    ensures Segment(PushVariable(cx, name, lits).code, final, claim, ms, ms + [mark]) && (name == "self" ==> mark)
  {
    hide Arity;
    var i := PushVariable(cx, name, lits).code[0];
    if FindVar(cx.scopes, name).Some? {
      FindVarInBounds(cx.scopes, name);
    } else {
      NameAt(AddIfAbsent(lits, SymV(name)), final, name);
    }
    SegmentOne(i, final, claim, ms);
    mark := Track(i, final, claim.outer, ms)[|ms|];
    if name == "self" {
      SelfResolves(cx.scopes);
    }
  }

  lemma StoreSegment(cx: Context, name: string, lits: seq<Value>, final: seq<Value>, claim: Claim, ms: seq<bool>)
    requires SymV(name) in lits && lits <= final && Fitting(cx, final, claim) && TargetOk(cx, name)
    ensures Segment([PopVariable(cx, name, lits)], final, claim, ms, Dropped(ms, 1))
  {
    hide Arity;
    var i := PopVariable(cx, name, lits);
    if FindVar(cx.scopes, name).Some? {
      FoundName(cx.scopes, name);
    } else {
      NameAt(lits, final, name);
    }
    SegmentOne(i, final, claim, ms);
  }

  /** A message takes the marked receiver and its arguments. */
  lemma MessageSegment(sel: string, toSuper: bool, lits: seq<Value>, final: seq<Value>, claim: Claim, ms: seq<bool>,
                       mark: bool, args: seq<bool>)
    requires SymV(sel) in lits && lits <= final && |final| <= 256
    requires Arity(sel) == 1 + |args| && (toSuper ==> mark)
    ensures Segment([Message(sel, toSuper, lits)], final, claim, ms + [mark] + args, ms + [false])
  {
    NameAt(lits, final, sel);
    hide Arity;
    var all := ms + [mark] + args;
    assert all[..|all| - (1 + |args|)] == ms && all[|all| - (1 + |args|)] == mark;
    SegmentOne(Message(sel, toSuper, lits), final, claim, all);
  }

  lemma {:induction false} PrimarySegment(cx: Context, p: Primary, lits: seq<Value>, final: seq<Value>, claim: Claim,
                                          ms: seq<bool>) returns (mark: bool)
    requires PrimaryOk(p) && PrimaryAssigns(cx, p) && PrimaryCode(cx, p, lits).lits <= final &&
             Fitting(cx, final, claim)
    ensures Segment(PrimaryCode(cx, p, lits).code, final, claim, ms, ms + [mark]) && (IsSuper(p) ==> mark)
    decreases p, 0
  {
    hide Segment, Fitting;
    match p
    case Variable(name) =>
      mark := VariableSegment(cx, if name == "super" then "self" else name, lits, final, claim, ms);
    case Nested(term) => mark := ExprSegment(cx, term, lits, final, claim, ms);
    case _ =>
      mark := false;
      SegmentOne(PrimaryCode(cx, p, lits).code[0], final, claim, ms);
  }

  lemma {:induction false} UnariesSegment(us: Unaries, toSuper: bool, lits: seq<Value>, final: seq<Value>, claim: Claim,
                                          ms: seq<bool>, mark: bool) returns (m: bool)
    requires UnariesOk(us) && UnariesCode(us, toSuper, lits).lits <= final && |final| <= 256 && (toSuper ==> mark)
    ensures Segment(UnariesCode(us, toSuper, lits).code, final, claim, ms + [mark], ms + [m])
    ensures us.NoUnary? ==> m == mark
    decreases us
  {
    hide Segment;
    if us.NoUnary? {
      m := mark;
      SegmentNone(final, claim, ms + [mark]);
    } else {
      var lits' := AddIfAbsent(lits, SymV(us.sel));
      UnariesLits(us.more, false, lits');
      UnaryArity(us.sel);
      assert ms + [mark] + [] == ms + [mark];
      MessageSegment(us.sel, toSuper, lits', final, claim, ms, mark, []);
      m := UnariesSegment(us.more, false, lits', final, claim, ms, false);
      SegmentConcat([Message(us.sel, toSuper, lits')], UnariesCode(us.more, false, lits').code, final, claim,
                    ms + [mark], ms + [false], ms + [m]);
    }
  }

  lemma {:induction false} OperandSegment(cx: Context, o: Operand, lits: seq<Value>, final: seq<Value>, claim: Claim,
                                          ms: seq<bool>) returns (mark: bool)
    requires OperandOk(o) && PrimaryAssigns(cx, o.head) && OperandCode(cx, o, lits).lits <= final
    requires Fitting(cx, final, claim)
    ensures Segment(OperandCode(cx, o, lits).code, final, claim, ms, ms + [mark]) && (PendingSuper(o) ==> mark)
    decreases o, 0
  {
    hide Segment;
    OperandLits(cx, o, lits);
    var g := PrimaryCode(cx, o.head, lits);
    var first := PrimarySegment(cx, o.head, lits, final, claim, ms);
    mark := UnariesSegment(o.unaries, IsSuper(o.head), g.lits, final, claim, ms, first);
    SegmentConcat(g.code, UnariesCode(o.unaries, IsSuper(o.head), g.lits).code, final, claim, ms, ms + [first],
                  ms + [mark]);
  }

  lemma {:induction false} BinariesSegment(cx: Context, bs: Binaries, toSuper: bool, lits: seq<Value>,
                                           final: seq<Value>, claim: Claim, ms: seq<bool>, mark: bool) returns (m: bool)
    requires BinariesOk(bs) && BinariesAssign(cx, bs) && BinariesCode(cx, bs, toSuper, lits).lits <= final
    requires Fitting(cx, final, claim) && (toSuper ==> mark)
    ensures Segment(BinariesCode(cx, bs, toSuper, lits).code, final, claim, ms + [mark], ms + [m])
    ensures bs.NoBinary? ==> m == mark
    decreases bs, 0
  {
    hide Segment, Small, SelfOnce;
    if bs.NoBinary? {
      m := mark;
      SegmentNone(final, claim, ms + [mark]);
    } else {
      BinariesLits(cx, bs, toSuper, lits);
      var g := OperandCode(cx, bs.arg, AddIfAbsent(lits, SymV(bs.sel)));
      var message := Message(bs.sel, toSuper, g.lits);
      var rest := BinariesCode(cx, bs.rest, false, g.lits).code;
      var a := OperandSegment(cx, bs.arg, AddIfAbsent(lits, SymV(bs.sel)), final, claim, ms + [mark]);
      MessageSegment(bs.sel, toSuper, g.lits, final, claim, ms, mark, [a]);
      m := BinariesSegment(cx, bs.rest, false, g.lits, final, claim, ms, false);
      SegmentConcat(g.code, [message], final, claim, ms + [mark], ms + [mark] + [a], ms + [false]);
      SegmentConcat(g.code + [message], rest, final, claim, ms + [mark], ms + [false], ms + [m]);
    }
  }

  lemma {:induction false} FormulaSegment(cx: Context, f: Formula, lits: seq<Value>, final: seq<Value>, claim: Claim,
                                          ms: seq<bool>) returns (mark: bool)
    requires FormulaOk(f) && FormulaAssigns(cx, f) && FormulaCode(cx, f, lits).lits <= final &&
             Fitting(cx, final, claim)
    ensures Segment(FormulaCode(cx, f, lits).code, final, claim, ms, ms + [mark])
    ensures PendingSuper(f.operand) && f.binaries.NoBinary? ==> mark
    decreases f, 0
  {
    hide Segment, Fitting;
    FormulaLits(cx, f, lits);
    var g := OperandCode(cx, f.operand, lits);
    var toSuper := PendingSuper(f.operand);
    var first := OperandSegment(cx, f.operand, lits, final, claim, ms);
    mark := BinariesSegment(cx, f.binaries, toSuper, g.lits, final, claim, ms, first);
    SegmentConcat(g.code, BinariesCode(cx, f.binaries, toSuper, g.lits).code, final, claim, ms, ms + [first],
                  ms + [mark]);
  }

  lemma {:induction false} KeywordArgsSegment(cx: Context, ks: Keywords, lits: seq<Value>, final: seq<Value>,
                                              claim: Claim, ms: seq<bool>) returns (args: seq<bool>)
    requires KeywordsOk(ks) && KeywordsAssign(cx, ks) && KeywordArgsCode(cx, ks, lits).lits <= final
    requires Fitting(cx, final, claim)
    ensures Segment(KeywordArgsCode(cx, ks, lits).code, final, claim, ms, ms + args) && |args| == |KeywordList(ks)|
    decreases ks, 0
  {
    hide Segment, Fitting;
    if ks.NoKeyword? {
      args := [];
      assert ms + [] == ms;
      SegmentNone(final, claim, ms);
    } else {
      KeywordArgsLits(cx, ks, lits);
      var g := FormulaCode(cx, ks.arg, lits);
      var a := FormulaSegment(cx, ks.arg, lits, final, claim, ms);
      var more := KeywordArgsSegment(cx, ks.tail, g.lits, final, claim, ms + [a]);
      args := [a] + more;
      assert ms + [a] + more == ms + args;
      SegmentConcat(g.code, KeywordArgsCode(cx, ks.tail, g.lits).code, final, claim, ms, ms + [a], ms + args);
    }
  }

  lemma {:induction false} KeywordMessageSegment(cx: Context, ks: Keywords, toSuper: bool, lits: seq<Value>,
                                                 final: seq<Value>, claim: Claim, ms: seq<bool>, mark: bool)
    returns (m: bool)
    requires KeywordsOk(ks) && KeywordsAssign(cx, ks) && KeywordMessageCode(cx, ks, toSuper, lits).lits <= final
    requires Fitting(cx, final, claim) && (toSuper ==> mark)
    ensures Segment(KeywordMessageCode(cx, ks, toSuper, lits).code, final, claim, ms + [mark], ms + [m])
    decreases ks, 1
  {
    hide Segment, Small, SelfOnce;
    if ks.NoKeyword? {
      m := mark;
      SegmentNone(final, claim, ms + [mark]);
    } else {
      m := false;
      var g := KeywordArgsCode(cx, ks, lits);
      var sel := Concat(KeywordList(ks));
      var lits' := AddIfAbsent(g.lits, SymV(sel));
      var args := KeywordArgsSegment(cx, ks, lits, final, claim, ms + [mark]);
      KeywordListOk(ks);
      KeywordArity(KeywordList(ks));
      MessageSegment(sel, toSuper, lits', final, claim, ms, mark, args);
      SegmentConcat(g.code, [Message(sel, toSuper, lits')], final, claim, ms + [mark], ms + [mark] + args,
                    ms + [false]);
    }
  }

  lemma {:induction false} EvaluationSegment(cx: Context, e: Expr, lits: seq<Value>, final: seq<Value>, claim: Claim,
                                             ms: seq<bool>) returns (mark: bool)
    requires ExprOk(e) && FormulaAssigns(cx, e.formula) && KeywordsAssign(cx, e.keywords)
    requires EvaluationCode(cx, e, lits).lits <= final && Fitting(cx, final, claim)
    ensures Segment(EvaluationCode(cx, e, lits).code, final, claim, ms, ms + [mark])
    decreases e, 0
  {
    hide Segment, Fitting;
    EvaluationLits(cx, e, lits);
    var g := FormulaCode(cx, e.formula, lits);
    var first := FormulaSegment(cx, e.formula, lits, final, claim, ms);
    mark := KeywordMessageSegment(cx, e.keywords, KeywordToSuper(e), g.lits, final, claim, ms, first);
    SegmentConcat(g.code, KeywordMessageCode(cx, e.keywords, KeywordToSuper(e), g.lits).code, final, claim, ms,
                  ms + [first], ms + [mark]);
  }

  /** Copies of one operand are marked as it is; stores take them again. */
  lemma {:induction false} DupsSegment(n: nat, final: seq<Value>, claim: Claim, ms: seq<bool>, mark: bool)
    ensures Segment(Dups(n), final, claim, ms + [mark], ms + [mark] + Copies(n, mark))
    decreases n
  {
    hide Segment;
    if n == 0 {
      assert ms + [mark] + Copies(0, mark) == ms + [mark];
      SegmentNone(final, claim, ms + [mark]);
    } else {
      SegmentOne(Dup, final, claim, ms + [mark]);
      DupsSegment(n - 1, final, claim, ms + [mark], mark);
      assert ms + [mark] + [mark] + Copies(n - 1, mark) == ms + [mark] + Copies(n, mark);
      SegmentConcat([Dup], Dups(n - 1), final, claim, ms + [mark], ms + [mark] + [mark],
                    ms + [mark] + Copies(n, mark));
    }
  }

  function Copies(n: nat, mark: bool): (s: seq<bool>)
    ensures |s| == n
  {
    seq(n, i => mark)
  }

  lemma {:induction false} StoresSegment(cx: Context, targets: seq<string>, lits: seq<Value>, final: seq<Value>,
                                         claim: Claim, ms: seq<bool>, copies: seq<bool>)
    requires lits <= final && Fitting(cx, final, claim) && |copies| == |targets|
    requires forall t | t in targets :: TargetOk(cx, t) && SymV(t) in lits
    ensures Segment(PopTargets(cx, targets, lits), final, claim, ms + copies, ms)
    decreases |targets|
  {
    hide Segment, Fitting, TargetOk;
    if targets == [] {
      assert ms + copies == ms;
      SegmentNone(final, claim, ms);
    } else {
      var all, fewer := ms + copies, copies[..|copies| - 1];
      assert all[..|all| - 1] == ms + fewer;
      StoreSegment(cx, targets[0], lits, final, claim, all);
      StoresSegment(cx, targets[1..], lits, final, claim, ms, fewer);
      SegmentConcat([PopVariable(cx, targets[0], lits)], PopTargets(cx, targets[1..], lits), final, claim, all,
                    ms + fewer, ms);
    }
  }

  lemma {:induction false} ExprSegment(cx: Context, e: Expr, lits: seq<Value>, final: seq<Value>, claim: Claim,
                                       ms: seq<bool>) returns (mark: bool)
    requires ExprOk(e) && ExprAssigns(cx, e) && ExprCode(cx, e, lits).lits <= final && Fitting(cx, final, claim)
    ensures Segment(ExprCode(cx, e, lits).code, final, claim, ms, ms + [mark])
    decreases e, 1
  {
    hide Segment, Fitting, TargetOk;
    var n := |e.targets|;
    var lits' := AddTargets(e.targets, lits);
    var g := EvaluationCode(cx, e, lits');
    EvaluationLits(cx, e, lits');
    mark := EvaluationSegment(cx, e, lits', final, claim, ms);
    var copies := ms + [mark] + Copies(n, mark);
    DupsSegment(n, final, claim, ms, mark);
    StoresSegment(cx, e.targets, g.lits, final, claim, ms + [mark], Copies(n, mark));
    SegmentConcat(g.code, Dups(n), final, claim, ms, ms + [mark], copies);
    SegmentConcat(g.code + Dups(n), PopTargets(cx, e.targets, g.lits), final, claim, ms, copies, ms + [mark]);
  }

  /** Some marks are left; which does not matter at the end of a body. */
  ghost predicate Sound(code: seq<Instr>, final: seq<Value>, claim: Claim) {
    Segment(code, final, claim, [], Marks(code, final, claim.outer, []))
  }

  lemma SoundAfter(a: seq<Instr>, b: seq<Instr>, final: seq<Value>, claim: Claim)
    requires Segment(a, final, claim, [], []) && Sound(b, final, claim)
    ensures Sound(a + b, final, claim)
  {
    SegmentConcat(a, b, final, claim, [], [], Marks(b, final, claim.outer, []));
  }

  lemma ThenReturn(a: seq<Instr>, ret: Instr, final: seq<Value>, claim: Claim, mark: bool)
    requires Segment(a, final, claim, [], [mark]) && IsReturn(ret)
    ensures Sound(a + [ret], final, claim)
  {
    SegmentOne(ret, final, claim, [mark]);
    SegmentConcat(a, [ret], final, claim, [], [mark], [mark]);
  }

  lemma StatementSegment(cx: Context, e: Expr, lits: seq<Value>, final: seq<Value>, claim: Claim)
    requires ExprOk(e) && ExprAssigns(cx, e) && ExprCode(cx, e, lits).lits <= final && Fitting(cx, final, claim)
    ensures Segment(ExprCode(cx, e, lits).code + [Pop], final, claim, [], [])
  {
    hide Segment, Fitting;
    var mark := ExprSegment(cx, e, lits, final, claim, []);
    assert [] + [mark] == [mark];
    SegmentOne(Pop, final, claim, [mark]);
    SegmentConcat(ExprCode(cx, e, lits).code, [Pop], final, claim, [], [mark], []);
  }

  /** Any code without field accesses, stores into arguments and super sends. */
  lemma PlainSegment(a: Instr, ret: Instr, final: seq<Value>, claim: Claim)
    requires a.PushGlobal? || a.PushArgument?
    requires IsReturn(ret)
    ensures Sound([a, ret], final, claim)
  {
    var ms := Track(a, final, claim.outer, []);
    SegmentOne(a, final, claim, []);
    ThenReturn([a], ret, final, claim, ms[0]);
    assert [a] + [ret] == [a, ret];
  }

  lemma {:induction false} BodySegment(cx: Context, b: Body, isBlock: bool, lits: seq<Value>, final: seq<Value>,
                                       claim: Claim)
    requires BodyOk(b) && BodyAssigns(cx, b) && BodyCode(cx, b, isBlock, lits).lits <= final &&
             Fitting(cx, final, claim)
    ensures Sound(BodyCode(cx, b, isBlock, lits).code, final, claim)
    decreases b
  {
    hide Segment, Sound, Fitting, ExprCode, Marks;
    BodyLits(cx, b, isBlock, lits);
    match b
    case Answer(e, _) =>
      ExprThenReturn(cx, e, lits, final, claim, if isBlock then ReturnNonLocal else ReturnLocal);
    case Finished =>
      var code := BodyCode(cx, b, isBlock, lits).code;
      PlainSegment(code[0], ReturnLocal, final, claim);
    case Last(e) =>
      if isBlock {
        ExprThenReturn(cx, e, lits, final, claim, ReturnLocal);
      } else {
        StatementSegment(cx, e, lits, final, claim);
        PlainSegment(PushArgument(0, 0), ReturnLocal, final, claim);
        SoundAfter(ExprCode(cx, e, lits).code + [Pop], RETURN_SELF, final, claim);
        assert ExprCode(cx, e, lits).code + [Pop] + RETURN_SELF == ExprCode(cx, e, lits).code + ([Pop] + RETURN_SELF);
      }
    case Then(e, rest) =>
      if isBlock && rest.Finished? {
        ExprThenReturn(cx, e, lits, final, claim, ReturnLocal);
      } else {
        var g := ExprCode(cx, e, lits);
        StatementSegment(cx, e, lits, final, claim);
        BodySegment(cx, rest, isBlock, g.lits, final, claim);
        SoundAfter(g.code + [Pop], BodyCode(cx, rest, isBlock, g.lits).code, final, claim);
      }
  }

  lemma ExprThenReturn(cx: Context, e: Expr, lits: seq<Value>, final: seq<Value>, claim: Claim, ret: Instr)
    requires ExprOk(e) && ExprAssigns(cx, e) && ExprCode(cx, e, lits).lits <= final && Fitting(cx, final, claim)
    requires IsReturn(ret)
    ensures Sound(ExprCode(cx, e, lits).code + [ret], final, claim)
  {
    hide Segment, Fitting, Sound;
    var mark := ExprSegment(cx, e, lits, final, claim, []);
    assert [] + [mark] == [mark];
    ThenReturn(ExprCode(cx, e, lits).code, ret, final, claim, mark);
  }

  // ----- compiled programs -----

  /** A compiled method or block is what its claim says. */
  lemma CompiledClaim(P: Program, code: nat)
    requires Good(P) && AllDeclare(P.src) && code in P.src
    ensures code in P.t && ClaimOk(P.t, ClaimsOf(P.src), code)
  {
    hide Segment, Marks, Good, InstrOk, SupersOk;
    var s := P.src[code];
    var lits := Compile(s).literals;
    CompiledFacts(P, code);
    EntryFacts(P, code);
    ScopesOfSource(P, code);
    assert Declares(s);
    BodySegment(s.Cx(), s.body, s.isBlock, [], lits, ClaimOf(s));
    SoundIs(Compile(s).code, lits, ClaimOf(s));
    if s.parent.Some? {
      SameFields(P, code);
    }
  }

  lemma SameFields(P: Program, code: nat)
    requires Good(P) && code in P.src && P.src[code].parent.Some?
    ensures P.src[code].parent.value in P.src && P.src[code].fields == P.src[P.src[code].parent.value].fields
  {
    assert SourceOk(P.src, code);
  }

  lemma SoundIs(code: seq<Instr>, final: seq<Value>, claim: Claim)
    requires Sound(code, final, claim)
    ensures SupersOk(code, final, claim.outer, []) && forall i | i in code :: InstrOk(i, final, claim)
  {
  }

  lemma CompiledClaims(P: Program)
    requires Good(P) && AllDeclare(P.src)
    ensures ClaimsOk(P.t, ClaimsOf(P.src))
  {
    hide Good, AllDeclare, ClaimOk;
    KeysAgree(P);
    forall code | code in P.t
      ensures ClaimOk(P.t, ClaimsOf(P.src), code)
    {
      CompiledClaim(P, code);
    }
  }

  /** The main method's receiver has its fields. */
  lemma StartSelf(P: Program, boot: nat, main: nat, args: seq<Value>)
    requires Startable(P, boot, main, args) && AllDeclare(P.src)
    requires HasFields(P.w, ClaimsOf(P.src)[main].fields, args[0])
    ensures SelfInv(P.w, P.t, ClaimsOf(P.src), Start(P, boot, main, args).frames)
  {
    hide Good, AllDeclare;
    KeysAgree(P);
    EntryFacts(P, main);
    var f := NewFrame(P.t, main, None, 0, args);
    var g := Start(P, boot, main, args).frames;
    assert g == [BootFrame(boot, args)] + [f];
    assert FrameSelf(P.w, P.t, ClaimsOf(P.src), g, 1, 0);
  }

  /** Names are declared, and the world finds methods where their fields are. */
  ghost predicate FieldsFit(P: Program, main: nat, args: seq<Value>) {
    && main in P.src && args != []
    && AllDeclare(P.src) && WorldHasFields(P.w, ClaimsOf(P.src))
    && HasFields(P.w, ClaimsOf(P.src)[main].fields, args[0])
  }

  /** A program that declares what it assigns, in a world that finds methods only where their fields are,
      runs without ever getting stuck. */
  lemma DeclaredFieldsAreFound(P: Program, boot: nat, main: nat, args: seq<Value>, n: nat)
    requires Startable(P, boot, main, args) && DepthsFit(P) && WorldOk(P.w, P.t)
    requires forall v | v in args :: !v.Closure?
    requires FieldsFit(P, main, args)
    ensures Run(P.w, P.t, Start(P, boot, main, args), n).status != Stuck
  {
    hide Good, DepthsFit, WorldOk, AllDeclare, WorldHasFields, SelfInv, ClaimsOk, Run, Inv, TableOk;
    CompiledTableOk(P);
    CompiledClaims(P);
    StartInv(P, boot, main, args);
    StartSelf(P, boot, main, args);
    GoodRuns(P.t, Start(P, boot, main, args));
    NeverStuck(P.w, P.t, ClaimsOf(P.src), Start(P, boot, main, args), n);
  }

  // ----- the only way to get stuck -----

  /** After k steps, the next one reads or writes a field that the receiver does not have. */
  ghost predicate FieldFaultAt(P: Program, boot: nat, main: nat, args: seq<Value>, k: nat) {
    var c := Run(P.w, P.t, Start(P, boot, main, args), k);
    c.Up() && c.Top().code in P.t && c.Top().pc < |P.t[c.Top().code].meth.code| && FieldFault(P.w, P.t, c, c.Top().pc)
  }

  /** Compiled programs do nothing undefined, but for such fields; and accessing one is undefined. */
  lemma {:induction false} StuckAtFields(P: Program, boot: nat, main: nat, args: seq<Value>, n: nat)
    requires Startable(P, boot, main, args) && DepthsFit(P) && WorldOk(P.w, P.t) && forall v | v in args :: !v.Closure?
    ensures Run(P.w, P.t, Start(P, boot, main, args), n).status == Stuck <==>
              exists k: nat | k < n :: FieldFaultAt(P, boot, main, args, k)
    decreases n
  {
    hide Good, DepthsFit, WorldOk, Start, Step, Inv, FieldFaultAt;
    var c0 := Start(P, boot, main, args);
    if n == 0 {
      StartInv(P, boot, main, args);
      GoodRuns(P.t, c0);
    } else {
      var c := Run(P.w, P.t, c0, n - 1);
      RunAdd(P.w, P.t, c0, n - 1, 1);
      assert Run(P.w, P.t, c, 1) == Step(P.w, P.t, c);
      StuckAtFields(P, boot, main, args, n - 1);
      NextFault(P, boot, main, args, n - 1);
      if c.status != Running {
        StaysStopped(P.w, P.t, c, 1);
      }
    }
  }

  /** The next step gets stuck exactly if it names such a field. */
  lemma NextFault(P: Program, boot: nat, main: nat, args: seq<Value>, k: nat)
    requires Startable(P, boot, main, args) && DepthsFit(P) && WorldOk(P.w, P.t) && forall v | v in args :: !v.Closure?
    ensures var c := Run(P.w, P.t, Start(P, boot, main, args), k);
            if c.status == Running
            then Step(P.w, P.t, c).status == Stuck <==> FieldFaultAt(P, boot, main, args, k)
            else !FieldFaultAt(P, boot, main, args, k)
  {
    hide Good, DepthsFit, WorldOk, Start, Step, Inv, Run, FieldFault;
    var c := Run(P.w, P.t, Start(P, boot, main, args), k);
    if c.status == Running {
      CompiledProgramsAreSafe(P, boot, main, args, k);
      CompiledTableOk(P);
      FaultIsStuck(P.w, P.t, c);
    }
  }

  lemma FaultIsStuck(w: World, t: Table, c: Config)
    requires TableOk(t) && WorldOk(w, t) && Inv(t, c)
    ensures Step(w, t, c).status == Stuck <==>
              c.Up() && c.Top().code in t && c.Top().pc < |t[c.Top().code].meth.code| &&
              FieldFault(w, t, c, c.Top().pc)
  {
    hide Step, FieldFault, Mid, FrameInv, ValuesInv, GoodHistory, TableOk, WorldOk, Height, AtHeight;
    StepIs(w, t, c);
    GoodRuns(t, Step(w, t, c));
    if c.current > 0 {
      var k := c.Top().pc;
      StepInv(w, t, c);
      AdvanceMid(t, c);
      SameFault(w, t, c);
      FaultFails(w, t, Advance(c), k);
    }
  }

  lemma FaultFails(w: World, t: Table, c: Config, k: nat)
    requires TableOk(t) && WorldOk(w, t) && Mid(t, c, k)
    ensures c.current < |c.frames|
    ensures FieldFault(w, t, c, k) ==> Execute(w, t, c, InstrAt(t, c, k), Lits(t, c)).status == Stuck
  {
    DoFieldInv(w, t, c, k);
  }
}

/** What parsing a phrase does: the code it appends, the literal table after it, and the methods it
    assembles for the blocks in it. */
module Emission {
  import opened Common
  import opened Syntax
  import opened Bytecodes
  import opened Signature
  import opened StackDepth
  import opened CodeGen
  import opened GenerationContext

  /** An assembled block method, by the id of its block. */
  type Made = seq<(nat, VMMethod)>

  /** The state of a method being generated, with all methods assembled so far. */
  datatype State = State(code: seq<Instr>, lits: seq<Value>, made: Made)

  datatype Work = Work(code: seq<Instr>, lits: seq<Value>, made: Made)

  function After(s: State, w: Work): State {
    State(s.code + w.code, w.lits, s.made + w.made)
  }

  ghost predicate AllFit(made: Made) {
    forall i | 0 <= i < |made| :: |made[i].1.bytecodes| <= GEN_BC_SIZE
  }

  /** Neither this method nor a block in the phrase gets too long. */
  ghost predicate CanDo(s: State, w: Work) {
    Fits(s.code + w.code) && AllFit(w.made)
  }

  /** The work was done, and it was done exactly if it could be. */
  ghost predicate Outcome(o: Status, s: State, t: State, w: Work) {
    (o.Done? <==> CanDo(s, w)) && (o.Done? ==> t == After(s, w))
  }

  function Join(v: Work, w: Work): Work {
    Work(v.code + w.code, w.lits, v.made + w.made)
  }

  /** Work in two parts. */
  lemma Joined(s: State, v: Work, w: Work)
    ensures CanDo(s, Join(v, w)) <==> CanDo(s, v) && CanDo(After(s, v), w)
    ensures After(s, Join(v, w)) == After(After(s, v), w)
  {
    hide Fits;
    var a := s.code + v.code;
    assert s.code + (v.code + w.code) == a + w.code;
    assert s.made + (v.made + w.made) == (s.made + v.made) + w.made;
    FitsPrefix(a, w.code);
    AllFitConcat(v.made, w.made);
  }

  lemma AllFitConcat(a: Made, b: Made)
    ensures AllFit(a + b) <==> AllFit(a) && AllFit(b)
  {
    if AllFit(a + b) {
      forall i | 0 <= i < |a|
        ensures |a[i].1.bytecodes| <= GEN_BC_SIZE
      {
        assert (a + b)[i] == a[i];
      }
      forall i | 0 <= i < |b|
        ensures |b[i].1.bytecodes| <= GEN_BC_SIZE
      {
        assert (a + b)[|a| + i] == b[i];
      }
    }
  }

  lemma JoinAssociates(u: Work, v: Work, w: Work)
    ensures Join(Join(u, v), w) == Join(u, Join(v, w))
  {
    assert (u.code + v.code) + w.code == u.code + (v.code + w.code);
    assert (u.made + v.made) + w.made == u.made + (v.made + w.made);
  }

  /** Nothing to do. */
  function Idle(lits: seq<Value>): Work {
    Work([], lits, [])
  }

  lemma IdleIsNeutral(w: Work, lits: seq<Value>)
    ensures Join(Idle(lits), w) == w
    ensures Join(w, Idle(w.lits)) == w
  {
  }

  lemma IdleDone(s: State)
    requires Fits(s.code)
    ensures CanDo(s, Idle(s.lits)) && After(s, Idle(s.lits)) == s
  {
    assert s.code + [] == s.code;
    assert s.made + [] == s.made;
  }

  /** One instruction. */
  function Emits(i: Instr, lits: seq<Value>): Work {
    Work([i], lits, [])
  }

  lemma EmittedOne(o: Status, s: State, t: State, i: Instr, lits: seq<Value>)
    requires o.Done? <==> Fits(s.code + [i])
    requires o.Done? ==> t == State(s.code + [i], lits, s.made)
    ensures Outcome(o, s, t, Emits(i, lits))
  {
    assert s.made + [] == s.made;
  }

  function Only(g: Gen): Work {
    Work(g.code, g.lits, [])
  }

  // ----- methods assembled for the blocks of a phrase, in order -----

  /** The methods assembled for one block: those of the blocks inside it, then its own. */
  function BlockMade(cx: Context, p: Primary): Made
    requires p.Block?
    decreases p, 0
  {
    var src := BlockSource(p, cx, 0);
    BodyMade(src.Cx(), p.body) + [(p.id, Image(Compile(src)))]
  }

  function PrimaryMade(cx: Context, p: Primary): Made
    decreases p, 1
  {
    match p
    case Nested(term) => ExprMade(cx, term)
    case Block(_, _, _, _) => BlockMade(cx, p)
    case _ => []
  }

  function OperandMade(cx: Context, o: Operand): Made
    decreases o, 0
  {
    PrimaryMade(cx, o.head)
  }

  function BinariesMade(cx: Context, bs: Binaries): Made
    decreases bs, 0
  {
    if bs.NoBinary? then [] else OperandMade(cx, bs.arg) + BinariesMade(cx, bs.rest)
  }

  function FormulaMade(cx: Context, f: Formula): Made
    decreases f, 0
  {
    OperandMade(cx, f.operand) + BinariesMade(cx, f.binaries)
  }

  function KeywordsMade(cx: Context, ks: Keywords): Made
    decreases ks, 0
  {
    if ks.NoKeyword? then [] else FormulaMade(cx, ks.arg) + KeywordsMade(cx, ks.tail)
  }

  function ExprMade(cx: Context, e: Expr): Made
    decreases e, 1
  {
    FormulaMade(cx, e.formula) + KeywordsMade(cx, e.keywords)
  }

  function BodyMade(cx: Context, b: Body): Made
    decreases b, 0
  {
    match b
    case Answer(e, _) => ExprMade(cx, e)
    case Finished => []
    case Last(e) => ExprMade(cx, e)
    case Then(e, rest) => ExprMade(cx, e) + BodyMade(cx, rest)
  }

  // ----- the work of each phrase -----

  function With(g: Gen, made: Made): Work {
    Work(g.code, g.lits, made)
  }

  function PrimaryWork(cx: Context, p: Primary, lits: seq<Value>): Work {
    With(PrimaryCode(cx, p, lits), PrimaryMade(cx, p))
  }

  function UnariesWork(us: Unaries, toSuper: bool, lits: seq<Value>): Work {
    Only(UnariesCode(us, toSuper, lits))
  }

  function OperandWork(cx: Context, o: Operand, lits: seq<Value>): Work {
    With(OperandCode(cx, o, lits), OperandMade(cx, o))
  }

  function BinariesWork(cx: Context, bs: Binaries, toSuper: bool, lits: seq<Value>): Work {
    With(BinariesCode(cx, bs, toSuper, lits), BinariesMade(cx, bs))
  }

  function FormulaWork(cx: Context, f: Formula, lits: seq<Value>): Work {
    With(FormulaCode(cx, f, lits), FormulaMade(cx, f))
  }

  function KeywordArgsWork(cx: Context, ks: Keywords, lits: seq<Value>): Work {
    With(KeywordArgsCode(cx, ks, lits), KeywordsMade(cx, ks))
  }

  function KeywordMessageWork(cx: Context, ks: Keywords, toSuper: bool, lits: seq<Value>): Work {
    With(KeywordMessageCode(cx, ks, toSuper, lits), KeywordsMade(cx, ks))
  }

  function EvaluationWork(cx: Context, e: Expr, lits: seq<Value>): Work {
    With(EvaluationCode(cx, e, lits), ExprMade(cx, e))
  }

  function ExprWork(cx: Context, e: Expr, lits: seq<Value>): Work {
    With(ExprCode(cx, e, lits), ExprMade(cx, e))
  }

  /** What `messages` does after a primary. */
  function MessagesWork(cx: Context, us: Unaries, bs: Binaries, ks: Keywords, toSuper: bool, lits: seq<Value>): Work {
    var u := UnariesWork(us, toSuper, lits);
    var b := BinariesWork(cx, bs, toSuper && us.NoUnary?, u.lits);
    var k := KeywordMessageWork(cx, ks, toSuper && us.NoUnary? && bs.NoBinary?, b.lits);
    Join(u, Join(b, k))
  }

  // ----- phrases in parts -----

  lemma UnariesParts(us: Unaries, toSuper: bool, lits: seq<Value>)
    requires us.Unary?
    ensures var lits' := AddIfAbsent(lits, SymV(us.sel));
            UnariesWork(us, toSuper, lits) ==
            Join(Emits(Message(us.sel, toSuper, lits'), lits'), UnariesWork(us.more, false, lits'))
  {
  }

  lemma OperandParts(cx: Context, o: Operand, lits: seq<Value>)
    ensures var p := PrimaryWork(cx, o.head, lits);
            OperandWork(cx, o, lits) == Join(p, UnariesWork(o.unaries, IsSuper(o.head), p.lits))
  {
  }

  lemma BinariesParts(cx: Context, bs: Binaries, toSuper: bool, lits: seq<Value>)
    requires bs.Binary?
    ensures var a := OperandWork(cx, bs.arg, AddIfAbsent(lits, SymV(bs.sel)));
            var m := Emits(Message(bs.sel, toSuper, a.lits), a.lits);
            BinariesWork(cx, bs, toSuper, lits) == Join(Join(a, m), BinariesWork(cx, bs.rest, false, a.lits))
  {
  }

  lemma FormulaParts(cx: Context, f: Formula, lits: seq<Value>)
    ensures var p := OperandWork(cx, f.operand, lits);
            FormulaWork(cx, f, lits) == Join(p, BinariesWork(cx, f.binaries, PendingSuper(f.operand), p.lits))
  {
  }

  lemma KeywordArgsParts(cx: Context, ks: Keywords, lits: seq<Value>)
    requires ks.KeywordPart?
    ensures var a := FormulaWork(cx, ks.arg, lits);
            KeywordArgsWork(cx, ks, lits) == Join(a, KeywordArgsWork(cx, ks.tail, a.lits))
  {
  }

  lemma KeywordMessageParts(cx: Context, ks: Keywords, toSuper: bool, lits: seq<Value>)
    requires ks.KeywordPart?
    ensures var a := KeywordArgsWork(cx, ks, lits);
            var sel := Concat(KeywordList(ks));
            var lits' := AddIfAbsent(a.lits, SymV(sel));
            KeywordMessageWork(cx, ks, toSuper, lits) == Join(a, Emits(Message(sel, toSuper, lits'), lits'))
  {
  }

  lemma EvaluationParts(cx: Context, e: Expr, lits: seq<Value>)
    ensures var p := PrimaryWork(cx, e.formula.operand.head, lits);
            EvaluationWork(cx, e, lits) ==
            Join(p, MessagesWork(cx, e.formula.operand.unaries, e.formula.binaries, e.keywords,
                                 IsSuper(e.formula.operand.head), p.lits))
  {
    var o, bs, ks := e.formula.operand, e.formula.binaries, e.keywords;
    var p := PrimaryWork(cx, o.head, lits);
    var u := UnariesWork(o.unaries, IsSuper(o.head), p.lits);
    var b := BinariesWork(cx, bs, PendingSuper(o), u.lits);
    var k := KeywordMessageWork(cx, ks, KeywordToSuper(e), b.lits);
    OperandParts(cx, o, lits);
    FormulaParts(cx, e.formula, lits);
    assert EvaluationWork(cx, e, lits) == Join(FormulaWork(cx, e.formula, lits), k);
    JoinAssociates(Join(p, u), b, k);
    JoinAssociates(p, u, Join(b, k));
  }

  /** The value is copied once per target, and stored in each. */
  lemma ExprParts(cx: Context, e: Expr, lits: seq<Value>)
    ensures var v := EvaluationWork(cx, e, AddTargets(e.targets, lits));
            ExprWork(cx, e, lits) ==
            Join(v, Work(Dups(|e.targets|) + PopTargets(cx, e.targets, v.lits), v.lits, []))
  {
    var v := EvaluationWork(cx, e, AddTargets(e.targets, lits));
    assert v.code + Dups(|e.targets|) + PopTargets(cx, e.targets, v.lits)
        == v.code + (Dups(|e.targets|) + PopTargets(cx, e.targets, v.lits));
    assert v.made + [] == v.made;
  }

  /** The literal table before the work does not matter for whether it can be done. */
  lemma SameCode(s: State, t: State, w: Work)
    requires t.code == s.code && t.made == s.made
    ensures CanDo(s, w) <==> CanDo(t, w)
    ensures After(s, w) == After(t, w)
  {
  }

  // ----- expressions are not empty -----

  lemma {:induction false} ExprNotEmpty(cx: Context, e: Expr, lits: seq<Value>)
    ensures |ExprCode(cx, e, lits).code| > 0
    decreases e, 1
  {
    var start := AddTargets(e.targets, lits);
    PrimaryNotEmpty(cx, e.formula.operand.head, start);
    assert |OperandCode(cx, e.formula.operand, start).code| > 0;
    assert |FormulaCode(cx, e.formula, start).code| > 0;
    assert |EvaluationCode(cx, e, start).code| > 0;
  }

  lemma {:induction false} PrimaryNotEmpty(cx: Context, p: Primary, lits: seq<Value>)
    ensures |PrimaryCode(cx, p, lits).code| > 0
    decreases p, 0
  {
    match p
    case Nested(term) => ExprNotEmpty(cx, term, lits);
    case _ =>
  }

  // ----- bodies -----

  /** The body ends in an expression without a period, and so without a return. */
  predicate Open(b: Body) {
    b.Last? || (b.Then? && Open(b.following))
  }

  /** What `methodBlock` and `nestedBlock` add to an open body. */
  function Epilogue(isBlock: bool): seq<Instr> {
    if isBlock then [ReturnLocal] else [Pop] + RETURN_SELF
  }

  /** What `blockBody` emits: the body without the epilogue. */
  function PartCode(cx: Context, b: Body, isBlock: bool, lits: seq<Value>): Gen {
    match b
    case Answer(_, _) => BodyCode(cx, b, isBlock, lits)
    case Finished => BodyCode(cx, b, isBlock, lits)
    case Last(e) => ExprCode(cx, e, lits)
    case Then(e, rest) =>
      var g := ExprCode(cx, e, lits);
      if isBlock && rest.Finished? then Gen(g.code + [ReturnLocal], g.lits)
      else
        var h := PartCode(cx, rest, isBlock, g.lits);
        Gen(g.code + [Pop] + h.code, h.lits)
  }

  lemma {:induction false} BodyInParts(cx: Context, b: Body, isBlock: bool, lits: seq<Value>)
    ensures BodyCode(cx, b, isBlock, lits).lits == PartCode(cx, b, isBlock, lits).lits
    ensures BodyCode(cx, b, isBlock, lits).code
         == PartCode(cx, b, isBlock, lits).code + if Open(b) then Epilogue(isBlock) else []
    decreases b
  {
    hide ExprCode;
    match b
    case Answer(_, _) =>
    case Finished =>
    case Last(_) =>
    case Then(e, rest) =>
      var g := ExprCode(cx, e, lits);
      if !(isBlock && rest.Finished?) {
        BodyInParts(cx, rest, isBlock, g.lits);
      }
  }

  function PartWork(cx: Context, b: Body, isBlock: bool, lits: seq<Value>): Work {
    With(PartCode(cx, b, isBlock, lits), BodyMade(cx, b))
  }

  lemma AnswerParts(cx: Context, b: Body, isBlock: bool, lits: seq<Value>)
    requires b.Answer?
    ensures var g := ExprWork(cx, b.result, lits);
            PartWork(cx, b, isBlock, lits) == Join(g, Emits(if isBlock then ReturnNonLocal else ReturnLocal, g.lits))
  {
  }

  lemma LastParts(cx: Context, b: Body, isBlock: bool, lits: seq<Value>)
    requires b.Last?
    ensures PartWork(cx, b, isBlock, lits) == ExprWork(cx, b.value, lits)
  {
  }

  /** What follows a statement: a POP and the rest, or, before the end of a block, the elided POP. */
  function FollowWork(cx: Context, rest: Body, isBlock: bool, lits: seq<Value>): Work {
    if isBlock && rest.Finished? then Emits(ReturnLocal, lits)
    else Join(Emits(Pop, lits), PartWork(cx, rest, isBlock, lits))
  }

  lemma ThenParts(cx: Context, b: Body, isBlock: bool, lits: seq<Value>)
    requires b.Then?
    ensures var g := ExprWork(cx, b.first, lits);
            PartWork(cx, b, isBlock, lits) == Join(g, FollowWork(cx, b.following, isBlock, g.lits))
  {
    var g := ExprWork(cx, b.first, lits);
    if isBlock && b.following.Finished? {
      assert BodyMade(cx, b.following) == [];
      assert PartCode(cx, b, true, lits) == Gen(g.code + [ReturnLocal], g.lits);
    } else {
      var h := PartCode(cx, b.following, isBlock, g.lits);
      assert g.code + [Pop] + h.code == g.code + ([Pop] + h.code);
      assert [] + BodyMade(cx, b.following) == BodyMade(cx, b.following);
    }
  }

  /** One-byte instructions fit alike. */
  lemma ElidedFits(code: seq<Instr>)
    ensures Fits(code + [Pop]) <==> Fits(code + [ReturnLocal])
  {
    EncodeOne(code, Pop);
    EncodeOne(code, ReturnLocal);
  }

  lemma EmptyBlockParts(cx: Context, lits: seq<Value>)
    ensures var lits' := AddIfAbsent(lits, SymV("nil"));
            PartWork(cx, Finished, true, lits) ==
            Join(Emits(PushGlobal(LitIndex(lits', SymV("nil"))), lits'), Emits(ReturnLocal, lits'))
  {
  }

  lemma EmptyMethodParts(cx: Context, lits: seq<Value>)
    ensures PartWork(cx, Finished, false, lits) == Join(Emits(PushArgument(0, 0), lits), Emits(ReturnLocal, lits))
  {
  }

  // ----- whole methods and blocks -----

  function BodyWork(cx: Context, b: Body, isBlock: bool, lits: seq<Value>): Work {
    With(BodyCode(cx, b, isBlock, lits), BodyMade(cx, b))
  }

  lemma ClosedWork(cx: Context, b: Body, isBlock: bool, lits: seq<Value>)
    requires !Open(b)
    ensures BodyWork(cx, b, isBlock, lits) == PartWork(cx, b, isBlock, lits)
  {
    BodyInParts(cx, b, isBlock, lits);
  }

  lemma OpenBlockWork(cx: Context, b: Body, lits: seq<Value>)
    requires Open(b)
    ensures var g := PartWork(cx, b, true, lits);
            BodyWork(cx, b, true, lits) == Join(g, Emits(ReturnLocal, g.lits))
    ensures |PartCode(cx, b, true, lits).code| > 0
  {
    BodyInParts(cx, b, true, lits);
    if b.Last? {
      ExprNotEmpty(cx, b.value, lits);
    }
    var g := PartWork(cx, b, true, lits);
    assert g.made + [] == g.made;
  }

  lemma OpenMethodWork(cx: Context, b: Body, lits: seq<Value>)
    requires Open(b)
    ensures var g := PartWork(cx, b, false, lits);
            BodyWork(cx, b, false, lits) ==
            Join(g, Join(Emits(Pop, g.lits), Join(Emits(PushArgument(0, 0), g.lits), Emits(ReturnLocal, g.lits))))
  {
    BodyInParts(cx, b, false, lits);
    var g := PartWork(cx, b, false, lits);
    assert g.made + [] == g.made;
  }

  /** A block's own method is assembled after those of the blocks in it. */
  lemma BlockWork(cx: Context, p: Primary, lits: seq<Value>)
    requires p.Block?
    ensures var lits' := lits + [CodeV(p.id)];
            PrimaryWork(cx, p, lits) == Work([PushBlock(LitIndex(lits', CodeV(p.id)))], lits', BlockMade(cx, p))
  {
    var lits' := lits + [CodeV(p.id)];
    assert PrimaryMade(cx, p) == BlockMade(cx, p);
    assert PrimaryCode(cx, p, lits) == Gen([PushBlock(LitIndex(lits', CodeV(p.id)))], lits');
  }

  lemma BlockMadeIs(cx: Context, p: Primary, src: Source)
    requires p.Block? && src == BlockSource(p, cx, 0)
    ensures BlockMade(cx, p) == BodyMade(src.Cx(), p.body) + [(p.id, Image(Compile(src)))]
    ensures AllFit(BlockMade(cx, p)) <==> AllFit(BodyMade(src.Cx(), p.body)) && Fits(Compile(src).code)
    ensures Compile(src).code == BodyWork(src.Cx(), p.body, true, []).code
    ensures Image(Compile(src)) ==
            VMMethod(src.signature, |src.locals|, Scan(Compile(src).code, Compile(src).literals, 0, 0),
                     BodyWork(src.Cx(), p.body, true, []).lits, Encode(Compile(src).code))
    ensures Compile(src).literals == BodyWork(src.Cx(), p.body, true, []).lits
  {
    AllFitConcat(BodyMade(src.Cx(), p.body), [(p.id, Image(Compile(src)))]);
    assert [(p.id, Image(Compile(src)))][0].1.bytecodes == Encode(Compile(src).code);
  }
}

/** All methods and blocks written in a text: which sources they are, that each is assembled, and that
    a text as the lexer delivers it makes up a well-formed program. */
module Listing {
  import opened Common
  import opened Syntax
  import opened Signature
  import opened CodeGen
  import opened CodeOperands
  import opened CodeShape
  import opened GenerationContext
  import opened Grammar
  import opened Emission

  /** Sources, each with the id its method object is named by. */
  type Listed = seq<(nat, Source)>

  // ----- the blocks of a phrase with all blocks in them, in the order they are assembled -----

  function BlockListed(cx: Context, p: Primary, parent: nat): Listed
    requires p.Block?
    decreases p, 0
  {
    var src := BlockSource(p, cx, parent);
    BodyListed(src.Cx(), p.body, p.id) + [(p.id, src)]
  }

  function PrimaryListed(cx: Context, p: Primary, parent: nat): Listed
    decreases p, 1
  {
    match p
    case Nested(term) => ExprListed(cx, term, parent)
    case Block(_, _, _, _) => BlockListed(cx, p, parent)
    case _ => []
  }

  function BinariesListed(cx: Context, bs: Binaries, parent: nat): Listed
    decreases bs, 0
  {
    if bs.NoBinary? then [] else PrimaryListed(cx, bs.arg.head, parent) + BinariesListed(cx, bs.rest, parent)
  }

  function FormulaListed(cx: Context, f: Formula, parent: nat): Listed
    decreases f, 0
  {
    PrimaryListed(cx, f.operand.head, parent) + BinariesListed(cx, f.binaries, parent)
  }

  function KeywordsListed(cx: Context, ks: Keywords, parent: nat): Listed
    decreases ks, 0
  {
    if ks.NoKeyword? then [] else FormulaListed(cx, ks.arg, parent) + KeywordsListed(cx, ks.tail, parent)
  }

  function ExprListed(cx: Context, e: Expr, parent: nat): Listed
    decreases e, 1
  {
    FormulaListed(cx, e.formula, parent) + KeywordsListed(cx, e.keywords, parent)
  }

  function BodyListed(cx: Context, b: Body, parent: nat): Listed
    decreases b, 0
  {
    match b
    case Answer(e, _) => ExprListed(cx, e, parent)
    case Finished => []
    case Last(e) => ExprListed(cx, e, parent)
    case Then(e, rest) => ExprListed(cx, e, parent) + BodyListed(cx, rest, parent)
  }

  // ----- every block is assembled -----

  /** The method objects of the listed sources. */
  function Images(l: Listed): Made {
    if l == [] then [] else [(l[0].0, Image(Compile(l[0].1)))] + Images(l[1..])
  }

  lemma {:induction false} ImagesConcat(a: Listed, b: Listed)
    ensures Images(a + b) == Images(a) + Images(b)
  {
    hide Image, Compile;
    if a == [] {
      assert a + b == b;
    } else {
      ImagesConcat(a[1..], b);
      assert (a + b)[1..] == a[1..] + b && (a + b)[0] == a[0];
    }
  }

  lemma {:induction false} PrimaryAssembled(cx: Context, p: Primary, parent: nat)
    ensures Images(PrimaryListed(cx, p, parent)) == PrimaryMade(cx, p)
    decreases p, 0
  {
    match p
    case Nested(term) => ExprAssembled(cx, term, parent);
    case Block(id, _, _, body) =>
      var src := BlockSource(p, cx, parent);
      BodyAssembled(src.Cx(), body, id);
      ImagesConcat(BodyListed(src.Cx(), body, id), [(id, src)]);
      assert Image(Compile(src)) == Image(Compile(BlockSource(p, cx, 0)));
      assert Images([(id, src)]) == [(id, Image(Compile(src)))];
    case _ =>
  }

  lemma {:induction false} BinariesAssembled(cx: Context, bs: Binaries, parent: nat)
    ensures Images(BinariesListed(cx, bs, parent)) == BinariesMade(cx, bs)
    decreases bs, 0
  {
    if bs.Binary? {
      PrimaryAssembled(cx, bs.arg.head, parent);
      BinariesAssembled(cx, bs.rest, parent);
      ImagesConcat(PrimaryListed(cx, bs.arg.head, parent), BinariesListed(cx, bs.rest, parent));
    }
  }

  lemma {:induction false} FormulaAssembled(cx: Context, f: Formula, parent: nat)
    ensures Images(FormulaListed(cx, f, parent)) == FormulaMade(cx, f)
    decreases f, 0
  {
    PrimaryAssembled(cx, f.operand.head, parent);
    BinariesAssembled(cx, f.binaries, parent);
    ImagesConcat(PrimaryListed(cx, f.operand.head, parent), BinariesListed(cx, f.binaries, parent));
  }

  lemma {:induction false} KeywordsAssembled(cx: Context, ks: Keywords, parent: nat)
    ensures Images(KeywordsListed(cx, ks, parent)) == KeywordsMade(cx, ks)
    decreases ks, 0
  {
    if ks.KeywordPart? {
      FormulaAssembled(cx, ks.arg, parent);
      KeywordsAssembled(cx, ks.tail, parent);
      ImagesConcat(FormulaListed(cx, ks.arg, parent), KeywordsListed(cx, ks.tail, parent));
    }
  }

  lemma {:induction false} ExprAssembled(cx: Context, e: Expr, parent: nat)
    ensures Images(ExprListed(cx, e, parent)) == ExprMade(cx, e)
    decreases e, 1
  {
    FormulaAssembled(cx, e.formula, parent);
    KeywordsAssembled(cx, e.keywords, parent);
    ImagesConcat(FormulaListed(cx, e.formula, parent), KeywordsListed(cx, e.keywords, parent));
  }

  /** What is assembled with a body are the compiled sources of its blocks and of the blocks in them,
      one each, in order; the method the body belongs to makes no difference. */
  lemma {:induction false} BodyAssembled(cx: Context, b: Body, parent: nat)
    ensures Images(BodyListed(cx, b, parent)) == BodyMade(cx, b)
    decreases b, 0
  {
    match b
    case Answer(e, _) => ExprAssembled(cx, e, parent);
    case Finished =>
    case Last(e) => ExprAssembled(cx, e, parent);
    case Then(e, rest) =>
      ExprAssembled(cx, e, parent);
      BodyAssembled(cx, rest, parent);
      ImagesConcat(ExprListed(cx, e, parent), BodyListed(cx, rest, parent));
  }

  // ----- the nesting of the listed sources -----

  /** The scopes and fields of a block are those of the listed source it stands in. */
  predicate InsideOf(s: Source, e: (nat, Source)) {
    s.parent == Some(e.0) && s.outer == e.1.Cx().scopes && s.fields == e.1.fields
  }

  /** A block stands in the given method, or in another of the list. */
  ghost predicate StandsIn(s: Source, l: Listed, cx: Context, parent: nat) {
    && s.isBlock && |s.args| <= Arity(s.signature)
    && ((s.parent == Some(parent) && s.outer == cx.scopes && s.fields == cx.fields)
        || exists e | e in l :: InsideOf(s, e))
  }

  /** The blocks directly in a source are in the list. */
  ghost predicate HasBlocks(l: Listed, blocks: set<Primary>, cx: Context, parent: nat) {
    forall b | b in blocks :: b.Block? && (b.id, BlockSource(b, cx, parent)) in l
  }

  ghost predicate Nest(l: Listed, blocks: set<Primary>, cx: Context, parent: nat) {
    && HasBlocks(l, blocks, cx, parent)
    && (forall e | e in l :: StandsIn(e.1, l, cx, parent))
    && (forall e | e in l :: HasBlocks(l, BodyBlocks(e.1.body), e.1.Cx(), e.0))
  }

  lemma NestConcat(a: Listed, b: Listed, x: set<Primary>, y: set<Primary>, cx: Context, parent: nat)
    requires Nest(a, x, cx, parent) && Nest(b, y, cx, parent)
    ensures Nest(a + b, x + y, cx, parent)
  {
    hide BlockSource, BodyBlocks, Arity;
    forall e | e in a + b
      ensures StandsIn(e.1, a + b, cx, parent) && HasBlocks(a + b, BodyBlocks(e.1.body), e.1.Cx(), e.0)
    {
      if e in a {
        assert StandsIn(e.1, a, cx, parent);
      } else {
        assert StandsIn(e.1, b, cx, parent);
      }
    }
  }

  lemma NestBlock(l: Listed, p: Primary, cx: Context, parent: nat, src: Source)
    requires p.Block? && src == BlockSource(p, cx, parent) && Nest(l, BodyBlocks(p.body), src.Cx(), p.id)
    ensures Nest(l + [(p.id, src)], {p}, cx, parent)
  {
    hide BodyBlocks;
    BlockSignatureArity(|src.args|);
    assert src.isBlock && src.parent == Some(parent) && src.outer == cx.scopes && src.body == p.body;
    assert src.fields == cx.fields;
    hide BlockSource;
    var all := l + [(p.id, src)];
    forall e | e in all
      ensures StandsIn(e.1, all, cx, parent) && HasBlocks(all, BodyBlocks(e.1.body), e.1.Cx(), e.0)
    {
      if e in l {
        assert StandsIn(e.1, l, src.Cx(), p.id);
        assert (p.id, src) in all;
      }
    }
  }

  lemma {:induction false} PrimaryNest(cx: Context, p: Primary, parent: nat)
    ensures Nest(PrimaryListed(cx, p, parent), PrimaryBlocks(p), cx, parent)
    decreases p, 0
  {
    match p
    case Nested(term) => ExprNest(cx, term, parent);
    case Block(id, _, _, body) =>
      var src := BlockSource(p, cx, parent);
      BodyNest(src.Cx(), body, id);
      NestBlock(BodyListed(src.Cx(), body, id), p, cx, parent, src);
    case _ =>
  }

  lemma {:induction false} BinariesNest(cx: Context, bs: Binaries, parent: nat)
    ensures Nest(BinariesListed(cx, bs, parent), BinariesBlocks(bs), cx, parent)
    decreases bs, 0
  {
    if bs.Binary? {
      hide Nest;
      PrimaryNest(cx, bs.arg.head, parent);
      BinariesNest(cx, bs.rest, parent);
      NestConcat(PrimaryListed(cx, bs.arg.head, parent), BinariesListed(cx, bs.rest, parent),
                 PrimaryBlocks(bs.arg.head), BinariesBlocks(bs.rest), cx, parent);
    }
  }

  lemma {:induction false} FormulaNest(cx: Context, f: Formula, parent: nat)
    ensures Nest(FormulaListed(cx, f, parent), FormulaBlocks(f), cx, parent)
    decreases f, 0
  {
    hide Nest;
    PrimaryNest(cx, f.operand.head, parent);
    BinariesNest(cx, f.binaries, parent);
    NestConcat(PrimaryListed(cx, f.operand.head, parent), BinariesListed(cx, f.binaries, parent),
               PrimaryBlocks(f.operand.head), BinariesBlocks(f.binaries), cx, parent);
  }

  lemma {:induction false} KeywordsNest(cx: Context, ks: Keywords, parent: nat)
    ensures Nest(KeywordsListed(cx, ks, parent), KeywordsBlocks(ks), cx, parent)
    decreases ks, 0
  {
    if ks.KeywordPart? {
      hide Nest;
      FormulaNest(cx, ks.arg, parent);
      KeywordsNest(cx, ks.tail, parent);
      NestConcat(FormulaListed(cx, ks.arg, parent), KeywordsListed(cx, ks.tail, parent),
                 FormulaBlocks(ks.arg), KeywordsBlocks(ks.tail), cx, parent);
    }
  }

  lemma {:induction false} ExprNest(cx: Context, e: Expr, parent: nat)
    ensures Nest(ExprListed(cx, e, parent), ExprBlocks(e), cx, parent)
    decreases e, 1
  {
    hide Nest;
    FormulaNest(cx, e.formula, parent);
    KeywordsNest(cx, e.keywords, parent);
    NestConcat(FormulaListed(cx, e.formula, parent), KeywordsListed(cx, e.keywords, parent),
               FormulaBlocks(e.formula), KeywordsBlocks(e.keywords), cx, parent);
  }

  /** Every block of a body is listed, with the scopes it stands in; so are the blocks in it. */
  lemma {:induction false} BodyNest(cx: Context, b: Body, parent: nat)
    ensures Nest(BodyListed(cx, b, parent), BodyBlocks(b), cx, parent)
    decreases b, 0
  {
    match b
    case Answer(e, _) => ExprNest(cx, e, parent);
    case Finished =>
    case Last(e) => ExprNest(cx, e, parent);
    case Then(e, rest) =>
      hide Nest;
      ExprNest(cx, e, parent);
      BodyNest(cx, rest, parent);
      NestConcat(ExprListed(cx, e, parent), BodyListed(cx, rest, parent), ExprBlocks(e), BodyBlocks(rest), cx, parent);
  }

  // ----- reading them from tokens -----

  /** Selectors as the lexer delivers them. */
  predicate TokenOk(t: Token) {
    && (t.sym == Identifier ==> IsIdentifier(t.text))
    && (t.sym == Keyword ==> IsKeyword(t.text))
    && (IsBinaryToken(t.sym) ==> IsOperator(t.text))
  }

  predicate TokensOk(ts: Tokens) {
    forall t | t in ts :: TokenOk(t)
  }

  function Places(ts: Tokens): seq<nat> {
    seq(|ts|, i requires 0 <= i < |ts| => ts[i].id)
  }

  ghost function Ids(ts: Tokens): multiset<nat> {
    multiset(Places(ts))
  }

  lemma IdsConcat(a: Tokens, b: Tokens)
    ensures Ids(a + b) == Ids(a) + Ids(b)
  {
    assert Places(a + b) == Places(a) + Places(b);
  }

  lemma IdsCons(ts: Tokens)
    requires ts != []
    ensures Ids(ts) == multiset{ts[0].id} + Ids(ts[1..])
  {
    assert ts == ts[..1] + ts[1..];
    IdsConcat(ts[..1], ts[1..]);
    assert Places(ts[..1]) == [ts[0].id];
  }

  function Names(l: Listed): seq<nat> {
    seq(|l|, i requires 0 <= i < |l| => l[i].0)
  }

  ghost function Codes(l: Listed): multiset<nat> {
    multiset(Names(l))
  }

  lemma CodesConcat(a: Listed, b: Listed)
    ensures Codes(a + b) == Codes(a) + Codes(b)
  {
    assert Names(a + b) == Names(a) + Names(b);
  }

  predicate BodiesOk(l: Listed) {
    forall e | e in l :: BodyOk(e.1.body)
  }

  /** From ts to us, tokens are consumed that name the listed sources, one token each. */
  ghost predicate Reads(l: Listed, ts: Tokens, us: Tokens) {
    Codes(l) + Ids(us) <= Ids(ts) && (TokensOk(ts) ==> TokensOk(us) && BodiesOk(l))
  }

  lemma ReadsNothing(ts: Tokens)
    ensures Reads([], ts, ts)
  {
  }

  lemma ReadsToken(ts: Tokens)
    requires ts != []
    ensures Reads([], ts, ts[1..])
  {
    IdsCons(ts);
  }

  lemma ReadsThen(a: Listed, b: Listed, ts: Tokens, us: Tokens, vs: Tokens)
    requires Reads(a, ts, us) && Reads(b, us, vs)
    ensures Reads(a + b, ts, vs)
  {
    hide Codes, Ids, TokensOk, BodyOk;
    CodesConcat(a, b);
  }

  lemma ReadsOn(l: Listed, ts: Tokens, us: Tokens, vs: Tokens)
    requires Reads([], ts, us) && Reads(l, us, vs)
    ensures Reads(l, ts, vs)
  {
    ReadsThen([], l, ts, us, vs);
    assert [] + l == l;
  }

  lemma ReadsTokensOk(l: Listed, ts: Tokens, us: Tokens)
    requires Reads(l, ts, us)
    ensures TokensOk(ts) ==> TokensOk(us)
  {
  }

  lemma ReadTokensOk(ts: Tokens, us: Tokens, vs: Tokens)
    requires Reads([], ts, us) && Reads([], us, vs)
    ensures TokensOk(ts) ==> TokensOk(vs)
  {
  }

  lemma ReadsMore(l: Listed, ts: Tokens, us: Tokens)
    requires ts != [] && Reads(l, ts[1..], us)
    ensures Reads(l, ts, us)
  {
    ReadsToken(ts);
    ReadsOn(l, ts, ts[1..], us);
  }

  lemma ReadsLast(l: Listed, ts: Tokens, us: Tokens)
    requires Reads(l, ts, us) && us != []
    ensures Reads(l, ts, us[1..])
  {
    ReadsToken(us);
    ReadsThen(l, [], ts, us, us[1..]);
    assert l + [] == l;
  }

  lemma {:induction false} LiteralRead(lit: Literal, id: nat, ts: Tokens)
    requires EatLiteral(lit, id, ts).Some?
    ensures Reads([], ts, EatLiteral(lit, id, ts).value)
    decreases lit
  {
    hide Reads, TokensOk;
    ReadsToken(ts);
    match lit
    case Number(_, _, negative) =>
      if negative {
        ReadsLast([], ts, ts[1..]);
      }
    case Text(_) =>
    case SymbolLiteral(_, _) => ReadsLast([], ts, ts[1..]);
    case LiteralArray(elements) =>
      var us := ts[1..][1..];
      ReadsLast([], ts, ts[1..]);
      ElementsRead(elements, us);
      ReadsOn([], ts, us, EatElements(elements, us).value);
      ReadsLast([], ts, EatElements(elements, us).value);
  }

  lemma {:induction false} ElementsRead(elements: Elements, ts: Tokens)
    requires EatElements(elements, ts).Some?
    ensures Reads([], ts, EatElements(elements, ts).value)
    decreases elements
  {
    match elements
    case NoElement => ReadsNothing(ts);
    case Element(lit, id, more) =>
      var us := EatLiteral(lit, id, ts).value;
      LiteralRead(lit, id, ts);
      ElementsRead(more, us);
      ReadsOn([], ts, us, EatElements(more, us).value);
  }

  lemma {:induction false} NamesRead(names: seq<string>, ts: Tokens)
    requires EatNames(names, ts).Some?
    ensures Reads([], ts, EatNames(names, ts).value)
    decreases |names|
  {
    ReadsNothing(ts);
    if names != [] {
      NamesRead(names[1..], ts[1..]);
      ReadsMore([], ts, EatNames(names, ts).value);
    }
  }

  lemma {:induction false} ParamsRead(params: seq<string>, ts: Tokens)
    requires EatParams(params, ts).Some?
    ensures Reads([], ts, EatParams(params, ts).value)
    decreases |params|
  {
    ReadsNothing(ts);
    if params != [] {
      ParamsRead(params[1..], ts[1..][1..]);
      ReadsMore([], ts[1..], EatParams(params, ts).value);
      ReadsMore([], ts, EatParams(params, ts).value);
    }
  }

  lemma {:induction false} TargetsRead(targets: seq<string>, ts: Tokens)
    requires EatTargets(targets, ts).Some?
    ensures Reads([], ts, EatTargets(targets, ts).value)
    decreases |targets|
  {
    ReadsNothing(ts);
    if targets != [] {
      TargetsRead(targets[1..], ts[1..][1..]);
      ReadsMore([], ts[1..], EatTargets(targets, ts).value);
      ReadsMore([], ts, EatTargets(targets, ts).value);
    }
  }

  lemma PatternRead(params: seq<string>, ts: Tokens)
    requires EatPattern(params, ts).Some?
    ensures Reads([], ts, EatPattern(params, ts).value)
  {
    ReadsNothing(ts);
    if params != [] {
      ParamsRead(params, ts);
      ReadsLast([], ts, EatParams(params, ts).value);
    }
  }

  lemma LocalsRead(locals: Locals, ts: Tokens)
    requires EatLocals(locals, ts).Some?
    ensures Reads([], ts, EatLocals(locals, ts).value)
  {
    ReadsNothing(ts);
    if locals.Locals? {
      NamesRead(locals.names, ts[1..]);
      ReadsMore([], ts, EatNames(locals.names, ts[1..]).value);
      ReadsLast([], ts, EatNames(locals.names, ts[1..]).value);
    }
  }

  lemma {:induction false} UnariesRead(us: Unaries, ts: Tokens)
    requires EatUnaries(us, ts).Some?
    ensures Reads([], ts, EatUnaries(us, ts).value) && (TokensOk(ts) ==> UnariesOk(us))
    decreases us
  {
    ReadsNothing(ts);
    if us.Unary? {
      ReadsToken(ts);
      assert TokensOk(ts) ==> TokenOk(ts[0]);
      UnariesRead(us.more, ts[1..]);
      ReadsMore([], ts, EatUnaries(us, ts).value);
    }
  }

  lemma {:induction false} PrimaryRead(cx: Context, p: Primary, parent: nat, ts: Tokens)
    requires EatPrimary(p, ts).Some?
    ensures Reads(PrimaryListed(cx, p, parent), ts, EatPrimary(p, ts).value) && (TokensOk(ts) ==> PrimaryOk(p))
    decreases p, 1
  {
    hide Reads, TokensOk;
    match p
    case Variable(_) => ReadsToken(ts);
    case Nested(term) =>
      var us := EatExpr(term, ts[1..]).value;
      ExprRead(cx, term, parent, ts[1..]);
      ReadsMore(ExprListed(cx, term, parent), ts, us);
      ReadsLast(ExprListed(cx, term, parent), ts, us);
      TokensLeft(ts);
    case Block(_, _, _, _) => BlockRead(cx, p, parent, ts);
    case LiteralNode(lit, id) => LiteralRead(lit, id, ts);
  }

  lemma TokensLeft(ts: Tokens)
    requires ts != []
    ensures TokensOk(ts) ==> TokenOk(ts[0]) && TokensOk(ts[1..])
  {
  }

  lemma {:induction false} BlockRead(cx: Context, p: Primary, parent: nat, ts: Tokens)
    requires p.Block? && EatPrimary(p, ts).Some?
    ensures Reads(BlockListed(cx, p, parent), ts, EatPrimary(p, ts).value)
    decreases p, 0
  {
    hide Reads, Codes, Ids, TokensOk, EatBody, EatPattern, EatLocals;
    var src := BlockSource(p, cx, parent);
    var l := BodyListed(src.Cx(), p.body, p.id);
    var us := EatPattern(p.params, ts[1..]).value;
    var vs := EatLocals(p.locals, us).value;
    var ws := EatBody(p.body, EndBlock, vs).value;
    PatternRead(p.params, ts[1..]);
    LocalsRead(p.locals, us);
    BodyRead(src.Cx(), p.body, p.id, EndBlock, vs);
    ReadsOn(l, us, vs, ws);
    ReadsOn(l, ts[1..], us, ws);
    ReadsLast(l, ts[1..], ws);
    ReadTokensOk(ts[1..], us, vs);
    ReadsNamed(l, src, ts, ws[1..]);
  }

  /** The first token names the source around the listed ones. */
  lemma ReadsNamed(l: Listed, src: Source, ts: Tokens, us: Tokens)
    requires ts != [] && Reads(l, ts[1..], us) && (TokensOk(ts[1..]) ==> BodyOk(src.body))
    ensures Reads(l + [(ts[0].id, src)], ts, us)
  {
    hide BodyOk;
    var own := [(ts[0].id, src)];
    CodesConcat(l, own);
    assert Names(own) == [ts[0].id];
    IdsCons(ts);
    TokensLeft(ts);
    hide TokensOk;
  }

  lemma {:induction false} OperandRead(cx: Context, o: Operand, parent: nat, ts: Tokens)
    requires EatOperand(o, ts).Some?
    ensures Reads(PrimaryListed(cx, o.head, parent), ts, EatOperand(o, ts).value) && (TokensOk(ts) ==> OperandOk(o))
    decreases o, 0
  {
    var us := EatPrimary(o.head, ts).value;
    var l := PrimaryListed(cx, o.head, parent);
    PrimaryRead(cx, o.head, parent, ts);
    UnariesRead(o.unaries, us);
    ReadsThen(l, [], ts, us, EatUnaries(o.unaries, us).value);
    assert l + [] == l;
  }

  lemma {:induction false} BinariesRead(cx: Context, bs: Binaries, parent: nat, ts: Tokens)
    requires EatBinaries(bs, ts).Some?
    ensures Reads(BinariesListed(cx, bs, parent), ts, EatBinaries(bs, ts).value) && (TokensOk(ts) ==> BinariesOk(bs))
    decreases bs, 0
  {
    hide Reads, TokensOk, Codes, Ids;
    ReadsNothing(ts);
    if bs.Binary? {
      var us := EatOperand(bs.arg, ts[1..]).value;
      OperandRead(cx, bs.arg, parent, ts[1..]);
      BinariesRead(cx, bs.rest, parent, us);
      TokensLeft(ts);
      ReadsTokensOk(PrimaryListed(cx, bs.arg.head, parent), ts[1..], us);
      ReadsThen(PrimaryListed(cx, bs.arg.head, parent), BinariesListed(cx, bs.rest, parent), ts[1..], us,
                EatBinaries(bs, ts).value);
      ReadsMore(BinariesListed(cx, bs, parent), ts, EatBinaries(bs, ts).value);
    }
  }

  lemma {:induction false} FormulaRead(cx: Context, f: Formula, parent: nat, ts: Tokens)
    requires EatFormula(f, ts).Some?
    ensures Reads(FormulaListed(cx, f, parent), ts, EatFormula(f, ts).value) && (TokensOk(ts) ==> FormulaOk(f))
    decreases f, 0
  {
    var us := EatOperand(f.operand, ts).value;
    OperandRead(cx, f.operand, parent, ts);
    BinariesRead(cx, f.binaries, parent, us);
    ReadsThen(PrimaryListed(cx, f.operand.head, parent), BinariesListed(cx, f.binaries, parent), ts, us,
              EatFormula(f, ts).value);
  }

  lemma {:induction false} KeywordsRead(cx: Context, ks: Keywords, parent: nat, ts: Tokens)
    requires EatKeywords(ks, ts).Some?
    ensures Reads(KeywordsListed(cx, ks, parent), ts, EatKeywords(ks, ts).value) && (TokensOk(ts) ==> KeywordsOk(ks))
    decreases ks, 0
  {
    hide Reads, TokensOk, Codes, Ids;
    ReadsNothing(ts);
    if ks.KeywordPart? {
      var us := EatFormula(ks.arg, ts[1..]).value;
      FormulaRead(cx, ks.arg, parent, ts[1..]);
      KeywordsRead(cx, ks.tail, parent, us);
      TokensLeft(ts);
      ReadsTokensOk(FormulaListed(cx, ks.arg, parent), ts[1..], us);
      ReadsThen(FormulaListed(cx, ks.arg, parent), KeywordsListed(cx, ks.tail, parent), ts[1..], us,
                EatKeywords(ks, ts).value);
      ReadsMore(KeywordsListed(cx, ks, parent), ts, EatKeywords(ks, ts).value);
    }
  }

  lemma {:induction false} ExprRead(cx: Context, e: Expr, parent: nat, ts: Tokens)
    requires EatExpr(e, ts).Some?
    ensures Reads(ExprListed(cx, e, parent), ts, EatExpr(e, ts).value) && (TokensOk(ts) ==> ExprOk(e))
    decreases e, 1
  {
    var us := EatTargets(e.targets, ts).value;
    var vs := EatFormula(e.formula, us).value;
    var l := ExprListed(cx, e, parent);
    TargetsRead(e.targets, ts);
    FormulaRead(cx, e.formula, parent, us);
    KeywordsRead(cx, e.keywords, parent, vs);
    ReadsThen(FormulaListed(cx, e.formula, parent), KeywordsListed(cx, e.keywords, parent), us, vs,
              EatExpr(e, ts).value);
    ReadsOn(l, ts, us, EatExpr(e, ts).value);
  }

  /** A body read from tokens has well-formed selectors, and its blocks are named by tokens of their
      own. */
  lemma {:induction false} BodyRead(cx: Context, b: Body, parent: nat, end: Symbol, ts: Tokens)
    requires EatBody(b, end, ts).Some?
    ensures Reads(BodyListed(cx, b, parent), ts, EatBody(b, end, ts).value) && (TokensOk(ts) ==> BodyOk(b))
    decreases b, 0
  {
    hide Reads, TokensOk, EatExpr;
    match b
    case Answer(e, period) =>
      var us := EatExpr(e, ts[1..]).value;
      ExprRead(cx, e, parent, ts[1..]);
      ReadsMore(ExprListed(cx, e, parent), ts, us);
      TokensLeft(ts);
      if period {
        ReadsLast(ExprListed(cx, e, parent), ts, us);
      }
    case Finished => ReadsNothing(ts);
    case Last(e) => ExprRead(cx, e, parent, ts);
    case Then(e, rest) =>
      var us := EatExpr(e, ts).value;
      ExprRead(cx, e, parent, ts);
      ReadsLast(ExprListed(cx, e, parent), ts, us);
      ReadsTokensOk(ExprListed(cx, e, parent), ts, us[1..]);
      BodyRead(cx, rest, parent, end, us[1..]);
      ReadsThen(ExprListed(cx, e, parent), BodyListed(cx, rest, parent), ts, us[1..], EatBody(b, end, ts).value);
  }
}

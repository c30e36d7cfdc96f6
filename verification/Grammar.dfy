/** The grammar documented at the head of Parser.c, read along a syntax tree: what remains of a token
    sequence that starts with the phrase of a given tree. */
module Grammar {
  import opened Common
  import opened Syntax
  import opened Signature

  type Tokens = seq<Token>

  const EOF: Token := Token(NONE, "", 0)

  function Head(ts: Tokens): Token {
    if ts == [] then EOF else ts[0]
  }

  function Rest(ts: Tokens): Tokens {
    if ts == [] then [] else ts[1..]
  }

  /** The rest after a token of the given kind. */
  function Eat(s: Symbol, ts: Tokens): Option<Tokens> {
    if ts != [] && ts[0].sym == s then Some(ts[1..]) else None
  }

  function EatText(s: Symbol, text: string, ts: Tokens): Option<Tokens> {
    if ts != [] && ts[0].sym == s && ts[0].text == text then Some(ts[1..]) else None
  }

  /** `selector` after a pound sign: strings, operators other than the minus sign, and names. */
  predicate IsSelectorSymbol(s: Symbol) {
    s in {STString, OperatorSequence, Keyword, KeywordSequence, Identifier, Primitive} || (IsOpSymbol(s) && s != Minus)
  }

  predicate IsNumberSymbol(s: Symbol) {
    s == Integer || s == Double
  }

  /** Literals, named by their first token, but for a minus sign. */
  function EatLiteral(lit: Literal, id: nat, ts: Tokens): Option<Tokens> {
    match lit
    case Number(kind, text, negative) =>
      var us := if negative then Eat(Minus, ts) else Some(ts);
      if us.None? || !IsNumberSymbol(kind) || Head(us.value).id != id then None else EatText(kind, text, us.value)
    case Text(text) =>
      if Head(ts).id != id then None else EatText(STString, text, ts)
    case SymbolLiteral(kind, text) =>
      var us := if Head(ts).id == id then Eat(Pound, ts) else None;
      if us.None? || !IsSelectorSymbol(kind) then None else EatText(kind, text, us.value)
    case LiteralArray(elements) =>
      var us := if Head(ts).id == id then Eat(Pound, ts) else None;
      if us.None? then None
      else
        var vs := Eat(NewTerm, us.value);
        if vs.None? then None
        else
          var ws := EatElements(elements, vs.value);
          if ws.None? then None else Eat(EndTerm, ws.value)
  }

  function EatElements(elements: Elements, ts: Tokens): Option<Tokens> {
    match elements
    case NoElement => Some(ts)
    case Element(lit, id, more) =>
      var us := EatLiteral(lit, id, ts);
      if us.None? then None else EatElements(more, us.value)
  }

  function EatNames(names: seq<string>, ts: Tokens): Option<Tokens>
    decreases |names|
  {
    if names == [] then Some(ts)
    else
      var us := EatText(Identifier, names[0], ts);
      if us.None? then None else EatNames(names[1..], us.value)
  }

  /** Each parameter follows a colon. */
  function EatParams(params: seq<string>, ts: Tokens): Option<Tokens>
    decreases |params|
  {
    if params == [] then Some(ts)
    else
      var us := Eat(Colon, ts);
      if us.None? then None
      else
        var vs := EatText(Identifier, params[0], us.value);
        if vs.None? then None else EatParams(params[1..], vs.value)
  }

  function EatPattern(params: seq<string>, ts: Tokens): Option<Tokens> {
    if params == [] then Some(ts)
    else
      var us := EatParams(params, ts);
      if us.None? then None else Eat(Or, us.value)
  }

  function EatLocals(locals: Locals, ts: Tokens): Option<Tokens> {
    match locals
    case NoLocals => Some(ts)
    case Locals(names) =>
      var us := Eat(Or, ts);
      if us.None? then None
      else
        var vs := EatNames(names, us.value);
        if vs.None? then None else Eat(Or, vs.value)
  }

  function EatTargets(targets: seq<string>, ts: Tokens): Option<Tokens>
    decreases |targets|
  {
    if targets == [] then Some(ts)
    else
      var us := EatText(Identifier, targets[0], ts);
      if us.None? then None
      else
        var vs := Eat(Assign, us.value);
        if vs.None? then None else EatTargets(targets[1..], vs.value)
  }

  function EatUnaries(us: Unaries, ts: Tokens): Option<Tokens> {
    match us
    case NoUnary => Some(ts)
    case Unary(sel, more) =>
      var r := EatText(Identifier, sel, ts);
      if r.None? then None else EatUnaries(more, r.value)
  }

  function EatPrimary(p: Primary, ts: Tokens): Option<Tokens>
    decreases p, 0
  {
    match p
    case Variable(name) => EatText(Identifier, name, ts)
    case Nested(term) =>
      var us := Eat(NewTerm, ts);
      if us.None? then None
      else
        var vs := EatExpr(term, us.value);
        if vs.None? then None else Eat(EndTerm, vs.value)
    case Block(id, params, locals, body) =>
      if Head(ts).id != id then None
      else
        var us := Eat(NewBlock, ts);
        if us.None? then None
        else
          var vs := EatPattern(params, us.value);
          if vs.None? then None
          else
            var ws := EatLocals(locals, vs.value);
            if ws.None? then None
            else
              var xs := EatBody(body, EndBlock, ws.value);
              if xs.None? then None else Eat(EndBlock, xs.value)
    case LiteralNode(lit, id) => EatLiteral(lit, id, ts)
  }

  function EatOperand(o: Operand, ts: Tokens): Option<Tokens>
    decreases o, 0
  {
    var us := EatPrimary(o.head, ts);
    if us.None? then None else EatUnaries(o.unaries, us.value)
  }

  function EatBinaries(bs: Binaries, ts: Tokens): Option<Tokens>
    decreases bs, 0
  {
    match bs
    case NoBinary => Some(ts)
    case Binary(op, sel, arg, rest) =>
      if !IsBinaryToken(op) then None
      else
        var us := EatText(op, sel, ts);
        if us.None? then None
        else
          var vs := EatOperand(arg, us.value);
          if vs.None? then None else EatBinaries(rest, vs.value)
  }

  function EatFormula(f: Formula, ts: Tokens): Option<Tokens>
    decreases f, 0
  {
    var us := EatOperand(f.operand, ts);
    if us.None? then None else EatBinaries(f.binaries, us.value)
  }

  function EatKeywords(ks: Keywords, ts: Tokens): Option<Tokens>
    decreases ks, 0
  {
    match ks
    case NoKeyword => Some(ts)
    case KeywordPart(key, arg, tail) =>
      var us := EatText(Keyword, key, ts);
      if us.None? then None
      else
        var vs := EatFormula(arg, us.value);
        if vs.None? then None else EatKeywords(tail, vs.value)
  }

  function EatExpr(e: Expr, ts: Tokens): Option<Tokens>
    decreases e, 1
  {
    var us := EatTargets(e.targets, ts);
    if us.None? then None
    else
      var vs := EatFormula(e.formula, us.value);
      if vs.None? then None else EatKeywords(e.keywords, vs.value)
  }

  /** A body up to, and without, the token that ends it. */
  function EatBody(b: Body, end: Symbol, ts: Tokens): Option<Tokens>
    decreases b, 0
  {
    match b
    case Answer(e, period) =>
      var us := Eat(Exit, ts);
      if us.None? then None
      else
        var vs := EatExpr(e, us.value);
        if vs.None? then None
        else if period then Upto(end, Eat(Period, vs.value))
        else Upto(end, vs)
    case Finished => Upto(end, Some(ts))
    case Last(e) => Upto(end, EatExpr(e, ts))
    case Then(e, rest) =>
      var us := EatExpr(e, ts);
      if us.None? then None
      else
        var vs := Eat(Period, us.value);
        if vs.None? then None else EatBody(rest, end, vs.value)
  }

  function Upto(end: Symbol, ts: Option<Tokens>): Option<Tokens> {
    if ts.Some? && Head(ts.value).sym == end then ts else None
  }

  // ----- what may follow -----

  predicate EndsExpr(s: Symbol) {
    s in {Period, EndTerm, EndBlock}
  }

  predicate EndsFormula(s: Symbol) {
    EndsExpr(s) || s == Keyword
  }

  predicate EndsOperand(s: Symbol) {
    EndsFormula(s) || IsBinaryToken(s)
  }

  predicate EndsPrimary(s: Symbol) {
    EndsOperand(s) || s == Identifier
  }

  // ----- phrases that lie ahead, properly followed -----

  predicate UnariesAhead(us: Unaries, ts: Tokens) {
    EatUnaries(us, ts).Some? && EndsOperand(Head(EatUnaries(us, ts).value).sym)
  }

  predicate PrimaryAhead(p: Primary, ts: Tokens) {
    EatPrimary(p, ts).Some? && EndsPrimary(Head(EatPrimary(p, ts).value).sym)
  }

  predicate OperandAhead(o: Operand, ts: Tokens) {
    EatOperand(o, ts).Some? && EndsOperand(Head(EatOperand(o, ts).value).sym)
  }

  predicate BinariesAhead(bs: Binaries, ts: Tokens) {
    EatBinaries(bs, ts).Some? && EndsFormula(Head(EatBinaries(bs, ts).value).sym)
  }

  predicate FormulaAhead(f: Formula, ts: Tokens) {
    EatFormula(f, ts).Some? && EndsFormula(Head(EatFormula(f, ts).value).sym)
  }

  predicate KeywordsAhead(ks: Keywords, ts: Tokens) {
    EatKeywords(ks, ts).Some? && EndsExpr(Head(EatKeywords(ks, ts).value).sym)
  }

  function EatMessages(us: Unaries, bs: Binaries, ks: Keywords, ts: Tokens): Option<Tokens> {
    var u := EatUnaries(us, ts);
    if u.None? then None
    else
      var v := EatBinaries(bs, u.value);
      if v.None? then None else EatKeywords(ks, v.value)
  }

  predicate MessagesAhead(us: Unaries, bs: Binaries, ks: Keywords, ts: Tokens) {
    EatMessages(us, bs, ks, ts).Some? && EndsExpr(Head(EatMessages(us, bs, ks, ts).value).sym)
  }

  function EatEvaluation(f: Formula, ks: Keywords, ts: Tokens): Option<Tokens> {
    var u := EatFormula(f, ts);
    if u.None? then None else EatKeywords(ks, u.value)
  }

  predicate EvaluationAhead(f: Formula, ks: Keywords, ts: Tokens) {
    EatEvaluation(f, ks, ts).Some? && EndsExpr(Head(EatEvaluation(f, ks, ts).value).sym)
  }

  predicate ExprAhead(e: Expr, ts: Tokens) {
    EatExpr(e, ts).Some? && EndsExpr(Head(EatExpr(e, ts).value).sym)
  }

  // ----- one step of a phrase -----

  lemma UnariesStep(us: Unaries, ts: Tokens)
    requires UnariesAhead(us, ts)
    ensures EndsPrimary(Head(ts).sym) && (Head(ts).sym == Identifier <==> us.Unary?)
    ensures us.NoUnary? ==> EatUnaries(us, ts) == Some(ts) && EndsOperand(Head(ts).sym)
    ensures us.Unary? ==> ts != [] && Head(ts).text == us.sel && UnariesAhead(us.more, Rest(ts)) &&
                          EatUnaries(us, ts) == EatUnaries(us.more, Rest(ts))
  {
  }

  lemma OperandStep(o: Operand, ts: Tokens) returns (us: Tokens)
    requires OperandAhead(o, ts)
    ensures EatPrimary(o.head, ts) == Some(us) && PrimaryAhead(o.head, ts)
    ensures UnariesAhead(o.unaries, us) && EatUnaries(o.unaries, us) == EatOperand(o, ts)
  {
    us := EatPrimary(o.head, ts).value;
    UnariesStep(o.unaries, us);
  }

  lemma BinariesStep(bs: Binaries, ts: Tokens) returns (us: Tokens)
    requires BinariesAhead(bs, ts)
    ensures EndsOperand(Head(ts).sym) && (IsBinaryToken(Head(ts).sym) <==> bs.Binary?)
    ensures bs.NoBinary? ==> us == ts && EatBinaries(bs, ts) == Some(ts) && EndsFormula(Head(ts).sym)
    ensures bs.Binary? ==> ts != [] && Head(ts).text == bs.sel && OperandAhead(bs.arg, Rest(ts)) &&
                           EatOperand(bs.arg, Rest(ts)) == Some(us) && BinariesAhead(bs.rest, us) &&
                           EatBinaries(bs, ts) == EatBinaries(bs.rest, us)
    decreases bs
  {
    us := ts;
    if bs.Binary? {
      us := EatOperand(bs.arg, Rest(ts)).value;
      var _ := BinariesStep(bs.rest, us);
    }
  }

  lemma FormulaStep(f: Formula, ts: Tokens) returns (us: Tokens)
    requires FormulaAhead(f, ts)
    ensures EatOperand(f.operand, ts) == Some(us) && OperandAhead(f.operand, ts)
    ensures BinariesAhead(f.binaries, us) && EatBinaries(f.binaries, us) == EatFormula(f, ts)
  {
    us := EatOperand(f.operand, ts).value;
    var _ := BinariesStep(f.binaries, us);
  }

  lemma KeywordsStep(ks: Keywords, ts: Tokens) returns (us: Tokens)
    requires KeywordsAhead(ks, ts)
    ensures EndsFormula(Head(ts).sym) && (Head(ts).sym == Keyword <==> ks.KeywordPart?)
    ensures ks.NoKeyword? ==> us == ts && EatKeywords(ks, ts) == Some(ts) && EndsExpr(Head(ts).sym)
    ensures ks.KeywordPart? ==> ts != [] && Head(ts).text == ks.key && FormulaAhead(ks.arg, Rest(ts)) &&
                                EatFormula(ks.arg, Rest(ts)) == Some(us) && KeywordsAhead(ks.tail, us) &&
                                EatKeywords(ks, ts) == EatKeywords(ks.tail, us)
    decreases ks
  {
    us := ts;
    if ks.KeywordPart? {
      us := EatFormula(ks.arg, Rest(ts)).value;
      var _ := KeywordsStep(ks.tail, us);
    }
  }

  lemma MessagesStep(us: Unaries, bs: Binaries, ks: Keywords, ts: Tokens) returns (vs: Tokens, ws: Tokens)
    requires MessagesAhead(us, bs, ks, ts)
    ensures UnariesAhead(us, ts) && EatUnaries(us, ts) == Some(vs)
    ensures BinariesAhead(bs, vs) && EatBinaries(bs, vs) == Some(ws)
    ensures KeywordsAhead(ks, ws) && EatKeywords(ks, ws) == EatMessages(us, bs, ks, ts)
    ensures EndsPrimary(Head(ts).sym)
  {
    vs := EatUnaries(us, ts).value;
    ws := EatBinaries(bs, vs).value;
    var _ := KeywordsStep(ks, ws);
    var _ := BinariesStep(bs, vs);
    UnariesStep(us, ts);
  }

  lemma EvaluationStep(f: Formula, ks: Keywords, ts: Tokens) returns (us: Tokens)
    requires EvaluationAhead(f, ks, ts)
    ensures PrimaryAhead(f.operand.head, ts) && EatPrimary(f.operand.head, ts) == Some(us)
    ensures MessagesAhead(f.operand.unaries, f.binaries, ks, us)
    ensures EatMessages(f.operand.unaries, f.binaries, ks, us) == EatEvaluation(f, ks, ts)
  {
    assert EatFormula(f, ts).Some? && EatOperand(f.operand, ts).Some?;
    us := EatPrimary(f.operand.head, ts).value;
    assert EatOperand(f.operand, ts) == EatUnaries(f.operand.unaries, us);
    assert EatMessages(f.operand.unaries, f.binaries, ks, us) == EatEvaluation(f, ks, ts);
    var _, _ := MessagesStep(f.operand.unaries, f.binaries, ks, us);
  }

  /** Tokens that start no message are followed by none. */
  lemma NothingFollows(us: Unaries, bs: Binaries, ks: Keywords, ts: Tokens)
    requires MessagesAhead(us, bs, ks, ts)
    requires Head(ts).sym != Identifier && Head(ts).sym != Keyword && !IsBinaryToken(Head(ts).sym)
    ensures us == NoUnary && bs == NoBinary && ks == NoKeyword && EatMessages(us, bs, ks, ts) == Some(ts)
  {
  }

  // ----- how phrases start -----

  predicate StartsPrimary(s: Symbol) {
    s in {Identifier, NewTerm, NewBlock, Pound, STString, Integer, Double, Minus}
  }

  lemma PrimaryStart(p: Primary, ts: Tokens)
    requires EatPrimary(p, ts).Some?
    ensures ts != [] && StartsPrimary(Head(ts).sym)
    ensures Head(ts).sym == Identifier <==> p.Variable?
    ensures Head(ts).sym == NewTerm <==> p.Nested?
    ensures Head(ts).sym == NewBlock <==> p.Block?
  {
  }

  lemma FormulaStart(f: Formula, ts: Tokens)
    requires EatFormula(f, ts).Some?
    ensures EatPrimary(f.operand.head, ts).Some? && EatOperand(f.operand, ts).Some?
    ensures ts != [] && StartsPrimary(Head(ts).sym)
  {
    PrimaryStart(f.operand.head, ts);
  }

  lemma ExprStart(e: Expr, ts: Tokens)
    requires EatExpr(e, ts).Some?
    ensures ts != [] && StartsPrimary(Head(ts).sym)
    ensures e.targets != [] ==> Head(ts).sym == Identifier && Head(Rest(ts)).sym == Assign
  {
    if e.targets == [] {
      FormulaStart(e.formula, ts);
    }
  }

  predicate EndsBody(s: Symbol) {
    s == EndBlock || s == EndTerm
  }

  lemma BodyStart(b: Body, end: Symbol, ts: Tokens)
    requires EatBody(b, end, ts).Some? && EndsBody(end)
    ensures Head(EatBody(b, end, ts).value).sym == end
    ensures b.Answer? ==> Head(ts).sym == Exit
    ensures b.Finished? ==> Head(ts).sym == end
    ensures b.Last? || b.Then? ==> StartsPrimary(Head(ts).sym)
    decreases b
  {
    match b
    case Answer(_, _) =>
    case Finished =>
    case Last(e) => ExprStart(e, ts);
    case Then(e, rest) =>
      ExprStart(e, ts);
      BodyStart(rest, end, Eat(Period, EatExpr(e, ts).value).value);
  }

  lemma LocalsStart(locals: Locals, b: Body, end: Symbol, ts: Tokens)
    requires EatLocals(locals, ts).Some? && EatBody(b, end, EatLocals(locals, ts).value).Some? && EndsBody(end)
    ensures Head(ts).sym == Or <==> locals.Locals?
    ensures Head(ts).sym != Colon && Head(ts).sym != Assign
  {
    BodyStart(b, end, EatLocals(locals, ts).value);
  }

  /** No expression but an assignment has an assignment sign in second place. */
  lemma PrimarySecond(p: Primary, ts: Tokens)
    requires PrimaryAhead(p, ts)
    ensures Head(Rest(ts)).sym != Assign
  {
    hide EatExpr, EatBody, EatPattern, EatElements;
    match p
    case Variable(_) =>
    case Nested(term) => ExprStart(term, Eat(NewTerm, ts).value);
    case Block(_, _, _, _) => BlockSecond(p, ts);
    case LiteralNode(_, _) =>
  }

  lemma BlockSecond(p: Primary, ts: Tokens)
    requires PrimaryAhead(p, ts) && p.Block?
    ensures Head(Rest(ts)).sym != Assign
  {
    hide EatPrimary, PrimaryAhead, EatBody, EatLocals, EatParams;
    var us, vs, ws := BlockStep(p, ts);
    if p.params == [] {
      LocalsStart(p.locals, p.body, EndBlock, us);
    }
  }

  lemma EvaluationSecond(f: Formula, ks: Keywords, ts: Tokens)
    requires EvaluationAhead(f, ks, ts)
    ensures Head(Rest(ts)).sym != Assign
  {
    var _ := EvaluationStep(f, ks, ts);
    PrimarySecond(f.operand.head, ts);
  }

  lemma NestedStep(p: Primary, ts: Tokens) returns (us: Tokens)
    requires PrimaryAhead(p, ts) && p.Nested?
    ensures Head(ts).sym == NewTerm && ExprAhead(p.term, Rest(ts)) && EatExpr(p.term, Rest(ts)) == Some(us)
    ensures Head(us).sym == EndTerm && EatPrimary(p, ts) == Some(Rest(us)) && |us| <= |ts| - 1
  {
    us := EatExpr(p.term, Rest(ts)).value;
    ExprShorter(p.term, Rest(ts));
  }

  /** Phrases other than empty ones consume tokens. */
  lemma {:induction false} UnariesShorter(us: Unaries, ts: Tokens)
    requires EatUnaries(us, ts).Some?
    ensures |EatUnaries(us, ts).value| <= |ts|
    decreases us
  {
    if us.Unary? {
      UnariesShorter(us.more, ts[1..]);
    }
  }

  lemma {:induction false} LiteralShorter(lit: Literal, id: nat, ts: Tokens)
    requires EatLiteral(lit, id, ts).Some?
    ensures |EatLiteral(lit, id, ts).value| < |ts|
    decreases lit
  {
    if lit.LiteralArray? {
      ElementsShorter(lit.elements, ts[1..][1..]);
    }
  }

  lemma {:induction false} ElementsShorter(elements: Elements, ts: Tokens)
    requires EatElements(elements, ts).Some?
    ensures |EatElements(elements, ts).value| <= |ts|
    decreases elements
  {
    match elements
    case NoElement =>
    case Element(lit, id, more) =>
      LiteralShorter(lit, id, ts);
      ElementsShorter(more, EatLiteral(lit, id, ts).value);
  }

  /** No literal starts with a closing bracket: the elements of an array are read up to it. */
  lemma ElementsStep(elements: Elements, ts: Tokens)
    requires EatElements(elements, ts).Some? && Head(EatElements(elements, ts).value).sym == EndTerm
    ensures Head(ts).sym == EndTerm <==> elements.NoElement?
    ensures elements.NoElement? ==> EatElements(elements, ts) == Some(ts)
    ensures elements.Element? ==>
              var us := EatLiteral(elements.lit, elements.id, ts);
              us.Some? && EatElements(elements.more, us.value) == EatElements(elements, ts)
  {
    if elements.Element? {
      LiteralStart(elements.lit, elements.id, ts);
    }
  }

  lemma LiteralStart(lit: Literal, id: nat, ts: Tokens)
    requires EatLiteral(lit, id, ts).Some?
    ensures Head(ts).sym in {Pound, STString, Integer, Double, Minus}
    ensures Head(ts).sym == Pound <==> lit.SymbolLiteral? || lit.LiteralArray?
    ensures Head(ts).sym == STString <==> lit.Text?
    ensures Head(ts).sym == Pound ==> (Head(Rest(ts)).sym == NewTerm <==> lit.LiteralArray?)
  {
  }

  lemma ArrayStep(lit: Literal, id: nat, ts: Tokens) returns (us: Tokens)
    requires EatLiteral(lit, id, ts).Some? && lit.LiteralArray?
    ensures Head(ts).sym == Pound && Head(ts).id == id && Head(Rest(ts)).sym == NewTerm && |ts| >= 2
    ensures EatElements(lit.elements, Rest(Rest(ts))) == Some(us) && Head(us).sym == EndTerm && us != []
    ensures EatLiteral(lit, id, ts) == Some(Rest(us)) && |us| <= |ts| - 2
  {
    us := EatElements(lit.elements, ts[1..][1..]).value;
    ElementsShorter(lit.elements, ts[1..][1..]);
  }

  lemma {:induction false} NamesShorter(names: seq<string>, ts: Tokens)
    requires EatNames(names, ts).Some?
    ensures |EatNames(names, ts).value| <= |ts|
    decreases |names|
  {
    if names != [] {
      NamesShorter(names[1..], ts[1..]);
    }
  }

  lemma {:induction false} TargetsShorter(targets: seq<string>, ts: Tokens)
    requires EatTargets(targets, ts).Some?
    ensures |EatTargets(targets, ts).value| <= |ts|
    decreases |targets|
  {
    if targets != [] {
      TargetsShorter(targets[1..], ts[2..]);
      assert ts[1..][1..] == ts[2..];
    }
  }

  lemma {:induction false} ParamsShorter(params: seq<string>, ts: Tokens)
    requires EatParams(params, ts).Some?
    ensures |EatParams(params, ts).value| <= |ts|
    decreases |params|
  {
    if params != [] {
      ParamsShorter(params[1..], ts[2..]);
      assert ts[1..][1..] == ts[2..];
    }
  }

  lemma {:induction false} PrimaryShorter(p: Primary, ts: Tokens)
    requires EatPrimary(p, ts).Some?
    ensures |EatPrimary(p, ts).value| <= |ts|
    decreases p, 0
  {
    hide EatExpr, EatBody, EatParams, EatNames;
    match p
    case Variable(_) =>
    case Nested(term) => ExprShorter(term, ts[1..]);
    case Block(_, params, locals, body) =>
      var us := EatPattern(params, ts[1..]).value;
      if params != [] {
        ParamsShorter(params, ts[1..]);
      }
      var vs := EatLocals(locals, us).value;
      if locals.Locals? {
        NamesShorter(locals.names, us[1..]);
      }
      BodyShorter(body, EndBlock, vs);
    case LiteralNode(lit, id) => LiteralShorter(lit, id, ts);
  }

  lemma {:induction false} OperandShorter(o: Operand, ts: Tokens)
    requires EatOperand(o, ts).Some?
    ensures |EatOperand(o, ts).value| <= |ts|
    decreases o, 0
  {
    PrimaryShorter(o.head, ts);
    UnariesShorter(o.unaries, EatPrimary(o.head, ts).value);
  }

  lemma {:induction false} BinariesShorter(bs: Binaries, ts: Tokens)
    requires EatBinaries(bs, ts).Some?
    ensures |EatBinaries(bs, ts).value| <= |ts|
    decreases bs, 0
  {
    if bs.Binary? {
      OperandShorter(bs.arg, ts[1..]);
      BinariesShorter(bs.rest, EatOperand(bs.arg, ts[1..]).value);
    }
  }

  lemma {:induction false} FormulaShorter(f: Formula, ts: Tokens)
    requires EatFormula(f, ts).Some?
    ensures |EatFormula(f, ts).value| <= |ts|
    decreases f, 0
  {
    OperandShorter(f.operand, ts);
    BinariesShorter(f.binaries, EatOperand(f.operand, ts).value);
  }

  lemma {:induction false} KeywordsShorter(ks: Keywords, ts: Tokens)
    requires EatKeywords(ks, ts).Some?
    ensures |EatKeywords(ks, ts).value| <= |ts|
    decreases ks, 0
  {
    if ks.KeywordPart? {
      FormulaShorter(ks.arg, ts[1..]);
      KeywordsShorter(ks.tail, EatFormula(ks.arg, ts[1..]).value);
    }
  }

  lemma {:induction false} ExprShorter(e: Expr, ts: Tokens)
    requires EatExpr(e, ts).Some?
    ensures |EatExpr(e, ts).value| <= |ts|
    decreases e, 1
  {
    TargetsShorter(e.targets, ts);
    var us := EatTargets(e.targets, ts).value;
    FormulaShorter(e.formula, us);
    KeywordsShorter(e.keywords, EatFormula(e.formula, us).value);
  }

  lemma {:induction false} BodyShorter(b: Body, end: Symbol, ts: Tokens)
    requires EatBody(b, end, ts).Some?
    ensures |EatBody(b, end, ts).value| <= |ts|
    decreases b, 0
  {
    match b
    case Answer(e, _) => ExprShorter(e, ts[1..]);
    case Finished =>
    case Last(e) => ExprShorter(e, ts);
    case Then(e, rest) =>
      ExprShorter(e, ts);
      BodyShorter(rest, end, EatExpr(e, ts).value[1..]);
  }

  lemma BlockStep(p: Primary, ts: Tokens) returns (us: Tokens, vs: Tokens, ws: Tokens)
    requires PrimaryAhead(p, ts) && p.Block?
    ensures Head(ts).sym == NewBlock && Head(ts).id == p.id && ts != []
    ensures EatPattern(p.params, Rest(ts)) == Some(us) && (Head(Rest(ts)).sym == Colon <==> p.params != [])
    ensures ContentsAhead(p.locals, p.body, EndBlock, us) && EatContents(p.locals, p.body, EndBlock, us) == Some(ws)
    ensures EatLocals(p.locals, us) == Some(vs)
    ensures Head(ws).sym == EndBlock && EatPrimary(p, ts) == Some(Rest(ws))
  {
    us := EatPattern(p.params, Rest(ts)).value;
    vs := EatLocals(p.locals, us).value;
    ws := EatBody(p.body, EndBlock, vs).value;
    LocalsStart(p.locals, p.body, EndBlock, us);
  }

  /** `blockContents`. */
  function EatContents(locals: Locals, b: Body, end: Symbol, ts: Tokens): Option<Tokens> {
    var us := EatLocals(locals, ts);
    if us.None? then None else EatBody(b, end, us.value)
  }

  predicate ContentsAhead(locals: Locals, b: Body, end: Symbol, ts: Tokens) {
    EndsBody(end) && EatContents(locals, b, end, ts).Some?
  }

  predicate BodyAhead(b: Body, end: Symbol, ts: Tokens) {
    EndsBody(end) && EatBody(b, end, ts).Some?
  }

  lemma ContentsStep(locals: Locals, b: Body, end: Symbol, ts: Tokens) returns (us: Tokens)
    requires ContentsAhead(locals, b, end, ts)
    ensures EatLocals(locals, ts) == Some(us) && BodyAhead(b, end, us)
    ensures EatBody(b, end, us) == EatContents(locals, b, end, ts)
    ensures Head(ts).sym == Or <==> locals.Locals?
  {
    us := EatLocals(locals, ts).value;
    LocalsStart(locals, b, end, ts);
  }

  lemma ExprStep(e: Expr, ts: Tokens) returns (us: Tokens)
    requires ExprAhead(e, ts)
    ensures EatTargets(e.targets, ts) == Some(us) && EvaluationAhead(e.formula, e.keywords, us)
    ensures EatEvaluation(e.formula, e.keywords, us) == EatExpr(e, ts)
    ensures Head(Rest(us)).sym != Assign
    ensures Head(Rest(ts)).sym == Assign <==> e.targets != []
  {
    us := EatTargets(e.targets, ts).value;
    EvaluationSecond(e.formula, e.keywords, us);
  }

  /** One more target, if there are any. */
  lemma TargetsStep(targets: seq<string>, ts: Tokens)
    requires EatTargets(targets, ts).Some? && targets != []
    ensures |ts| >= 2 && Head(ts).sym == Identifier && Head(ts).text == targets[0] && Head(Rest(ts)).sym == Assign
    ensures EatTargets(targets[1..], Rest(Rest(ts))) == EatTargets(targets, ts)
    ensures |targets| > 1 ==> Head(Rest(Rest(Rest(ts)))).sym == Assign
  {
    assert ts[1..][1..] == ts[2..];
  }

  lemma BodyStep(b: Body, end: Symbol, ts: Tokens) returns (us: Tokens)
    requires BodyAhead(b, end, ts)
    ensures EndsBody(end)
    ensures Head(ts).sym == Exit <==> b.Answer?
    ensures Head(ts).sym == end <==> b.Finished?
    ensures Head(ts).sym != if end == EndBlock then EndTerm else EndBlock
    ensures b.Finished? ==> EatBody(b, end, ts) == Some(ts)
    ensures b.Last? ==> ExprAhead(b.value, ts) && EatExpr(b.value, ts) == Some(us) &&
                        EatBody(b, end, ts) == Some(us) && Head(us).sym == end
    ensures b.Then? ==> ExprAhead(b.first, ts) && EatExpr(b.first, ts) == Some(us) && Head(us).sym == Period &&
                        BodyAhead(b.following, end, Rest(us)) &&
                        EatBody(b, end, ts) == EatBody(b.following, end, Rest(us)) &&
                        |Rest(us)| < |ts|
    ensures b.Answer? ==> ts != [] && ExprAhead(b.result, Rest(ts)) && EatExpr(b.result, Rest(ts)) == Some(us) &&
                          (b.period <==> Head(us).sym == Period) &&
                          EatBody(b, end, ts) == Some(if b.period then Rest(us) else us)
    decreases b
  {
    BodyStart(b, end, ts);
    us := ts;
    match b
    case Answer(e, _) => us := EatExpr(e, Rest(ts)).value;
    case Finished =>
    case Last(e) => us := EatExpr(e, ts).value;
    case Then(e, rest) =>
      us := EatExpr(e, ts).value;
      ExprShorter(e, ts);
  }

  // ----- method definitions -----

  datatype MethodPattern =
    | UnaryPattern(sel: string)
    | BinaryPattern(op: Symbol, sel: string, arg: string)
    | KeywordPattern(keys: seq<string>, names: seq<string>)
  {
    function MessageName(): string {
      match this
      case UnaryPattern(sel) => sel
      case BinaryPattern(_, sel, _) => sel
      case KeywordPattern(keys, _) => Concat(keys)
    }

    function Names(): seq<string> {
      match this
      case UnaryPattern(_) => []
      case BinaryPattern(_, _, arg) => [arg]
      case KeywordPattern(_, names) => names
    }
  }

  /** Keywords and argument names in turn. */
  function EatKeyArgs(keys: seq<string>, names: seq<string>, ts: Tokens): Option<Tokens>
    decreases |keys|
  {
    if keys == [] then (if names == [] then Some(ts) else None)
    else if names == [] then None
    else
      var us := EatText(Keyword, keys[0], ts);
      if us.None? then None
      else
        var vs := EatText(Identifier, names[0], us.value);
        if vs.None? then None else EatKeyArgs(keys[1..], names[1..], vs.value)
  }

  function EatMethodPattern(p: MethodPattern, ts: Tokens): Option<Tokens> {
    match p
    case UnaryPattern(sel) => EatText(Identifier, sel, ts)
    case BinaryPattern(op, sel, arg) =>
      if !IsBinaryToken(op) then None
      else
        var us := EatText(op, sel, ts);
        if us.None? then None else EatText(Identifier, arg, us.value)
    case KeywordPattern(keys, names) =>
      if keys == [] then None else EatKeyArgs(keys, names, ts)
  }

  /** A method is a primitive without locals and body, or has them. Its object is named by its first token. */
  datatype Definition = Definition(id: nat, pattern: MethodPattern, primitive: bool, locals: Locals, body: Body)

  function EatMethodBlock(locals: Locals, body: Body, ts: Tokens): Option<Tokens> {
    var us := Eat(NewTerm, ts);
    if us.None? then None
    else
      var vs := EatContents(locals, body, EndTerm, us.value);
      if vs.None? then None else Eat(EndTerm, vs.value)
  }

  function EatDefinition(d: Definition, ts: Tokens): Option<Tokens> {
    var us := if Head(ts).id == d.id then EatMethodPattern(d.pattern, ts) else None;
    if us.None? then None
    else
      var vs := Eat(Equal, us.value);
      if vs.None? then None
      else if d.primitive then (if d.locals.NoLocals? && d.body.Finished? then Eat(Primitive, vs.value) else None)
      else EatMethodBlock(d.locals, d.body, vs.value)
  }

  lemma DefinitionStep(d: Definition, ts: Tokens) returns (us: Tokens)
    requires EatDefinition(d, ts).Some?
    ensures Head(ts).id == d.id && EatMethodPattern(d.pattern, ts) == Some(us) && Head(us).sym == Equal && us != []
    ensures d.primitive <==> Head(Rest(us)).sym == Primitive
    ensures d.primitive ==> EatDefinition(d, ts) == Some(Rest(Rest(us)))
    ensures !d.primitive ==> EatMethodBlock(d.locals, d.body, Rest(us)) == EatDefinition(d, ts)
  {
    us := EatMethodPattern(d.pattern, ts).value;
  }

  lemma MethodBlockStep(locals: Locals, body: Body, ts: Tokens) returns (us: Tokens)
    requires EatMethodBlock(locals, body, ts).Some?
    ensures Head(ts).sym == NewTerm && ts != [] && ContentsAhead(locals, body, EndTerm, Rest(ts))
    ensures EatContents(locals, body, EndTerm, Rest(ts)) == Some(us) && Head(us).sym == EndTerm
    ensures EatMethodBlock(locals, body, ts) == Some(Rest(us))
  {
    us := EatContents(locals, body, EndTerm, Rest(ts)).value;
    BodyStart(body, EndTerm, EatLocals(locals, Rest(ts)).value);
  }

  lemma KeywordPatternStep(p: MethodPattern, ts: Tokens)
    requires p.KeywordPattern? && EatMethodPattern(p, ts).Some?
    ensures EatMethodPattern(p, ts) == EatKeyArgs(p.keys, p.names, ts) && p.keys != []
    ensures p.Names() == p.names && p.MessageName() == Concat(p.keys)
  {
  }

  lemma KeyArgsStep(keys: seq<string>, names: seq<string>, ts: Tokens)
    requires EatKeyArgs(keys, names, ts).Some? && Head(EatKeyArgs(keys, names, ts).value).sym != Keyword
    ensures Head(ts).sym == Keyword <==> keys != []
    ensures keys == [] ==> names == [] && EatKeyArgs(keys, names, ts) == Some(ts)
    ensures keys != [] ==> names != [] && |ts| >= 2 && Head(ts).text == keys[0] && Head(Rest(ts)).sym == Identifier &&
                           Head(Rest(ts)).text == names[0] &&
                           EatKeyArgs(keys[1..], names[1..], Rest(Rest(ts))) == EatKeyArgs(keys, names, ts)
  {
  }

  // ----- arities -----

  /** Selectors as the lexer delivers them. */
  predicate PatternOk(p: MethodPattern) {
    match p
    case UnaryPattern(sel) => IsIdentifier(sel)
    case BinaryPattern(_, sel, _) => IsOperator(sel)
    case KeywordPattern(keys, names) => keys != [] && |keys| == |names| && forall k | k in keys :: IsKeyword(k)
  }

  predicate AllDistinct(names: seq<string>) {
    forall i, j | 0 <= i < j < |names| :: names[i] != names[j]
  }

  lemma DistinctCons(x: string, names: seq<string>)
    ensures AllDistinct([x] + names) <==> AllDistinct(names) && x !in names
  {
    var all := [x] + names;
    assert forall i | 1 <= i < |all| :: all[i] == names[i - 1];
    if AllDistinct(all) {
      forall i, j | 0 <= i < j < |names|
        ensures names[i] != names[j]
      {
        assert all[i + 1] != all[j + 1];
      }
      forall i | 0 <= i < |names|
        ensures names[i] != x
      {
        assert all[0] != all[i + 1];
      }
    }
  }

  /** Adding names that are there already adds nothing. */
  lemma {:induction false} AddedSize(s: seq<string>, names: seq<string>)
    ensures |AddAllAbsent(s, names)| <= |s| + |names|
    ensures |AddAllAbsent(s, names)| == |s| + |names| <==> AllDistinct(names) && forall n | n in names :: n !in s
    decreases |names|
  {
    if names != [] {
      hide AllDistinct;
      var x, more := names[0], names[1..];
      var t := AddIfAbsent(s, x);
      AddedSize(t, more);
      assert names == [x] + more;
      DistinctCons(x, more);
      if x !in s {
        assert t == s + [x];
      }
    }
  }

  /** A method's signature has as many arguments as its pattern, self included; its argument list is
      that long exactly when the names differ from each other and from self. */
  lemma PatternArity(p: MethodPattern)
    requires PatternOk(p)
    ensures Arity(p.MessageName()) == 1 + |p.Names()|
    ensures |AddAllAbsent(["self"], p.Names())| <= Arity(p.MessageName())
    ensures |AddAllAbsent(["self"], p.Names())| == Arity(p.MessageName()) <==>
              AllDistinct(p.Names()) && "self" !in p.Names()
  {
    AddedSize(["self"], p.Names());
    match p
    case UnaryPattern(sel) => UnaryArity(sel);
    case BinaryPattern(_, _, _) =>
    case KeywordPattern(keys, _) => KeywordArity(keys);
  }
}

/** Programs as they are written: the tokens of every phrase, one after the other, with the kinds of token
    that may stand in a place listed there.  The phrases of the grammar are exactly these. */
module Written {
  import opened Common
  import opened Syntax
  import opened Grammar
  import opened Classdefs

  /** A place in a text: one of the kinds that are allowed there, and its text and id if they matter. */
  datatype Piece = Piece(kinds: set<Symbol>, sym: Symbol, text: Option<string>, id: Option<nat>)

  predicate Is(t: Token, p: Piece) {
    && p.sym in p.kinds && t.sym == p.sym
    && (p.text.None? || t.text == p.text.value) && (p.id.None? || t.id == p.id.value)
  }

  function Sign(s: Symbol): Piece {
    Piece({s}, s, None, None)
  }

  function Word(s: Symbol, text: string): Piece {
    Piece({s}, s, Some(text), None)
  }

  /** What remains of a text that starts with the given pieces. */
  function After(ps: seq<Piece>, ts: Tokens): Option<Tokens>
    decreases |ps|
  {
    if ps == [] then Some(ts)
    else if ts == [] || !Is(ts[0], ps[0]) then None
    else After(ps[1..], ts[1..])
  }

  lemma {:induction false} AfterIs(ps: seq<Piece>, ts: Tokens)
    ensures After(ps, ts).Some? <==> |ps| <= |ts| && forall k | 0 <= k < |ps| :: Is(ts[k], ps[k])
    ensures After(ps, ts).Some? ==> After(ps, ts).value == ts[|ps|..]
    decreases |ps|
  {
    hide Is;
    if ps != [] && ts != [] {
      AfterIs(ps[1..], ts[1..]);
      assert forall k | 0 < k < |ps| :: ps[k] == ps[1..][k - 1];
      if |ps| <= |ts| {
        assert forall k | 0 < k < |ps| :: ts[k] == ts[1..][k - 1];
        assert forall k | 0 <= k < |ps| - 1 :: ps[1..][k] == ps[k + 1] && ts[1..][k] == ts[k + 1];
      }
    }
  }

  function Both(a: Option<Tokens>, ps: seq<Piece>): Option<Tokens> {
    if a.None? then None else After(ps, a.value)
  }

  lemma {:induction false} AfterBoth(a: seq<Piece>, b: seq<Piece>, ts: Tokens)
    ensures After(a + b, ts) == Both(After(a, ts), b)
    decreases |a|
  {
    if a == [] {
      assert a + b == b;
    } else if ts != [] {
      hide Is;
      assert (a + b)[1..] == a[1..] + b && (a + b)[0] == a[0];
      AfterBoth(a[1..], b, ts[1..]);
    }
  }

  lemma AfterSign(s: Symbol, ts: Tokens)
    ensures After([Sign(s)], ts) == Eat(s, ts)
  {
    assert [Sign(s)][1..] == [];
  }

  lemma AfterWord(s: Symbol, text: string, ts: Tokens)
    ensures After([Word(s, text)], ts) == EatText(s, text, ts)
  {
    assert [Word(s, text)][1..] == [];
  }

  lemma AfterPiece(p: Piece, ts: Tokens)
    ensures After([p], ts) == if ts != [] && Is(ts[0], p) then Some(ts[1..]) else None
  {
    assert [p][1..] == [];
  }

  // ----- expressions -----

  function LiteralPieces(lit: Literal, id: nat): seq<Piece> {
    match lit
    case Number(kind, text, negative) =>
      (if negative then [Sign(Minus)] else []) + [Piece({Integer, Double}, kind, Some(text), Some(id))]
    case Text(text) => [Piece({STString}, STString, Some(text), Some(id))]
    case SymbolLiteral(kind, text) =>
      [Piece({Pound}, Pound, None, Some(id)),
       Piece({STString, OperatorSequence, Keyword, KeywordSequence, Identifier, Primitive, Not, And, Or, Star, Div, Mod,
              Plus, Equal, More, Less, Comma, At, Per}, kind, Some(text), None)]
    case LiteralArray(elements) =>
      [Piece({Pound}, Pound, None, Some(id)), Sign(NewTerm)] + ElementsPieces(elements) + [Sign(EndTerm)]
  }

  function ElementsPieces(elements: Elements): seq<Piece> {
    match elements
    case NoElement => []
    case Element(lit, id, more) => LiteralPieces(lit, id) + ElementsPieces(more)
  }

  function NamesPieces(names: seq<string>): seq<Piece> {
    seq(|names|, k requires 0 <= k < |names| => Word(Identifier, names[k]))
  }

  function ParamsPieces(params: seq<string>): seq<Piece>
    decreases |params|
  {
    if params == [] then [] else [Sign(Colon), Word(Identifier, params[0])] + ParamsPieces(params[1..])
  }

  function LocalsPieces(locals: Locals): seq<Piece> {
    match locals
    case NoLocals => []
    case Locals(names) => [Sign(Or)] + NamesPieces(names) + [Sign(Or)]
  }

  function TargetsPieces(targets: seq<string>): seq<Piece>
    decreases |targets|
  {
    if targets == [] then [] else [Word(Identifier, targets[0]), Sign(Assign)] + TargetsPieces(targets[1..])
  }

  function PrimaryPieces(p: Primary): seq<Piece>
    decreases p, 0
  {
    match p
    case Variable(name) => [Word(Identifier, name)]
    case Nested(term) => [Sign(NewTerm)] + ExprPieces(term) + [Sign(EndTerm)]
    case Block(id, params, locals, body) =>
      [Piece({NewBlock}, NewBlock, None, Some(id))] +
      (if params == [] then [] else ParamsPieces(params) + [Sign(Or)]) +
      LocalsPieces(locals) + BodyPieces(body) + [Sign(EndBlock)]
    case LiteralNode(lit, id) => LiteralPieces(lit, id)
  }

  function UnariesPieces(us: Unaries): seq<Piece> {
    match us
    case NoUnary => []
    case Unary(sel, more) => [Word(Identifier, sel)] + UnariesPieces(more)
  }

  function OperandPieces(o: Operand): seq<Piece>
    decreases o, 0
  {
    PrimaryPieces(o.head) + UnariesPieces(o.unaries)
  }

  /** An operator: a sequence of operator characters, or a single one. */
  function Operator(op: Symbol, sel: string): Piece {
    Piece({OperatorSequence, Not, And, Or, Star, Div, Mod, Plus, Minus, Equal, More, Less, Comma, At, Per}, op,
          Some(sel), None)
  }

  function BinariesPieces(bs: Binaries): seq<Piece>
    decreases bs, 0
  {
    match bs
    case NoBinary => []
    case Binary(op, sel, arg, rest) => [Operator(op, sel)] + OperandPieces(arg) + BinariesPieces(rest)
  }

  function FormulaPieces(f: Formula): seq<Piece>
    decreases f, 0
  {
    OperandPieces(f.operand) + BinariesPieces(f.binaries)
  }

  function KeywordsPieces(ks: Keywords): seq<Piece>
    decreases ks, 0
  {
    match ks
    case NoKeyword => []
    case KeywordPart(key, arg, tail) => [Word(Keyword, key)] + FormulaPieces(arg) + KeywordsPieces(tail)
  }

  function ExprPieces(e: Expr): seq<Piece>
    decreases e, 1
  {
    TargetsPieces(e.targets) + FormulaPieces(e.formula) + KeywordsPieces(e.keywords)
  }

  function BodyPieces(b: Body): seq<Piece>
    decreases b, 0
  {
    match b
    case Answer(e, period) => [Sign(Exit)] + ExprPieces(e) + if period then [Sign(Period)] else []
    case Finished => []
    case Last(e) => ExprPieces(e)
    case Then(e, rest) => ExprPieces(e) + [Sign(Period)] + BodyPieces(rest)
  }

  // ----- class definitions -----

  /** Keywords and parameters in turn. */
  function KeyArgsPieces(keys: seq<string>, names: seq<string>): seq<Piece>
    requires |keys| == |names|
    decreases |keys|
  {
    if keys == [] then []
    else [Word(Keyword, keys[0]), Word(Identifier, names[0])] + KeyArgsPieces(keys[1..], names[1..])
  }

  function PatternPieces(p: MethodPattern): seq<Piece>
    requires p.KeywordPattern? ==> |p.keys| == |p.names|
  {
    match p
    case UnaryPattern(sel) => [Word(Identifier, sel)]
    case BinaryPattern(op, sel, arg) => [Operator(op, sel), Word(Identifier, arg)]
    case KeywordPattern(keys, names) => KeyArgsPieces(keys, names)
  }

  predicate Paired(p: MethodPattern) {
    p.KeywordPattern? ==> p.keys != [] && |p.keys| == |p.names|
  }

  /** Every keyword has its parameter, and a primitive has neither locals nor a body. */
  predicate DefinitionOk(d: Definition) {
    Paired(d.pattern) && (d.primitive ==> d.locals.NoLocals? && d.body.Finished?)
  }

  predicate AllOk(ds: seq<Definition>) {
    forall k | 0 <= k < |ds| :: DefinitionOk(ds[k])
  }

  /** Behind the equals sign. */
  function DefinedPieces(d: Definition): seq<Piece> {
    if d.primitive then [Sign(Primitive)]
    else [Sign(NewTerm)] + LocalsPieces(d.locals) + BodyPieces(d.body) + [Sign(EndTerm)]
  }

  /** The object of a definition is named by its first token. */
  function DefinitionPieces(d: Definition): seq<Piece>
    requires DefinitionOk(d)
  {
    var name := PatternPieces(d.pattern);
    [name[0].(id := Some(d.id))] + name[1..] + [Sign(Equal)] + DefinedPieces(d)
  }

  function DefinitionsPieces(ds: seq<Definition>): seq<Piece>
    requires AllOk(ds)
    decreases |ds|
  {
    if ds == [] then [] else DefinitionPieces(ds[0]) + DefinitionsPieces(ds[1..])
  }

  /** A bar in front starts the fields and names no method. */
  predicate SideOk(side: Side) {
    && AllOk(side.methods)
    && !(side.fields.NoLocals? && side.methods != [] && side.methods[0].pattern.BinaryPattern? &&
         side.methods[0].pattern.op == Or)
  }

  function SidePieces(side: Side): seq<Piece>
    requires SideOk(side)
  {
    LocalsPieces(side.fields) + DefinitionsPieces(side.methods)
  }

  predicate ClassOk(c: ClassDef) {
    SideOk(c.instances) && (c.classes.None? || SideOk(c.classes.value))
  }

  function HeadPieces(c: ClassDef): seq<Piece> {
    [Word(Identifier, c.name), Sign(Equal)] +
    (if c.superName.None? then [] else [Word(Identifier, c.superName.value)]) + [Sign(NewTerm)]
  }

  function ClassSidePieces(side: Option<Side>): seq<Piece>
    requires side.None? || SideOk(side.value)
  {
    if side.None? then [] else [Sign(Separator)] + SidePieces(side.value)
  }

  function ClassPieces(c: ClassDef): seq<Piece>
    requires ClassOk(c)
  {
    HeadPieces(c) + SidePieces(c.instances) + ClassSidePieces(c.classes) + [Sign(EndTerm)]
  }

  // ----- literals -----

  lemma {:induction false} LiteralWritten(lit: Literal, id: nat, ts: Tokens)
    ensures EatLiteral(lit, id, ts) == After(LiteralPieces(lit, id), ts)
    decreases lit
  {
    match lit
    case Number(kind, text, negative) =>
      var p := [Piece({Integer, Double}, kind, Some(text), Some(id))];
      AfterSign(Minus, ts);
      AfterBoth(if negative then [Sign(Minus)] else [], p, ts);
      AfterPiece(p[0], if negative && ts != [] then ts[1..] else ts);
      assert [] + p == p;
    case Text(text) => AfterPiece(Piece({STString}, STString, Some(text), Some(id)), ts);
    case SymbolLiteral(kind, text) => SymbolWritten(kind, text, id, ts);
    case LiteralArray(_) => ArrayWritten(lit, id, ts);
  }

  lemma {:induction false} ArrayWritten(lit: Literal, id: nat, ts: Tokens)
    requires lit.LiteralArray?
    ensures EatLiteral(lit, id, ts) == After(LiteralPieces(lit, id), ts)
    decreases lit, -1
  {
    hide After, EatElements, ElementsPieces;
    var elements := lit.elements;
    var a, b := Piece({Pound}, Pound, None, Some(id)), Sign(NewTerm);
    AfterBetween(a, [b] + ElementsPieces(elements), EndTerm, ts);
    assert [a] + ([b] + ElementsPieces(elements)) + [Sign(EndTerm)] == LiteralPieces(lit, id);
    AfterPiece(a, ts);
    if ts != [] {
      AfterBoth([b], ElementsPieces(elements), ts[1..]);
      AfterSign(NewTerm, ts[1..]);
      if |ts| > 1 {
        ElementsWritten(elements, ts[1..][1..]);
      }
    }
  }

  lemma SymbolWritten(kind: Symbol, text: string, id: nat, ts: Tokens)
    ensures EatLiteral(SymbolLiteral(kind, text), id, ts) == After(LiteralPieces(SymbolLiteral(kind, text), id), ts)
  {
    var ps := LiteralPieces(SymbolLiteral(kind, text), id);
    AfterBoth(ps[..1], ps[1..], ts);
    assert ps == ps[..1] + ps[1..];
    AfterPiece(ps[0], ts);
    assert IsSelectorSymbol(kind) <==> kind in ps[1].kinds;
    if ts != [] {
      AfterPiece(ps[1], ts[1..]);
    }
  }

  lemma {:induction false} ElementsWritten(elements: Elements, ts: Tokens)
    ensures EatElements(elements, ts) == After(ElementsPieces(elements), ts)
    decreases elements
  {
    if elements.Element? {
      hide LiteralPieces;
      LiteralWritten(elements.lit, elements.id, ts);
      AfterBoth(LiteralPieces(elements.lit, elements.id), ElementsPieces(elements.more), ts);
      var us := EatLiteral(elements.lit, elements.id, ts);
      if us.Some? {
        ElementsWritten(elements.more, us.value);
      }
    }
  }

  // ----- names -----

  lemma {:induction false} NamesWritten(names: seq<string>, ts: Tokens)
    ensures EatNames(names, ts) == After(NamesPieces(names), ts)
    decreases |names|
  {
    if names != [] {
      hide After;
      assert NamesPieces(names) == [Word(Identifier, names[0])] + NamesPieces(names[1..]);
      AfterBoth([Word(Identifier, names[0])], NamesPieces(names[1..]), ts);
      AfterWord(Identifier, names[0], ts);
      if ts != [] {
        NamesWritten(names[1..], ts[1..]);
      }
    } else {
      assert NamesPieces(names) == [];
    }
  }

  lemma AfterTwo(a: Piece, b: Piece, ts: Tokens)
    ensures After([a, b], ts) == Both(After([a], ts), [b])
  {
    AfterBoth([a], [b], ts);
    assert [a] + [b] == [a, b];
  }

  lemma {:induction false} ParamsWritten(params: seq<string>, ts: Tokens)
    ensures EatParams(params, ts) == After(ParamsPieces(params), ts)
    decreases |params|
  {
    if params != [] {
      hide After;
      var a, b := Sign(Colon), Word(Identifier, params[0]);
      AfterBoth([a, b], ParamsPieces(params[1..]), ts);
      AfterTwo(a, b, ts);
      AfterSign(Colon, ts);
      if ts != [] {
        AfterWord(Identifier, params[0], ts[1..]);
        if |ts| > 1 {
          ParamsWritten(params[1..], ts[1..][1..]);
        }
      }
    } else {
      NothingAfter(ts);
    }
  }

  lemma NothingAfter(ts: Tokens)
    ensures After([], ts) == Some(ts)
  {
  }

  lemma {:induction false} TargetsWritten(targets: seq<string>, ts: Tokens)
    ensures EatTargets(targets, ts) == After(TargetsPieces(targets), ts)
    decreases |targets|
  {
    if targets != [] {
      hide After;
      var a, b := Word(Identifier, targets[0]), Sign(Assign);
      AfterBoth([a, b], TargetsPieces(targets[1..]), ts);
      AfterTwo(a, b, ts);
      AfterWord(Identifier, targets[0], ts);
      if ts != [] {
        AfterSign(Assign, ts[1..]);
        if |ts| > 1 {
          TargetsWritten(targets[1..], ts[1..][1..]);
        }
      }
    } else {
      NothingAfter(ts);
    }
  }

  /** A phrase between two signs. */
  lemma AfterBetween(a: Piece, ps: seq<Piece>, z: Symbol, ts: Tokens)
    ensures After([a] + ps + [Sign(z)], ts) ==
            var us := After([a], ts);
            var vs := Both(us, ps);
            if vs.None? then None else Eat(z, vs.value)
  {
    hide After;
    AfterBoth([a] + ps, [Sign(z)], ts);
    AfterBoth([a], ps, ts);
    var vs := Both(After([a], ts), ps);
    if vs.Some? {
      AfterSign(z, vs.value);
    }
  }

  lemma LocalsWritten(locals: Locals, ts: Tokens)
    ensures EatLocals(locals, ts) == After(LocalsPieces(locals), ts)
  {
    hide After, EatNames, NamesPieces;
    match locals
    case NoLocals => NothingAfter(ts);
    case Locals(names) =>
      AfterBetween(Sign(Or), NamesPieces(names), Or, ts);
      AfterSign(Or, ts);
      if ts != [] {
        NamesWritten(names, ts[1..]);
      }
  }

  lemma BlockParamsWritten(params: seq<string>, ts: Tokens)
    ensures EatPattern(params, ts) == After(if params == [] then [] else ParamsPieces(params) + [Sign(Or)], ts)
  {
    hide After, EatParams, ParamsPieces;
    if params == [] {
      NothingAfter(ts);
    } else {
      ParamsWritten(params, ts);
      AfterBoth(ParamsPieces(params), [Sign(Or)], ts);
      var us := EatParams(params, ts);
      if us.Some? {
        AfterSign(Or, us.value);
      }
    }
  }

  // ----- expressions -----

  lemma {:induction false} UnariesWritten(us: Unaries, ts: Tokens)
    ensures EatUnaries(us, ts) == After(UnariesPieces(us), ts)
    decreases us
  {
    hide After;
    match us
    case NoUnary => NothingAfter(ts);
    case Unary(sel, more) =>
      AfterBoth([Word(Identifier, sel)], UnariesPieces(more), ts);
      AfterWord(Identifier, sel, ts);
      if ts != [] {
        UnariesWritten(more, ts[1..]);
      }
  }

  lemma {:induction false} PrimaryWritten(p: Primary, ts: Tokens)
    ensures EatPrimary(p, ts) == After(PrimaryPieces(p), ts)
    decreases p, 0
  {
    hide After, EatLiteral, LiteralPieces, EatExpr, ExprPieces;
    match p
    case Variable(name) => AfterWord(Identifier, name, ts);
    case Nested(term) =>
      AfterBetween(Sign(NewTerm), ExprPieces(term), EndTerm, ts);
      AfterSign(NewTerm, ts);
      if ts != [] {
        ExprWritten(term, ts[1..]);
      }
    case Block(_, _, _, _) => BlockWritten(p, ts);
    case LiteralNode(lit, id) => LiteralWritten(lit, id, ts);
  }

  lemma {:induction false} BlockWritten(p: Primary, ts: Tokens)
    requires p.Block?
    ensures EatPrimary(p, ts) == After(PrimaryPieces(p), ts)
    decreases p, -1
  {
    hide After, EatPattern, EatLocals, EatBody, LocalsPieces, BodyPieces, ParamsPieces;
    var a := Piece({NewBlock}, NewBlock, None, Some(p.id));
    var b := if p.params == [] then [] else ParamsPieces(p.params) + [Sign(Or)];
    var c, d := LocalsPieces(p.locals), BodyPieces(p.body);
    AfterPiece(a, ts);
    AfterBetween(a, b + c + d, EndBlock, ts);
    assert [a] + (b + c + d) + [Sign(EndBlock)] == PrimaryPieces(p);
    if ts != [] {
      var us := ts[1..];
      BlockParamsWritten(p.params, us);
      AfterBoth(b + c, d, us);
      AfterBoth(b, c, us);
      var vs := EatPattern(p.params, us);
      if vs.Some? {
        LocalsWritten(p.locals, vs.value);
        var ws := EatLocals(p.locals, vs.value);
        if ws.Some? {
          BodyWritten(p.body, EndBlock, ws.value);
          BlockEnd(Both(ws, d));
        }
      }
    }
  }

  /** To look for the sign that ends a block first changes nothing. */
  lemma BlockEnd(us: Option<Tokens>)
    ensures (var vs := Upto(EndBlock, us); if vs.None? then None else Eat(EndBlock, vs.value)) ==
            if us.None? then None else Eat(EndBlock, us.value)
  {
  }

  lemma {:induction false} OperandWritten(o: Operand, ts: Tokens)
    ensures EatOperand(o, ts) == After(OperandPieces(o), ts)
    decreases o, 0
  {
    hide After, EatPrimary, PrimaryPieces, EatUnaries, UnariesPieces;
    PrimaryWritten(o.head, ts);
    AfterBoth(PrimaryPieces(o.head), UnariesPieces(o.unaries), ts);
    var us := EatPrimary(o.head, ts);
    if us.Some? {
      UnariesWritten(o.unaries, us.value);
    }
  }

  lemma OperatorIs(op: Symbol, sel: string, ts: Tokens)
    ensures After([Operator(op, sel)], ts) == if IsBinaryToken(op) then EatText(op, sel, ts) else None
  {
    AfterPiece(Operator(op, sel), ts);
    assert IsBinaryToken(op) <==> op in Operator(op, sel).kinds;
  }

  lemma {:induction false} BinariesWritten(bs: Binaries, ts: Tokens)
    ensures EatBinaries(bs, ts) == After(BinariesPieces(bs), ts)
    decreases bs, 0
  {
    hide After, EatOperand, OperandPieces, Operator, IsBinaryToken;
    match bs
    case NoBinary => NothingAfter(ts);
    case Binary(op, sel, arg, rest) =>
      AfterBoth([Operator(op, sel)] + OperandPieces(arg), BinariesPieces(rest), ts);
      AfterBoth([Operator(op, sel)], OperandPieces(arg), ts);
      OperatorIs(op, sel, ts);
      if ts != [] {
        OperandWritten(arg, ts[1..]);
        var us := EatOperand(arg, ts[1..]);
        if us.Some? {
          BinariesWritten(rest, us.value);
        }
      }
  }

  lemma {:induction false} FormulaWritten(f: Formula, ts: Tokens)
    ensures EatFormula(f, ts) == After(FormulaPieces(f), ts)
    decreases f, 0
  {
    hide After, EatOperand, OperandPieces, EatBinaries, BinariesPieces;
    OperandWritten(f.operand, ts);
    AfterBoth(OperandPieces(f.operand), BinariesPieces(f.binaries), ts);
    var us := EatOperand(f.operand, ts);
    if us.Some? {
      BinariesWritten(f.binaries, us.value);
    }
  }

  lemma {:induction false} KeywordsWritten(ks: Keywords, ts: Tokens)
    ensures EatKeywords(ks, ts) == After(KeywordsPieces(ks), ts)
    decreases ks, 0
  {
    hide After, EatFormula, FormulaPieces;
    match ks
    case NoKeyword => NothingAfter(ts);
    case KeywordPart(key, arg, tail) =>
      AfterBoth([Word(Keyword, key)] + FormulaPieces(arg), KeywordsPieces(tail), ts);
      AfterBoth([Word(Keyword, key)], FormulaPieces(arg), ts);
      AfterWord(Keyword, key, ts);
      if ts != [] {
        FormulaWritten(arg, ts[1..]);
        var us := EatFormula(arg, ts[1..]);
        if us.Some? {
          KeywordsWritten(tail, us.value);
        }
      }
  }

  lemma {:induction false} ExprWritten(e: Expr, ts: Tokens)
    ensures EatExpr(e, ts) == After(ExprPieces(e), ts)
    decreases e, 1
  {
    hide After, EatTargets, TargetsPieces, EatFormula, FormulaPieces, EatKeywords, KeywordsPieces;
    AfterBoth(TargetsPieces(e.targets) + FormulaPieces(e.formula), KeywordsPieces(e.keywords), ts);
    AfterBoth(TargetsPieces(e.targets), FormulaPieces(e.formula), ts);
    TargetsWritten(e.targets, ts);
    var us := EatTargets(e.targets, ts);
    if us.Some? {
      FormulaWritten(e.formula, us.value);
      var vs := EatFormula(e.formula, us.value);
      if vs.Some? {
        KeywordsWritten(e.keywords, vs.value);
      }
    }
  }

  /** A body is read up to the token that ends it. */
  lemma {:induction false} BodyWritten(b: Body, end: Symbol, ts: Tokens)
    ensures EatBody(b, end, ts) == Upto(end, After(BodyPieces(b), ts))
    decreases b, 0
  {
    hide After, EatExpr, ExprPieces;
    match b
    case Answer(e, period) => AnswerWritten(e, period, end, ts);
    case Finished => NothingAfter(ts);
    case Last(e) => ExprWritten(e, ts);
    case Then(e, rest) =>
      AfterBoth(ExprPieces(e) + [Sign(Period)], BodyPieces(rest), ts);
      AfterBoth(ExprPieces(e), [Sign(Period)], ts);
      ExprWritten(e, ts);
      var us := EatExpr(e, ts);
      if us.Some? {
        AfterSign(Period, us.value);
        if us.value != [] {
          BodyWritten(rest, end, us.value[1..]);
        }
      }
  }

  lemma {:induction false} AnswerWritten(e: Expr, period: bool, end: Symbol, ts: Tokens)
    ensures EatBody(Answer(e, period), end, ts) == Upto(end, After(BodyPieces(Answer(e, period)), ts))
    decreases e, 2
  {
    hide After, EatExpr, ExprPieces;
    var last := if period then [Sign(Period)] else [];
    AfterBoth([Sign(Exit)] + ExprPieces(e), last, ts);
    AfterBoth([Sign(Exit)], ExprPieces(e), ts);
    AfterSign(Exit, ts);
    if ts != [] {
      ExprWritten(e, ts[1..]);
      var us := EatExpr(e, ts[1..]);
      if us.Some? {
        AfterSign(Period, us.value);
        NothingAfter(us.value);
      }
    }
  }

  // ----- class definitions -----

  lemma {:induction false} KeyArgsWritten(keys: seq<string>, names: seq<string>, ts: Tokens)
    ensures EatKeyArgs(keys, names, ts) == if |keys| == |names| then After(KeyArgsPieces(keys, names), ts) else None
    decreases |keys|
  {
    if keys == [] {
      NothingAfter(ts);
    } else if names != [] {
      hide After;
      var a, b := Word(Keyword, keys[0]), Word(Identifier, names[0]);
      AfterWord(Keyword, keys[0], ts);
      if |keys| == |names| {
        AfterBoth([a, b], KeyArgsPieces(keys[1..], names[1..]), ts);
        AfterTwo(a, b, ts);
      }
      if ts != [] {
        AfterWord(Identifier, names[0], ts[1..]);
        if |ts| > 1 {
          KeyArgsWritten(keys[1..], names[1..], ts[1..][1..]);
        }
      }
    }
  }

  lemma PatternWritten(p: MethodPattern, ts: Tokens)
    ensures EatMethodPattern(p, ts) == if Paired(p) then After(PatternPieces(p), ts) else None
  {
    hide After, EatKeyArgs, IsBinaryToken, Operator;
    match p
    case UnaryPattern(sel) => AfterWord(Identifier, sel, ts);
    case BinaryPattern(op, sel, arg) =>
      AfterTwo(Operator(op, sel), Word(Identifier, arg), ts);
      OperatorIs(op, sel, ts);
      if ts != [] {
        AfterWord(Identifier, arg, ts[1..]);
      }
    case KeywordPattern(keys, names) => KeyArgsWritten(keys, names, ts);
  }

  /** The same pieces, the first of which names an object. */
  lemma AfterNamed(ps: seq<Piece>, id: nat, ts: Tokens)
    requires ps != [] && ps[0].id.None?
    ensures After([ps[0].(id := Some(id))] + ps[1..], ts) == if Head(ts).id == id then After(ps, ts) else None
  {
  }

  lemma PatternFirst(p: MethodPattern)
    requires Paired(p)
    ensures PatternPieces(p) != [] && PatternPieces(p)[0].id.None?
  {
  }

  lemma MethodBlockWritten(locals: Locals, body: Body, ts: Tokens)
    ensures EatMethodBlock(locals, body, ts) ==
            After([Sign(NewTerm)] + LocalsPieces(locals) + BodyPieces(body) + [Sign(EndTerm)], ts)
  {
    hide After, EatLocals, EatBody, LocalsPieces, BodyPieces;
    var c, d := LocalsPieces(locals), BodyPieces(body);
    AfterBetween(Sign(NewTerm), c + d, EndTerm, ts);
    assert [Sign(NewTerm)] + (c + d) + [Sign(EndTerm)] == [Sign(NewTerm)] + c + d + [Sign(EndTerm)];
    AfterSign(NewTerm, ts);
    if ts != [] {
      AfterBoth(c, d, ts[1..]);
      LocalsWritten(locals, ts[1..]);
      var us := EatLocals(locals, ts[1..]);
      if us.Some? {
        BodyWritten(body, EndTerm, us.value);
      }
    }
  }

  lemma DefinitionWritten(d: Definition, ts: Tokens)
    ensures EatDefinition(d, ts) == if DefinitionOk(d) then After(DefinitionPieces(d), ts) else None
  {
    hide After, EatMethodPattern, EatMethodBlock, PatternPieces, LocalsPieces, BodyPieces;
    PatternWritten(d.pattern, ts);
    if DefinitionOk(d) {
      PatternFirst(d.pattern);
      var name := PatternPieces(d.pattern);
      var first := [name[0].(id := Some(d.id))] + name[1..];
      AfterNamed(name, d.id, ts);
      AfterBoth(first + [Sign(Equal)], DefinedPieces(d), ts);
      AfterBoth(first, [Sign(Equal)], ts);
      var us := EatMethodPattern(d.pattern, ts);
      if us.Some? {
        AfterSign(Equal, us.value);
        if us.value != [] {
          AfterSign(Primitive, us.value[1..]);
          MethodBlockWritten(d.locals, d.body, us.value[1..]);
        }
      }
    }
  }

  lemma {:induction false} DefinitionsWritten(ds: seq<Definition>, ts: Tokens)
    ensures EatDefinitions(ds, ts) == if AllOk(ds) then After(DefinitionsPieces(ds), ts) else None
    decreases |ds|
  {
    hide After, EatDefinition, DefinitionPieces, DefinitionOk;
    if ds == [] {
      NothingAfter(ts);
    } else {
      DefinitionWritten(ds[0], ts);
      assert AllOk(ds) <==> DefinitionOk(ds[0]) && AllOk(ds[1..]) by {
        assert forall k | 0 < k < |ds| :: ds[k] == ds[1..][k - 1];
      }
      var us := EatDefinition(ds[0], ts);
      if us.Some? {
        DefinitionsWritten(ds[1..], us.value);
      }
      if AllOk(ds) {
        AfterBoth(DefinitionPieces(ds[0]), DefinitionsPieces(ds[1..]), ts);
      }
    }
  }

  /** No method starts with the bar, if the fields do not and the side is well formed. */
  lemma FirstMethod(ds: seq<Definition>, ts: Tokens)
    requires EatDefinitions(ds, ts).Some? && ds != []
    ensures Head(ts).sym == Or <==> ds[0].pattern.BinaryPattern? && ds[0].pattern.op == Or
  {
    hide EatContents;
  }

  /** Fields and methods, provided that no bar follows them. */
  lemma SideWritten(side: Side, ts: Tokens)
    ensures SideOk(side) && EatSide(side, ts).Some? ==> EatSide(side, ts) == After(SidePieces(side), ts)
    ensures EatSide(side, ts).Some? ==> SideOk(side)
    ensures SideOk(side) && After(SidePieces(side), ts).Some? && Head(After(SidePieces(side), ts).value).sym != Or ==>
              EatSide(side, ts).Some?
  {
    hide After, EatLocals, LocalsPieces, EatDefinitions, DefinitionsPieces, AllOk;
    LocalsNone(ts);
    LocalsWritten(side.fields, ts);
    var us := EatLocals(side.fields, ts);
    if us.Some? {
      DefinitionsWritten(side.methods, us.value);
      if EatDefinitions(side.methods, us.value).Some? {
        if side.methods != [] {
          FirstMethod(side.methods, us.value);
        } else {
          DefinitionsNone(us.value);
        }
      }
    }
    if SideOk(side) {
      AfterBoth(LocalsPieces(side.fields), DefinitionsPieces(side.methods), ts);
    }
  }

  lemma DefinitionsNone(ts: Tokens)
    ensures EatDefinitions([], ts) == Some(ts)
  {
  }

  lemma LocalsNone(ts: Tokens)
    ensures EatLocals(NoLocals, ts) == Some(ts)
  {
  }

  lemma HeadWritten(c: ClassDef, ts: Tokens)
    ensures EatHead(c, ts) == After(HeadPieces(c), ts)
  {
    hide After;
    var a, b := Word(Identifier, c.name), Sign(Equal);
    var named := if c.superName.None? then [] else [Word(Identifier, c.superName.value)];
    AfterBoth([a, b] + named, [Sign(NewTerm)], ts);
    AfterBoth([a, b], named, ts);
    AfterTwo(a, b, ts);
    AfterWord(Identifier, c.name, ts);
    if ts != [] {
      AfterSign(Equal, ts[1..]);
      if |ts| > 1 {
        var us := ts[1..][1..];
        AfterSign(NewTerm, us);
        if c.superName.None? {
          NothingAfter(us);
        } else {
          AfterWord(Identifier, c.superName.value, us);
          if us != [] {
            AfterSign(NewTerm, us[1..]);
          }
        }
      }
    }
  }

  /** The class side and the closing bracket. */
  lemma ClassSideWritten(side: Option<Side>, ts: Tokens)
    ensures EatClassSide(side, ts) ==
            if side.None? || SideOk(side.value) then After(ClassSidePieces(side) + [Sign(EndTerm)], ts) else None
  {
    hide After, EatSide, SidePieces, SideOk;
    AfterSign(EndTerm, ts);
    if side.None? {
      assert ClassSidePieces(side) + [Sign(EndTerm)] == [Sign(EndTerm)];
    } else {
      AfterSign(Separator, ts);
      if ts != [] {
        SideWritten(side.value, ts[1..]);
      }
      if SideOk(side.value) {
        AfterBetween(Sign(Separator), SidePieces(side.value), EndTerm, ts);
      }
    }
  }

  /** A token sequence is a class definition exactly when it starts with the tokens of one. */
  lemma ClassWritten(c: ClassDef, ts: Tokens)
    ensures EatClass(c, ts) == if ClassOk(c) then After(ClassPieces(c), ts) else None
  {
    hide After, EatHead, HeadPieces, EatSide, SidePieces, SideOk, EatClassSide, ClassSidePieces;
    HeadWritten(c, ts);
    var us := EatHead(c, ts);
    if us.Some? {
      SideWritten(c.instances, us.value);
      var vs := EatSide(c.instances, us.value);
      if vs.Some? {
        ClassSideWritten(c.classes, vs.value);
      }
    }
    if ClassOk(c) {
      var last := ClassSidePieces(c.classes) + [Sign(EndTerm)];
      AfterBoth(HeadPieces(c) + SidePieces(c.instances), last, ts);
      AfterBoth(HeadPieces(c), SidePieces(c.instances), ts);
      assert HeadPieces(c) + SidePieces(c.instances) + last == ClassPieces(c);
      var vs := Both(us, SidePieces(c.instances));
      if vs.Some? {
        ClassSideWritten(c.classes, vs.value);
        if EatClassSide(c.classes, vs.value).Some? {
          ClassSideFirst(c.classes, vs.value);
        }
      }
    }
  }

  /** No class side starts with a bar. */
  lemma ClassSideFirst(side: Option<Side>, ts: Tokens)
    requires EatClassSide(side, ts).Some?
    ensures Head(ts).sym != Or
  {
  }
}

/** The bytecode that Parser.c emits, as functions of the syntax tree.  The parser methods
    in module Parser are proved to emit exactly this. */
module CodeGen {
  import opened Common
  import opened Syntax
  import opened Bytecodes
  import opened Signature
  import opened StackDepth

  /** The names one method or block declares: its argument list and its local variables. */
  datatype Scope = Scope(args: seq<string>, locals: seq<string>)

  /** What a code generator sees: the fields of the holder and the enclosing scopes, innermost first. */
  datatype Context = Context(fields: seq<string>, scopes: seq<Scope>)

  /** Code, and the literal table after generating it. */
  datatype Gen = Gen(code: seq<Instr>, lits: seq<Value>)

  /** A resolved variable: argument or local, its index, and how many contexts out it lives. */
  datatype Slot = Slot(isArgument: bool, index: nat, level: nat)

  /** `method_genc_find_var`. */
  function FindVar(scopes: seq<Scope>, name: string): Option<Slot>
    decreases |scopes|
  {
    if scopes == [] then None
    else if IndexOf(scopes[0].locals, name) != -1 then
      Some(Slot(false, IndexOf(scopes[0].locals, name), 0))
    else if IndexOf(scopes[0].args, name) != -1 then
      Some(Slot(true, IndexOf(scopes[0].args, name), 0))
    else
      match FindVar(scopes[1..], name)
      case None => None
      case Some(s) => Some(Slot(s.isArgument, s.index, s.level + 1))
  }

  /** The operand of an instruction that refers to a literal. */
  function LitIndex(lits: seq<Value>, v: Value): byte {
    ToByte(IndexOf(lits, v))
  }

  /** `gen_push_variable`. */
  function PushVariable(cx: Context, name: string, lits: seq<Value>): Gen {
    match FindVar(cx.scopes, name)
    case Some(Slot(true, index, level)) => Gen([PushArgument(ToByte(index), ToByte(level))], lits)
    case Some(Slot(false, index, level)) => Gen([PushLocal(ToByte(index), ToByte(level))], lits)
    case None =>
      var lits' := AddIfAbsent(lits, SymV(name));
      if name in cx.fields then Gen([PushField(LitIndex(lits', SymV(name)))], lits')
      else Gen([PushGlobal(LitIndex(lits', SymV(name)))], lits')
  }

  /** `gen_pop_variable`. */
  function PopVariable(cx: Context, name: string, lits: seq<Value>): Instr {
    match FindVar(cx.scopes, name)
    case Some(Slot(true, index, level)) => PopArgument(ToByte(index), ToByte(level))
    case Some(Slot(false, index, level)) => PopLocal(ToByte(index), ToByte(level))
    case None => PopField(LitIndex(lits, SymV(name)))
  }

  function Message(sel: string, toSuper: bool, lits: seq<Value>): Instr {
    if toSuper then SuperSend(LitIndex(lits, SymV(sel))) else Send(LitIndex(lits, SymV(sel)))
  }

  /** The object a literal denotes: symbols are interned, numbers and strings are fresh objects. */
  function LiteralObject(lit: Literal, id: nat): Value {
    match lit
    case SymbolLiteral(_, text) => SymV(text)
    case LiteralArray(elements) => ListV(id, LiteralObjects(elements))
    case _ => ConstV(id, lit)
  }

  function LiteralObjects(elements: Elements): seq<Value> {
    match elements
    case NoElement => []
    case Element(lit, id, more) => [LiteralObject(lit, id)] + LiteralObjects(more)
  }

  function PrimaryCode(cx: Context, p: Primary, lits: seq<Value>): Gen
    decreases p, 0
  {
    match p
    case Variable(name) => PushVariable(cx, if name == "super" then "self" else name, lits)
    case Nested(term) => ExprCode(cx, term, lits)
    case Block(id, _, _, _) =>
      var lits' := lits + [CodeV(id)];
      Gen([PushBlock(LitIndex(lits', CodeV(id)))], lits')
    case LiteralNode(lit, id) =>
      var lits' := AddIfAbsent(lits, LiteralObject(lit, id));
      Gen([PushConstant(LitIndex(lits', LiteralObject(lit, id)))], lits')
  }

  function UnariesCode(us: Unaries, toSuper: bool, lits: seq<Value>): Gen {
    match us
    case NoUnary => Gen([], lits)
    case Unary(sel, more) =>
      var lits' := AddIfAbsent(lits, SymV(sel));
      var g := UnariesCode(more, false, lits');
      Gen([Message(sel, toSuper, lits')] + g.code, g.lits)
  }

  function OperandCode(cx: Context, o: Operand, lits: seq<Value>): Gen
    decreases o, 0
  {
    var g := PrimaryCode(cx, o.head, lits);
    var h := UnariesCode(o.unaries, IsSuper(o.head), g.lits);
    Gen(g.code + h.code, h.lits)
  }

  function BinariesCode(cx: Context, bs: Binaries, toSuper: bool, lits: seq<Value>): Gen
    decreases bs, 0
  {
    match bs
    case NoBinary => Gen([], lits)
    case Binary(_, sel, arg, rest) =>
      var g := OperandCode(cx, arg, AddIfAbsent(lits, SymV(sel)));
      var h := BinariesCode(cx, rest, false, g.lits);
      Gen(g.code + [Message(sel, toSuper, g.lits)] + h.code, h.lits)
  }

  /** Whether the first message after this operand goes to super. */
  predicate PendingSuper(o: Operand) {
    IsSuper(o.head) && o.unaries.NoUnary?
  }

  function FormulaCode(cx: Context, f: Formula, lits: seq<Value>): Gen
    decreases f, 0
  {
    var g := OperandCode(cx, f.operand, lits);
    var h := BinariesCode(cx, f.binaries, PendingSuper(f.operand), g.lits);
    Gen(g.code + h.code, h.lits)
  }

  function KeywordArgsCode(cx: Context, ks: Keywords, lits: seq<Value>): Gen
    decreases ks, 0
  {
    match ks
    case NoKeyword => Gen([], lits)
    case KeywordPart(_, arg, tail) =>
      var g := FormulaCode(cx, arg, lits);
      var h := KeywordArgsCode(cx, tail, g.lits);
      Gen(g.code + h.code, h.lits)
  }

  function KeywordMessageCode(cx: Context, ks: Keywords, toSuper: bool, lits: seq<Value>): Gen
    decreases ks, 1
  {
    if ks.NoKeyword? then Gen([], lits)
    else
      var g := KeywordArgsCode(cx, ks, lits);
      var sel := Concat(KeywordList(ks));
      var lits' := AddIfAbsent(g.lits, SymV(sel));
      Gen(g.code + [Message(sel, toSuper, lits')], lits')
  }

  /** Whether the keyword message goes to super. */
  predicate KeywordToSuper(e: Expr) {
    PendingSuper(e.formula.operand) && e.formula.binaries.NoBinary?
  }

  function EvaluationCode(cx: Context, e: Expr, lits: seq<Value>): Gen
    decreases e, 0
  {
    var g := FormulaCode(cx, e.formula, lits);
    var h := KeywordMessageCode(cx, e.keywords, KeywordToSuper(e), g.lits);
    Gen(g.code + h.code, h.lits)
  }

  /** The assigned names enter the literal table before the expression is compiled. */
  function AddTargets(targets: seq<string>, lits: seq<Value>): (r: seq<Value>)
    ensures lits <= r
    ensures forall t | t in targets :: SymV(t) in r
    decreases |targets|
  {
    if targets == [] then lits
    else
      assert targets == [targets[0]] + targets[1..];
      AddTargets(targets[1..], AddIfAbsent(lits, SymV(targets[0])))
  }

  function Dups(n: nat): (code: seq<Instr>)
    ensures |code| == n
  {
    if n == 0 then [] else [Dup] + Dups(n - 1)
  }

  function PopTargets(cx: Context, targets: seq<string>, lits: seq<Value>): (code: seq<Instr>)
    ensures |code| == |targets|
    decreases |targets|
  {
    if targets == [] then [] else [PopVariable(cx, targets[0], lits)] + PopTargets(cx, targets[1..], lits)
  }

  function ExprCode(cx: Context, e: Expr, lits: seq<Value>): Gen
    decreases e, 1
  {
    var g := EvaluationCode(cx, e, AddTargets(e.targets, lits));
    Gen(g.code + Dups(|e.targets|) + PopTargets(cx, e.targets, g.lits), g.lits)
  }

  /** `^self` at the end of a method. */
  const RETURN_SELF: seq<Instr> := [PushArgument(0, 0), ReturnLocal]

  function BodyCode(cx: Context, b: Body, isBlock: bool, lits: seq<Value>): Gen {
    match b
    case Answer(e, _) =>
      var g := ExprCode(cx, e, lits);
      Gen(g.code + [if isBlock then ReturnNonLocal else ReturnLocal], g.lits)
    case Finished =>
      if isBlock then
        var lits' := AddIfAbsent(lits, SymV("nil"));
        Gen([PushGlobal(LitIndex(lits', SymV("nil"))), ReturnLocal], lits')
      else Gen(RETURN_SELF, lits)
    case Last(e) =>
      var g := ExprCode(cx, e, lits);
      Gen(g.code + (if isBlock then [ReturnLocal] else [Pop] + RETURN_SELF), g.lits)
    case Then(e, rest) =>
      var g := ExprCode(cx, e, lits);
      if isBlock && rest.Finished? then Gen(g.code + [ReturnLocal], g.lits)
      else
        var h := BodyCode(cx, rest, isBlock, g.lits);
        Gen(g.code + [Pop] + h.code, h.lits)
  }

  // ----- methods and blocks -----

  /** A method or block as written. `parent` is the method or block a block stands in. */
  datatype Source = Source(signature: string, isBlock: bool, args: seq<string>, locals: seq<string>,
                           body: Body, outer: seq<Scope>, fields: seq<string>, parent: Option<nat>)
  {
    function Own(): Scope {
      Scope(args, locals)
    }

    function Cx(): Context {
      Context(fields, [Own()] + outer)
    }
  }

  /** `nestedBlock`: a block's arguments are the block itself and its parameters. */
  function BlockSource(b: Primary, cx: Context, parent: nat): Source
    requires b.Block?
  {
    var args := AddAllAbsent(["$block self"], b.params);
    Source(BlockSignature(|args|), true, args, AddAllAbsent([], b.locals.Names()), b.body, cx.scopes,
           cx.fields, Some(parent))
  }

  /** A compiled method object. */
  datatype Method = Method(signature: string, locals: nat, maxStack: nat, literals: seq<Value>,
                           code: seq<Instr>)
  {
    function Args(): nat {
      Arity(signature)
    }
  }

  /** `VMMethod_assemble` of a compiled body. */
  function Compile(s: Source): Method {
    var g := BodyCode(s.Cx(), s.body, s.isBlock, []);
    Method(s.signature, |s.locals|, Scan(g.code, g.lits, 0, 0), g.lits, g.code)
  }

  /** Scopes whose indices and depths fit in a byte. */
  predicate Small(scopes: seq<Scope>) {
    && |scopes| <= 256
    && forall k | 0 <= k < |scopes| :: |scopes[k].args| <= 256 && |scopes[k].locals| <= 256
  }

  /** The sizes the byte-wide operands can express. */
  predicate WithinLimits(s: Source) {
    |Compile(s).literals| <= 256 && Small(s.Cx().scopes)
  }
}

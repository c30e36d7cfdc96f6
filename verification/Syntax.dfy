/** Tokens, and the concrete syntax trees of the grammar documented at the head of Parser.c. */
module Syntax {

  /** The token kinds of the lexer. */
  datatype Symbol =
    | NONE | Integer | Double | Not | And | Or | Star | Div | Mod | Plus
    | Minus | Equal | More | Less | Comma | At | Per | NewBlock
    | EndBlock | Colon | Period | Exit | Assign | NewTerm | EndTerm | Pound
    | Primitive | Separator | STString | Identifier | Keyword | KeywordSequence
    | OperatorSequence

  /** A token. Its `id` stands for its place in the source; the objects the compiler allocates for
      a literal or a block are named by the id of the token they come from. */
  datatype Token = Token(sym: Symbol, text: string, id: nat)

  /** The members of `binaryOpSyms`. */
  predicate IsOpSymbol(s: Symbol) {
    s in {Or, Comma, Minus, Equal, Not, And, Star, Div, Mod, Plus, More, Less, At, Per}
  }

  /** The tokens that start a binary message. */
  predicate IsBinaryToken(s: Symbol) {
    s == OperatorSequence || IsOpSymbol(s)
  }

  /** A literal as written; `kind` of a symbol tells which token follows the pound sign. The elements of
      an array are literals, each with the id its object is named by. */
  datatype Literal =
    | Number(kind: Symbol, text: string, negative: bool)
    | Text(text: string)
    | SymbolLiteral(kind: Symbol, text: string)
    | LiteralArray(elements: Elements)

  datatype Elements = NoElement | Element(lit: Literal, id: nat, more: Elements)
  {
    function Length(): nat {
      if NoElement? then 0 else 1 + more.Length()
    }

    /** The k-th literal, and the id of its object. */
    function Nth(k: nat): (Literal, nat)
      requires k < Length()
    {
      if k == 0 then (lit, id) else more.Nth(k - 1)
    }
  }

  datatype Primary =
    | Variable(name: string)
    | Nested(term: Expr)
    | Block(id: nat, params: seq<string>, locals: Locals, body: Body)
    | LiteralNode(lit: Literal, id: nat)

  /** The optional declaration of local variables between bars. */
  datatype Locals = NoLocals | Locals(names: seq<string>)
  {
    function Names(): seq<string> {
      if NoLocals? then [] else names
    }
  }

  datatype Unaries = NoUnary | Unary(sel: string, more: Unaries)

  datatype Operand = Operand(head: Primary, unaries: Unaries)

  datatype Binaries = NoBinary | Binary(op: Symbol, sel: string, arg: Operand, rest: Binaries)

  datatype Formula = Formula(operand: Operand, binaries: Binaries)

  datatype Keywords = NoKeyword | KeywordPart(key: string, arg: Formula, tail: Keywords)

  /** `targets` are the variables of a chained assignment, outermost first. */
  datatype Expr = Expr(targets: seq<string>, formula: Formula, keywords: Keywords)

  datatype Body =
    | Answer(result: Expr, period: bool)    // ^ expression, with or without a period
    | Finished                              // nothing, or nothing after a period
    | Last(value: Expr)                     // an expression without a period
    | Then(first: Expr, following: Body)    // an expression, a period, and what follows

  /** Sends whose receiver is the word `super` itself start at the superclass. */
  predicate IsSuper(p: Primary) {
    p.Variable? && p.name == "super"
  }

  function KeywordList(ks: Keywords): seq<string> {
    match ks
    case NoKeyword => []
    case KeywordPart(key, _, tail) => [key] + KeywordList(tail)
  }
}

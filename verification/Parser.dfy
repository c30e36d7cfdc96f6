/** The parser (Parser.c): a single pass over the tokens that emits bytecode as it goes.  Each grammar
    method is given, as a ghost, the tree of the phrase it reads; it is proved to consume that phrase
    and to emit what module CodeGen says, or to stop because a method gets too long. */
module Parser {
  import opened Common
  import opened Syntax
  import opened Bytecodes
  import opened Signature
  import opened StackDepth
  import opened CodeGen
  import opened Decompile
  import opened GenerationContext
  import opened Grammar
  import opened Emission

  class Lexer {
    var rest: Tokens
    var peekDone: bool
    var nextSym: Symbol
    var assembled: Made

    /** What has been peeked is the next token. */
    ghost predicate LexOk()
      reads this`rest, this`peekDone, this`nextSym
    {
      peekDone ==> nextSym == Head(Rest(rest)).sym
    }

    /** Parser_init, on a token sequence. */
    constructor (tokens: Tokens)
      ensures rest == tokens && !peekDone && assembled == []
    {
      rest, peekDone, nextSym, assembled := tokens, false, NONE, [];
    }

    function Sym(): Symbol
      reads this`rest
    {
      Head(rest).sym
    }

    function Text(): string
      reads this`rest
    {
      Head(rest).text
    }

    method GetSym()
      modifies this`rest, this`peekDone
      ensures rest == Rest(old(rest)) && !peekDone
    {
      rest, peekDone := Rest(rest), false;
    }

    /** Peeking twice finds the same token. */
    method Peek()
      modifies this`peekDone, this`nextSym
      ensures peekDone && nextSym == if old(peekDone) then old(nextSym) else Head(Rest(rest)).sym
      ensures old(LexOk()) ==> LexOk()
    {
      if !peekDone {
        nextSym := Head(Rest(rest)).sym;
      }
      peekDone := true;
    }

    method PeekIfNecessary()
      requires LexOk()
      modifies this`peekDone, this`nextSym
      ensures peekDone && nextSym == Head(Rest(rest)).sym
    {
      if !peekDone {
        Peek();
      }
    }

    method Accept(s: Symbol) returns (b: bool)
      modifies this`rest, this`peekDone
      ensures b <==> old(Sym()) == s
      ensures b ==> rest == Rest(old(rest)) && !peekDone
      ensures !b ==> rest == old(rest) && peekDone == old(peekDone)
    {
      if Sym() == s {
        GetSym();
        return true;
      }
      return false;
    }

    method AcceptOneOf(ss: set<Symbol>) returns (b: bool)
      modifies this`rest, this`peekDone
      ensures b <==> old(Sym()) in ss
      ensures b ==> rest == Rest(old(rest)) && !peekDone
      ensures !b ==> rest == old(rest) && peekDone == old(peekDone)
    {
      if Sym() in ss {
        GetSym();
        return true;
      }
      return false;
    }

    /** Complains, without consuming, when another token is there. */
    method Expect(s: Symbol) returns (b: bool)
      modifies this`rest, this`peekDone
      ensures b <==> old(Sym()) == s
      ensures b ==> rest == Rest(old(rest)) && !peekDone
      ensures !b ==> rest == old(rest) && peekDone == old(peekDone)
    {
      b := Accept(s);
    }

    method ReadIdentifier() returns (s: string)
      modifies this`rest, this`peekDone
      ensures s == old(Text())
      ensures old(Sym()) in {Identifier, Primitive} ==> rest == Rest(old(rest)) && !peekDone
    {
      s := Text();
      var accepted := Accept(Primitive);
      if !accepted {
        var _ := Expect(Identifier);
      }
    }

    /** `variable` and `argument`. */
    method ReadVariable() returns (s: string)
      modifies this`rest, this`peekDone
      ensures s == old(Text())
      ensures old(Sym()) in {Identifier, Primitive} ==> rest == Rest(old(rest)) && !peekDone
    {
      s := ReadIdentifier();
    }

    method ReadKeyword() returns (s: string)
      modifies this`rest, this`peekDone
      ensures s == old(Text())
      ensures old(Sym()) == Keyword ==> rest == Rest(old(rest)) && !peekDone
    {
      s := Text();
      var _ := Expect(Keyword);
    }

    method UnarySelector() returns (s: string)
      modifies this`rest, this`peekDone
      ensures s == old(Text())
      ensures old(Sym()) in {Identifier, Primitive} ==> rest == Rest(old(rest)) && !peekDone
    {
      s := ReadIdentifier();
    }

    method BinarySelector() returns (s: string)
      modifies this`rest, this`peekDone
      ensures s == old(Text())
      ensures IsBinaryToken(old(Sym())) ==> rest == Rest(old(rest)) && !peekDone
    {
      hide IsBinaryToken, IsOpSymbol;
      BinaryTokens(Sym());
      s := Text();
      var accepted := Accept(Or);
      if !accepted {
        accepted := Accept(Comma);
      }
      if !accepted {
        accepted := Accept(Minus);
      }
      if !accepted {
        accepted := Accept(Equal);
      }
      if !accepted {
        accepted := AcceptOneOf({Not, And, Or, Star, Div, Mod, Plus, Equal, More, Less, Comma, At, Per});
      }
      if !accepted {
        accepted := Accept(OperatorSequence);
      }
      if !accepted {
        var _ := Expect(NONE);
      }
    }

    ghost function StateOf(m: MethodGenc): State
      reads this`assembled, m`code, m`literals
    {
      State(m.code, m.literals, assembled)
    }

    // ----- variables -----

    /** `gen_push_variable`. */
    method GenPushVariable(m: MethodGenc, name: string) returns (o: Status)
      requires m.Valid()
      modifies m`literals, m`bp, m`code, m.bytecode
      ensures Outcome(o, old(StateOf(m)), StateOf(m), Only(PushVariable(old(m.Cx()), name, old(m.literals))))
      ensures o.Done? ==> m.Valid()
    {
      hide Fits, Outcome, CodeGen.FindVar, PushVariable, AddIfAbsent, LitIndex, MethodGenc.Cx,
        MethodGenc.Scopes, MethodGenc.ChainOk, MethodGenc.Valid;
      ChainFacts(m);
      ghost var s0, cx := StateOf(m), m.Cx();
      ghost var i: Instr;
      var found, index, context, isArgument := m.FindVar(name, 0);
      if found {
        PushFound(cx, name, m.literals, index, context, isArgument);
        if isArgument {
          i := PushArgument(ToByte(index), ToByte(context));
          o := m.EmitPushArgument(index, context);
        } else {
          i := PushLocal(ToByte(index), ToByte(context));
          o := m.EmitPushLocal(index, context);
        }
      } else {
        var isField := m.FindField(name);
        PushUnknown(cx, name, m.literals);
        m.literals := AddIfAbsent(m.literals, SymV(name));
        if isField {
          i := PushField(LitIndex(m.literals, SymV(name)));
          o := m.EmitPushField(SymV(name));
        } else {
          i := PushGlobal(LitIndex(m.literals, SymV(name)));
          o := m.EmitPushGlobal(SymV(name));
        }
      }
      EmittedOne(o, s0, StateOf(m), i, m.literals);
    }

    /** `gen_pop_variable`. */
    method GenPopVariable(m: MethodGenc, name: string) returns (o: Status)
      requires m.Valid()
      modifies m`bp, m`code, m.bytecode
      ensures Outcome(o, old(StateOf(m)), StateOf(m), Emits(PopVariable(old(m.Cx()), name, m.literals), m.literals))
      ensures o.Done? ==> m.Valid()
    {
      hide Fits, Outcome, CodeGen.FindVar, IndexOf, LitIndex, MethodGenc.Cx, MethodGenc.Scopes,
        MethodGenc.ChainOk, MethodGenc.Valid, Encode;
      ChainFacts(m);
      ghost var s0, cx := StateOf(m), m.Cx();
      ghost var i := PopVariable(cx, name, m.literals);
      var found, index, context, isArgument := m.FindVar(name, 0);
      if found {
        if isArgument {
          o := m.EmitPopArgument(index, context);
        } else {
          o := m.EmitPopLocal(index, context);
        }
      } else {
        o := m.EmitPopField(SymV(name));
      }
      EmittedOne(o, s0, StateOf(m), i, m.literals);
    }

    // ----- messages -----

    /** Adds the selector to the literals and emits the send. */
    method GenMessage(m: MethodGenc, sel: string, toSuper: bool) returns (o: Status)
      requires m.Valid()
      modifies m`literals, m`bp, m`code, m.bytecode
      ensures var lits := AddIfAbsent(old(m.literals), SymV(sel));
              Outcome(o, old(StateOf(m)), StateOf(m), Emits(Message(sel, toSuper, lits), lits))
      ensures o.Done? ==> m.Valid()
    {
      m.literals := AddIfAbsent(m.literals, SymV(sel));
      o := m.EmitMessage(sel, toSuper);
    }

    method UnaryMessage(m: MethodGenc, toSuper: bool) returns (o: Status)
      requires m.Valid() && Sym() == Identifier
      modifies this`rest, this`peekDone, m`literals, m`bp, m`code, m.bytecode
      ensures var lits := AddIfAbsent(old(m.literals), SymV(old(Text())));
              Outcome(o, old(StateOf(m)), StateOf(m), Emits(Message(old(Text()), toSuper, lits), lits))
      ensures o.Done? ==> m.Valid() && rest == Rest(old(rest)) && !peekDone
    {
      var msg := UnarySelector();
      o := GenMessage(m, msg, toSuper);
    }

    /** The loops over unary messages of `messages` and `binaryOperand`: only the first message can be
        a super send. */
    method UnaryMessages(m: MethodGenc, toSuper: bool, ghost us: Unaries) returns (o: Status, pending: bool)
      requires m.Valid() && LexOk()
      requires UnariesAhead(us, rest)
      modifies this`rest, this`peekDone, m`literals, m`bp, m`code, m.bytecode
      ensures Outcome(o, old(StateOf(m)), StateOf(m), UnariesWork(us, toSuper, old(m.literals)))
      ensures o.Done? ==> m.Valid() && Some(rest) == EatUnaries(us, old(rest)) && LexOk()
      ensures o.Done? ==> old(!peekDone) ==> !peekDone
      ensures o.Done? ==> |rest| <= |old(rest)|
      ensures o.Done? ==> pending == (toSuper && us.NoUnary?)
    {
      hide Fits, AddIfAbsent, UnariesWork, EatUnaries, UnariesAhead, CanDo, MethodGenc.Valid;
      ghost var cur, started := us, false;
      ghost var all := UnariesWork(us, toSuper, m.literals);
      ghost var s0, ts := StateOf(m), EatUnaries(us, rest);
      pending := toSuper;
      while Sym() == Identifier
        invariant m.Valid() && LexOk() && (old(!peekDone) ==> !peekDone) && |rest| <= |old(rest)|
        invariant UnariesAhead(cur, rest) && EatUnaries(cur, rest) == ts && pending == (toSuper && !started)
        invariant if started then us.Unary? else cur == us
        invariant CanDo(s0, all) <==> CanDo(StateOf(m), UnariesWork(cur, pending, m.literals))
        invariant After(s0, all) == After(StateOf(m), UnariesWork(cur, pending, m.literals))
        decreases |rest|
      {
        UnariesStep(cur, rest);
        UnariesParts(cur, pending, m.literals);
        ghost var lits := AddIfAbsent(m.literals, SymV(cur.sel));
        Joined(StateOf(m), Emits(Message(cur.sel, pending, lits), lits), UnariesWork(cur.more, false, lits));
        o := UnaryMessage(m, pending);
        if o.TooLong? {
          return;
        }
        pending := false;
        cur, started := cur.more, true;
      }
      UnariesStep(cur, rest);
      NoUnariesWork(pending, m.literals);
      FitsNow(m);
      IdleDone(StateOf(m));
      o := Done;
    }

    method BinaryMessage(m: MethodGenc, toSuper: bool, ghost cx: Context, ghost bs: Binaries) returns (o: Status)
      requires m.Valid() && LexOk() && cx == m.Cx() && bs.Binary?
      requires BinariesAhead(bs, rest)
      modifies this`rest, this`peekDone, this`nextSym, this`assembled, m`literals, m`bp, m`code, m.bytecode
      ensures var a := OperandWork(cx, bs.arg, AddIfAbsent(old(m.literals), SymV(bs.sel)));
              Outcome(o, old(StateOf(m)), StateOf(m), Join(a, Emits(Message(bs.sel, toSuper, a.lits), a.lits)))
      ensures o.Done? ==> m.Valid() && !peekDone && BinariesAhead(bs.rest, rest)
      ensures o.Done? ==> EatBinaries(bs.rest, rest) == EatBinaries(bs, old(rest))
      ensures o.Done? ==> |rest| < |old(rest)|
      decreases |rest|, 4
    {
      hide Fits, AddIfAbsent, OperandWork, EatOperand, EatBinaries, OperandAhead, BinariesAhead, CanDo,
        MethodGenc.Cx, MethodGenc.ChainOk, MethodGenc.Valid;
      ghost var s0 := StateOf(m);
      ghost var ts := BinariesStep(bs, rest);
      var msg := BinarySelector();
      m.literals := AddIfAbsent(m.literals, SymV(msg));
      ghost var a := OperandWork(cx, bs.arg, m.literals);
      ghost var e := Emits(Message(bs.sel, toSuper, a.lits), a.lits);
      Joined(s0, a, e);
      SameCode(s0, StateOf(m), a);
      var pending: bool;
      o, pending := BinaryOperand(m, cx, bs.arg);
      if o.TooLong? {
        return;
      }
      ghost var s1 := StateOf(m);
      o := m.EmitMessage(msg, toSuper);
      EmittedOne(o, s1, StateOf(m), Message(bs.sel, toSuper, a.lits), a.lits);
    }

    /** The loops over binary messages of `messages` and `formula`. */
    method BinaryMessages(m: MethodGenc, toSuper: bool, ghost cx: Context,
                          ghost bs: Binaries) returns (o: Status, pending: bool)
      requires m.Valid() && !peekDone && cx == m.Cx()
      requires BinariesAhead(bs, rest)
      modifies this`rest, this`peekDone, this`nextSym, this`assembled, m`literals, m`bp, m`code, m.bytecode
      ensures Outcome(o, old(StateOf(m)), StateOf(m), BinariesWork(cx, bs, toSuper, old(m.literals)))
      ensures o.Done? ==> m.Valid() && Some(rest) == EatBinaries(bs, old(rest)) && !peekDone && |rest| <= |old(rest)|
      ensures o.Done? ==> pending == (toSuper && bs.NoBinary?)
      decreases |rest|, 5
    {
      hide Fits, AddIfAbsent, OperandWork, BinariesWork, EatOperand, EatBinaries, OperandAhead, BinariesAhead,
        CanDo, MethodGenc.Cx, MethodGenc.ChainOk, MethodGenc.Valid;
      ghost var cur, started := bs, false;
      ghost var all := BinariesWork(cx, bs, toSuper, m.literals);
      ghost var s0, ts := StateOf(m), EatBinaries(bs, rest);
      pending := toSuper;
      while IsBinaryToken(Sym())
        invariant m.Valid() && !peekDone && |rest| <= |old(rest)|
        invariant BinariesAhead(cur, rest) && EatBinaries(cur, rest) == ts && pending == (toSuper && !started)
        invariant if started then bs.Binary? else cur == bs
        invariant CanDo(s0, all) <==> CanDo(StateOf(m), BinariesWork(cx, cur, pending, m.literals))
        invariant After(s0, all) == After(StateOf(m), BinariesWork(cx, cur, pending, m.literals))
        decreases |rest|
      {
        ghost var us := BinariesStep(cur, rest);
        BinariesParts(cx, cur, pending, m.literals);
        ghost var a := OperandWork(cx, cur.arg, AddIfAbsent(m.literals, SymV(cur.sel)));
        ghost var w := Join(a, Emits(Message(cur.sel, pending, a.lits), a.lits));
        Joined(StateOf(m), w, BinariesWork(cx, cur.rest, false, a.lits));
        o := BinaryMessage(m, pending, cx, cur);
        if o.TooLong? {
          return;
        }
        pending := false;
        cur, started := cur.rest, true;
      }
      ghost var us := BinariesStep(cur, rest);
      NoBinariesWork(cx, pending, m.literals);
      FitsNow(m);
      IdleDone(StateOf(m));
      o := Done;
    }

    /** Returns whether the next message would be a super send. */
    method BinaryOperand(m: MethodGenc, ghost cx: Context, ghost od: Operand) returns (o: Status, pending: bool)
      requires m.Valid() && LexOk() && cx == m.Cx()
      requires OperandAhead(od, rest)
      modifies this`rest, this`peekDone, this`nextSym, this`assembled, m`literals, m`bp, m`code, m.bytecode
      ensures Outcome(o, old(StateOf(m)), StateOf(m), OperandWork(cx, od, old(m.literals)))
      ensures o.Done? ==> m.Valid() && Some(rest) == EatOperand(od, old(rest)) && !peekDone && |rest| < |old(rest)|
      ensures o.Done? ==> pending == PendingSuper(od)
      decreases |rest|, 4
    {
      hide PrimaryWork, UnariesWork, OperandWork, EatUnaries, EatPrimary, EatOperand, UnariesAhead,
        PrimaryAhead, OperandAhead, CanDo, MethodGenc.Cx, MethodGenc.ChainOk, MethodGenc.Valid;
      OperandParts(cx, od, m.literals);
      ghost var p := PrimaryWork(cx, od.head, m.literals);
      ghost var u := UnariesWork(od.unaries, IsSuper(od.head), p.lits);
      Joined(StateOf(m), p, u);
      ghost var us := OperandStep(od, rest);
      o, pending := Primary(m, cx, od.head);
      if o.TooLong? {
        return;
      }
      o, pending := UnaryMessages(m, pending, od.unaries);
    }

    method Formula(m: MethodGenc, ghost cx: Context, ghost f: Formula) returns (o: Status)
      requires m.Valid() && LexOk() && cx == m.Cx()
      requires FormulaAhead(f, rest)
      modifies this`rest, this`peekDone, this`nextSym, this`assembled, m`literals, m`bp, m`code, m.bytecode
      ensures Outcome(o, old(StateOf(m)), StateOf(m), FormulaWork(cx, f, old(m.literals)))
      ensures o.Done? ==> m.Valid() && Some(rest) == EatFormula(f, old(rest)) && !peekDone && |rest| < |old(rest)|
      decreases |rest|, 6
    {
      hide OperandWork, BinariesWork, FormulaWork, EatOperand, EatBinaries, EatFormula, OperandAhead,
        BinariesAhead, FormulaAhead, CanDo, MethodGenc.Cx, MethodGenc.ChainOk, MethodGenc.Valid;
      FormulaParts(cx, f, m.literals);
      ghost var p := OperandWork(cx, f.operand, m.literals);
      ghost var b := BinariesWork(cx, f.binaries, PendingSuper(f.operand), p.lits);
      Joined(StateOf(m), p, b);
      ghost var us := FormulaStep(f, rest);
      var pending: bool;
      o, pending := BinaryOperand(m, cx, f.operand);
      if o.TooLong? {
        return;
      }
      o, pending := BinaryMessages(m, pending, cx, f.binaries);
    }

    method KeywordMessage(m: MethodGenc, toSuper: bool, ghost cx: Context, ghost ks: Keywords) returns (o: Status)
      requires m.Valid() && !peekDone && cx == m.Cx() && ks.KeywordPart?
      requires KeywordsAhead(ks, rest)
      modifies this`rest, this`peekDone, this`nextSym, this`assembled, m`literals, m`bp, m`code, m.bytecode
      ensures Outcome(o, old(StateOf(m)), StateOf(m), KeywordMessageWork(cx, ks, toSuper, old(m.literals)))
      ensures o.Done? ==> m.Valid() && Some(rest) == EatKeywords(ks, old(rest)) && !peekDone && |rest| < |old(rest)|
      decreases |rest|, 7
    {
      hide Fits, AddIfAbsent, Concat, FormulaWork, KeywordArgsWork, KeywordMessageWork, EatFormula,
        EatKeywords, FormulaAhead, KeywordsAhead, CanDo, MethodGenc.Cx, MethodGenc.ChainOk, MethodGenc.Valid;
      ghost var s0, ts := StateOf(m), EatKeywords(ks, rest);
      ghost var args := KeywordArgsWork(cx, ks, m.literals);
      ghost var sel := Concat(KeywordList(ks));
      ghost var lits := AddIfAbsent(args.lits, SymV(sel));
      KeywordMessageParts(cx, ks, toSuper, m.literals);
      Joined(s0, args, Emits(Message(sel, toSuper, lits), lits));
      var kw: string := "";
      ghost var cur := ks;
      ghost var first := KeywordsStep(cur, rest);
      ConcatEmpty(KeywordList(ks));
      while Sym() == Keyword
        invariant m.Valid() && !peekDone && |rest| <= |old(rest)| &&
                  ((cur == ks && rest == old(rest)) || |rest| < |old(rest)|)
        invariant KeywordsAhead(cur, rest) && EatKeywords(cur, rest) == ts && kw + Concat(KeywordList(cur)) == sel
        invariant CanDo(s0, args) <==> CanDo(StateOf(m), KeywordArgsWork(cx, cur, m.literals))
        invariant After(s0, args) == After(StateOf(m), KeywordArgsWork(cx, cur, m.literals))
        decreases |rest|
      {
        ghost var us := KeywordsStep(cur, rest);
        KeywordArgsParts(cx, cur, m.literals);
        ConcatNext(kw, cur);
        ghost var a := FormulaWork(cx, cur.arg, m.literals);
        Joined(StateOf(m), a, KeywordArgsWork(cx, cur.tail, a.lits));
        var key := ReadKeyword();
        kw := kw + key;
        o := Formula(m, cx, cur.arg);
        if o.TooLong? {
          return;
        }
        cur := cur.tail;
      }
      ghost var last := KeywordsStep(cur, rest);
      NoKeywordsWork(cx, m.literals);
      ConcatDone(kw);
      FitsNow(m);
      IdleDone(StateOf(m));
      o := GenMessage(m, kw, toSuper);
    }

    method Messages(m: MethodGenc, toSuper: bool, ghost cx: Context, ghost us: Unaries, ghost bs: Binaries,
                    ghost ks: Keywords)
        returns (o: Status)
      requires m.Valid() && !peekDone && cx == m.Cx()
      requires MessagesAhead(us, bs, ks, rest)
      modifies this`rest, this`peekDone, this`nextSym, this`assembled, m`literals, m`bp, m`code, m.bytecode
      ensures Outcome(o, old(StateOf(m)), StateOf(m), MessagesWork(cx, us, bs, ks, toSuper, old(m.literals)))
      ensures o.Done? ==> m.Valid() && !peekDone && |rest| <= |old(rest)|
      ensures o.Done? ==> Some(rest) == EatMessages(us, bs, ks, old(rest))
      decreases |rest|, 8
    {
      hide Fits, UnariesWork, BinariesWork, KeywordMessageWork, MessagesWork, EatUnaries, EatBinaries,
        EatFormula, EatKeywords, EatMessages, UnariesAhead, BinariesAhead, FormulaAhead, KeywordsAhead,
        MessagesAhead, CanDo, MethodGenc.Cx, MethodGenc.ChainOk, MethodGenc.Valid;
      ghost var u := UnariesWork(us, toSuper, m.literals);
      ghost var b := BinariesWork(cx, bs, toSuper && us.NoUnary?, u.lits);
      ghost var k := KeywordMessageWork(cx, ks, toSuper && us.NoUnary? && bs.NoBinary?, b.lits);
      MessagesParts(cx, us, bs, ks, toSuper, m.literals);
      Joined(StateOf(m), u, Join(b, k));
      Joined(After(StateOf(m), u), b, k);
      ghost var vs, ws := MessagesStep(us, bs, ks, rest);
      ghost var xs := KeywordsStep(ks, ws);
      var pending := toSuper;
      o, pending := UnaryMessages(m, pending, us);
      if o.TooLong? {
        return;
      }
      o, pending := BinaryMessages(m, pending, cx, bs);
      if o.TooLong? {
        return;
      }
      if Sym() == Keyword {
        o := KeywordMessage(m, pending, cx, ks);
      } else {
        NoKeywordMessageWork(cx, pending, m.literals);
        FitsNow(m);
        IdleDone(StateOf(m));
      }
    }

    method Evaluation(m: MethodGenc, ghost cx: Context, ghost e: Expr) returns (o: Status)
      requires m.Valid() && LexOk() && cx == m.Cx()
      requires EvaluationAhead(e.formula, e.keywords, rest)
      modifies this`rest, this`peekDone, this`nextSym, this`assembled, m`literals, m`bp, m`code, m.bytecode
      ensures Outcome(o, old(StateOf(m)), StateOf(m), EvaluationWork(cx, e, old(m.literals)))
      ensures o.Done? ==> m.Valid() && !peekDone && |rest| < |old(rest)|
      ensures o.Done? ==> Some(rest) == EatEvaluation(e.formula, e.keywords, old(rest))
      decreases |rest|, 9
    {
      hide Fits, PrimaryWork, MessagesWork, EvaluationWork, EatPrimary, EatMessages, EatEvaluation,
        PrimaryAhead, MessagesAhead, EvaluationAhead, CanDo, MethodGenc.Cx, MethodGenc.ChainOk,
        MethodGenc.Valid;
      ghost var od, bs, ks := e.formula.operand, e.formula.binaries, e.keywords;
      EvaluationParts(cx, e, m.literals);
      ghost var p := PrimaryWork(cx, od.head, m.literals);
      Joined(StateOf(m), p, MessagesWork(cx, od.unaries, bs, ks, IsSuper(od.head), p.lits));
      ghost var us := EvaluationStep(e.formula, ks, rest);
      var toSuper: bool;
      o, toSuper := Primary(m, cx, od.head);
      if o.TooLong? {
        return;
      }
      if Sym() == Identifier || Sym() == Keyword || IsBinaryToken(Sym()) {
        o := Messages(m, toSuper, cx, od.unaries, bs, ks);
      } else {
        NothingFollows(od.unaries, bs, ks, rest);
        NoMessagesWork(cx, toSuper, m.literals);
        FitsNow(m);
        IdleDone(StateOf(m));
      }
    }

    // ----- primaries -----

    method Primary(m: MethodGenc, ghost cx: Context, ghost p: Primary) returns (o: Status, toSuper: bool)
      requires m.Valid() && LexOk() && cx == m.Cx()
      requires PrimaryAhead(p, rest)
      modifies this`rest, this`peekDone, this`nextSym, this`assembled, m`literals, m`bp, m`code, m.bytecode
      ensures Outcome(o, old(StateOf(m)), StateOf(m), PrimaryWork(cx, p, old(m.literals)))
      ensures o.Done? ==> m.Valid() && Some(rest) == EatPrimary(p, old(rest)) && !peekDone && |rest| < |old(rest)|
      ensures o.Done? ==> toSuper == IsSuper(p)
      ensures o.Done? ==> (toSuper <==> old(Sym()) == Identifier && old(Text()) == "super")
      decreases |rest|, 3
    {
      hide PrimaryWork, EatPrimary, PrimaryAhead, MethodGenc.Cx, MethodGenc.ChainOk, MethodGenc.Valid;
      toSuper := false;
      PrimaryKinds(cx, p, rest, m.literals);
      if Sym() == Identifier {
        var name := ReadVariable();
        if name == "super" {
          toSuper := true;
          o := GenPushVariable(m, "self");
        } else {
          o := GenPushVariable(m, name);
        }
      } else if Sym() == NewTerm {
        o := NestedTerm(m, cx, p);
      } else if Sym() == NewBlock {
        o := BlockPrimary(m, cx, p);
      } else {
        o := Literal(m, cx, p);
      }
    }

    method NestedTerm(m: MethodGenc, ghost cx: Context, ghost p: Primary) returns (o: Status)
      requires m.Valid() && cx == m.Cx()
      requires PrimaryAhead(p, rest) && p.Nested?
      modifies this`rest, this`peekDone, this`nextSym, this`assembled, m`literals, m`bp, m`code, m.bytecode
      ensures Outcome(o, old(StateOf(m)), StateOf(m), PrimaryWork(cx, p, old(m.literals)))
      ensures o.Done? ==> m.Valid() && Some(rest) == EatPrimary(p, old(rest)) && !peekDone && |rest| < |old(rest)|
      decreases |rest|, 0
    {
      hide PrimaryWork, EatPrimary, PrimaryAhead, MethodGenc.Cx, MethodGenc.ChainOk, MethodGenc.Valid,
        ExprWork, ExprAhead, EatExpr;
      NestedWork(cx, p, m.literals);
      ghost var us := NestedStep(p, rest);
      var _ := Expect(NewTerm);
      o := Expression(m, cx, p.term);
      if o.TooLong? {
        return;
      }
      var _ := Expect(EndTerm);
    }

    method Literal(m: MethodGenc, ghost cx: Context, ghost p: Primary) returns (o: Status)
      requires m.Valid() && LexOk() && PrimaryAhead(p, rest) && p.LiteralNode?
      modifies this`rest, this`peekDone, this`nextSym, m`literals, m`bp, m`code, m.bytecode
      ensures Outcome(o, old(StateOf(m)), StateOf(m), PrimaryWork(cx, p, old(m.literals)))
      ensures o.Done? ==> m.Valid() && Some(rest) == EatPrimary(p, old(rest)) && !peekDone && |rest| < |old(rest)|
    {
      hide Fits, AddIfAbsent, PrimaryWork, EatPrimary, PrimaryAhead, MethodGenc.Valid, EatLiteral, LiteralObject;
      LiteralWork(cx, p, rest, m.literals);
      ghost var s0 := StateOf(m);
      var v := CurrentLiteral(p.lit, p.id);
      m.literals := AddIfAbsent(m.literals, v);
      o := m.EmitPushConstant(v);
      EmittedOne(o, s0, StateOf(m), PushConstant(LitIndex(m.literals, v)), m.literals);
    }

    /** `get_object_for_current_literal`. */
    method CurrentLiteral(ghost lit: Literal, ghost id: nat) returns (v: Value)
      requires LexOk() && EatLiteral(lit, id, rest).Some?
      modifies this`rest, this`peekDone, this`nextSym
      ensures old(Sym()) == STString ==> v == ConstV(old(Head(rest)).id, Syntax.Text(old(Text())))
      ensures old(Sym()) == Pound && old(Head(Rest(rest))).sym != NewTerm ==> v == SymV(old(Head(Rest(rest))).text)
      ensures old(Sym()) == Pound && old(Head(Rest(rest))).sym == NewTerm ==> v.ListV? && v.id == old(Head(rest)).id
      ensures old(Sym()) == Minus ==>
                var t := old(Head(Rest(rest))); v == ConstV(t.id, Number(t.sym, t.text, true))
      ensures old(Sym()) in {Integer, Double} ==>
                var t := old(Head(rest)); v == ConstV(t.id, Number(t.sym, t.text, false))
      ensures v == LiteralObject(lit, id) && Some(rest) == EatLiteral(lit, id, old(rest))
      ensures !peekDone && |rest| < |old(rest)|
      decreases |rest|, 1
    {
      hide EatElements, LiteralObjects;
      LiteralStart(lit, id, rest);
      if Sym() == Pound {
        PeekIfNecessary();
        if nextSym == NewTerm {
          v := ArrayLiteral(lit, id);
        } else {
          v := LiteralSymbol(lit, id);
        }
      } else if Sym() == STString {
        v := ConstV(Head(rest).id, Syntax.Text(Text()));
        var _ := Expect(STString);
      } else {
        v := LiteralNumber(lit, id);
      }
    }

    /** `literalArray`: the elements up to the closing bracket. */
    method ArrayLiteral(ghost lit: Literal, ghost id: nat) returns (v: Value)
      requires EatLiteral(lit, id, rest).Some? && lit.LiteralArray?
      modifies this`rest, this`peekDone, this`nextSym
      ensures v.ListV? && v.id == old(Head(rest)).id && |v.elements| == lit.elements.Length()
      ensures forall k | 0 <= k < lit.elements.Length() ::
                v.elements[k] == LiteralObject(lit.elements.Nth(k).0, lit.elements.Nth(k).1)
      ensures v == LiteralObject(lit, id) && Some(rest) == EatLiteral(lit, id, old(rest))
      ensures !peekDone && |rest| < |old(rest)|
      decreases |rest|, 0
    {
      hide EatLiteral, EatElements, LiteralObject, LiteralObjects, Elements.Nth, Elements.Length;
      ghost var us := ArrayStep(lit, id, rest);
      ghost var es := lit.elements;
      var place := Head(rest).id;
      var _ := Expect(Pound);
      var _ := Expect(NewTerm);
      var values: seq<Value> := [];
      ElementsStep(es, rest);
      while Sym() != EndTerm
        invariant EatElements(es, rest) == Some(us) && !peekDone && |rest| < |old(rest)|
        invariant Sym() == EndTerm <==> es.NoElement?
        invariant values + LiteralObjects(es) == LiteralObjects(lit.elements)
        decreases |rest|
      {
        ElementsStep(es, rest);
        ObjectsStep(values, es);
        var value := CurrentLiteral(es.lit, es.id);
        values := values + [value];
        es := es.more;
        ElementsStep(es, rest);
      }
      ElementsStep(es, rest);
      var _ := Expect(EndTerm);
      v := ListV(place, values);
      ObjectsStep(values, es);
      ArrayIs(lit, id);
      ArrayElements(lit.elements);
    }

    method LiteralNumber(ghost lit: Literal, ghost id: nat) returns (v: Value)
      requires EatLiteral(lit, id, rest).Some? && lit.Number?
      modifies this`rest, this`peekDone
      ensures var t := old(if Sym() == Minus then Head(Rest(rest)) else Head(rest));
              t.sym in {Integer, Double} && v == ConstV(t.id, Number(t.sym, t.text, old(Sym()) == Minus))
      ensures v == LiteralObject(lit, id) && Some(rest) == EatLiteral(lit, id, old(rest))
      ensures !peekDone && |rest| < |old(rest)|
    {
      var negative := Sym() == Minus;
      if negative {
        var _ := Expect(Minus);
      }
      var kind := Sym();
      v := ConstV(Head(rest).id, Number(kind, Text(), negative));
      if kind == Integer {
        var _ := Expect(Integer);
      } else {
        var _ := Expect(Double);
      }
    }

    method LiteralSymbol(ghost lit: Literal, ghost id: nat) returns (v: Value)
      requires EatLiteral(lit, id, rest).Some? && lit.SymbolLiteral?
      modifies this`rest, this`peekDone
      ensures v == SymV(old(Head(Rest(rest))).text)
      ensures v == LiteralObject(lit, id) && Some(rest) == EatLiteral(lit, id, old(rest))
      ensures !peekDone && |rest| < |old(rest)|
    {
      var _ := Expect(Pound);
      var text: string;
      if Sym() == STString {
        text := Text();
        var _ := Expect(STString);
      } else if Sym() == OperatorSequence || (IsOpSymbol(Sym()) && Sym() != Minus) {
        text := BinarySelector();
      } else if Sym() in {Keyword, KeywordSequence} {
        text := Text();
        var _ := AcceptOneOf({Keyword, KeywordSequence});
      } else {
        text := UnarySelector();
      }
      v := SymV(text);
    }

    // ----- expressions -----

    method Expression(m: MethodGenc, ghost cx: Context, ghost e: Expr) returns (o: Status)
      requires m.Valid() && !peekDone && cx == m.Cx()
      requires ExprAhead(e, rest)
      modifies this`rest, this`peekDone, this`nextSym, this`assembled, m`literals, m`bp, m`code, m.bytecode
      ensures Outcome(o, old(StateOf(m)), StateOf(m), ExprWork(cx, e, old(m.literals)))
      ensures o.Done? ==> m.Valid() && Some(rest) == EatExpr(e, old(rest)) && !peekDone && |rest| < |old(rest)|
      decreases |rest|, 11
    {
      hide EvaluationWork, EatEvaluation, EvaluationAhead, MethodGenc.Cx, MethodGenc.ChainOk,
        MethodGenc.Valid, ExprWork, ExprAhead, EatExpr, EatTargets;
      ghost var us := ExprStep(e, rest);
      Peek();
      if nextSym == Assign {
        o := Assignation(m, cx, e);
      } else {
        PlainWork(cx, e, rest, m.literals);
        o := Evaluation(m, cx, e);
      }
    }

    method Assignation(m: MethodGenc, ghost cx: Context, ghost e: Expr) returns (o: Status)
      requires m.Valid() && LexOk() && cx == m.Cx()
      requires ExprAhead(e, rest) && e.targets != []
      modifies this`rest, this`peekDone, this`nextSym, this`assembled, m`literals, m`bp, m`code, m.bytecode
      ensures Outcome(o, old(StateOf(m)), StateOf(m), ExprWork(cx, e, old(m.literals)))
      ensures o.Done? ==> m.Valid() && Some(rest) == EatExpr(e, old(rest)) && !peekDone && |rest| < |old(rest)|
      decreases |rest|, 10
    {
      hide EvaluationWork, EatEvaluation, EvaluationAhead, CanDo, MethodGenc.Cx, MethodGenc.ChainOk,
        MethodGenc.Valid, ExprWork, ExprAhead, EatExpr, EatTargets;
      ghost var us := ExprStep(e, rest);
      ghost var s0 := StateOf(m);
      ExprParts(cx, e, m.literals);
      var l := Assignments(m, [], e.targets, us);
      assert l == e.targets;
      ghost var v := EvaluationWork(cx, e, m.literals);
      ghost var t := Work(Dups(|e.targets|) + PopTargets(cx, e.targets, v.lits), v.lits, []);
      Joined(s0, v, t);
      SameCode(s0, StateOf(m), v);
      o := Evaluation(m, cx, e);
      if o.TooLong? {
        return;
      }
      o := StoreTargets(m, cx, l);
    }

    /** Stores the value on top of the stack in every target. */
    method StoreTargets(m: MethodGenc, ghost cx: Context, l: seq<string>) returns (o: Status)
      requires m.Valid() && cx == m.Cx()
      modifies m`bp, m`code, m.bytecode
      ensures Outcome(o, old(StateOf(m)), StateOf(m),
                Work(Dups(|l|) + PopTargets(cx, l, m.literals), m.literals, []))
      ensures o.Done? ==> m.Valid()
    {
      hide PopVariable, MethodGenc.Cx, MethodGenc.Scopes, MethodGenc.ChainOk, MethodGenc.Valid, Fits, Encode;
      ghost var s0 := StateOf(m);
      ghost var dups, pops := Dups(|l|), PopTargets(cx, l, m.literals);
      for i := 0 to |l|
        invariant m.Valid() && m.code == s0.code + dups[..i]
      {
        DupAt(|l|, i);
        TailFits(s0.code, dups, pops, i);
        o := m.EmitDup();
        assert s0.code + dups[..i] + [Dup] == s0.code + dups[..i + 1];
        if o.TooLong? {
          return;
        }
      }
      assert dups[..|l|] == dups;
      for i := 0 to |l|
        invariant m.Valid() && m.code == s0.code + dups + pops[..i]
      {
        PopAt(cx, l, m.literals, i);
        TailFits2(s0.code, dups, pops, i);
        ghost var s1 := StateOf(m);
        o := GenPopVariable(m, l[i]);
        assert s0.code + dups + pops[..i] + [pops[i]] == s0.code + dups + pops[..i + 1];
        if o.TooLong? {
          return;
        }
      }
      FitsNow(m);
      assert pops[..|l|] == pops;
      assert s0.code + dups + pops == s0.code + (dups + pops);
      assert s0.made + [] == s0.made;
      o := Done;
    }

    /** Collects the assigned names, and makes them literals. */
    method Assignments(m: MethodGenc, l0: seq<string>, ghost targets: seq<string>,
                       ghost us: Tokens) returns (l: seq<string>)
      requires LexOk() && targets != [] && EatTargets(targets, rest) == Some(us) && Head(Rest(us)).sym != Assign
      modifies this`rest, this`peekDone, this`nextSym, m`literals
      ensures l == l0 + targets && m.literals == AddTargets(targets, old(m.literals))
      ensures rest == us && LexOk() && |rest| < |old(rest)|
      decreases |rest|
    {
      hide EatTargets, AddTargets, AddIfAbsent;
      TargetsStep(targets, rest);
      AddTargetsStep(targets, m.literals);
      l := l0;
      if Sym() == Identifier {
        var v := Assignment(m);
        l := l + [v];
        Peek();
        if nextSym == Assign {
          TargetsMore(targets, rest, us);
          l := Assignments(m, l, targets[1..], us);
          assert l0 + [targets[0]] + targets[1..] == l0 + targets;
        } else {
          TargetsDone(targets, rest, us);
        }
      }
    }

    method Assignment(m: MethodGenc) returns (v: string)
      requires Sym() == Identifier && Head(Rest(rest)).sym == Assign
      modifies this`rest, this`peekDone, m`literals
      ensures v == old(Text()) && m.literals == AddIfAbsent(old(m.literals), SymV(v))
      ensures rest == Rest(Rest(old(rest))) && !peekDone
    {
      v := ReadVariable();
      m.literals := AddIfAbsent(m.literals, SymV(v));
      var _ := Expect(Assign);
    }

    // ----- blocks -----

    method BlockPrimary(m: MethodGenc, ghost cx: Context, ghost p: Primary) returns (o: Status)
      requires m.Valid() && cx == m.Cx()
      requires PrimaryAhead(p, rest) && p.Block?
      modifies this`rest, this`peekDone, this`nextSym, this`assembled, m`literals, m`bp, m`code, m.bytecode
      ensures Outcome(o, old(StateOf(m)), StateOf(m), PrimaryWork(cx, p, old(m.literals)))
      ensures o.Done? ==> m.Valid() && Some(rest) == EatPrimary(p, old(rest)) && !peekDone && |rest| < |old(rest)|
      decreases |rest|, 2
    {
      hide Fits, PrimaryWork, EatPrimary, PrimaryAhead, CanDo, MethodGenc.Cx, MethodGenc.ChainOk,
        MethodGenc.Valid, ContentsAhead, EatContents, EatPattern, EatLocals, BlockSource, BodyWork;
      ghost var us, vs, ws := BlockStep(p, rest);
      ghost var s0, src := StateOf(m), BlockSource(p, cx, 0);
      BlockOutcome(s0, cx, p, src);
      var id := Head(rest).id;
      var block: VMMethod;
      o, block := GenerateBlock(m, cx, p, src);
      if o.TooLong? {
        return;
      }
      assembled := assembled + [(id, block)];
      m.literals := m.literals + [CodeV(id)];
      o := m.EmitPushBlock(CodeV(id));
    }

    /** Generates the block's method in a context of its own, and assembles it. */
    method GenerateBlock(m: MethodGenc, ghost cx: Context, ghost p: Primary,
                         ghost src: Source) returns (o: Status, block: VMMethod)
      requires m.Valid() && cx == m.Cx()
      requires PrimaryAhead(p, rest) && p.Block? && src == BlockSource(p, cx, 0)
      modifies this`rest, this`peekDone, this`nextSym, this`assembled
      ensures m.Valid()
      ensures o.Done? <==> CanDo(State([], [], old(assembled)), BodyWork(src.Cx(), p.body, true, []))
      ensures o.Done? ==>
                var b := After(State([], [], old(assembled)), BodyWork(src.Cx(), p.body, true, []));
                assembled == b.made &&
                block == VMMethod(src.signature, |src.locals|, Scan(b.code, b.lits, 0, 0), b.lits, Encode(b.code))
      ensures o.Done? ==> Some(rest) == EatPrimary(p, old(rest)) && !peekDone && |rest| < |old(rest)|
      decreases |rest|, 1
    {
      hide Fits, EatPrimary, PrimaryAhead, CanDo, MethodGenc.Cx, MethodGenc.Scopes, MethodGenc.ChainOk,
        MethodGenc.Valid, BlockSource, BodyWork;
      hide Scan, Encode;
      ChainFacts(m);
      var bgenc := new MethodGenc(m, true, m.fields);
      ChainFacts(bgenc);
      o := NestedBlock(bgenc, cx, p, src);
      block := VMMethod("", 0, 0, [], []);
      if o.Done? {
        FitsNow(bgenc);
        block := bgenc.Assemble();
      }
    }

    method NestedBlock(b: MethodGenc, ghost cx: Context, ghost p: Primary, ghost src: Source) returns (o: Status)
      requires b.Valid() && Within(b, cx.fields, cx.scopes) && b.blockMethod
      requires b.code == [] && b.literals == [] && b.arguments == [] && b.locals == [] && !b.finished
      requires PrimaryAhead(p, rest) && p.Block? && src == BlockSource(p, cx, 0)
      modifies this`rest, this`peekDone, this`nextSym, this`assembled
      modifies b`signature, b`arguments, b`locals, b`finished, b`literals, b`bp, b`code, b.bytecode
      ensures Outcome(o, old(StateOf(b)), StateOf(b), BodyWork(src.Cx(), p.body, true, []))
      ensures o.Done? ==> b.Valid() && b.signature == src.signature && b.locals == src.locals
      ensures o.Done? ==> Some(rest) == EatPrimary(p, old(rest)) && !peekDone && |rest| < |old(rest)|
      decreases |rest|, 0
    {
      hide EatPrimary, PrimaryAhead, MethodGenc.Cx, MethodGenc.ChainOk, MethodGenc.Valid, ContentsAhead,
        EatContents, EatPattern, EatLocals, BlockSource, BodyWork, AddAllAbsent, Within, CanDo;
      ghost var us, vs, ws := BlockStep(p, rest);
      HeaderWithin(b, cx, p, src, us);
      ContentsLie(p, us, ws);
      o := FinishedContents(b, src.Cx(), src.fields, src.outer, p.locals, p.body);
      if o.TooLong? {
        return;
      }
      var _ := Expect(EndBlock);
    }

    /** The contents of a block, and a return unless they end in one. */
    method FinishedContents(b: MethodGenc, ghost cx: Context, ghost fields: seq<string>, ghost outer: seq<Scope>,
                            ghost locals: Locals, ghost body: Body) returns (o: Status)
      requires b.Valid() && Within(b, fields, outer) && b.blockMethod && !peekDone &&
               ContentsAhead(locals, body, EndBlock, rest)
      requires b.code == [] && b.literals == [] && b.locals == [] && !b.finished
      requires cx == Context(fields, [Scope(b.arguments, AddAllAbsent([], locals.Names()))] + outer)
      modifies this`rest, this`peekDone, this`nextSym, this`assembled
      modifies b`locals, b`finished, b`literals, b`bp, b`code, b.bytecode
      ensures Outcome(o, old(StateOf(b)), StateOf(b), BodyWork(cx, body, true, []))
      ensures o.Done? ==> b.Valid() && b.locals == AddAllAbsent([], locals.Names())
      ensures o.Done? ==> Some(rest) == EatContents(locals, body, EndBlock, old(rest))
      ensures o.Done? ==> !peekDone && |rest| <= |old(rest)|
      decreases |rest|, 15
    {
      hide CanDo, MethodGenc.Valid, PartWork, ContentsAhead, EatContents, BodyWork, AddAllAbsent;
      BlockEnds(StateOf(b), cx, body);
      o := BlockContents(b, fields, outer, locals, body, EndBlock);
      if o.TooLong? {
        return;
      }
      o := FinishBlock(b);
    }

    /** The header of a block changes nothing around the block. */
    method HeaderWithin(b: MethodGenc, ghost cx: Context, ghost p: Primary, ghost src: Source, ghost us: Tokens)
      requires Within(b, cx.fields, cx.scopes)
      requires p.Block? && src == BlockSource(p, cx, 0) && b.arguments == []
      requires Head(rest).sym == NewBlock && EatPattern(p.params, Rest(rest)) == Some(us)
      requires Head(Rest(rest)).sym == Colon <==> p.params != []
      modifies this`rest, this`peekDone, b`arguments, b`signature
      ensures Within(b, cx.fields, cx.scopes) && b.arguments == src.args && b.signature == src.signature
      ensures src.outer == cx.scopes && src.fields == cx.fields && src.locals == AddAllAbsent([], p.locals.Names())
      ensures src.Cx() == Context(cx.fields, [Scope(b.arguments, src.locals)] + cx.scopes)
      ensures rest == us && !peekDone && |rest| < |old(rest)|
    {
      hide MethodGenc.Cx, MethodGenc.Scopes, MethodGenc.ChainOk, EatPattern, BlockSource, AddAllAbsent;
      ChainApart(b);
      BlockHeader(b, cx, p, src, us);
    }

    /** The block itself and its parameters are its arguments; their number makes its signature. */
    method BlockHeader(b: MethodGenc, ghost cx: Context, ghost p: Primary, ghost src: Source, ghost us: Tokens)
      requires p.Block? && src == BlockSource(p, cx, 0) && b.arguments == []
      requires Head(rest).sym == NewBlock && EatPattern(p.params, Rest(rest)) == Some(us)
      requires Head(Rest(rest)).sym == Colon <==> p.params != []
      modifies this`rest, this`peekDone, b`arguments, b`signature
      ensures b.arguments == src.args && b.signature == src.signature
      ensures |b.signature| == 12 + |b.arguments| && b.signature[..13] == "$block method" &&
              forall i | 13 <= i < |b.signature| :: b.signature[i] == ':'
      ensures src.outer == cx.scopes && src.fields == cx.fields && src.locals == AddAllAbsent([], p.locals.Names())
      ensures src.Cx() == Context(cx.fields, [Scope(b.arguments, src.locals)] + cx.scopes)
      ensures rest == us && !peekDone && |rest| < |old(rest)|
    {
      hide AddIfAbsent, AddAllAbsent, EatPattern, BlockSource, BlockSignature;
      SelfArgument();
      b.arguments := AddIfAbsent(b.arguments, "$block self");
      var _ := Expect(NewBlock);
      if Sym() == Colon {
        BlockPattern(b, p.params, us);
      } else {
        NoPattern(p.params, rest);
      }
      b.signature := BlockSignature(|b.arguments|);
      BlockSignatureIs(|b.arguments|);
      BlockSourceIs(p, cx, b.arguments);
    }

    /** The last expression of a block, without a period, is answered. */
    method FinishBlock(b: MethodGenc) returns (o: Status)
      requires b.Valid() && (b.finished || |b.code| > 0)
      modifies b`finished, b`literals, b`bp, b`code, b.bytecode
      ensures Outcome(o, old(StateOf(b)), StateOf(b),
                if old(b.finished) then Idle(old(b.literals)) else Emits(ReturnLocal, old(b.literals)))
      ensures o.Done? ==> b.Valid() && b.finished
    {
      hide Fits, CanDo, MethodGenc.Valid;
      ghost var s0 := StateOf(b);
      FitsNow(b);
      IdleDone(s0);
      o := Done;
      if !b.finished {
        HasCode(b);
        if !b.HasBytecodes() {
          assert false;
        }
        o := b.EmitReturnLocal();
        EmittedOne(o, s0, StateOf(b), ReturnLocal, s0.lits);
        b.finished := true;
      }
    }

    /** `blockPattern` and `blockArguments`. */
    method BlockPattern(b: MethodGenc, ghost params: seq<string>, ghost us: Tokens)
      requires params != [] && EatPattern(params, rest) == Some(us)
      modifies this`rest, this`peekDone, b`arguments
      ensures b.arguments == AddAllAbsent(old(b.arguments), params)
      ensures rest == us && !peekDone && |rest| < |old(rest)|
    {
      hide EatParams, AddIfAbsent, AddAllAbsent;
      ghost var ts := PatternStep(params, rest);
      ghost var cur := params;
      while Sym() == Colon
        invariant EatParams(cur, rest) == Some(ts) && Eat(Or, ts) == Some(us)
        invariant AddAllAbsent(b.arguments, cur) == AddAllAbsent(old(b.arguments), params)
        invariant |rest| <= |old(rest)|
        decreases |rest|
      {
        ParamsStep(cur, rest);
        AddAllStep(b.arguments, cur);
        var _ := Expect(Colon);
        var arg := ReadVariable();
        b.arguments := AddIfAbsent(b.arguments, arg);
        cur := cur[1..];
      }
      ParamsDone(cur, rest, b.arguments);
      var _ := Expect(Or);
    }

    /** `locals`. */
    method LocalsDecl(b: MethodGenc, ghost names: seq<string>, ghost us: Tokens)
      requires EatNames(names, rest) == Some(us) && Head(us).sym == Or
      modifies this`rest, this`peekDone, b`locals
      ensures b.locals == AddAllAbsent(old(b.locals), names)
      ensures rest == us && |rest| <= |old(rest)| && (old(!peekDone) ==> !peekDone)
    {
      ghost var cur := names;
      while Sym() == Identifier
        invariant EatNames(cur, rest) == Some(us) && |rest| <= |old(rest)| && (old(!peekDone) ==> !peekDone)
        invariant AddAllAbsent(b.locals, cur) == AddAllAbsent(old(b.locals), names)
        decreases |rest|
      {
        NamesStep(cur, rest);
        var name := ReadVariable();
        b.locals := AddIfAbsent(b.locals, name);
        cur := cur[1..];
      }
    }

    method BlockContents(b: MethodGenc, ghost fields: seq<string>, ghost outer: seq<Scope>,
                         ghost locals: Locals, ghost body: Body, ghost end: Symbol) returns (o: Status)
      requires b.Valid() && Within(b, fields, outer) && !peekDone && ContentsAhead(locals, body, end, rest)
      requires b.blockMethod <==> end == EndBlock
      requires b.code == [] && b.literals == [] && b.locals == [] && !b.finished
      modifies this`rest, this`peekDone, this`nextSym, this`assembled
      modifies b`locals, b`finished, b`literals, b`bp, b`code, b.bytecode
      ensures var cx := Context(fields, [Scope(b.arguments, AddAllAbsent([], locals.Names()))] + outer);
              Outcome(o, old(StateOf(b)), StateOf(b), PartWork(cx, body, b.blockMethod, []))
      ensures o.Done? ==> b.Valid() && b.locals == AddAllAbsent([], locals.Names()) && (b.finished <==> !Open(body))
      ensures o.Done? ==> Some(rest) == EatContents(locals, body, end, old(rest)) && !peekDone && |rest| <= |old(rest)|
      decreases |rest|, 14
    {
      hide MethodGenc.Cx, MethodGenc.ChainOk, MethodGenc.Valid, PartWork, BodyAhead, ContentsAhead, EatBody,
        EatContents, EatLocals, AddAllAbsent;
      ghost var us := ContentsStep(locals, body, end, rest);
      OptionalLocals(b, fields, outer, locals, us);
      o := BlockBody(b, false, b.Cx(), body, end);
    }

    /** Local variables between bars, if the first bar is there. */
    method OptionalLocals(b: MethodGenc, ghost fields: seq<string>, ghost outer: seq<Scope>,
                          ghost locals: Locals, ghost us: Tokens)
      requires Within(b, fields, outer) && !peekDone && b.locals == []
      requires EatLocals(locals, rest) == Some(us) && (Sym() == Or <==> locals.Locals?)
      modifies this`rest, this`peekDone, b`locals
      ensures b.ChainOk() && b.locals == AddAllAbsent([], locals.Names())
      ensures b.Cx() == Context(fields, [Scope(b.arguments, b.locals)] + outer)
      ensures rest == us && !peekDone && |rest| <= |old(rest)|
    {
      hide MethodGenc.Cx, MethodGenc.Scopes, MethodGenc.ChainOk, EatLocals, EatNames, EatText, AddAllAbsent,
        AddIfAbsent;
      ghost var ts := rest;
      NoLocalsStep(locals, rest);
      var bar := Accept(Or);
      if bar {
        ghost var vs := LocalsStep(locals, ts, us);
        LocalsBetween(b, fields, outer, locals.names, vs);
        var _ := Expect(Or);
      }
      WithinCx(b, fields, outer);
    }

    method LocalsBetween(b: MethodGenc, ghost fields: seq<string>, ghost outer: seq<Scope>, ghost names: seq<string>,
                         ghost us: Tokens)
      requires Within(b, fields, outer) && EatNames(names, rest) == Some(us) && Head(us).sym == Or
      modifies this`rest, this`peekDone, b`locals
      ensures Within(b, fields, outer) && b.locals == AddAllAbsent(old(b.locals), names)
      ensures rest == us && |rest| <= |old(rest)| && (old(!peekDone) ==> !peekDone)
    {
      hide MethodGenc.Cx, MethodGenc.Scopes, MethodGenc.ChainOk, EatNames, EatText, AddAllAbsent, AddIfAbsent;
      ChainApart(b);
      LocalsDecl(b, names, us);
    }

    /** After a period (`seenPeriod`), a POP has been emitted: a block that ends there takes it back. */
    method BlockBody(m: MethodGenc, seenPeriod: bool, ghost cx: Context, ghost b: Body,
                     ghost end: Symbol) returns (o: Status)
      requires m.Valid() && !peekDone && cx == m.Cx() && BodyAhead(b, end, rest) && !m.finished
      requires m.blockMethod <==> end == EndBlock
      requires if seenPeriod then |m.code| >= 2 && m.code[|m.code| - 1] == Pop else m.code == []
      modifies this`rest, this`peekDone, this`nextSym, this`assembled, m`finished, m`literals, m`bp, m`code, m.bytecode
      ensures if seenPeriod && m.blockMethod && b.Finished?
              then o.Done? && StateOf(m) == Elided(old(StateOf(m)))
              else Outcome(o, old(StateOf(m)), StateOf(m), PartWork(cx, b, m.blockMethod, old(m.literals)))
      ensures o.Done? ==> m.Valid() && (m.finished <==> !Open(b))
      ensures o.Done? ==> Some(rest) == EatBody(b, end, old(rest)) && !peekDone && |rest| <= |old(rest)|
      decreases |rest|, 13
    {
      hide MethodGenc.Cx, MethodGenc.ChainOk, MethodGenc.Valid, ExprWork, PartWork, ExprAhead, BodyAhead,
        EatExpr, EatBody;
      ghost var us := BodyStep(b, end, rest);
      var exit := Accept(Exit);
      if exit {
        AnswerParts(cx, b, m.blockMethod, m.literals);
        o := Result(m, cx, b.result, b.period);
      } else if Sym() == EndBlock {
        o := EndOfBlock(m, seenPeriod, cx);
      } else if Sym() == EndTerm {
        o := EndOfMethod(m);
        EmptyMethodParts(cx, m.literals);
      } else {
        o := Statement(m, cx, b, end);
      }
    }

    /** The end of a block: after a period, the POP of the last statement is elided. */
    method EndOfBlock(m: MethodGenc, seenPeriod: bool, ghost cx: Context) returns (o: Status)
      requires m.Valid() && m.blockMethod
      requires if seenPeriod then |m.code| >= 2 && m.code[|m.code| - 1] == Pop else m.code == []
      modifies m`finished, m`literals, m`bp, m`code, m.bytecode
      ensures if seenPeriod then o.Done? && StateOf(m) == Elided(old(StateOf(m)))
              else Outcome(o, old(StateOf(m)), StateOf(m), PartWork(cx, Finished, true, old(m.literals)))
      ensures o.Done? ==> m.Valid() && m.finished
    {
      hide Fits, AddIfAbsent, CanDo, MethodGenc.Valid, PartWork;
      ghost var s0 := StateOf(m);
      if seenPeriod {
        ElidedBack(m);
        m.Elide();
        HasCode(m);
      } else {
        HasNoCode(m);
        EmptyBlockParts(cx, m.literals);
      }
      if m.blockMethod && !m.HasBytecodes() {
        m.literals := AddIfAbsent(m.literals, SymV("nil"));
        ghost var push := PushGlobal(LitIndex(m.literals, SymV("nil")));
        Joined(s0, Emits(push, m.literals), Emits(ReturnLocal, m.literals));
        o := m.EmitPushGlobal(SymV("nil"));
        EmittedOne(o, s0, StateOf(m), push, m.literals);
        if o.TooLong? {
          return;
        }
      }
      ghost var s1 := StateOf(m);
      o := m.EmitReturnLocal();
      EmittedOne(o, s1, StateOf(m), ReturnLocal, m.literals);
      m.finished := true;
    }

    /** The end of a method: answers self. */
    method EndOfMethod(m: MethodGenc) returns (o: Status)
      requires m.Valid()
      modifies m`finished, m`bp, m`code, m.bytecode
      ensures Outcome(o, old(StateOf(m)), StateOf(m),
                      Join(Emits(PushArgument(0, 0), m.literals), Emits(ReturnLocal, m.literals)))
      ensures o.Done? ==> m.Valid() && m.finished
    {
      hide Fits, CanDo, MethodGenc.Valid;
      ghost var s0 := StateOf(m);
      Joined(s0, Emits(PushArgument(0, 0), m.literals), Emits(ReturnLocal, m.literals));
      o := m.EmitPushArgument(0, 0);
      EmittedOne(o, s0, StateOf(m), PushArgument(0, 0), m.literals);
      if o.TooLong? {
        return;
      }
      ghost var s1 := StateOf(m);
      o := m.EmitReturnLocal();
      EmittedOne(o, s1, StateOf(m), ReturnLocal, m.literals);
      m.finished := true;
    }

    method Result(m: MethodGenc, ghost cx: Context, ghost e: Expr, ghost period: bool) returns (o: Status)
      requires m.Valid() && !peekDone && cx == m.Cx() && ExprAhead(e, rest)
      requires period <==> Head(EatExpr(e, rest).value).sym == Period
      modifies this`rest, this`peekDone, this`nextSym, this`assembled, m`finished, m`literals, m`bp, m`code, m.bytecode
      ensures var g := ExprWork(cx, e, old(m.literals));
              Outcome(o, old(StateOf(m)), StateOf(m),
                      Join(g, Emits(if m.blockMethod then ReturnNonLocal else ReturnLocal, g.lits)))
      ensures o.Done? ==> m.Valid() && m.finished && !peekDone && |rest| <= |old(rest)|
      ensures o.Done? ==> EatExpr(e, old(rest)).Some? &&
                          rest == if period then Rest(EatExpr(e, old(rest)).value) else EatExpr(e, old(rest)).value
      decreases |rest|, 12
    {
      hide Fits, CanDo, MethodGenc.Cx, MethodGenc.ChainOk, MethodGenc.Valid, ExprWork, ExprAhead, EatExpr;
      ghost var g := ExprWork(cx, e, m.literals);
      ghost var ret := if m.blockMethod then ReturnNonLocal else ReturnLocal;
      Joined(StateOf(m), g, Emits(ret, g.lits));
      o := Expression(m, cx, e);
      if o.TooLong? {
        return;
      }
      ghost var s1 := StateOf(m);
      if m.blockMethod {
        o := m.EmitReturnNonLocal();
      } else {
        o := m.EmitReturnLocal();
      }
      EmittedOne(o, s1, StateOf(m), ret, g.lits);
      if o.TooLong? {
        return;
      }
      m.finished := true;
      var _ := Accept(Period);
    }

    /** An expression, and after a period what follows it. */
    method Statement(m: MethodGenc, ghost cx: Context, ghost b: Body, ghost end: Symbol) returns (o: Status)
      requires m.Valid() && !peekDone && cx == m.Cx() && BodyAhead(b, end, rest) && !m.finished
      requires m.blockMethod <==> end == EndBlock
      requires b.Last? || b.Then?
      modifies this`rest, this`peekDone, this`nextSym, this`assembled, m`finished, m`literals, m`bp, m`code, m.bytecode
      ensures Outcome(o, old(StateOf(m)), StateOf(m), PartWork(cx, b, m.blockMethod, old(m.literals)))
      ensures o.Done? ==> m.Valid() && (m.finished <==> !Open(b))
      ensures o.Done? ==> Some(rest) == EatBody(b, end, old(rest)) && !peekDone && |rest| <= |old(rest)|
      decreases |rest|, 12
    {
      hide CanDo, MethodGenc.Cx, MethodGenc.ChainOk, MethodGenc.Valid, ExprWork, PartWork, ExprAhead,
        BodyAhead, EatExpr, EatBody, FollowWork;
      ghost var us := BodyStep(b, end, rest);
      ghost var e := if b.Last? then b.value else b.first;
      ghost var g := ExprWork(cx, e, m.literals);
      if b.Last? {
        LastParts(cx, b, m.blockMethod, m.literals);
      } else {
        ThenParts(cx, b, m.blockMethod, m.literals);
        Joined(StateOf(m), g, FollowWork(cx, b.following, m.blockMethod, g.lits));
      }
      ExprWorkNotEmpty(cx, e, m.literals);
      o := Expression(m, cx, e);
      if o.TooLong? {
        return;
      }
      var period := Accept(Period);
      if period {
        o := AfterPeriod(m, cx, b.following, end);
      }
    }

    /** A statement's value is popped; the rest follows. */
    method AfterPeriod(m: MethodGenc, ghost cx: Context, ghost b: Body, ghost end: Symbol) returns (o: Status)
      requires m.Valid() && !peekDone && cx == m.Cx() && BodyAhead(b, end, rest) && !m.finished
      requires (m.blockMethod <==> end == EndBlock) && |m.code| > 0
      modifies this`rest, this`peekDone, this`nextSym, this`assembled, m`finished, m`literals, m`bp, m`code, m.bytecode
      ensures Outcome(o, old(StateOf(m)), StateOf(m), FollowWork(cx, b, m.blockMethod, old(m.literals)))
      ensures o.Done? ==> m.Valid() && (m.finished <==> !Open(b))
      ensures o.Done? ==> Some(rest) == EatBody(b, end, old(rest)) && !peekDone && |rest| <= |old(rest)|
      decreases |rest|, 14
    {
      hide Fits, CanDo, MethodGenc.Cx, MethodGenc.ChainOk, MethodGenc.Valid, PartWork, BodyAhead, EatBody,
        FollowWork;
      ghost var s0 := StateOf(m);
      FollowOutcome(s0, cx, b, m.blockMethod);
      o := m.EmitPop();
      EmittedOne(o, s0, StateOf(m), Pop, s0.lits);
      if o.TooLong? {
        return;
      }
      o := BlockBody(m, true, cx, b, end);
    }

    // ----- methods -----

    /** Generates code for a method body; an open one is followed by the answer of self. */
    method MethodBlock(m: MethodGenc, ghost fields: seq<string>, ghost locals: Locals,
                       ghost body: Body) returns (o: Status)
      requires m.Valid() && Within(m, fields, []) && !m.blockMethod
      requires m.code == [] && m.literals == [] && m.locals == [] && !m.finished
      requires EatMethodBlock(locals, body, rest).Some?
      modifies this`rest, this`peekDone, this`nextSym, this`assembled
      modifies m`locals, m`finished, m`literals, m`bp, m`code, m.bytecode
      ensures var cx := Context(fields, [Scope(m.arguments, AddAllAbsent([], locals.Names()))]);
              Outcome(o, old(StateOf(m)), StateOf(m), BodyWork(cx, body, false, []))
      ensures o.Done? ==> m.Valid() && m.locals == AddAllAbsent([], locals.Names())
      ensures o.Done? ==> Some(rest) == EatMethodBlock(locals, body, old(rest)) && !peekDone
    {
      hide Fits, CanDo, MethodGenc.Valid, ContentsAhead, EatContents, BodyWork, AddAllAbsent, EatMethodBlock, Within;
      ghost var us := MethodBlockStep(locals, body, rest);
      var _ := Expect(NewTerm);
      o := MethodContents(m, fields, locals, body);
      if o.TooLong? {
        return;
      }
      var _ := Expect(EndTerm);
    }

    /** The contents of a method, and the answer of self unless they end in a return. */
    method MethodContents(m: MethodGenc, ghost fields: seq<string>, ghost locals: Locals,
                          ghost body: Body) returns (o: Status)
      requires m.Valid() && Within(m, fields, []) && !m.blockMethod && !peekDone
      requires m.code == [] && m.literals == [] && m.locals == [] && !m.finished
      requires ContentsAhead(locals, body, EndTerm, rest)
      modifies this`rest, this`peekDone, this`nextSym, this`assembled
      modifies m`locals, m`finished, m`literals, m`bp, m`code, m.bytecode
      ensures var cx := Context(fields, [Scope(m.arguments, AddAllAbsent([], locals.Names()))]);
              Outcome(o, old(StateOf(m)), StateOf(m), BodyWork(cx, body, false, []))
      ensures o.Done? ==> m.Valid() && m.locals == AddAllAbsent([], locals.Names())
      ensures o.Done? ==> Some(rest) == EatContents(locals, body, EndTerm, old(rest)) && !peekDone
    {
      hide CanDo, MethodGenc.Valid, PartWork, ContentsAhead, EatContents, BodyWork, AddAllAbsent;
      ghost var scope := Scope(m.arguments, AddAllAbsent([], locals.Names()));
      assert [scope] + [] == [scope];
      MethodEnds(StateOf(m), Context(fields, [scope]), body);
      o := BlockContents(m, fields, [], locals, body, EndTerm);
      if o.Done? && !m.finished {
        o := FinishMethod(m);
      }
    }

    /** The last value is dropped, and self is answered. */
    method FinishMethod(m: MethodGenc) returns (o: Status)
      requires m.Valid()
      modifies m`finished, m`bp, m`code, m.bytecode
      ensures var answer := Join(Emits(PushArgument(0, 0), m.literals), Emits(ReturnLocal, m.literals));
              Outcome(o, old(StateOf(m)), StateOf(m), Join(Emits(Pop, m.literals), answer))
      ensures o.Done? ==> m.Valid() && m.finished
    {
      hide Fits, CanDo, MethodGenc.Valid;
      ghost var s0 := StateOf(m);
      Joined(s0, Emits(Pop, m.literals), Join(Emits(PushArgument(0, 0), m.literals), Emits(ReturnLocal, m.literals)));
      o := m.EmitPop();
      EmittedOne(o, s0, StateOf(m), Pop, m.literals);
      if o.TooLong? {
        return;
      }
      o := EndOfMethod(m);
    }

    method Pattern(m: MethodGenc, ghost p: MethodPattern)
      requires EatMethodPattern(p, rest).Some? && Head(EatMethodPattern(p, rest).value).sym == Equal
      modifies this`rest, this`peekDone, m`signature, m`arguments
      ensures m.signature == p.MessageName() && m.arguments == AddAllAbsent(old(m.arguments), p.Names())
      ensures Some(rest) == EatMethodPattern(p, old(rest)) && !peekDone
    {
      hide AddIfAbsent, AddAllAbsent, EatMethodPattern, EatKeyArgs, Concat;
      PatternKinds(p, rest);
      if Sym() == Identifier {
        m.signature := UnarySelector();
      } else if Sym() == Keyword {
        ReadKeywordPattern(m, p);
      } else {
        m.signature := BinarySelector();
        AddOne(m.arguments, p.arg);
        var arg := ReadVariable();
        m.arguments := AddIfAbsent(m.arguments, arg);
      }
    }

    method ReadKeywordPattern(m: MethodGenc, ghost p: MethodPattern)
      requires p.KeywordPattern? && EatMethodPattern(p, rest).Some? &&
               Head(EatMethodPattern(p, rest).value).sym == Equal
      modifies this`rest, this`peekDone, m`signature, m`arguments
      ensures m.signature == p.MessageName() && m.arguments == AddAllAbsent(old(m.arguments), p.Names())
      ensures Some(rest) == EatMethodPattern(p, old(rest)) && !peekDone
    {
      hide EatKeyArgs, Concat, AddIfAbsent, AddAllAbsent, EatMethodPattern, Midway;
      KeywordPatternStep(p, rest);
      ghost var keys, names, end := p.keys, p.names, EatKeyArgs(p.keys, p.names, rest).value;
      var kw: string := "";
      MidwayFirst(p, m.arguments, rest, end);
      while Sym() == Keyword
        invariant Midway(p, old(m.arguments), keys, names, kw, m.arguments, rest, end)
        invariant |rest| <= |old(rest)| && (keys == p.keys || (!peekDone && |rest| < |old(rest)|))
        decreases |rest|
      {
        MidwayNext(p, old(m.arguments), keys, names, kw, m.arguments, rest, end);
        var key := ReadKeyword();
        kw := kw + key;
        var arg := ReadVariable();
        m.arguments := AddIfAbsent(m.arguments, arg);
        keys, names := keys[1..], names[1..];
      }
      MidwayLast(p, old(m.arguments), keys, names, kw, m.arguments, rest, end);
      m.signature := kw;
    }

    /** `method`, of a class with the given fields, and the assembly of its method object; nothing is
        assembled here for a primitive. */
    method Method(fields: seq<string>, ghost d: Definition) returns (o: Status, r: Option<VMMethod>)
      requires EatDefinition(d, rest).Some?
      modifies this`rest, this`peekDone, this`nextSym, this`assembled
      ensures o.Done? <==>
                d.primitive || (Fits(Compile(DefinitionSource(d, fields)).code) && AllFit(DefinitionMade(d, fields)))
      ensures o.Done? ==> r == if d.primitive then None else Some(Image(Compile(DefinitionSource(d, fields))))
      ensures o.Done? ==> assembled == old(assembled) + if d.primitive then [] else DefinitionMade(d, fields)
      ensures o.Done? ==> Some(rest) == EatDefinition(d, old(rest)) && !peekDone
    {
      hide Fits, AllFit, CanDo, MethodGenc.Cx, MethodGenc.Scopes, MethodGenc.ChainOk, MethodGenc.Valid,
        BodyWork, Compile, AddAllAbsent, Image, EatDefinition, EatMethodPattern, EatMethodBlock,
        DefinitionSource, DefinitionMade;
      ghost var made0, src := assembled, DefinitionSource(d, fields);
      ghost var us := DefinitionStep(d, rest);
      var m := new MethodGenc(null, false, fields);
      m.arguments := ["self"];
      Pattern(m, d.pattern);
      var _ := Expect(Equal);
      if Sym() == Primitive {
        var _ := Expect(Primitive);
        return Done, None;
      }
      ChainFacts(m);
      o := MethodBlock(m, fields, d.locals, d.body);
      MethodOutcome(made0, d, fields);
      if o.TooLong? {
        r := None;
        return;
      }
      var v := m.Assemble();
      r := Some(v);
    }
  }

  lemma ObjectsStep(values: seq<Value>, es: Elements)
    ensures es.NoElement? ==> values + LiteralObjects(es) == values
    ensures es.Element? ==>
              values + LiteralObjects(es) == (values + [LiteralObject(es.lit, es.id)]) + LiteralObjects(es.more)
  {
  }

  lemma ArrayIs(lit: Literal, id: nat)
    requires lit.LiteralArray?
    ensures LiteralObject(lit, id) == ListV(id, LiteralObjects(lit.elements))
  {
  }

  lemma ArrayElements(elements: Elements)
    ensures |LiteralObjects(elements)| == elements.Length()
    ensures forall k | 0 <= k < elements.Length() ::
              LiteralObjects(elements)[k] == LiteralObject(elements.Nth(k).0, elements.Nth(k).1)
  {
    ArrayDenotes(elements, 0);
    forall k | 0 <= k < elements.Length()
      ensures LiteralObjects(elements)[k] == LiteralObject(elements.Nth(k).0, elements.Nth(k).1)
    {
      ArrayDenotes(elements, k);
    }
  }

  /** The context of a method or block: its fields, and the scopes around it. */
  ghost predicate Within(b: MethodGenc, fields: seq<string>, outer: seq<Scope>)
    reads b.Chain`arguments, b.Chain`locals
  {
    && b.ChainOk() && b.fields == fields
    && outer == if b.outer == null then [] else b.outer.Scopes()
  }

  lemma WithinCx(b: MethodGenc, fields: seq<string>, outer: seq<Scope>)
    requires Within(b, fields, outer)
    ensures b.Cx() == Context(fields, [Scope(b.arguments, b.locals)] + outer)
  {
  }

  /** A block literal: its method is generated from nothing, assembled, and pushed. */
  lemma BlockOutcome(s: State, cx: Context, p: Primary, src: Source)
    requires p.Block? && src == BlockSource(p, cx, 0)
    ensures var lits := s.lits + [CodeV(p.id)];
            var code := s.code + [PushBlock(LitIndex(lits, CodeV(p.id)))];
            var w := BodyWork(src.Cx(), p.body, true, []);
            var b := After(State([], [], s.made), w);
            (CanDo(s, PrimaryWork(cx, p, s.lits)) <==> CanDo(State([], [], s.made), w) && Fits(code)) &&
            After(s, PrimaryWork(cx, p, s.lits)) ==
            State(code, lits, b.made + [(p.id, VMMethod(src.signature, |src.locals|, Scan(b.code, b.lits, 0, 0), b.lits,
                                                        Encode(b.code)))])
  {
    hide Fits, PrimaryWork, BlockMade, BodyWork, Encode, Scan, BlockSource;
    BlockWork(cx, p, s.lits);
    BlockMadeIs(cx, p, src);
    var w := BodyWork(src.Cx(), p.body, true, []);
    assert w.made == BodyMade(src.Cx(), p.body) by {
      BodyWorkMade(src.Cx(), p.body);
    }
    assert [] + w.code == w.code;
    assert s.made + (w.made + [(p.id, Image(Compile(src)))]) == (s.made + w.made) + [(p.id, Image(Compile(src)))];
  }

  lemma BodyWorkMade(cx: Context, b: Body)
    ensures BodyWork(cx, b, true, []).made == BodyMade(cx, b)
  {
  }

  lemma AddOne(s: seq<string>, name: string)
    ensures AddAllAbsent(s, [name]) == AddIfAbsent(s, name)
  {
    assert [name][1..] == [];
  }

  lemma PatternKinds(p: MethodPattern, ts: Tokens)
    requires EatMethodPattern(p, ts).Some?
    ensures Head(ts).sym == Identifier <==> p.UnaryPattern?
    ensures Head(ts).sym == Keyword <==> p.KeywordPattern?
    ensures p.UnaryPattern? ==> Head(ts).text == p.sel && EatMethodPattern(p, ts) == Some(Rest(ts))
    ensures p.UnaryPattern? ==> forall s: seq<string> :: AddAllAbsent(s, p.Names()) == s
    ensures p.BinaryPattern? ==> IsBinaryToken(Head(ts).sym) && Head(ts).text == p.sel &&
                                 Head(Rest(ts)).sym == Identifier && Head(Rest(ts)).text == p.arg &&
                                 EatMethodPattern(p, ts) == Some(Rest(Rest(ts)))
  {
  }

  lemma ConcatStep(kw: string, keys: seq<string>)
    requires keys != []
    ensures (kw + keys[0]) + Concat(keys[1..]) == kw + Concat(keys)
  {
  }

  lemma ConcatNone(kw: string)
    ensures kw + Concat([]) == kw
  {
  }

  /** A method is its body, and the answer of self where the body is open. */
  lemma MethodEnds(s: State, cx: Context, b: Body)
    ensures var g := PartWork(cx, b, false, []);
            var answer := Join(Emits(PushArgument(0, 0), g.lits), Emits(ReturnLocal, g.lits));
            var end := Join(Emits(Pop, g.lits), answer);
            if Open(b)
            then (CanDo(s, BodyWork(cx, b, false, [])) <==> CanDo(s, g) && CanDo(After(s, g), end)) &&
                 After(s, BodyWork(cx, b, false, [])) == After(After(s, g), end)
            else BodyWork(cx, b, false, []) == g
  {
    hide Fits, AllFit, PartWork, BodyWork, CanDo;
    var g := PartWork(cx, b, false, []);
    if Open(b) {
      var answer := Join(Emits(PushArgument(0, 0), g.lits), Emits(ReturnLocal, g.lits));
      OpenMethodWork(cx, b, []);
      Joined(s, g, Join(Emits(Pop, g.lits), answer));
    } else {
      ClosedWork(cx, b, false, []);
    }
  }

  /** The source that a method definition is. */
  function DefinitionSource(d: Definition, fields: seq<string>): Source {
    Source(d.pattern.MessageName(), false, AddAllAbsent(["self"], d.pattern.Names()),
           AddAllAbsent([], d.locals.Names()), d.body, [], fields, None)
  }

  /** The methods of its blocks. */
  function DefinitionMade(d: Definition, fields: seq<string>): Made {
    BodyMade(DefinitionSource(d, fields).Cx(), d.body)
  }

  lemma MethodOutcome(made0: Made, d: Definition, fields: seq<string>)
    ensures var src := DefinitionSource(d, fields);
            var cx := Context(fields,
                              [Scope(AddAllAbsent(["self"], d.pattern.Names()), AddAllAbsent([], d.locals.Names()))]);
            var w := BodyWork(cx, d.body, false, []);
            var s := After(State([], [], made0), w);
            (CanDo(State([], [], made0), w) <==> Fits(Compile(src).code) && AllFit(DefinitionMade(d, fields))) &&
            s.made == made0 + DefinitionMade(d, fields) &&
            VMMethod(d.pattern.MessageName(), |AddAllAbsent([], d.locals.Names())|, Scan(s.code, s.lits, 0, 0), s.lits,
                     Encode(s.code)) == Image(Compile(src))
  {
    hide Fits, AllFit, Encode, Scan;
    var src := DefinitionSource(d, fields);
    assert [src.Own()] + [] == [src.Own()];
    var w := BodyWork(src.Cx(), src.body, false, []);
    assert [] + w.code == w.code;
  }

  lemma ChainApart(b: MethodGenc)
    requires b.ChainOk()
    ensures b.outer != null ==> b !in b.outer.Chain && b.outer.ChainOk()
  {
  }

  /** A block is its body, and a return where the body is open. */
  lemma BlockEnds(s: State, cx: Context, b: Body)
    requires s.code == []
    ensures var g := PartWork(cx, b, true, []);
            var f := if Open(b) then Emits(ReturnLocal, g.lits) else Idle(g.lits);
            (CanDo(s, BodyWork(cx, b, true, [])) <==> CanDo(s, g) && CanDo(After(s, g), f)) &&
            After(s, BodyWork(cx, b, true, [])) == After(After(s, g), f) &&
            (Open(b) ==> |After(s, g).code| > 0)
  {
    hide Fits, AllFit, PartWork, BodyWork, CanDo;
    var g := PartWork(cx, b, true, []);
    if Open(b) {
      OpenBlockWork(cx, b, []);
      Joined(s, g, Emits(ReturnLocal, g.lits));
      OpenNotEmpty(cx, b);
    } else {
      ClosedWork(cx, b, true, []);
      Joined(s, g, Idle(g.lits));
      IdleIsNeutral(g, g.lits);
    }
  }

  lemma OpenNotEmpty(cx: Context, b: Body)
    requires Open(b)
    ensures |PartWork(cx, b, true, []).code| > 0
  {
    OpenBlockWork(cx, b, []);
  }

  lemma ChainFacts(m: MethodGenc)
    requires m.Valid()
    ensures m.ChainOk() && m.Cx() == Context(m.fields, m.Scopes())
  {
  }

  lemma HasCode(b: MethodGenc)
    requires b.Valid() && |b.code| > 0
    ensures b.HasBytecodes()
  {
  }

  lemma FollowOutcome(s: State, cx: Context, b: Body, isBlock: bool)
    ensures var popped := After(s, Emits(Pop, s.lits));
            var w := FollowWork(cx, b, isBlock, s.lits);
            if isBlock && b.Finished?
            then (CanDo(s, w) <==> CanDo(s, Emits(Pop, s.lits))) && After(s, w) == Elided(popped)
            else (CanDo(s, w) <==> CanDo(s, Emits(Pop, s.lits)) && CanDo(popped, PartWork(cx, b, isBlock, s.lits))) &&
                 After(s, w) == After(popped, PartWork(cx, b, isBlock, s.lits))
  {
    hide PartWork, Fits;
    if isBlock && b.Finished? {
      ElidedFits(s.code);
      assert (s.code + [Pop])[..|s.code|] == s.code;
    } else {
      Joined(s, Emits(Pop, s.lits), PartWork(cx, b, isBlock, s.lits));
    }
  }

  lemma ExprWorkNotEmpty(cx: Context, e: Expr, lits: seq<Value>)
    ensures |ExprWork(cx, e, lits).code| > 0
  {
    ExprNotEmpty(cx, e, lits);
  }

  lemma HasNoCode(b: MethodGenc)
    requires b.Valid() && b.code == []
    ensures !b.HasBytecodes()
  {
  }

  /** The last instruction has become a return. */
  ghost function Elided(s: State): State
    requires |s.code| > 0
  {
    State(s.code[..|s.code| - 1] + [ReturnLocal], s.lits, s.made)
  }

  lemma ElidedBack(m: MethodGenc)
    requires m.Valid() && |m.code| > 0 && m.code[|m.code| - 1] == Pop
    ensures Fits(m.code[..|m.code| - 1] + [ReturnLocal])
  {
    assert m.code == m.code[..|m.code| - 1] + [Pop];
    ElidedFits(m.code[..|m.code| - 1]);
  }

  lemma BlockSourceIs(p: Primary, cx: Context, args: seq<string>)
    requires p.Block? && args == AddAllAbsent(["$block self"], p.params)
    ensures var src := BlockSource(p, cx, 0);
            src.args == args && src.signature == BlockSignature(|args|) && src.outer == cx.scopes &&
            src.fields == cx.fields &&
            src.locals == AddAllAbsent([], p.locals.Names()) &&
            src.Cx() == Context(cx.fields, [Scope(args, src.locals)] + cx.scopes)
  {
  }

  lemma SelfArgument()
    ensures AddIfAbsent([], "$block self") == ["$block self"]
  {
  }

  lemma NoPattern(params: seq<string>, ts: Tokens)
    requires params == []
    ensures EatPattern(params, ts) == Some(ts) && AddAllAbsent(["$block self"], params) == ["$block self"]
  {
  }

  lemma ContentsLie(p: Primary, us: Tokens, ws: Tokens)
    requires p.Block? && EatContents(p.locals, p.body, EndBlock, us) == Some(ws)
    ensures ContentsAhead(p.locals, p.body, EndBlock, us)
  {
  }

  lemma PatternStep(params: seq<string>, ts: Tokens) returns (us: Tokens)
    requires params != [] && EatPattern(params, ts).Some?
    ensures EatParams(params, ts) == Some(us) && Eat(Or, us) == EatPattern(params, ts) && Head(ts).sym == Colon
  {
    us := EatParams(params, ts).value;
  }

  /** The given keywords and argument names of a pattern are still to be read. */
  ghost predicate Midway(p: MethodPattern, args0: seq<string>, keys: seq<string>, names: seq<string>, kw: string,
                         args: seq<string>, ts: Tokens, end: Tokens) {
    && p.KeywordPattern? && EatKeyArgs(keys, names, ts) == Some(end) && Head(end).sym != Keyword
    && kw + Concat(keys) == Concat(p.keys) && AddAllAbsent(args, names) == AddAllAbsent(args0, p.names)
  }

  lemma MidwayFirst(p: MethodPattern, args: seq<string>, ts: Tokens, end: Tokens)
    requires p.KeywordPattern? && EatKeyArgs(p.keys, p.names, ts) == Some(end) && Head(end).sym != Keyword
    ensures Midway(p, args, p.keys, p.names, "", args, ts, end)
  {
    ConcatEmpty(p.keys);
  }

  lemma MidwayNext(p: MethodPattern, args0: seq<string>, keys: seq<string>, names: seq<string>, kw: string,
                   args: seq<string>, ts: Tokens, end: Tokens)
    requires Midway(p, args0, keys, names, kw, args, ts, end) && Head(ts).sym == Keyword
    ensures keys != [] && names != [] && |ts| >= 2 && Head(Rest(ts)).sym == Identifier
    ensures Midway(p, args0, keys[1..], names[1..], kw + Head(ts).text, AddIfAbsent(args, Head(Rest(ts)).text),
                   Rest(Rest(ts)), end)
  {
    hide EatKeyArgs, Concat, AddIfAbsent, AddAllAbsent;
    KeyArgsStep(keys, names, ts);
    ConcatStep(kw, keys);
    AddAllStep(args, names);
  }

  lemma MidwayLast(p: MethodPattern, args0: seq<string>, keys: seq<string>, names: seq<string>, kw: string,
                   args: seq<string>, ts: Tokens, end: Tokens)
    requires Midway(p, args0, keys, names, kw, args, ts, end) && Head(ts).sym != Keyword
    ensures p.KeywordPattern? && keys == [] && ts == end && kw == Concat(p.keys) && args == AddAllAbsent(args0, p.names)
  {
    hide EatKeyArgs, Concat, AddIfAbsent, AddAllAbsent;
    KeyArgsStep(keys, names, ts);
    ConcatNone(kw);
    AddAllNone(args);
  }

  lemma AddAllNone(s: seq<string>)
    ensures AddAllAbsent(s, []) == s
  {
  }

  lemma AddAllStep(s: seq<string>, names: seq<string>)
    requires names != []
    ensures AddAllAbsent(s, names) == AddAllAbsent(AddIfAbsent(s, names[0]), names[1..])
  {
  }

  lemma ParamsDone(params: seq<string>, ts: Tokens, s: seq<string>)
    requires EatParams(params, ts).Some? && Head(ts).sym != Colon
    ensures params == [] && EatParams(params, ts) == Some(ts) && AddAllAbsent(s, params) == s
  {
  }

  lemma ParamsStep(params: seq<string>, ts: Tokens)
    requires EatParams(params, ts).Some? && Head(ts).sym == Colon && Eat(Or, EatParams(params, ts).value).Some?
    ensures params != [] && |ts| >= 2 && Head(Rest(ts)).sym == Identifier && Head(Rest(ts)).text == params[0]
    ensures EatParams(params[1..], Rest(Rest(ts))) == EatParams(params, ts)
  {
  }

  lemma NamesStep(names: seq<string>, ts: Tokens)
    requires EatNames(names, ts).Some? && Head(ts).sym == Identifier && Head(EatNames(names, ts).value).sym == Or
    ensures names != [] && ts != [] && Head(ts).text == names[0] &&
            EatNames(names[1..], Rest(ts)) == EatNames(names, ts)
  {
  }

  lemma NoLocalsStep(locals: Locals, ts: Tokens)
    ensures locals.NoLocals? ==> EatLocals(locals, ts) == Some(ts) && AddAllAbsent([], locals.Names()) == []
  {
  }

  lemma LocalsStep(locals: Locals, ts: Tokens, us: Tokens) returns (vs: Tokens)
    requires locals.Locals? && EatLocals(locals, ts) == Some(us)
    ensures EatNames(locals.names, Rest(ts)) == Some(vs) && Head(vs).sym == Or && us == Rest(vs)
  {
    vs := EatNames(locals.names, Rest(ts)).value;
  }

  lemma PrimaryKinds(cx: Context, p: Primary, ts: Tokens, lits: seq<Value>)
    requires PrimaryAhead(p, ts)
    ensures ts != [] && StartsPrimary(Head(ts).sym)
    ensures Head(ts).sym == Identifier <==> p.Variable?
    ensures Head(ts).sym == NewTerm <==> p.Nested?
    ensures Head(ts).sym == NewBlock <==> p.Block?
    ensures p.Variable? ==> Head(ts).text == p.name && EatPrimary(p, ts) == Some(Rest(ts))
    ensures p.Variable? ==>
              PrimaryWork(cx, p, lits) == Only(PushVariable(cx, if p.name == "super" then "self" else p.name, lits))
  {
    PrimaryStart(p, ts);
  }

  lemma NestedWork(cx: Context, p: Primary, lits: seq<Value>)
    requires p.Nested?
    ensures PrimaryWork(cx, p, lits) == ExprWork(cx, p.term, lits)
  {
  }

  lemma LiteralWork(cx: Context, p: Primary, ts: Tokens, lits: seq<Value>)
    requires PrimaryAhead(p, ts) && p.LiteralNode?
    ensures EatLiteral(p.lit, p.id, ts) == EatPrimary(p, ts) && EatPrimary(p, ts).Some?
    ensures var lits' := AddIfAbsent(lits, LiteralObject(p.lit, p.id));
            PrimaryWork(cx, p, lits) == Emits(PushConstant(LitIndex(lits', LiteralObject(p.lit, p.id))), lits')
  {
  }

  lemma PlainWork(cx: Context, e: Expr, ts: Tokens, lits: seq<Value>)
    requires e.targets == []
    ensures EatTargets(e.targets, ts) == Some(ts)
    ensures ExprWork(cx, e, lits) == EvaluationWork(cx, e, lits)
  {
    var v := EvaluationCode(cx, e, lits);
    assert v.code + [] + [] == v.code;
  }

  lemma {:induction false} DupAt(n: nat, i: nat)
    requires i < n
    ensures Dups(n)[i] == Dup
    decreases n
  {
    if i > 0 {
      DupAt(n - 1, i - 1);
    }
  }

  lemma {:induction false} PopAt(cx: Context, l: seq<string>, lits: seq<Value>, i: nat)
    requires i < |l|
    ensures PopTargets(cx, l, lits)[i] == PopVariable(cx, l[i], lits)
    decreases |l|
  {
    if i > 0 {
      PopAt(cx, l[1..], lits, i - 1);
    }
  }

  lemma TailFits(code: seq<Instr>, a: seq<Instr>, b: seq<Instr>, i: nat)
    requires i < |a|
    ensures Fits(code + (a + b)) ==> Fits(code + a[..i] + [a[i]])
  {
    assert code + (a + b) == (code + a[..i] + [a[i]]) + (a[i + 1..] + b);
    FitsPrefix(code + a[..i] + [a[i]], a[i + 1..] + b);
  }

  lemma TailFits2(code: seq<Instr>, a: seq<Instr>, b: seq<Instr>, i: nat)
    requires i < |b|
    ensures Fits(code + (a + b)) ==> Fits(code + a + b[..i] + [b[i]])
  {
    assert code + (a + b) == (code + a + b[..i] + [b[i]]) + b[i + 1..];
    FitsPrefix(code + a + b[..i] + [b[i]], b[i + 1..]);
  }

  lemma AddTargetsStep(targets: seq<string>, lits: seq<Value>)
    requires targets != []
    ensures AddTargets(targets, lits) == AddTargets(targets[1..], AddIfAbsent(lits, SymV(targets[0])))
    ensures AddTargets([], lits) == lits
    ensures targets == [targets[0]] ==> AddTargets(targets, lits) == AddIfAbsent(lits, SymV(targets[0]))
  {
  }

  lemma TargetsMore(targets: seq<string>, ts: Tokens, us: Tokens)
    requires targets != [] && EatTargets(targets[1..], ts) == Some(us)
    requires Head(Rest(us)).sym != Assign && Head(Rest(ts)).sym == Assign
    ensures targets[1..] != []
  {
  }

  lemma TargetsDone(targets: seq<string>, ts: Tokens, us: Tokens)
    requires targets != [] && EatTargets(targets[1..], ts) == Some(us)
    requires Head(Rest(ts)).sym != Assign
    ensures targets == [targets[0]] && ts == us
  {
    if targets[1..] != [] {
      TargetsStep(targets[1..], ts);
    }
  }

  lemma NoBinariesWork(cx: Context, toSuper: bool, lits: seq<Value>)
    ensures BinariesWork(cx, NoBinary, toSuper, lits) == Idle(lits)
  {
  }

  lemma NoKeywordsWork(cx: Context, lits: seq<Value>)
    ensures KeywordArgsWork(cx, NoKeyword, lits) == Idle(lits)
  {
  }

  lemma NoKeywordMessageWork(cx: Context, toSuper: bool, lits: seq<Value>)
    ensures KeywordMessageWork(cx, NoKeyword, toSuper, lits) == Idle(lits)
  {
  }

  lemma NoMessagesWork(cx: Context, toSuper: bool, lits: seq<Value>)
    ensures MessagesWork(cx, NoUnary, NoBinary, NoKeyword, toSuper, lits) == Idle(lits)
  {
  }

  lemma ConcatEmpty(parts: seq<string>)
    ensures "" + Concat(parts) == Concat(parts)
  {
  }

  lemma ConcatDone(kw: string)
    ensures kw + Concat(KeywordList(NoKeyword)) == kw
  {
  }

  lemma MessagesParts(cx: Context, us: Unaries, bs: Binaries, ks: Keywords, toSuper: bool, lits: seq<Value>)
    ensures var u := UnariesWork(us, toSuper, lits);
            var b := BinariesWork(cx, bs, toSuper && us.NoUnary?, u.lits);
            var k := KeywordMessageWork(cx, ks, toSuper && us.NoUnary? && bs.NoBinary?, b.lits);
            MessagesWork(cx, us, bs, ks, toSuper, lits) == Join(u, Join(b, k))
  {
  }

  lemma ConcatNext(kw: string, ks: Keywords)
    requires ks.KeywordPart?
    ensures (kw + ks.key) + Concat(KeywordList(ks.tail)) == kw + Concat(KeywordList(ks))
  {
    assert KeywordList(ks)[0] == ks.key && KeywordList(ks)[1..] == KeywordList(ks.tail);
  }

  lemma BinaryTokens(s: Symbol)
    ensures IsBinaryToken(s) <==>
              s in {OperatorSequence, Or, Comma, Minus, Equal, Not, And, Star, Div, Mod, Plus, More, Less, At, Per}
  {
  }

  lemma PushFound(cx: Context, name: string, lits: seq<Value>, index: nat, level: nat, isArgument: bool)
    requires CodeGen.FindVar(cx.scopes, name) == Some(Slot(isArgument, index, level))
    ensures PushVariable(cx, name, lits) ==
            var i, l := ToByte(index), ToByte(level);
            Gen([if isArgument then PushArgument(i, l) else PushLocal(i, l)], lits)
  {
  }

  lemma PushUnknown(cx: Context, name: string, lits: seq<Value>)
    requires CodeGen.FindVar(cx.scopes, name) == None
    ensures var lits' := AddIfAbsent(lits, SymV(name));
            var k := LitIndex(lits', SymV(name));
            PushVariable(cx, name, lits) == Gen([if name in cx.fields then PushField(k) else PushGlobal(k)], lits')
  {
  }

  lemma NoUnariesWork(toSuper: bool, lits: seq<Value>)
    ensures UnariesWork(NoUnary, toSuper, lits) == Idle(lits)
  {
  }

  lemma FitsNow(m: MethodGenc)
    requires m.Valid()
    ensures Fits(m.code)
  {
  }
}

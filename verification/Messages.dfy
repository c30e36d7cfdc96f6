/** Which messages an evaluation sends.  In a world that answers every message with a primitive, evaluating
    an expression records exactly the messages written in it, in postfix order, to super exactly where the
    word super stands in front; and each is looked up where it has to be: in the superclass of the class
    that holds the method, or in the class of the receiver. */
module Messages {
  import opened Common
  import opened Syntax
  import opened Bytecodes
  import opened Signature
  import opened CodeGen
  import opened Machine
  import opened Semantics
  import opened Decompile

  /** Every message is answered by a primitive, and every global is known. */
  ghost predicate Obliging(w: World) {
    && (forall recv, sel, h :: w.lookup(recv, sel, h).Some? && w.lookup(recv, sel, h).value.PrimitiveI?)
    && (forall code, sel, h :: w.superLookup(code, sel, h).Some? && w.superLookup(code, sel, h).value.PrimitiveI?)
    && (forall name, h :: w.global(name, h).Some?)
  }

  // ----- messages, as written and as recorded -----

  function Calls(words: seq<Word>): seq<Word> {
    if words == [] then [] else (if words[0].Call? then [words[0]] else []) + Calls(words[1..])
  }

  function Sent(h: History): seq<Word> {
    if h == [] then [] else (if h[0].SendE? then [Call(h[0].selector, h[0].toSuper)] else []) + Sent(h[1..])
  }

  lemma SentFirst(h: History)
    requires h != []
    ensures Sent(h) == (if h[0].SendE? then [Call(h[0].selector, h[0].toSuper)] else []) + Sent(h[1..])
  {
  }

  lemma CallsFirst(words: seq<Word>)
    requires words != []
    ensures Calls(words) == (if words[0].Call? then [words[0]] else []) + Calls(words[1..])
  {
  }

  lemma {:induction false} CallsConcat(a: seq<Word>, b: seq<Word>)
    ensures Calls(a + b) == Calls(a) + Calls(b)
    decreases |a|
  {
    if a == [] {
      assert a + b == b;
    } else {
      hide Calls;
      CallsConcat(a[1..], b);
      CallsFirst(a);
      CallsFirst(a + b);
      assert (a + b)[1..] == a[1..] + b && (a + b)[0] == a[0];
    }
  }

  lemma {:induction false} SentConcat(a: History, b: History)
    ensures Sent(a + b) == Sent(a) + Sent(b)
    decreases |a|
  {
    if a == [] {
      assert a + b == b;
    } else {
      hide Sent;
      SentConcat(a[1..], b);
      SentFirst(a);
      SentFirst(a + b);
      assert (a + b)[1..] == a[1..] + b && (a + b)[0] == a[0];
    }
  }

  /** The primitive that answers a message at place j of the history is found in the right class. */
  ghost predicate AskedAt(w: World, acts: seq<Activation>, a: nat, h: History, j: nat)
    requires j < |h| && h[j].SendE?
  {
    var e := h[j];
    && j + 1 < |h| && h[j + 1].PrimitiveE? && h[j + 1].args == e.args && e.args != []
    && Some(PrimitiveI(h[j + 1].primitive)) ==
       if e.toSuper
       then (match Outermost(acts, a) case None => None case Some(o) => w.superLookup(acts[o].code, e.selector, h[..j]))
       else w.lookup(e.args[0], e.selector, h[..j])
  }

  ghost predicate SameCode(f: seq<Activation>, g: seq<Activation>) {
    |f| == |g| && forall i | 0 <= i < |f| :: g[i].code == f[i].code && g[i].home == f[i].home
  }

  lemma {:induction false} SameOutermost(f: seq<Activation>, g: seq<Activation>, a: nat)
    requires SameCode(f, g)
    ensures Outermost(f, a) == Outermost(g, a)
    decreases a
  {
    if a < |f| && f[a].home.Some? && f[a].home.value < a {
      SameOutermost(f, g, f[a].home.value);
    }
  }

  /** From one state to the other, exactly the given messages are sent. */
  ghost predicate Records(w: World, a: nat, st: State, words: seq<Word>, st': State) {
    && SameCode(st.acts, st'.acts)
    && st.history <= st'.history
    && Sent(st'.history[|st.history|..]) == Calls(words)
    && forall j | |st.history| <= j < |st'.history| && st'.history[j].SendE? :: AskedAt(w, st.acts, a, st'.history, j)
  }

  lemma RecordsNothing(w: World, a: nat, st: State, words: seq<Word>, acts: seq<Activation>)
    requires Calls(words) == [] && SameCode(st.acts, acts)
    ensures Records(w, a, st, words, st.(acts := acts))
  {
    assert st.history[|st.history|..] == [];
  }

  lemma RecordsThen(w: World, a: nat, st: State, v: seq<Word>, st1: State, u: seq<Word>, st2: State)
    requires Records(w, a, st, v, st1) && Records(w, a, st1, u, st2)
    ensures Records(w, a, st, v + u, st2)
  {
    hide Calls, Sent, Outermost;
    var n, h1, h2 := |st.history|, st1.history, st2.history;
    assert h2[n..] == h1[n..] + h2[|h1|..];
    SentConcat(h1[n..], h2[|h1|..]);
    CallsConcat(v, u);
    SameOutermost(st.acts, st1.acts, a);
    forall j | n <= j < |h2| && h2[j].SendE?
      ensures AskedAt(w, st.acts, a, h2, j)
    {
      if j < |h1| {
        assert h1[j] == h2[j] && h1[..j] == h2[..j] && AskedAt(w, st.acts, a, h1, j);
        assert h1[j + 1] == h2[j + 1];
      } else {
        assert AskedAt(w, st1.acts, a, h2, j);
      }
    }
  }

  // ----- evaluation -----

  /** One message: recorded as it is sent, and answered by the primitive found for it. */
  lemma SendRecords(w: World, src: Sources, a: nat, sel: string, toSuper: bool, args: seq<Value>, st: State, fuel: nat)
    requires Obliging(w) && fuel > 0 && args != []
    requires toSuper ==> Outermost(st.acts, a).Some?
    ensures var o := EvalSend(w, src, a, sel, toSuper, args, st, fuel);
            o.Ok? && Records(w, a, st, [Call(sel, toSuper)], o.state)
  {
    var found := if toSuper then w.superLookup(st.acts[Outermost(st.acts, a).value].code, sel, st.history)
                 else w.lookup(args[0], sel, st.history);
    var p := found.value.primitive;
    var h := st.history + [SendE(sel, toSuper, args)] + [PrimitiveE(p, args)];
    var o := EvalSend(w, src, a, sel, toSuper, args, st, fuel);
    assert o == Answered(w, src, sel, toSuper, found, args, st, fuel - 1) by {
      assert o == SendMessage(w, src, a, sel, toSuper, args, st, fuel - 1);
    }
    assert o == Invoked(w, src, PrimitiveI(p), args, st.Record(SendE(sel, toSuper, args)), fuel - 1);
    assert o.Ok? && o.state == State(st.acts, h);
    OneRecorded(w, a, st, sel, toSuper, args, p);
  }

  lemma OneRecorded(w: World, a: nat, st: State, sel: string, toSuper: bool, args: seq<Value>, p: nat)
    requires args != [] && (toSuper ==> Outermost(st.acts, a).Some?)
    requires Some(PrimitiveI(p)) ==
             if toSuper then w.superLookup(st.acts[Outermost(st.acts, a).value].code, sel, st.history)
             else w.lookup(args[0], sel, st.history)
    ensures Records(w, a, st, [Call(sel, toSuper)],
                    State(st.acts, st.history + [SendE(sel, toSuper, args)] + [PrimitiveE(p, args)]))
  {
    var e, f := SendE(sel, toSuper, args), PrimitiveE(p, args);
    var n, h := |st.history|, st.history + [e] + [f];
    assert h[n..] == [e, f] && h[..n] == st.history && h[n] == e && h[n + 1] == f && |h| == n + 2;
    assert Sent(h[n..]) == [Call(sel, toSuper)] by {
      assert [e, f][1..] == [f] && [f][1..] == [];
      assert Sent([f]) == [] + Sent([]);
    }
    assert Calls([Call(sel, toSuper)]) == [Call(sel, toSuper)] by {
      assert [Call(sel, toSuper)][1..] == [];
    }
    assert AskedAt(w, st.acts, a, h, n);
  }

  lemma VariableRecords(w: World, src: Sources, cx: Context, a: nat, name: string, st: State, fuel: nat)
    requires Obliging(w)
    ensures var o := ReadVariable(w, src, cx, a, name, st, fuel);
            o.Ok? ==> Records(w, a, st, [Name(name)], o.state)
  {
    assert [Name(name)][1..] == [];
    RecordsNothing(w, a, st, [Name(name)], st.acts);
  }

  lemma {:induction false} PrimaryRecords(w: World, src: Sources, cx: Context, a: nat, p: Primary, st: State, fuel: nat)
    requires Obliging(w) && fuel > 0 && Outermost(st.acts, a).Some?
    ensures var o := EvalPrimary(w, src, cx, a, p, st, fuel);
            o.Ok? ==> Records(w, a, st, PrimaryWords(p), o.state)
    decreases p, 0
  {
    match p
    case Variable(name) => VariableRecords(w, src, cx, a, if name == "super" then "self" else name, st, fuel);
    case Nested(term) => ExprRecords(w, src, cx, a, term, st, fuel);
    case _ =>
      assert PrimaryWords(p)[1..] == [];
      RecordsNothing(w, a, st, PrimaryWords(p), st.acts);
  }

  lemma {:induction false} UnariesRecord(w: World, src: Sources, a: nat, us: Unaries, toSuper: bool, recv: Value,
                                         st: State, fuel: nat)
    requires Obliging(w) && fuel > 0 && Outermost(st.acts, a).Some?
    ensures var o := EvalUnaries(w, src, a, us, toSuper, recv, st, fuel);
            o.Ok? ==> Records(w, a, st, UnariesWords(us, toSuper), o.state)
    decreases us
  {
    hide Records, Obliging, EvalSend;
    match us
    case NoUnary => NothingRecorded(w, a, st);
    case Unary(sel, more) =>
      SendRecords(w, src, a, sel, toSuper, [recv], st, fuel);
      var o := EvalSend(w, src, a, sel, toSuper, [recv], st, fuel);
      StillOutermost(w, a, st, [Call(sel, toSuper)], o.state);
      UnariesRecord(w, src, a, more, false, o.value, o.state, fuel);
      var o2 := EvalUnaries(w, src, a, more, false, o.value, o.state, fuel);
      if o2.Ok? {
        RecordsThen(w, a, st, [Call(sel, toSuper)], o.state, UnariesWords(more, false), o2.state);
      }
  }

  lemma NothingRecorded(w: World, a: nat, st: State)
    ensures Records(w, a, st, [], st)
  {
    RecordsNothing(w, a, st, [], st.acts);
  }

  lemma StillOutermost(w: World, a: nat, st: State, words: seq<Word>, st': State)
    requires Records(w, a, st, words, st')
    ensures Outermost(st.acts, a) == Outermost(st'.acts, a)
  {
    SameOutermost(st.acts, st'.acts, a);
  }

  lemma {:induction false} OperandRecords(w: World, src: Sources, cx: Context, a: nat, od: Operand, st: State,
                                          fuel: nat)
    requires Obliging(w) && fuel > 0 && Outermost(st.acts, a).Some?
    ensures var o := EvalOperand(w, src, cx, a, od, st, fuel);
            o.Ok? ==> Records(w, a, st, OperandWords(od), o.state)
    decreases od, 0
  {
    hide Records, Obliging;
    PrimaryRecords(w, src, cx, a, od.head, st, fuel);
    var o := EvalPrimary(w, src, cx, a, od.head, st, fuel);
    if o.Ok? {
      StillOutermost(w, a, st, PrimaryWords(od.head), o.state);
      SuperWritten(Expr([], Formula(od, NoBinary), NoKeyword));
      UnariesRecord(w, src, a, od.unaries, IsSuper(od.head), o.value, o.state, fuel);
      var o2 := EvalUnaries(w, src, a, od.unaries, IsSuper(od.head), o.value, o.state, fuel);
      if o2.Ok? {
        RecordsThen(w, a, st, PrimaryWords(od.head), o.state, UnariesWords(od.unaries, IsSuper(od.head)), o2.state);
      }
    }
  }

  lemma {:induction false} BinariesRecord(w: World, src: Sources, cx: Context, a: nat, bs: Binaries, toSuper: bool,
                                          recv: Value, st: State, fuel: nat)
    requires Obliging(w) && fuel > 0 && Outermost(st.acts, a).Some?
    ensures var o := EvalBinaries(w, src, cx, a, bs, toSuper, recv, st, fuel);
            o.Ok? ==> Records(w, a, st, BinariesWords(bs, toSuper), o.state)
    decreases bs, 0
  {
    hide Records, Obliging, EvalSend;
    match bs
    case NoBinary => NothingRecorded(w, a, st);
    case Binary(_, sel, arg, rest) =>
      OperandRecords(w, src, cx, a, arg, st, fuel);
      var o1 := EvalOperand(w, src, cx, a, arg, st, fuel);
      if o1.Ok? {
        StillOutermost(w, a, st, OperandWords(arg), o1.state);
        SendRecords(w, src, a, sel, toSuper, [recv, o1.value], o1.state, fuel);
        var o2 := EvalSend(w, src, a, sel, toSuper, [recv, o1.value], o1.state, fuel);
        RecordsThen(w, a, st, OperandWords(arg), o1.state, [Call(sel, toSuper)], o2.state);
        StillOutermost(w, a, st, OperandWords(arg) + [Call(sel, toSuper)], o2.state);
        BinariesRecord(w, src, cx, a, rest, false, o2.value, o2.state, fuel);
        var o3 := EvalBinaries(w, src, cx, a, rest, false, o2.value, o2.state, fuel);
        if o3.Ok? {
          RecordsThen(w, a, st, OperandWords(arg) + [Call(sel, toSuper)], o2.state, BinariesWords(rest, false),
                      o3.state);
        }
      }
  }

  lemma {:induction false} FormulaRecords(w: World, src: Sources, cx: Context, a: nat, f: Formula, st: State, fuel: nat)
    requires Obliging(w) && fuel > 0 && Outermost(st.acts, a).Some?
    ensures var o := EvalFormula(w, src, cx, a, f, st, fuel);
            o.Ok? ==> Records(w, a, st, FormulaWords(f), o.state)
    decreases f, 0
  {
    hide Records, Obliging;
    OperandRecords(w, src, cx, a, f.operand, st, fuel);
    var o := EvalOperand(w, src, cx, a, f.operand, st, fuel);
    if o.Ok? {
      var toSuper := PendingSuper(f.operand);
      StillOutermost(w, a, st, OperandWords(f.operand), o.state);
      SuperWritten(Expr([], f, NoKeyword));
      BinariesRecord(w, src, cx, a, f.binaries, toSuper, o.value, o.state, fuel);
      var o2 := EvalBinaries(w, src, cx, a, f.binaries, toSuper, o.value, o.state, fuel);
      if o2.Ok? {
        RecordsThen(w, a, st, OperandWords(f.operand), o.state, BinariesWords(f.binaries, toSuper), o2.state);
      }
    }
  }

  lemma {:induction false} ArgumentsRecord(w: World, src: Sources, cx: Context, a: nat, ks: Keywords, st: State,
                                           fuel: nat)
    requires Obliging(w) && fuel > 0 && Outermost(st.acts, a).Some?
    ensures var o := EvalArgs(w, src, cx, a, ks, st, fuel);
            o.Ok? ==> Records(w, a, st, ArgumentWords(ks), o.state)
    decreases ks, 0
  {
    hide Records, Obliging;
    match ks
    case NoKeyword => NothingRecorded(w, a, st);
    case KeywordPart(_, arg, tail) =>
      FormulaRecords(w, src, cx, a, arg, st, fuel);
      var o := EvalFormula(w, src, cx, a, arg, st, fuel);
      if o.Ok? {
        StillOutermost(w, a, st, FormulaWords(arg), o.state);
        ArgumentsRecord(w, src, cx, a, tail, o.state, fuel);
        var o2 := EvalArgs(w, src, cx, a, tail, o.state, fuel);
        if o2.Ok? {
          RecordsThen(w, a, st, FormulaWords(arg), o.state, ArgumentWords(tail), o2.state);
        }
      }
  }

  lemma {:induction false} KeywordsRecord(w: World, src: Sources, cx: Context, a: nat, ks: Keywords, toSuper: bool,
                                          recv: Value, st: State, fuel: nat)
    requires Obliging(w) && fuel > 0 && Outermost(st.acts, a).Some?
    ensures var o := EvalKeywords(w, src, cx, a, ks, toSuper, recv, st, fuel);
            o.Ok? ==> Records(w, a, st, KeywordWords(ks, toSuper), o.state)
    decreases ks, 1
  {
    hide Records, Obliging, EvalSend;
    if ks.NoKeyword? {
      NothingRecorded(w, a, st);
    } else {
      ArgumentsRecord(w, src, cx, a, ks, st, fuel);
      var o := EvalArgs(w, src, cx, a, ks, st, fuel);
      if o.Ok? {
        var sel := Concat(KeywordList(ks));
        StillOutermost(w, a, st, ArgumentWords(ks), o.state);
        KeywordsSpelled(ks);
        SendRecords(w, src, a, sel, toSuper, [recv] + o.value, o.state, fuel);
        var o2 := EvalSend(w, src, a, sel, toSuper, [recv] + o.value, o.state, fuel);
        RecordsThen(w, a, st, ArgumentWords(ks), o.state, [Call(sel, toSuper)], o2.state);
      }
    }
  }

  /** An evaluation records the messages of the expression: each once, in postfix order, to super exactly
      where it is written after the word super, and answered by what is found in the right class. */
  lemma {:induction false} ExprRecords(w: World, src: Sources, cx: Context, a: nat, e: Expr, st: State, fuel: nat)
    requires Obliging(w) && fuel > 0 && Outermost(st.acts, a).Some?
    ensures var o := EvalExpr(w, src, cx, a, e, st, fuel);
            o.Ok? ==> Records(w, a, st, ExprWords(e), o.state)
    decreases e, 1
  {
    hide Records, Obliging, AssignAll;
    FormulaRecords(w, src, cx, a, e.formula, st, fuel);
    var o := EvalFormula(w, src, cx, a, e.formula, st, fuel);
    if o.Ok? {
      var toSuper := KeywordToSuper(e);
      StillOutermost(w, a, st, FormulaWords(e.formula), o.state);
      SuperWritten(e);
      KeywordsRecord(w, src, cx, a, e.keywords, toSuper, o.value, o.state, fuel);
      var o2 := EvalKeywords(w, src, cx, a, e.keywords, toSuper, o.value, o.state, fuel);
      if o2.Ok? {
        RecordsThen(w, a, st, FormulaWords(e.formula), o.state, KeywordWords(e.keywords, toSuper), o2.state);
        AssignsRecord(w, a, e.targets, o2.value, o2.state);
        var o3 := AssignAll(w, a, e.targets, o2.value, o2.state);
        if o3.Ok? {
          RecordsThen(w, a, st, ValueWords(e), o2.state, CopyWords(|e.targets|) + StoreWords(e.targets), o3.state);
          assert ValueWords(e) + (CopyWords(|e.targets|) + StoreWords(e.targets)) == ExprWords(e);
        }
      }
    }
  }

  /** Assignments send nothing. */
  lemma AssignsRecord(w: World, a: nat, targets: seq<string>, v: Value, st: State)
    ensures var o := AssignAll(w, a, targets, v, st);
            o.Ok? ==> Records(w, a, st, CopyWords(|targets|) + StoreWords(targets), o.state)
  {
    var words := CopyWords(|targets|) + StoreWords(targets);
    NoCalls(words);
    AssignsQuiet(w, a, targets, v, st);
    var o := AssignAll(w, a, targets, v, st);
    if o.Ok? {
      QuietRecords(w, a, st, words, o.state);
    }
  }

  lemma {:induction false} NoCalls(words: seq<Word>)
    requires forall x | x in words :: !x.Call?
    ensures Calls(words) == []
    decreases |words|
  {
    if words != [] {
      NoCalls(words[1..]);
    }
  }

  ghost predicate Quiet(st: State, st': State) {
    && SameCode(st.acts, st'.acts) && st.history <= st'.history
    && forall j | |st.history| <= j < |st'.history| :: !st'.history[j].SendE?
  }

  lemma {:induction false} NothingSent(h: History)
    requires forall e | e in h :: !e.SendE?
    ensures Sent(h) == []
    decreases |h|
  {
    if h != [] {
      NothingSent(h[1..]);
    }
  }

  lemma QuietRecords(w: World, a: nat, st: State, words: seq<Word>, st': State)
    requires Quiet(st, st') && Calls(words) == []
    ensures Records(w, a, st, words, st')
  {
    NothingSent(st'.history[|st.history|..]);
  }

  lemma {:induction false} AssignsQuiet(w: World, a: nat, targets: seq<string>, v: Value, st: State)
    ensures var o := AssignAll(w, a, targets, v, st); o.Ok? ==> Quiet(st, o.state)
    decreases |targets|
  {
    if targets != [] {
      var o := WriteVariable(w, a, targets[0], v, st);
      if o.Ok? {
        assert Quiet(st, o.state);
        AssignsQuiet(w, a, targets[1..], v, o.state);
      }
    }
  }

  // ----- the messages the virtual machine sends on its own -----

  /** A message that is not understood: the next message is doesNotUnderstand:arguments:, to the receiver, with
      the selector and the array of arguments. */
  lemma NotUnderstood(w: World, src: Sources, sel: string, toSuper: bool, args: seq<Value>, st: State, fuel: nat)
    requires args != []
    ensures var h := st.history + [SendE(sel, toSuper, args), ArrayE(if toSuper then args else args[1..])];
            var found := w.lookup(args[0], "doesNotUnderstand:arguments:", h);
            var dnu := [args[0], SymV(sel), ArrayV(|st.history| + 1)];
            var st' := State(st.acts, h + [SendE("doesNotUnderstand:arguments:", false, dnu)]);
            Answered(w, src, sel, toSuper, None, args, st, fuel) ==
            if found.None? then Left(Fault, st') else Invoked(w, src, found.value, dnu, st', fuel)
  {
    OwnSelectors();
    hide DNU, Invoked;
    var st1 := st.Record(SendE(sel, toSuper, args));
    var st2 := st1.Record(ArrayE(if toSuper then args else args[1..]));
    assert st2.history == st.history + [SendE(sel, toSuper, args), ArrayE(if toSuper then args else args[1..])];
  }

  /** A name that nothing binds and no global has: unknownGlobal: is sent to self. */
  lemma GlobalUnknown(w: World, src: Sources, cx: Context, a: nat, name: string, st: State, fuel: nat)
    requires Binder(st.acts, a, name).None? && name !in cx.fields && w.global(name, st.history).None?
    requires Self(st.acts, a).Some? && fuel > 0
    ensures var args := [Self(st.acts, a).value, SymV(name)];
            var found := w.lookup(args[0], "unknownGlobal:", st.history);
            var st' := State(st.acts, st.history + [SendE("unknownGlobal:", false, args)]);
            ReadVariable(w, src, cx, a, name, st, fuel) ==
            if found.None? then Left(Fault, st') else Invoked(w, src, found.value, args, st', fuel - 1)
  {
    OwnSelectors();
    hide UNKNOWN_GLOBAL, Invoked, Self, Binder;
  }

  // ----- literals -----

  /** A literal evaluates to the object that is written: the number with its sign, kind and text, the string
      or symbol with its text, the array of the objects written in it. */
  lemma LiteralEvaluates(w: World, src: Sources, cx: Context, a: nat, lit: Literal, id: nat, st: State, fuel: nat)
    ensures var o := EvalPrimary(w, src, cx, a, LiteralNode(lit, id), st, fuel);
            o.Ok? && o.state == st &&
            match lit
            case Number(kind, text, negative) => o.value == ConstV(id, Number(kind, text, negative))
            case Text(text) => o.value == ConstV(id, Text(text))
            case SymbolLiteral(_, text) => o.value == SymV(text)
            case LiteralArray(elements) =>
              o.value.ListV? && o.value.id == id && |o.value.elements| == elements.Length() &&
              forall k | 0 <= k < elements.Length() ::
                o.value.elements[k] == LiteralObject(elements.Nth(k).0, elements.Nth(k).1)
  {
    LiteralDenotes(lit, id);
    if lit.LiteralArray? {
      ArrayDenotes(lit.elements, 0);
      forall k | 0 <= k < lit.elements.Length()
        ensures LiteralObjects(lit.elements)[k] == LiteralObject(lit.elements.Nth(k).0, lit.elements.Nth(k).1)
      {
        ArrayDenotes(lit.elements, k);
      }
    }
  }
}

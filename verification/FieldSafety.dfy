/** Fields are there: in a table of methods that only name fields of their own class, store nowhere into
    self, and send to super nothing but self, every field access of every run finds its field. */
module FieldSafety {
  import opened Common
  import opened Bytecodes
  import opened Signature
  import opened StackDepth
  import opened CodeGen
  import opened Machine
  import opened Chains
  import opened FrameInvariant
  import opened SafeRuns

  // ----- operands that are self -----

  /** Which operands are known to be self after an instruction; the method `outer` levels out is the
      one whose argument 0 is self. */
  function Track(i: Instr, lits: seq<Value>, outer: nat, ms: seq<bool>): seq<bool> {
    match i
    case PushArgument(x, l) => ms + [x == 0 && l == outer]
    case Dup => ms + [ms != [] && ms[|ms| - 1]]
    case Pop => Dropped(ms, 1)
    case PopLocal(_, _) => Dropped(ms, 1)
    case PopArgument(_, _) => Dropped(ms, 1)
    case PopField(_) => Dropped(ms, 1)
    case Send(k) => Dropped(ms, Arity(Selector(lits, k))) + [false]
    case SuperSend(k) => Dropped(ms, Arity(Selector(lits, k))) + [false]
    case Halt => ms
    case ReturnLocal => ms
    case ReturnNonLocal => ms
    case _ => ms + [false]
  }

  function Dropped(ms: seq<bool>, n: nat): seq<bool> {
    if n <= |ms| then ms[..|ms| - n] else []
  }

  function Marks(code: seq<Instr>, lits: seq<Value>, outer: nat, ms: seq<bool>): seq<bool>
    decreases |code|
  {
    if code == [] then ms else Marks(code[1..], lits, outer, Track(code[0], lits, outer, ms))
  }

  /** The receiver of every super send is known to be self. */
  predicate SupersOk(code: seq<Instr>, lits: seq<Value>, outer: nat, ms: seq<bool>)
    decreases |code|
  {
    code == [] ||
    ((code[0].SuperSend? ==> SelfBelow(ms, Arity(Selector(lits, code[0].lit)))) &&
     SupersOk(code[1..], lits, outer, Track(code[0], lits, outer, ms)))
  }

  predicate SelfBelow(ms: seq<bool>, n: nat) {
    1 <= n <= |ms| && ms[|ms| - n]
  }

  lemma {:induction false} MarksConcat(a: seq<Instr>, b: seq<Instr>, lits: seq<Value>, outer: nat, ms: seq<bool>)
    ensures Marks(a + b, lits, outer, ms) == Marks(b, lits, outer, Marks(a, lits, outer, ms))
    ensures SupersOk(a + b, lits, outer, ms) <==>
            SupersOk(a, lits, outer, ms) && SupersOk(b, lits, outer, Marks(a, lits, outer, ms))
    decreases |a|
  {
    if a == [] {
      assert a + b == b;
    } else {
      hide Track, SelfBelow;
      assert (a + b)[1..] == a[1..] + b && (a + b)[0] == a[0];
      MarksConcat(a[1..], b, lits, outer, Track(a[0], lits, outer, ms));
    }
  }

  lemma TrackSize(i: Instr, lits: seq<Value>, outer: nat, ms: seq<bool>)
    requires Need(i, lits) <= |ms|
    ensures |Track(i, lits, outer, ms)| == |ms| + Effect(i, lits)
  {
  }

  /** As many marks as there are operands. */
  lemma {:induction false} MarksSize(code: seq<Instr>, lits: seq<Value>, outer: nat, ms: seq<bool>)
    requires NeverDips(code, lits, |ms|)
    ensures |Marks(code, lits, outer, ms)| == |ms| + Net(code, lits)
    decreases |code|
  {
    if code != [] {
      hide Track;
      TrackSize(code[0], lits, outer, ms);
      MarksSize(code[1..], lits, outer, Track(code[0], lits, outer, ms));
    }
  }

  function MarksAt(m: Method, outer: nat, k: nat): seq<bool>
    requires k <= |m.code|
  {
    Marks(m.code[..k], m.literals, outer, [])
  }

  lemma MarksNext(m: Method, outer: nat, k: nat)
    requires k < |m.code| && NeverDips(m.code, m.literals, 0)
    ensures |MarksAt(m, outer, k)| == Height(m, k)
    ensures MarksAt(m, outer, k + 1) == Track(m.code[k], m.literals, outer, MarksAt(m, outer, k))
    ensures SupersOk(m.code, m.literals, outer, []) && m.code[k].SuperSend? ==>
              SelfBelow(MarksAt(m, outer, k), Arity(Selector(m.literals, m.code[k].lit)))
  {
    hide Track, SelfBelow, Arity;
    var a, b := m.code[..k], m.code[k..];
    assert m.code == a + b && m.code[..k + 1] == a + [m.code[k]];
    NeverDipsConcat(a, b, m.literals, 0);
    MarksSize(a, m.literals, outer, []);
    MarksConcat(a, b, m.literals, outer, []);
    MarksConcat(a, [m.code[k]], m.literals, outer, []);
    assert [m.code[k]][1..] == [];
  }

  // ----- what is claimed of the methods -----

  /** The fields of the class a method or block belongs to, and how far out its method is. */
  datatype Claim = Claim(fields: set<string>, outer: nat)

  type Claims = map<nat, Claim>

  /** The method `level` levels out is not itself in another. */
  predicate TopLevel(t: Table, code: nat, level: nat) {
    var a := Ancestor(t, code, level);
    a.Some? && a.value in t && t[a.value].parent.None?
  }

  predicate InstrOk(i: Instr, lits: seq<Value>, claim: Claim) {
    && (i.PushField? || i.PopField? ==> Selector(lits, i.lit) in claim.fields)
    && (i.PopArgument? ==> !(i.index == 0 && i.level == claim.outer))
  }

  ghost predicate ClaimOk(t: Table, claims: Claims, code: nat)
    requires code in t && code in claims
  {
    var m := t[code].meth;
    && TopLevel(t, code, claims[code].outer)
    && (t[code].parent.Some? ==> t[code].parent.value in claims &&
                                 claims[code].fields <= claims[t[code].parent.value].fields)
    && (forall i | i in m.code :: InstrOk(i, m.literals, claims[code]))
    && SupersOk(m.code, m.literals, claims[code].outer, [])
  }

  ghost predicate ClaimsOk(t: Table, claims: Claims) {
    claims.Keys == t.Keys && forall code {:trigger ClaimOk(t, claims, code)} | code in t :: ClaimOk(t, claims, code)
  }

  ghost predicate HasFields(w: World, fields: set<string>, v: Value) {
    forall n | n in fields :: w.hasField(v, n)
  }

  /** A method is found only for receivers that have its fields; a superclass has no other fields than
      its subclass. */
  ghost predicate WorldHasFields(w: World, claims: Claims) {
    && (forall recv, sel, h ::
          w.lookup(recv, sel, h).Some? && w.lookup(recv, sel, h).value.MethodI? &&
          w.lookup(recv, sel, h).value.code in claims ==>
            HasFields(w, claims[w.lookup(recv, sel, h).value.code].fields, recv))
    && (forall code, sel, h ::
          w.superLookup(code, sel, h).Some? && w.superLookup(code, sel, h).value.MethodI? && code in claims &&
          w.superLookup(code, sel, h).value.code in claims ==>
            claims[w.superLookup(code, sel, h).value.code].fields <= claims[code].fields)
  }

  // ----- states -----

  /** Operands marked as self are self. */
  ghost predicate Marked(ms: seq<bool>, stack: seq<Value>, self: Value) {
    forall j | 0 <= j < |ms| && j < |stack| && ms[j] :: stack[j] == self
  }

  ghost predicate LastUnmarked(ms: seq<bool>) {
    ms != [] ==> !ms[|ms| - 1]
  }

  function MarksOf(t: Table, claims: Claims, code: nat, pc: nat): seq<bool>
    requires code in t && code in claims && pc <= |t[code].meth.code|
  {
    MarksAt(t[code].meth, claims[code].outer, pc)
  }

  /** Frame i, with its operands as at position pc: self has the fields of its method, and what it will
      get from a callee is not taken to be self. */
  ghost predicate FrameSelf(w: World, t: Table, claims: Claims, frames: seq<Frame>, i: nat, pc: nat)
    requires i < |frames|
  {
    var f := frames[i];
    && f.code in t && f.code in claims && pc <= |t[f.code].meth.code|
    && SelfOf(frames, i).Some? && HasFields(w, claims[f.code].fields, SelfOf(frames, i).value)
    && Marked(MarksOf(t, claims, f.code, pc), f.stack, SelfOf(frames, i).value)
    && Waits(t, claims, frames, f.previous)
  }

  ghost predicate Waits(t: Table, claims: Claims, frames: seq<Frame>, p: Option<nat>) {
    p.Some? && 1 <= p.value < |frames| ==>
      var f := frames[p.value];
      f.code in t && f.code in claims && f.pc <= |t[f.code].meth.code| &&
      LastUnmarked(MarksOf(t, claims, f.code, f.pc))
  }

  ghost predicate SelfInv(w: World, t: Table, claims: Claims, frames: seq<Frame>) {
    forall i {:trigger FrameSelf(w, t, claims, frames, i, frames[i].pc)} |
      1 <= i < |frames| :: FrameSelf(w, t, claims, frames, i, frames[i].pc)
  }

  /** Between fetching instruction k and executing it. */
  ghost predicate SelfMid(w: World, t: Table, claims: Claims, c: Config, k: nat) {
    c.current < |c.frames| && FrameSelf(w, t, claims, c.frames, c.current, k) &&
    forall i {:trigger FrameSelf(w, t, claims, c.frames, i, c.frames[i].pc)} |
      1 <= i < |c.frames| && i != c.current :: FrameSelf(w, t, claims, c.frames, i, c.frames[i].pc)
  }

  // ----- self stays -----

  /** The same frames, and perhaps more, with the same receivers. */
  ghost predicate Alike(f: seq<Frame>, g: seq<Frame>) {
    |f| <= |g| &&
    forall i | 0 <= i < |f| ::
      g[i].home == f[i].home && |g[i].args| == |f[i].args| &&
      (f[i].home.None? && f[i].args != [] ==> g[i].args[0] == f[i].args[0])
  }

  lemma {:induction false} AlikeOuter(f: seq<Frame>, g: seq<Frame>, a: nat)
    requires Alike(f, g) && a < |f|
    ensures OuterContext(f, a) == OuterContext(g, a)
    ensures OuterContext(f, a).Some? ==> f[OuterContext(f, a).value].home.None?
    decreases a
  {
    if f[a].home.Some? && f[a].home.value < a {
      AlikeOuter(f, g, f[a].home.value);
    }
  }

  lemma AlikeSelf(f: seq<Frame>, g: seq<Frame>, a: nat)
    requires Alike(f, g) && a < |f|
    ensures SelfOf(f, a) == SelfOf(g, a)
  {
    AlikeOuter(f, g, a);
  }

  /** The context that is not a block's is the outermost. */
  lemma {:induction false} ContextOuter(t: Table, c: Config, a: nat, level: nat)
    requires Core(t, c) && 1 <= a < |c.frames| && TopLevel(t, c.frames[a].code, level)
    ensures ContextAt(c.frames, a, level).Some? && ContextAt(c.frames, a, level) == OuterContext(c.frames, a)
    decreases level
  {
    assert FrameInv(t, c.frames, a);
    if level > 0 {
      ContextOuter(t, c, c.frames[a].home.value, level - 1);
    }
  }

  /** Only one ancestor is outermost. */
  lemma {:induction false} OneTopLevel(t: Table, code: nat, l: nat, n: nat)
    requires TopLevel(t, code, l) && TopLevel(t, code, n)
    ensures l == n
    decreases l
  {
    if l > 0 && n > 0 {
      OneTopLevel(t, t[code].parent.value, l - 1, n - 1);
    }
  }

  /** A frame with the same code, place and receiver. */
  lemma FrameKept(w: World, t: Table, claims: Claims, f: seq<Frame>, g: seq<Frame>, i: nat, pc: nat)
    requires Alike(f, g) && i < |f| && FrameSelf(w, t, claims, f, i, pc)
    requires g[i].code == f[i].code && g[i].stack == f[i].stack
    requires Waits(t, claims, g, g[i].previous)
    ensures FrameSelf(w, t, claims, g, i, pc)
  {
    AlikeSelf(f, g, i);
  }

  /** The top frame gets other operands, marked rightly, and all other frames stay. */
  lemma SettleSelf(w: World, t: Table, claims: Claims, c: Config, k: nat, stack: seq<Value>)
    requires Mid(t, c, k) && SelfMid(w, t, claims, c, k)
    requires Marked(MarksOf(t, claims, c.Top().code, k + 1), stack, SelfOf(c.frames, c.current).value)
    ensures SelfInv(w, t, claims, c.WithStack(stack).frames)
  {
    var g := c.WithStack(stack).frames;
    AlikeSelf(c.frames, g, c.current);
    forall i | 1 <= i < |g|
      ensures FrameSelf(w, t, claims, g, i, g[i].pc)
    {
      if i == c.current {
        WaitsKept(t, claims, c, g, i);
      } else {
        assert FrameSelf(w, t, claims, c.frames, i, c.frames[i].pc);
        WaitsKept(t, claims, c, g, i);
        FrameKept(w, t, claims, c.frames, g, i, g[i].pc);
      }
    }
  }

  lemma WaitsKept(t: Table, claims: Claims, c: Config, g: seq<Frame>, i: nat)
    requires Linked(c.frames, c.current) && i < |c.frames| == |g| && Waits(t, claims, c.frames, c.frames[i].previous)
    requires g[i].previous == c.frames[i].previous
    requires forall j | 0 <= j < |g| && j != c.current :: g[j].code == c.frames[j].code && g[j].pc == c.frames[j].pc
    ensures Waits(t, claims, g, g[i].previous)
  {
    NothingAbove(c.frames, c.current);
  }

  /** Self of the running frame, and the marks around instruction k. */
  lemma MidFacts(w: World, t: Table, claims: Claims, c: Config, k: nat)
    requires TableOk(t) && ClaimsOk(t, claims) && Mid(t, c, k) && SelfMid(w, t, claims, c, k)
    ensures c.current < |c.frames|
    ensures var code := c.Top().code;
            && code in claims && InstrOk(InstrAt(t, c, k), Lits(t, c), claims[code])
            && TopLevel(t, code, claims[code].outer)
            && SelfOf(c.frames, c.current).Some? && HasFields(w, claims[code].fields, SelfOf(c.frames, c.current).value)
            && |MarksOf(t, claims, code, k)| == |c.Stack()|
            && MarksOf(t, claims, code, k + 1) ==
               Track(InstrAt(t, c, k), Lits(t, c), claims[code].outer, MarksOf(t, claims, code, k))
            && Marked(MarksOf(t, claims, code, k), c.Stack(), SelfOf(c.frames, c.current).value)
            && Need(InstrAt(t, c, k), Lits(t, c)) <= |c.Stack()|
            && (InstrAt(t, c, k).SuperSend? ==>
                  SelfBelow(MarksOf(t, claims, code, k), Arity(Selector(Lits(t, c), InstrAt(t, c, k).lit))))
  {
    hide Track, Arity, InstrOk, Marks, SelfBelow, TopLevel;
    var code := c.Top().code;
    assert MethodOk(t, code) && ClaimOk(t, claims, code);
    MarksNext(t[code].meth, claims[code].outer, k);
    MethodFacts(t, code, k);
  }

  /** An instruction that pushes a value: self, if it is taken to be self. */
  lemma PushSelf(w: World, t: Table, claims: Claims, c: Config, k: nat, v: Value, mark: bool)
    requires TableOk(t) && ClaimsOk(t, claims) && Mid(t, c, k) && SelfMid(w, t, claims, c, k)
    requires c.Top().code in claims
    requires MarksOf(t, claims, c.Top().code, k + 1) == MarksOf(t, claims, c.Top().code, k) + [mark]
    requires mark ==> Some(v) == SelfOf(c.frames, c.current)
    ensures SelfInv(w, t, claims, Push(c, v).frames)
  {
    hide Mid, ClaimsOk, TableOk, SelfInv, MarksOf;
    MidFacts(w, t, claims, c, k);
    SettleSelf(w, t, claims, c, k, c.Stack() + [v]);
  }

  /** An instruction that takes one operand. */
  lemma PopSelf(w: World, t: Table, claims: Claims, c: Config, k: nat)
    requires TableOk(t) && ClaimsOk(t, claims) && Mid(t, c, k) && SelfMid(w, t, claims, c, k)
    requires c.Top().code in claims && |c.Stack()| > 0
    requires var ms := MarksOf(t, claims, c.Top().code, k);
             MarksOf(t, claims, c.Top().code, k + 1) == Dropped(ms, 1) ||
             MarksOf(t, claims, c.Top().code, k + 1) == ms
    ensures SelfInv(w, t, claims, c.WithStack(c.Stack()[..|c.Stack()| - 1]).frames)
  {
    hide Mid, ClaimsOk, TableOk, SelfInv, MarksOf;
    MidFacts(w, t, claims, c, k);
    SettleSelf(w, t, claims, c, k, c.Stack()[..|c.Stack()| - 1]);
  }

  /** Replacing variables of a frame, but for the receiver. */
  lemma VariablesSelf(w: World, t: Table, claims: Claims, f: seq<Frame>, h: nat, v: Frame)
    requires SelfInv(w, t, claims, f) && h < |f| && Alike(f, f[h := v])
    requires v.code == f[h].code && v.stack == f[h].stack && v.pc == f[h].pc && v.previous == f[h].previous
    ensures SelfInv(w, t, claims, f[h := v])
  {
    var g := f[h := v];
    forall i | 1 <= i < |g|
      ensures FrameSelf(w, t, claims, g, i, g[i].pc)
    {
      assert FrameSelf(w, t, claims, f, i, f[i].pc);
      FrameKept(w, t, claims, f, g, i, g[i].pc);
    }
  }

  // ----- pushes and pops -----

  lemma SimpleSelf(w: World, t: Table, claims: Claims, c: Config, k: nat)
    requires TableOk(t) && ClaimsOk(t, claims) && Mid(t, c, k) && SelfMid(w, t, claims, c, k)
    requires var i := InstrAt(t, c, k);
             i.Dup? || i.Pop? || i.PushConstant? || i.PushBlock? || i.PushLocal? || i.PushArgument?
    ensures var d := Execute(w, t, c, InstrAt(t, c, k), Lits(t, c));
            d.status == Running ==> SelfInv(w, t, claims, d.frames)
  {
    hide Core, ClaimsOk, TableOk, SelfInv, MarksOf, SelfMid, SelfOf, TopLevel, ContextAt;
    MidFacts(w, t, claims, c, k);
    var i := InstrAt(t, c, k);
    var d := Execute(w, t, c, i, Lits(t, c));
    if d.status == Running {
      match i
      case Pop => PopSelf(w, t, claims, c, k);
      case Dup =>
        var ms := MarksOf(t, claims, c.Top().code, k);
        PushSelf(w, t, claims, c, k, c.Stack()[|c.Stack()| - 1], ms != [] && ms[|ms| - 1]);
      case PushConstant(j) => PushSelf(w, t, claims, c, k, Lits(t, c)[j], false);
      case PushBlock(j) => PushSelf(w, t, claims, c, k, Closure(Lits(t, c)[j].code, c.current), false);
      case PushLocal(x, l) =>
        PushSelf(w, t, claims, c, k, c.frames[ContextAt(c.frames, c.current, l).value].locals[x], false);
      case PushArgument(x, l) =>
        ArgumentSelf(w, t, claims, c, k, x, l);
        PushSelf(w, t, claims, c, k, c.frames[ContextAt(c.frames, c.current, l).value].args[x],
                 x == 0 && l == claims[c.Top().code].outer);
    }
  }

  /** Argument 0 of the outermost method is self. */
  lemma ArgumentSelf(w: World, t: Table, claims: Claims, c: Config, k: nat, x: nat, l: nat)
    requires Mid(t, c, k) && SelfMid(w, t, claims, c, k) && c.Top().code in claims
    requires TopLevel(t, c.Top().code, claims[c.Top().code].outer)
    requires ContextAt(c.frames, c.current, l).Some?
    requires x < |c.frames[ContextAt(c.frames, c.current, l).value].args|
    ensures x == 0 && l == claims[c.Top().code].outer ==>
              Some(c.frames[ContextAt(c.frames, c.current, l).value].args[x]) == SelfOf(c.frames, c.current)
  {
    ContextOuter(t, c, c.current, claims[c.Top().code].outer);
  }

  // ----- stores -----

  lemma StoreSelf(w: World, t: Table, claims: Claims, c: Config, k: nat)
    requires TableOk(t) && ClaimsOk(t, claims) && Mid(t, c, k) && SelfMid(w, t, claims, c, k)
    requires InstrAt(t, c, k).PopLocal? || InstrAt(t, c, k).PopArgument?
    ensures var d := Execute(w, t, c, InstrAt(t, c, k), Lits(t, c));
            d.status == Running ==> SelfInv(w, t, claims, d.frames)
  {
    hide ClaimsOk, TableOk, SelfInv, MarksOf, SelfOf, TopLevel, Core;
    MidFacts(w, t, claims, c, k);
    var i := InstrAt(t, c, k);
    var d := Execute(w, t, c, i, Lits(t, c));
    if d.status == Running {
      PopSelf(w, t, claims, c, k);
      var e := c.WithStack(c.Stack()[..|c.Stack()| - 1]);
      ContextUnchanged(c.frames, e.frames, c.current, i.level);
      var h := ContextAt(c.frames, c.current, i.level).value;
      if i.PopArgument? && e.frames[h].home.None? {
        NotTheReceiver(w, t, claims, c, k, h);
      }
      VariablesSelf(w, t, claims, e.frames, h, d.frames[h]);
    }
  }

  /** No store reaches argument 0 of an outermost method. */
  lemma NotTheReceiver(w: World, t: Table, claims: Claims, c: Config, k: nat, h: nat)
    requires TableOk(t) && ClaimsOk(t, claims) && Mid(t, c, k) && SelfMid(w, t, claims, c, k)
    requires InstrAt(t, c, k).PopArgument? && h < |c.frames| && c.frames[h].home.None?
    requires ContextAt(c.frames, c.current, InstrAt(t, c, k).level) == Some(h)
    ensures InstrAt(t, c, k).index != 0
  {
    var i := InstrAt(t, c, k);
    MidFacts(w, t, claims, c, k);
    MethodFacts(t, c.Top().code, k);
    ContextMirrors(t, c, c.current, i.level);
    assert FrameInv(t, c.frames, h);
    OneTopLevel(t, c.Top().code, i.level, claims[c.Top().code].outer);
  }

  // ----- fields -----

  /** No instruction names a field that self does not have. */
  lemma FieldsAreThere(w: World, t: Table, claims: Claims, c: Config, k: nat)
    requires TableOk(t) && ClaimsOk(t, claims) && Mid(t, c, k) && SelfMid(w, t, claims, c, k)
    ensures !FieldFault(w, t, c, k)
  {
    hide Mid, ClaimsOk, TableOk, SelfInv, MarksOf, SelfMid, SelfOf, TopLevel;
    MidFacts(w, t, claims, c, k);
  }

  lemma FieldSelf(w: World, t: Table, claims: Claims, c: Config, k: nat)
    requires TableOk(t) && ClaimsOk(t, claims) && Mid(t, c, k) && SelfMid(w, t, claims, c, k)
    requires InstrAt(t, c, k).PushField? || InstrAt(t, c, k).PopField?
    ensures var d := Execute(w, t, c, InstrAt(t, c, k), Lits(t, c));
            d.status == Running ==> SelfInv(w, t, claims, d.frames)
  {
    hide Core, ClaimsOk, TableOk, SelfInv, MarksOf, SelfMid, SelfOf, TopLevel, Selector;
    MidFacts(w, t, claims, c, k);
    var i := InstrAt(t, c, k);
    if Execute(w, t, c, i, Lits(t, c)).status == Running {
      if i.PushField? {
        PushSelf(w, t, claims, c, k,
                 w.field(SelfOf(c.frames, c.current).value, Selector(Lits(t, c), i.lit), c.history), false);
      } else {
        PopSelf(w, t, claims, c, k);
      }
    }
  }

  // ----- calls -----

  /** A frame about to be entered: its receiver has the fields of its method. */
  lemma EnterSelf(w: World, t: Table, claims: Claims, c: Config, code: nat, home: Option<nat>, args: seq<Value>)
    requires ClaimsOk(t, claims) && c.current < |c.frames| && code in t && args != []
    requires SelfInv(w, t, claims, c.frames) && Waits(t, claims, c.frames, Some(c.current))
    requires match home
             case None => HasFields(w, claims[code].fields, args[0])
             case Some(h) => 1 <= h < |c.frames| && t[code].parent == Some(c.frames[h].code)
    ensures SelfInv(w, t, claims, PushFrame(c, NewFrame(t, code, home, c.current, args)).frames)
  {
    var f := NewFrame(t, code, home, c.current, args);
    var g := c.frames + [f];
    var last := |c.frames|;
    assert ClaimOk(t, claims, code);
    if home.Some? {
      assert FrameSelf(w, t, claims, c.frames, home.value, c.frames[home.value].pc);
      AlikeSelf(c.frames, g, home.value);
    }
    forall i | 1 <= i < |g|
      ensures FrameSelf(w, t, claims, g, i, g[i].pc)
    {
      if i < last {
        assert FrameSelf(w, t, claims, c.frames, i, c.frames[i].pc);
        FrameKept(w, t, claims, c.frames, g, i, g[i].pc);
      }
    }
  }

  /** The current frame waits for one result on top of the given operands. */
  ghost predicate Awaits(t: Table, claims: Claims, c: Config, base: seq<Value>) {
    c.current < |c.frames| &&
    var f := c.Top();
    f.code in t && f.code in claims && f.pc <= |t[f.code].meth.code| &&
    |MarksOf(t, claims, f.code, f.pc)| == |base| + 1 && LastUnmarked(MarksOf(t, claims, f.code, f.pc))
  }

  /** The top frame's operands change above those that may be marked. */
  lemma RestackSelf(w: World, t: Table, claims: Claims, c: Config, base: seq<Value>, more: seq<Value>,
                    above: seq<Value>)
    requires SelfInv(w, t, claims, c.frames) && Linked(c.frames, c.current)
    requires Awaits(t, claims, c, base) && c.Stack() == base + more
    ensures SelfInv(w, t, claims, c.WithStack(base + above).frames)
  {
    var g := c.WithStack(base + above).frames;
    forall i | 1 <= i < |g|
      ensures FrameSelf(w, t, claims, g, i, g[i].pc)
    {
      assert FrameSelf(w, t, claims, c.frames, i, c.frames[i].pc);
      AlikeSelf(c.frames, g, i);
    }
  }

  /** The top frame starts again, with no operands. */
  lemma RestartSelf(w: World, t: Table, claims: Claims, c: Config)
    requires SelfInv(w, t, claims, c.frames) && Linked(c.frames, c.current)
    ensures SelfInv(w, t, claims, c.WithTop(c.Top().(pc := 0, stack := [])).frames)
  {
    var g := c.WithTop(c.Top().(pc := 0, stack := [])).frames;
    forall i | 1 <= i < |g|
      ensures FrameSelf(w, t, claims, g, i, g[i].pc)
    {
      assert FrameSelf(w, t, claims, c.frames, i, c.frames[i].pc);
      AlikeSelf(c.frames, g, i);
      WaitsKept(t, claims, c, g, i);
    }
  }

  lemma InvokeSelf(w: World, t: Table, claims: Claims, c: Config, inv: Invokable, args: seq<Value>, base: seq<Value>)
    requires ClaimsOk(t, claims) && SelfInv(w, t, claims, c.frames) && Linked(c.frames, c.current)
    requires Awaits(t, claims, c, base) && c.Stack() == base + args && args != []
    requires GoodValue(t, c.frames, args[0])
    requires inv.MethodI? && inv.code in t ==> HasFields(w, claims[inv.code].fields, args[0])
    ensures var d := Invoke(w, t, c, inv, args); d.status == Running ==> SelfInv(w, t, claims, d.frames)
  {
    hide ClaimsOk, SelfInv, MarksOf, Linked, HasFields;
    assert c.Stack()[..|c.Stack()| - |args|] == base;
    match inv
    case MethodI(code) =>
      if code in t {
        EnterSelf(w, t, claims, c, code, None, args);
      }
    case PrimitiveI(p) =>
      RestackSelf(w, t, claims, c, base, args, [w.primitive(p, args, c.history)]);
    case EvaluateI(argc) =>
      if WellMade(t, c.frames, args[0]) {
        EnterSelf(w, t, claims, c, args[0].code, Some(args[0].home), args);
      }
    case RestartI =>
      RestartSelf(w, t, claims, c);
  }

  lemma SendToSelf(w: World, t: Table, claims: Claims, c: Config, sel: string, args: seq<Value>)
    requires ClaimsOk(t, claims) && WorldHasFields(w, claims) && SelfInv(w, t, claims, c.frames)
    requires Linked(c.frames, c.current) && Awaits(t, claims, c, c.Stack()) && args != []
    requires GoodValue(t, c.frames, args[0])
    ensures var d := SendTo(w, t, c, sel, args); d.status == Running ==> SelfInv(w, t, claims, d.frames)
  {
    hide SelfInv, Linked, HasFields, Invoke, MarksOf;
    var base := c.Stack();
    assert base + [] == base;
    RestackSelf(w, t, claims, c, base, [], args);
    var d := c.WithStack(base + args);
    LinkedReplace(c.frames, c.current, c.current, d.Top());
    var found := w.lookup(args[0], sel, c.history);
    if found.Some? {
      InvokeSelf(w, t, claims, d.Record(SendE(sel, false, args)), found.value, args, base);
    }
  }

  /** A send: the arguments give way to one result, which is not taken to be self. */
  lemma SentSelf(w: World, t: Table, claims: Claims, c: Config, k: nat, n: nat)
    requires TableOk(t) && ClaimsOk(t, claims) && Mid(t, c, k) && SelfMid(w, t, claims, c, k)
    requires c.Top().code in claims && n <= |c.Stack()|
    requires MarksOf(t, claims, c.Top().code, k + 1) == Dropped(MarksOf(t, claims, c.Top().code, k), n) + [false]
    ensures SelfInv(w, t, claims, c.frames) && Awaits(t, claims, c, c.Stack()[..|c.Stack()| - n])
  {
    hide Core, ClaimsOk, TableOk, MarksOf, SelfOf, TopLevel;
    MidFacts(w, t, claims, c, k);
    SettleSelf(w, t, claims, c, k, c.Stack());
    assert c.WithStack(c.Stack()).frames == c.frames;
  }

  lemma DispatchSelf(w: World, t: Table, claims: Claims, c: Config, sel: string, toSuper: bool,
                     found: Option<Invokable>, args: seq<Value>)
    requires ClaimsOk(t, claims) && WorldHasFields(w, claims) && SelfInv(w, t, claims, c.frames)
    requires Linked(c.frames, c.current) && 0 < |args| <= |c.Stack()| && args == c.Stack()[|c.Stack()| - |args|..]
    requires Awaits(t, claims, c, c.Stack()[..|c.Stack()| - |args|]) && GoodValue(t, c.frames, args[0])
    requires found.Some? && found.value.MethodI? && found.value.code in t ==>
               HasFields(w, claims[found.value.code].fields, args[0])
    ensures var d := Dispatch(w, t, c, sel, toSuper, found, args);
            d.status == Running ==> SelfInv(w, t, claims, d.frames)
  {
    hide ClaimsOk, SelfInv, Linked, HasFields, Invoke, MarksOf, WorldHasFields, SendTo;
    var base := c.Stack()[..|c.Stack()| - |args|];
    assert c.Stack() == base + args && base + [] == base;
    var d := c.Record(SendE(sel, toSuper, args));
    match found
    case Some(inv) => InvokeSelf(w, t, claims, d, inv, args, base);
    case None =>
      RestackSelf(w, t, claims, d, base, args, []);
      var e := d.WithStack(base);
      LinkedReplace(d.frames, d.current, d.current, e.Top());
      SendToSelf(w, t, claims, e.Record(ArrayE(if toSuper then args else args[1..])), DNU,
                 [args[0], SymV(sel), ArrayV(|d.history|)]);
  }

  lemma SendSelf(w: World, t: Table, claims: Claims, c: Config, k: nat)
    requires TableOk(t) && ClaimsOk(t, claims) && WorldHasFields(w, claims) && Mid(t, c, k) &&
             SelfMid(w, t, claims, c, k)
    requires InstrAt(t, c, k).Send?
    ensures var d := Execute(w, t, c, InstrAt(t, c, k), Lits(t, c));
            d.status == Running ==> SelfInv(w, t, claims, d.frames)
  {
    hide ClaimsOk, TableOk, SelfInv, MarksOf, SelfOf, TopLevel, Linked, SelfMid, Arity, Selector, Dispatch, HasFields;
    MidFacts(w, t, claims, c, k);
    var sel := Selector(Lits(t, c), InstrAt(t, c, k).lit);
    ArityPositive(sel);
    var n := Arity(sel);
    var args := c.Stack()[|c.Stack()| - n..];
    SentSelf(w, t, claims, c, k, n);
    StackGood(t, c);
    assert args[0] in c.Stack();
    LookupFields(w, t, claims, args[0], sel, c.history);
    DispatchSelf(w, t, claims, c, sel, false, w.lookup(args[0], sel, c.history), args);
  }

  /** A super send: the receiver is self, so it has the fields of the method's class, and with them those
      of the superclass. */
  lemma SuperSelf(w: World, t: Table, claims: Claims, c: Config, k: nat)
    requires TableOk(t) && ClaimsOk(t, claims) && WorldHasFields(w, claims) && Mid(t, c, k) &&
             SelfMid(w, t, claims, c, k)
    requires InstrAt(t, c, k).SuperSend?
    ensures var d := Execute(w, t, c, InstrAt(t, c, k), Lits(t, c));
            d.status == Running ==> SelfInv(w, t, claims, d.frames)
  {
    hide ClaimsOk, TableOk, SelfInv, MarksOf, SelfOf, TopLevel, Linked, SelfMid, Arity, Selector, Dispatch, HasFields;
    MidFacts(w, t, claims, c, k);
    var sel := Selector(Lits(t, c), InstrAt(t, c, k).lit);
    ArityPositive(sel);
    var n := Arity(sel);
    var args := c.Stack()[|c.Stack()| - n..];
    SentSelf(w, t, claims, c, k, n);
    StackGood(t, c);
    assert args[0] in c.Stack();
    OuterExists(t, c, c.current);
    var o := OuterContext(c.frames, c.current).value;
    var found := w.superLookup(c.frames[o].code, sel, c.history);
    HomeFields(w, t, claims, c);
    if found.Some? && found.value.MethodI? && found.value.code in t {
      SuperFields(w, t, claims, c.frames[o].code, sel, c.history, args[0]);
    }
    DispatchSelf(w, t, claims, c, sel, true, found, args);
  }

  /** Self has the fields of the outermost method of the running frame. */
  lemma HomeFields(w: World, t: Table, claims: Claims, c: Config)
    requires Core(t, c) && SelfInv(w, t, claims, c.frames) && 1 <= c.current
    ensures var o := OuterContext(c.frames, c.current);
            o.Some? && c.frames[o.value].code in claims && SelfOf(c.frames, c.current).Some? &&
            HasFields(w, claims[c.frames[o.value].code].fields, SelfOf(c.frames, c.current).value)
  {
    OuterExists(t, c, c.current);
    var o := OuterContext(c.frames, c.current).value;
    assert FrameSelf(w, t, claims, c.frames, o, c.frames[o].pc);
    AlikeOuter(c.frames, c.frames, c.current);
  }

  lemma LookupFields(w: World, t: Table, claims: Claims, recv: Value, sel: string, h: History)
    requires ClaimsOk(t, claims) && WorldHasFields(w, claims)
    ensures var found := w.lookup(recv, sel, h);
            found.Some? && found.value.MethodI? && found.value.code in t ==>
              HasFields(w, claims[found.value.code].fields, recv)
  {
  }

  lemma SuperFields(w: World, t: Table, claims: Claims, code: nat, sel: string, h: History, self: Value)
    requires ClaimsOk(t, claims) && WorldHasFields(w, claims) && code in claims
    requires HasFields(w, claims[code].fields, self)
    requires var found := w.superLookup(code, sel, h); found.Some? && found.value.MethodI? && found.value.code in t
    ensures HasFields(w, claims[w.superLookup(code, sel, h).value.code].fields, self)
  {
  }

  lemma GlobalSelf(w: World, t: Table, claims: Claims, c: Config, k: nat)
    requires TableOk(t) && ClaimsOk(t, claims) && WorldHasFields(w, claims) && Mid(t, c, k) &&
             SelfMid(w, t, claims, c, k)
    requires InstrAt(t, c, k).PushGlobal?
    ensures var d := Execute(w, t, c, InstrAt(t, c, k), Lits(t, c));
            d.status == Running ==> SelfInv(w, t, claims, d.frames)
  {
    hide ClaimsOk, TableOk, SelfInv, MarksOf, SelfOf, TopLevel, Linked, SelfMid, Selector, SendTo, WorldHasFields;
    MidFacts(w, t, claims, c, k);
    var name := Selector(Lits(t, c), InstrAt(t, c, k).lit);
    match w.global(name, c.history)
    case Some(v) => PushSelf(w, t, claims, c, k, v, false);
    case None =>
      SelfExists(t, c, c.current);
      SentSelf(w, t, claims, c, k, 0);
      assert c.Stack()[..|c.Stack()|] == c.Stack();
      SendToSelf(w, t, claims, c, UNKNOWN_GLOBAL, [SelfOf(c.frames, c.current).value, SymV(name)]);
  }

  // ----- returns -----

  /** Leaving a frame, and all that is above it, changes no receiver. */
  lemma ClearedSelf(w: World, t: Table, claims: Claims, f: seq<Frame>, g: seq<Frame>, home: nat)
    requires SelfInv(w, t, claims, f) && ClearedAbove(f, g, home)
    ensures SelfInv(w, t, claims, g)
  {
    forall i | 1 <= i < |g|
      ensures FrameSelf(w, t, claims, g, i, g[i].pc)
    {
      assert FrameSelf(w, t, claims, f, i, f[i].pc);
      FrameKept(w, t, claims, f, g, i, g[i].pc);
    }
  }

  /** The caller's marks say nothing about the result. */
  lemma ReturnSelf(w: World, t: Table, claims: Claims, c: Config, v: Value)
    requires TableOk(t) && ClaimsOk(t, claims) && Core(t, c) && 1 <= c.current && SelfInv(w, t, claims, c.frames)
    ensures var d := PopFrameAndPush(t, c, v); d.status == Running ==> SelfInv(w, t, claims, d.frames)
  {
    hide TableOk, ClaimsOk, SelfInv, MarksOf;
    var d := PopFrame(c);
    LinkedPop(c);
    ClearedSelf(w, t, claims, c.frames, d.frames, c.current - 1);
    CallerSelf(w, t, claims, c, d.current);
    if PopFrameAndPush(t, c, v).status == Running {
      var n := t[c.Top().code].meth.Args();
      var base := d.Stack()[..|d.Stack()| - n];
      assert d.Stack() == base + d.Stack()[|d.Stack()| - n..];
      if d.current >= 1 {
        RestackSelf(w, t, claims, d, base, d.Stack()[|d.Stack()| - n..], [v]);
      } else {
        BootSelf(w, t, claims, d, base + [v]);
      }
    }
  }

  /** The bootstrap frame is nobody's receiver. */
  lemma BootSelf(w: World, t: Table, claims: Claims, c: Config, stack: seq<Value>)
    requires SelfInv(w, t, claims, c.frames) && c.current == 0 < |c.frames|
    ensures SelfInv(w, t, claims, c.WithStack(stack).frames)
  {
    var g := c.WithStack(stack).frames;
    forall i | 1 <= i < |g|
      ensures FrameSelf(w, t, claims, g, i, g[i].pc)
    {
      assert FrameSelf(w, t, claims, c.frames, i, c.frames[i].pc);
      FrameKept(w, t, claims, c.frames, g, i, g[i].pc);
    }
  }

  lemma CallerSelf(w: World, t: Table, claims: Claims, c: Config, p: nat)
    requires TableOk(t) && ClaimsOk(t, claims) && Core(t, c) && 1 <= c.current && SelfInv(w, t, claims, c.frames)
    requires c.Top().previous == Some(p)
    ensures p < |c.frames| && c.Top().code in t && t[c.Top().code].meth.Args() <= |c.frames[p].stack|
    ensures 1 <= p ==>
              Awaits(t, claims, PopFrame(c), c.frames[p].stack[..|c.frames[p].stack| - t[c.Top().code].meth.Args()])
  {
    LinkedPop(c);
    assert FrameInv(t, c.frames, c.current) && FrameSelf(w, t, claims, c.frames, c.current, c.Top().pc);
    if p >= 1 {
      var code := c.frames[p].code;
      assert FrameSelf(w, t, claims, c.frames, p, c.frames[p].pc);
      assert MethodOk(t, code);
      MarksNext(t[code].meth, claims[code].outer, c.frames[p].pc);
    }
  }

  lemma ReturnLocalSelf(w: World, t: Table, claims: Claims, c: Config, k: nat)
    requires TableOk(t) && ClaimsOk(t, claims) && Mid(t, c, k) && SelfMid(w, t, claims, c, k)
    requires InstrAt(t, c, k).ReturnLocal?
    ensures var d := DoReturnLocal(t, c); d.status == Running ==> SelfInv(w, t, claims, d.frames)
  {
    hide TableOk, ClaimsOk, SelfInv, MarksOf, SelfMid, PopFrameAndPush, TopLevel;
    MidFacts(w, t, claims, c, k);
    PopSelf(w, t, claims, c, k);
    Popped(t, c, k);
    ReturnSelf(w, t, claims, c.WithStack(c.Stack()[..|c.Stack()| - 1]), c.Stack()[|c.Stack()| - 1]);
  }

  lemma Popped(t: Table, c: Config, k: nat)
    requires Mid(t, c, k) && |c.Stack()| > 0
    ensures Core(t, c.WithStack(c.Stack()[..|c.Stack()| - 1]))
  {
    var stack := c.Stack()[..|c.Stack()| - 1];
    StackGood(t, c);
    assert FrameInv(t, c.frames, c.current);
    CoreStack(t, c, k + 1, stack);
    assert c.WithTop(c.Top().(pc := k + 1, stack := stack)) == c.WithStack(stack);
  }

  lemma ReturnNonLocalSelf(w: World, t: Table, claims: Claims, c: Config, k: nat)
    requires TableOk(t) && ClaimsOk(t, claims) && Mid(t, c, k) && SelfMid(w, t, claims, c, k)
    requires InstrAt(t, c, k).ReturnNonLocal?
    ensures var d := DoReturnNonLocal(t, c); d.status == Running ==> SelfInv(w, t, claims, d.frames)
  {
    hide TableOk, ClaimsOk, SelfInv, MarksOf, SelfMid, PopFrameAndPush, TopLevel, Unwind;
    MidFacts(w, t, claims, c, k);
    PopSelf(w, t, claims, c, k);
    Popped(t, c, k);
    var d := c.WithStack(c.Stack()[..|c.Stack()| - 1]);
    OuterExists(t, d, d.current);
    var home := OuterContext(d.frames, d.current).value;
    if d.frames[home].previous.Some? {
      UnwindReaches(d, home);
      CoreUnwind(t, d, home);
      ClearedSelf(w, t, claims, d.frames, Unwind(d, home).frames, home);
      ReturnSelf(w, t, claims, Unwind(d, home), c.Stack()[|c.Stack()| - 1]);
    }
  }

  // ----- the step -----

  lemma ExecuteSelf(w: World, t: Table, claims: Claims, c: Config, k: nat)
    requires TableOk(t) && ClaimsOk(t, claims) && WorldHasFields(w, claims) && Mid(t, c, k) &&
             SelfMid(w, t, claims, c, k)
    ensures var d := Execute(w, t, c, InstrAt(t, c, k), Lits(t, c));
            d.status == Running ==> SelfInv(w, t, claims, d.frames)
  {
    hide TableOk, ClaimsOk, WorldHasFields, SelfInv, SelfMid, DoSend, DoSuperSend, DoReturnLocal, DoReturnNonLocal,
      DoPushLocal, DoPushArgument, DoPopLocal, DoPopArgument, DoPushField, DoPopField, DoPushGlobal, DoPushBlock;
    match InstrAt(t, c, k)
    case Halt => MethodHasNoHalt(t, c, k);
    case PopLocal(_, _) => StoreSelf(w, t, claims, c, k);
    case PopArgument(_, _) => StoreSelf(w, t, claims, c, k);
    case PushField(_) => FieldSelf(w, t, claims, c, k);
    case PopField(_) => FieldSelf(w, t, claims, c, k);
    case PushGlobal(_) => GlobalSelf(w, t, claims, c, k);
    case Send(_) => SendSelf(w, t, claims, c, k);
    case SuperSend(_) => SuperSelf(w, t, claims, c, k);
    case ReturnLocal => ReturnLocalSelf(w, t, claims, c, k);
    case ReturnNonLocal => ReturnNonLocalSelf(w, t, claims, c, k);
    case _ => SimpleSelf(w, t, claims, c, k);
  }

  lemma AdvanceSelf(w: World, t: Table, claims: Claims, c: Config)
    requires TableOk(t) && Inv(t, c) && c.current > 0 && SelfInv(w, t, claims, c.frames)
    ensures SelfMid(w, t, claims, Advance(c), c.Top().pc)
  {
    var g := Advance(c).frames;
    forall i | 1 <= i < |g|
      ensures FrameSelf(w, t, claims, g, i, c.frames[i].pc)
    {
      assert FrameSelf(w, t, claims, c.frames, i, c.frames[i].pc);
      WaitsKept(t, claims, c, g, i);
      FrameKept(w, t, claims, c.frames, g, i, c.frames[i].pc);
    }
  }

  /** A step from a good state finds its field, and self keeps the fields of the running methods. */
  lemma StepSelf(w: World, t: Table, claims: Claims, c: Config)
    requires TableOk(t) && WorldOk(w, t) && ClaimsOk(t, claims) && WorldHasFields(w, claims)
    requires Inv(t, c) && SelfInv(w, t, claims, c.frames)
    ensures Step(w, t, c).status != Stuck
    ensures Step(w, t, c).status == Running ==>
              Inv(t, Step(w, t, c)) && SelfInv(w, t, claims, Step(w, t, c).frames)
  {
    hide TableOk, WorldOk, ClaimsOk, WorldHasFields, SelfInv, SelfMid, Execute, Core, Step, FieldFault;
    StepInv(w, t, c);
    StepIs(w, t, c);
    GoodRuns(t, Step(w, t, c));
    if c.current > 0 {
      var k := c.Top().pc;
      AdvanceMid(t, c);
      AdvanceSelf(w, t, claims, c);
      ExecuteSelf(w, t, claims, Advance(c), k);
      FieldsAreThere(w, t, claims, Advance(c), k);
      SameFault(w, t, c);
    }
  }

  lemma GoodRuns(t: Table, c: Config)
    ensures Inv(t, c) ==> c.status == Running
  {
  }

  lemma StepIs(w: World, t: Table, c: Config)
    requires TableOk(t) && Inv(t, c)
    ensures c.current == 0 ==> Step(w, t, c).status == Halted
    ensures c.current > 0 ==>
              Mid(t, Advance(c), c.Top().pc) &&
              Step(w, t, c) == Execute(w, t, Advance(c), InstrAt(t, Advance(c), c.Top().pc), Lits(t, Advance(c)))
  {
    if c.current > 0 {
      AdvanceMid(t, c);
      assert Lits(t, Advance(c)) == LiteralsOf(t, c.Top().code);
    }
  }

  /** Fetching does not matter for what a field access finds. */
  lemma SameFault(w: World, t: Table, c: Config)
    requires c.current < |c.frames| && c.Top().code in t && c.Top().pc < |t[c.Top().code].meth.code|
    ensures FieldFault(w, t, c, c.Top().pc) == FieldFault(w, t, Advance(c), c.Top().pc)
  {
    AlikeSelf(c.frames, Advance(c).frames, c.current);
  }

  /** No run gets stuck. */
  lemma {:induction false} NeverStuck(w: World, t: Table, claims: Claims, c: Config, n: nat)
    requires TableOk(t) && WorldOk(w, t) && ClaimsOk(t, claims) && WorldHasFields(w, claims)
    requires Inv(t, c) && SelfInv(w, t, claims, c.frames) && c.status == Running
    ensures Run(w, t, c, n).status != Stuck
    decreases n
  {
    hide TableOk, WorldOk, ClaimsOk, WorldHasFields, SelfInv, Inv, Step;
    if n > 0 {
      StepSelf(w, t, claims, c);
      var d := Step(w, t, c);
      if d.status == Running {
        NeverStuck(w, t, claims, d, n - 1);
      } else {
        StaysStopped(w, t, d, n - 1);
      }
    }
  }
}

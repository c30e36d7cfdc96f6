/** The program that compiled class definitions make up: the methods assembled while parsing are the
    compiled sources of all methods and blocks in the text, each under its own id. */
module Linking {
  import opened Common
  import opened Syntax
  import opened Signature
  import opened CodeGen
  import opened CodeOperands
  import opened CodeShape
  import opened GenerationContext
  import opened Grammar
  import opened Emission
  import opened Parser
  import opened Listing
  import opened Classdefs
  import opened Machine
  import opened Semantics
  import opened Simulation

  // ----- maps from lists -----

  function MapOf<V>(s: seq<(nat, V)>): map<nat, V> {
    if s == [] then map[] else MapOf(s[..|s| - 1])[s[|s| - 1].0 := s[|s| - 1].1]
  }

  ghost predicate Unique<V>(s: seq<(nat, V)>) {
    forall i, j | 0 <= i < j < |s| :: s[i].0 != s[j].0
  }

  lemma {:induction false} MapOfKeys<V>(s: seq<(nat, V)>, id: nat)
    ensures id in MapOf(s) <==> exists e | e in s :: e.0 == id
  {
    if s != [] {
      MapOfKeys(s[..|s| - 1], id);
      assert s == s[..|s| - 1] + [s[|s| - 1]];
    }
  }

  lemma {:induction false} MapOfAt<V>(s: seq<(nat, V)>, i: nat)
    requires Unique(s) && i < |s|
    ensures s[i].0 in MapOf(s) && MapOf(s)[s[i].0] == s[i].1
  {
    if i < |s| - 1 {
      MapOfAt(s[..|s| - 1], i);
    }
  }

  /** An id designates what is listed under it. */
  lemma MapOfIs<V>(s: seq<(nat, V)>, id: nat, v: V)
    requires Unique(s)
    ensures id in MapOf(s) && MapOf(s)[id] == v <==> (id, v) in s
  {
    MapOfKeys(s, id);
    if id in MapOf(s) {
      var e :| e in s && e.0 == id;
      var i :| 0 <= i < |s| && s[i] == e;
      MapOfAt(s, i);
      if (id, v) in s {
        var j :| 0 <= j < |s| && s[j] == (id, v);
        MapOfAt(s, j);
      }
    }
  }

  lemma {:induction false} ImagesAt(l: Listed, i: nat)
    requires i < |l|
    ensures |Images(l)| == |l| && Images(l)[i] == (l[i].0, Image(Compile(l[i].1)))
  {
    hide Image, Compile;
    if i > 0 {
      ImagesAt(l[1..], i - 1);
    } else if |l| > 1 {
      ImagesAt(l[1..], 0);
    }
  }

  lemma ImagesUnique(l: Listed)
    requires Unique(l)
    ensures Unique(Images(l))
  {
    hide Image, Compile, Images;
    forall i, j | 0 <= i < j < |Images(l)|
      ensures Images(l)[i].0 != Images(l)[j].0
    {
      if l == [] {
        NoImages();
      } else {
        ImagesAt(l, 0);
        ImagesAt(l, i);
        ImagesAt(l, j);
      }
    }
  }

  lemma NoImages()
    ensures Images([]) == []
  {
  }

  // ----- ids -----

  /** A multiset of names without repetition comes from a list without repetition. */
  lemma CodesUnique(l: Listed)
    requires forall x :: Codes(l)[x] <= 1
    ensures Unique(l)
  {
    forall i, j | 0 <= i < j < |l|
      ensures l[i].0 != l[j].0
    {
      var n := Names(l);
      assert n == n[..j] + n[j..];
      assert n[i] in multiset(n[..j]) by {
        assert n[..j][i] == n[i];
      }
      assert n[j] in multiset(n[j..]) by {
        assert n[j..][0] == n[j];
      }
      assert Codes(l)[n[j]] == multiset(n[..j])[n[j]] + multiset(n[j..])[n[j]];
    }
  }

  // ----- what is listed -----

  /** A method of a class: self is its first argument, nothing is around it. */
  predicate IsTop(s: Source) {
    && s.parent.None? && !s.isBlock && s.outer == []
    && s.args != [] && s.args[0] == "self" && |s.args| <= Arity(s.signature)
  }

  /** A method of a class, or a block that stands in another source of the list. */
  ghost predicate Rooted(s: Source, l: Listed) {
    IsTop(s) ||
    (s.isBlock && |s.args| <= Arity(s.signature) &&
     exists e | e in l :: InsideOf(s, e))
  }

  ghost predicate Whole(l: Listed) {
    && (forall e | e in l :: Rooted(e.1, l))
    && (forall e | e in l :: HasBlocks(l, BodyBlocks(e.1.body), e.1.Cx(), e.0))
  }

  lemma WholeConcat(a: Listed, b: Listed)
    requires Whole(a) && Whole(b)
    ensures Whole(a + b)
  {
    hide BlockSource, BodyBlocks, Arity, IsTop;
    forall e | e in a + b
      ensures Rooted(e.1, a + b) && HasBlocks(a + b, BodyBlocks(e.1.body), e.1.Cx(), e.0)
    {
      if e in a {
        assert Rooted(e.1, a);
      } else {
        assert Rooted(e.1, b);
      }
    }
  }

  lemma TopListed(src: Source, id: nat, l: Listed)
    requires IsTop(src) && Nest(l, BodyBlocks(src.body), src.Cx(), id)
    ensures Whole(l + [(id, src)])
  {
    hide BodyBlocks, BlockSource, Arity, IsTop;
    var all := l + [(id, src)];
    assert (id, src) in all;
    forall e | e in all
      ensures Rooted(e.1, all) && HasBlocks(all, BodyBlocks(e.1.body), e.1.Cx(), e.0)
    {
      if e in l {
        assert StandsIn(e.1, l, src.Cx(), id);
      }
    }
  }

  lemma DefinitionWhole(d: Definition, fields: seq<string>)
    requires d.primitive || PatternOk(d.pattern)
    ensures Whole(DefinitionListed(d, fields))
  {
    if !d.primitive {
      var src := DefinitionSource(d, fields);
      PatternArity(d.pattern);
      SelfFirst(d.pattern.Names());
      assert IsTop(src);
      BodyNest(src.Cx(), d.body, d.id);
      hide IsTop, Nest, Whole;
      TopListed(src, d.id, BodyListed(src.Cx(), d.body, d.id));
    }
  }

  lemma SelfFirst(names: seq<string>)
    ensures AddAllAbsent(["self"], names) != [] && AddAllAbsent(["self"], names)[0] == "self"
  {
  }

  lemma {:induction false} DefinitionsWhole(ds: seq<Definition>, fields: seq<string>)
    requires forall d | d in ds :: PatternOk(d.pattern)
    ensures Whole(DefinitionsListed(ds, fields))
    decreases |ds|
  {
    if ds != [] {
      hide Whole, PatternOk;
      DefinitionWhole(ds[0], fields);
      DefinitionsWhole(ds[1..], fields);
      WholeConcat(DefinitionListed(ds[0], fields), DefinitionsListed(ds[1..], fields));
    }
  }

  // ----- reading class definitions -----

  lemma {:induction false} KeyArgsRead(keys: seq<string>, names: seq<string>, ts: Tokens)
    requires EatKeyArgs(keys, names, ts).Some?
    ensures Reads([], ts, EatKeyArgs(keys, names, ts).value) && |keys| == |names|
    ensures TokensOk(ts) ==> forall k | k in keys :: IsKeyword(k)
    decreases |keys|
  {
    hide Reads, TokensOk, IsKeyword;
    ReadsNothing(ts);
    if keys != [] {
      KeyArgsRead(keys[1..], names[1..], ts[1..][1..]);
      TokensLeft(ts);
      TokensLeft(ts[1..]);
      ReadsMore([], ts[1..], EatKeyArgs(keys, names, ts).value);
      ReadsMore([], ts, EatKeyArgs(keys, names, ts).value);
      assert keys == [keys[0]] + keys[1..];
    }
  }

  /** After the first token, which names the method. */
  lemma MethodPatternRead(p: MethodPattern, ts: Tokens)
    requires EatMethodPattern(p, ts).Some?
    ensures ts != [] && Reads([], ts[1..], EatMethodPattern(p, ts).value) && (TokensOk(ts) ==> PatternOk(p))
  {
    hide Reads, TokensOk;
    TokensLeft(ts);
    ReadsNothing(ts[1..]);
    match p
    case UnaryPattern(_) =>
    case BinaryPattern(_, _, _) => ReadsToken(ts[1..]);
    case KeywordPattern(keys, names) =>
      KeyArgsRead(keys, names, ts);
      KeyArgsRead(keys[1..], names[1..], ts[1..][1..]);
      ReadsMore([], ts[1..], EatKeyArgs(keys, names, ts).value);
  }

  lemma DefinitionRead(d: Definition, fields: seq<string>, ts: Tokens)
    requires EatDefinition(d, ts).Some?
    ensures Reads(DefinitionListed(d, fields), ts, EatDefinition(d, ts).value) &&
            (TokensOk(ts) ==> PatternOk(d.pattern))
  {
    hide Reads, TokensOk, EatMethodPattern, EatBody, EatLocals, PatternOk, BodyOk;
    var src := DefinitionSource(d, fields);
    var us := EatMethodPattern(d.pattern, ts).value;
    var end := EatDefinition(d, ts).value;
    MethodPatternRead(d.pattern, ts);
    ReadsLast([], ts[1..], us);
    if d.primitive {
      ReadsLast([], ts[1..], us[1..]);
      ReadsMore([], ts, end);
    } else {
      var vs := us[1..][1..];
      var ws := EatLocals(d.locals, vs).value;
      var l := BodyListed(src.Cx(), d.body, d.id);
      ReadsLast([], ts[1..], us[1..]);
      LocalsRead(d.locals, vs);
      BodyRead(src.Cx(), d.body, d.id, EndTerm, ws);
      ReadsOn([], ts[1..], vs, ws);
      ReadsTokensOk([], ts[1..], ws);
      ReadsOn(l, ts[1..], ws, EatBody(d.body, EndTerm, ws).value);
      ReadsLast(l, ts[1..], EatBody(d.body, EndTerm, ws).value);
      ReadsNamed(l, src, ts, end);
    }
  }

  lemma {:induction false} DefinitionsRead(ds: seq<Definition>, fields: seq<string>, ts: Tokens)
    requires EatDefinitions(ds, ts).Some?
    ensures Reads(DefinitionsListed(ds, fields), ts, EatDefinitions(ds, ts).value)
    ensures TokensOk(ts) ==> forall d | d in ds :: PatternOk(d.pattern)
    decreases |ds|
  {
    hide Reads, TokensOk, EatDefinition, PatternOk, DefinitionListed;
    if ds == [] {
      ReadsNothing(ts);
    } else {
      var us := EatDefinition(ds[0], ts).value;
      DefinitionRead(ds[0], fields, ts);
      DefinitionsRead(ds[1..], fields, us);
      ReadsThen(DefinitionListed(ds[0], fields), DefinitionsListed(ds[1..], fields), ts, us,
                EatDefinitions(ds, ts).value);
      ReadsTokensOk(DefinitionListed(ds[0], fields), ts, us);
      assert ds == [ds[0]] + ds[1..];
    }
  }

  lemma SideRead(side: Side, fields: seq<string>, ts: Tokens)
    requires EatSide(side, ts).Some?
    ensures Reads(DefinitionsListed(side.methods, fields), ts, EatSide(side, ts).value)
    ensures TokensOk(ts) ==> Whole(DefinitionsListed(side.methods, fields))
  {
    hide Reads, TokensOk, EatLocals, EatDefinitions, DefinitionsListed, PatternOk, Whole;
    var us := EatLocals(side.fields, ts).value;
    LocalsRead(side.fields, ts);
    DefinitionsRead(side.methods, fields, us);
    ReadsTokensOk([], ts, us);
    ReadsOn(DefinitionsListed(side.methods, fields), ts, us, EatSide(side, ts).value);
    if TokensOk(ts) {
      DefinitionsWhole(side.methods, fields);
    }
  }

  lemma HeadRead(c: ClassDef, ts: Tokens)
    requires EatHead(c, ts).Some?
    ensures Reads([], ts, EatHead(c, ts).value)
  {
    hide Reads;
    ReadsToken(ts);
    ReadsLast([], ts, ts[1..]);
    var us := ts[1..][1..];
    ReadsLast([], ts, us);
    if c.superName.Some? {
      ReadsLast([], ts, us[1..]);
    }
  }

  /** The methods and blocks of a class are named by tokens of its text, each by its own. */
  lemma ClassRead(c: ClassDef, inherited: Inherited, ts: Tokens)
    requires EatClass(c, ts).Some?
    ensures Reads(ClassListed(c, inherited), ts, EatClass(c, ts).value)
    ensures TokensOk(ts) ==> Whole(ClassListed(c, inherited))
  {
    hide Reads, TokensOk, EatHead, EatSide, DefinitionsListed, Whole, InstanceFields, ClassFields;
    var us := EatHead(c, ts).value;
    var vs := EatSide(c.instances, us).value;
    var a := DefinitionsListed(c.instances.methods, InstanceFields(c, inherited));
    HeadRead(c, ts);
    SideRead(c.instances, InstanceFields(c, inherited), us);
    ReadsTokensOk([], ts, us);
    ReadsOn(a, ts, us, vs);
    if c.classes.None? {
      ReadsLast(a, ts, vs);
      assert a + [] == a;
    } else {
      var b := DefinitionsListed(c.classes.value.methods, ClassFields(c, inherited));
      ReadsTokensOk(a, ts, vs);
      TokensLeft(vs);
      SideRead(c.classes.value, ClassFields(c, inherited), vs[1..]);
      ReadsMore(b, vs, EatSide(c.classes.value, vs[1..]).value);
      ReadsThen(a, b, ts, vs, EatSide(c.classes.value, vs[1..]).value);
      ReadsLast(a + b, ts, EatSide(c.classes.value, vs[1..]).value);
      if TokensOk(ts) {
        WholeConcat(a, b);
      }
    }
  }

  // ----- whole programs -----

  function ClassesListed(cs: seq<ClassDef>, inherited: Inherited): Listed {
    if cs == [] then [] else ClassesListed(cs[..|cs| - 1], inherited) + ClassListed(cs[|cs| - 1], inherited)
  }

  /** The tokens of all texts. */
  function AllTokens(texts: seq<Tokens>): Tokens {
    if texts == [] then [] else AllTokens(texts[..|texts| - 1]) + texts[|texts| - 1]
  }

  ghost predicate DistinctIds(ts: Tokens) {
    forall i, j | 0 <= i < j < |ts| :: ts[i].id != ts[j].id
  }

  /** Each text starts with the class definition of the same position. */
  ghost predicate Define(texts: seq<Tokens>, cs: seq<ClassDef>) {
    |texts| == |cs| && forall i | 0 <= i < |cs| :: EatClass(cs[i], texts[i]).Some?
  }

  lemma {:induction false} IdsDistinct(ts: Tokens, x: nat)
    requires DistinctIds(ts)
    ensures Ids(ts)[x] <= 1
  {
    if ts != [] {
      IdsDistinct(ts[1..], x);
      IdsCons(ts);
      assert ts[0].id !in Places(ts[1..]);
    }
  }

  lemma {:induction false} ClassesRead(texts: seq<Tokens>, cs: seq<ClassDef>, inherited: Inherited)
    requires Define(texts, cs) && TokensOk(AllTokens(texts))
    ensures Codes(ClassesListed(cs, inherited)) <= Ids(AllTokens(texts))
    ensures Whole(ClassesListed(cs, inherited)) && BodiesOk(ClassesListed(cs, inherited))
    decreases |cs|
  {
    hide EatClass, ClassListed, Whole, BodyOk, TokenOk;
    if cs != [] {
      var n := |cs| - 1;
      var before, ts, c := AllTokens(texts[..n]), texts[n], cs[n];
      assert forall t | t in before :: t in AllTokens(texts);
      assert forall t | t in ts :: t in AllTokens(texts);
      ClassesRead(texts[..n], cs[..n], inherited);
      ClassRead(c, inherited, ts);
      IdsConcat(before, ts);
      CodesConcat(ClassesListed(cs[..n], inherited), ClassListed(c, inherited));
      WholeConcat(ClassesListed(cs[..n], inherited), ClassListed(c, inherited));
      hide Codes, Ids;
    } else {
      assert Whole([]) by { NothingWhole(); }
    }
  }

  lemma NothingWhole()
    ensures Whole([])
  {
  }

  /** Texts whose tokens have ids of their own list every method and block under an id of its own. */
  lemma TextsUnique(texts: seq<Tokens>, cs: seq<ClassDef>, inherited: Inherited)
    requires Define(texts, cs) && TokensOk(AllTokens(texts)) && DistinctIds(AllTokens(texts))
    ensures Unique(ClassesListed(cs, inherited))
  {
    hide Define, TokensOk, DistinctIds, Codes, Ids, ClassesListed;
    var l := ClassesListed(cs, inherited);
    ClassesRead(texts, cs, inherited);
    forall x
      ensures Codes(l)[x] <= 1
    {
      IdsDistinct(AllTokens(texts), x);
    }
    CodesUnique(l);
  }

  function TableOf(src: Sources): Table {
    map code | code in src :: Entry(Compile(src[code]), src[code].parent)
  }

  /** The program of the listed sources, in a world. */
  function Linked(w: World, l: Listed): Program {
    Program(w, MapOf(l), TableOf(MapOf(l)))
  }

  /** The sizes the byte-wide operands can express, for every method and block. */
  predicate AllWithinLimits(l: Listed) {
    forall e | e in l :: WithinLimits(e.1)
  }

  lemma ListedOk(l: Listed, code: nat, s: Source)
    requires Whole(l) && BodiesOk(l) && Unique(l) && AllWithinLimits(l) && (code, s) in l
    ensures code in MapOf(l) && SourceOk(MapOf(l), code)
  {
    hide BodyBlocks, BlockSource, WithinLimits, BodyOk, Arity, Unique, MapOf;
    var src := MapOf(l);
    MapOfIs(l, code, s);
    assert Rooted(s, l);
    if !IsTop(s) {
      var e :| e in l && InsideOf(s, e);
      MapOfIs(l, e.0, e.1);
    }
    forall b | b in BodyBlocks(s.body)
      ensures b.Block? && b.id in src && src[b.id] == BlockSource(b, s.Cx(), code)
    {
      assert HasBlocks(l, BodyBlocks((code, s).1.body), (code, s).1.Cx(), (code, s).0);
      MapOfIs(l, b.id, BlockSource(b, s.Cx(), code));
    }
  }

  /** Well-formed texts, within limits, make up a program as the main theorems want it. */
  lemma LinkedGood(w: World, l: Listed)
    requires Whole(l) && BodiesOk(l) && Unique(l) && AllWithinLimits(l)
    ensures Good(Linked(w, l))
  {
    hide Whole, BodiesOk, AllWithinLimits, Unique, MapOf, Compile, SourceOk;
    var src := MapOf(l);
    forall code | code in src
      ensures SourceOk(src, code) && EntryOk(Linked(w, l), code)
    {
      MapOfIs(l, code, src[code]);
      ListedOk(l, code, src[code]);
    }
  }

  /** The assembled objects, by id, are the compiled methods of the program. */
  lemma LinkedImages(w: World, l: Listed)
    requires Unique(l)
    ensures var made, t := MapOf(Images(l)), Linked(w, l).t;
            made.Keys == t.Keys && forall code | code in t :: made[code] == Image(t[code].meth)
  {
    hide Unique, MapOf, Compile, Image, Images;
    var made, t := MapOf(Images(l)), Linked(w, l).t;
    ImagesUnique(l);
    forall code
      ensures code in made <==> code in t
      ensures code in t ==> made[code] == Image(t[code].meth)
    {
      if code in t {
        MapOfIs(l, code, MapOf(l)[code]);
        var i :| 0 <= i < |l| && l[i] == (code, MapOf(l)[code]);
        ImagesAt(l, i);
        MapOfIs(Images(l), code, Image(t[code].meth));
      } else if code in made {
        MapOfIs(Images(l), code, made[code]);
        var i :| 0 <= i < |Images(l)| && Images(l)[i] == (code, made[code]);
        ImagesSize(l);
        ImagesAt(l, i);
        MapOfIs(l, code, l[i].1);
        assert false;
      }
    }
  }

  lemma ImagesSize(l: Listed)
    ensures |Images(l)| == |l|
  {
    if l != [] {
      ImagesAt(l, 0);
    }
  }

  // ----- compiling all texts -----

  /** Every class definition is parsed and compiled; what is assembled is collected by id. */
  method CompileAll(texts: seq<Tokens>, inherited: Inherited, ghost cs: seq<ClassDef>)
      returns (o: GenerationContext.Status, methods: map<nat, VMMethod>)
    requires Define(texts, cs)
    ensures o.Done? <==> AllFit(Images(ClassesListed(cs, inherited)))
    ensures o.Done? ==> methods == MapOf(Images(ClassesListed(cs, inherited)))
  {
    hide AllFit, Images, ClassListed, EatClass, MapOf, ClassesListed, MethodsAre;
    var made: Made := [];
    methods := map[];
    NothingCompiled(inherited);
    for i := 0 to |texts|
      invariant made == Images(ClassesListed(cs[..i], inherited)) && AllFit(made)
    {
      CompiledNext(cs, inherited, i);
      var l := new Lexer(texts[i]);
      var g := new ClassGenc();
      o := Classdef(l, g, inherited, cs[i]);
      if o.TooLong? {
        return;
      }
      made := made + l.assembled;
    }
    assert cs[..|texts|] == cs;
    o, methods := GenerationContext.Done, MapOf(made);
  }

  lemma NothingCompiled(inherited: Inherited)
    ensures Images(ClassesListed([], inherited)) == [] && AllFit([])
  {
  }

  lemma CompiledNext(cs: seq<ClassDef>, inherited: Inherited, i: nat)
    requires i < |cs|
    ensures Images(ClassesListed(cs[..i + 1], inherited)) ==
            Images(ClassesListed(cs[..i], inherited)) + Images(ClassListed(cs[i], inherited))
    ensures AllFit(Images(ClassesListed(cs[..i + 1], inherited))) <==>
            AllFit(Images(ClassesListed(cs[..i], inherited))) && AllFit(Images(ClassListed(cs[i], inherited)))
    ensures AllFit(Images(ClassesListed(cs, inherited))) ==> AllFit(Images(ClassesListed(cs[..i + 1], inherited)))
    decreases |cs| - i
  {
    hide AllFit, Images, ClassListed;
    assert cs[..i + 1][..i] == cs[..i];
    ImagesConcat(ClassesListed(cs[..i], inherited), ClassListed(cs[i], inherited));
    AllFitConcat(Images(ClassesListed(cs[..i], inherited)), Images(ClassListed(cs[i], inherited)));
    if i + 1 < |cs| {
      CompiledNext(cs, inherited, i + 1);
    } else {
      assert cs[..i + 1] == cs;
    }
  }
}

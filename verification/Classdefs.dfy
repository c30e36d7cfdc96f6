/** Class definitions (`Parser_classdef`): the fields and methods of the two sides of a class. */
module Classdefs {
  import opened Common
  import opened Syntax
  import opened Bytecodes
  import opened CodeGen
  import opened GenerationContext
  import opened Grammar
  import opened Emission
  import opened Listing
  import opened Parser

  /** What a class declares on its instance side or on its class side. */
  datatype Side = Side(fields: Locals, methods: seq<Definition>)

  datatype ClassDef = ClassDef(name: string, superName: Option<string>, instances: Side, classes: Option<Side>)

  /** The fields that a loaded class has, and those that its class has. */
  type Inherited = string -> (seq<string>, seq<string>)

  // ----- grammar -----

  /** The tokens that start a method pattern. */
  predicate StartsMethod(s: Symbol) {
    s == Identifier || s == Keyword || s == OperatorSequence || IsOpSymbol(s)
  }

  function EatDefinitions(ds: seq<Definition>, ts: Tokens): Option<Tokens>
    decreases |ds|
  {
    if ds == [] then Some(ts)
    else
      var us := EatDefinition(ds[0], ts);
      if us.None? then None else EatDefinitions(ds[1..], us.value)
  }

  /** A bar in front starts the fields, never a method named by it. */
  function EatSide(side: Side, ts: Tokens): Option<Tokens> {
    if side.fields.NoLocals? && Head(ts).sym == Or then None
    else
      var us := EatLocals(side.fields, ts);
      if us.None? then None else EatDefinitions(side.methods, us.value)
  }

  function EatHead(c: ClassDef, ts: Tokens): Option<Tokens> {
    var us := EatText(Identifier, c.name, ts);
    if us.None? then None
    else
      var vs := Eat(Equal, us.value);
      if vs.None? then None
      else
        var ws := if c.superName.None? then vs else EatText(Identifier, c.superName.value, vs.value);
        if ws.None? then None else Eat(NewTerm, ws.value)
  }

  function EatClassSide(side: Option<Side>, ts: Tokens): Option<Tokens> {
    if side.None? then Eat(EndTerm, ts)
    else
      var us := Eat(Separator, ts);
      if us.None? then None
      else
        var vs := EatSide(side.value, us.value);
        if vs.None? then None else Eat(EndTerm, vs.value)
  }

  function EatClass(c: ClassDef, ts: Tokens): Option<Tokens> {
    var us := EatHead(c, ts);
    if us.None? then None
    else
      var vs := EatSide(c.instances, us.value);
      if vs.None? then None else EatClassSide(c.classes, vs.value)
  }

  lemma HeadStep(c: ClassDef, ts: Tokens) returns (us: Tokens)
    requires EatHead(c, ts).Some?
    ensures EatHead(c, ts) == Some(Rest(us)) && Head(us).sym == NewTerm
    ensures Head(ts).sym == Identifier && Head(ts).text == c.name && Head(Rest(ts)).sym == Equal
    ensures Head(Rest(Rest(ts))).sym == Identifier <==> c.superName.Some?
    ensures us == if c.superName.None? then Rest(Rest(ts)) else Rest(Rest(Rest(ts)))
    ensures c.superName.Some? ==> Head(Rest(Rest(ts))).text == c.superName.value
  {
    us := if c.superName.None? then Rest(Rest(ts)) else Rest(Rest(Rest(ts)));
  }

  lemma SideStep(side: Side, ts: Tokens)
    requires EatSide(side, ts).Some?
    ensures Head(ts).sym == Or <==> side.fields.Locals?
    ensures EatLocals(side.fields, ts).Some?
    ensures EatDefinitions(side.methods, EatLocals(side.fields, ts).value) == EatSide(side, ts)
  {
  }

  lemma ClassStep(c: ClassDef, ts: Tokens) returns (us: Tokens, vs: Tokens)
    requires EatClass(c, ts).Some?
    ensures EatHead(c, ts) == Some(us) && EatSide(c.instances, us) == Some(vs)
    ensures EatClassSide(c.classes, vs) == EatClass(c, ts) && Head(vs).sym in {EndTerm, Separator}
  {
    us := EatHead(c, ts).value;
    vs := EatSide(c.instances, us).value;
  }

  lemma DefinitionsStep(ds: seq<Definition>, ts: Tokens)
    requires EatDefinitions(ds, ts).Some? && !StartsMethod(Head(EatDefinitions(ds, ts).value).sym)
    ensures StartsMethod(Head(ts).sym) <==> ds != []
    ensures ds == [] ==> EatDefinitions(ds, ts) == Some(ts)
    ensures ds != [] ==> EatDefinition(ds[0], ts).Some? && Head(ts).id == ds[0].id &&
                         |EatDefinition(ds[0], ts).value| < |ts| &&
                         EatDefinitions(ds[1..], EatDefinition(ds[0], ts).value) == EatDefinitions(ds, ts)
  {
    if ds != [] {
      hide EatBody, EatContents, EatKeyArgs;
      DefinitionShorter(ds[0], ts);
      var _ := DefinitionStep(ds[0], ts);
      PatternKinds(ds[0].pattern, ts);
    }
  }

  lemma {:induction false} KeyArgsShorter(keys: seq<string>, names: seq<string>, ts: Tokens)
    requires EatKeyArgs(keys, names, ts).Some?
    ensures |EatKeyArgs(keys, names, ts).value| <= |ts|
    decreases |keys|
  {
    if keys != [] {
      KeyArgsShorter(keys[1..], names[1..], ts[1..][1..]);
    }
  }

  lemma DefinitionShorter(d: Definition, ts: Tokens)
    requires EatDefinition(d, ts).Some?
    ensures |EatDefinition(d, ts).value| < |ts|
  {
    hide EatBody, EatKeyArgs;
    var us := EatMethodPattern(d.pattern, ts).value;
    if d.pattern.KeywordPattern? {
      KeyArgsShorter(d.pattern.keys, d.pattern.names, ts);
    }
    if !d.primitive {
      var vs := us[1..][1..];
      var ws := EatLocals(d.locals, vs).value;
      if d.locals.Locals? {
        NamesShorter(d.locals.names, vs[1..]);
      }
      BodyShorter(d.body, EndTerm, ws);
    }
  }

  // ----- what a class definition means -----

  /** `superclass`: Object unless another is named. */
  function SuperName(c: ClassDef): string {
    if c.superName.None? then "Object" else c.superName.value
  }

  const CLASS_FIELDS: seq<string> := ["superClass", "name", "instanceFields", "instanceInvokables"]

  function InstanceFields(c: ClassDef, inherited: Inherited): seq<string> {
    (if SuperName(c) == "nil" then [] else inherited(SuperName(c)).0) + c.instances.fields.Names()
  }

  function ClassFields(c: ClassDef, inherited: Inherited): seq<string> {
    (if SuperName(c) == "nil" then CLASS_FIELDS else inherited(SuperName(c)).1) +
    if c.classes.None? then [] else c.classes.value.fields.Names()
  }

  lemma FieldsOf(c: ClassDef, inherited: Inherited)
    ensures SuperName(c) == if c.superName.None? then "Object" else c.superName.value
    ensures InstanceFields(c, inherited) ==
            (if SuperName(c) == "nil" then [] else inherited(SuperName(c)).0) + c.instances.fields.Names()
    ensures var above := if SuperName(c) == "nil" then CLASS_FIELDS else inherited(SuperName(c)).1;
            ClassFields(c, inherited) == if c.classes.None? then above else above + c.classes.value.fields.Names()
  {
    var above := if SuperName(c) == "nil" then CLASS_FIELDS else inherited(SuperName(c)).1;
    assert above + [] == above;
  }

  /** The methods and blocks of definitions, in the order they are assembled; a primitive has none. */
  function DefinitionListed(d: Definition, fields: seq<string>): Listed {
    if d.primitive then []
    else
      var src := DefinitionSource(d, fields);
      BodyListed(src.Cx(), d.body, d.id) + [(d.id, src)]
  }

  function DefinitionsListed(ds: seq<Definition>, fields: seq<string>): Listed
    decreases |ds|
  {
    if ds == [] then [] else DefinitionListed(ds[0], fields) + DefinitionsListed(ds[1..], fields)
  }

  function ClassListed(c: ClassDef, inherited: Inherited): Listed {
    DefinitionsListed(c.instances.methods, InstanceFields(c, inherited)) +
    if c.classes.None? then [] else DefinitionsListed(c.classes.value.methods, ClassFields(c, inherited))
  }

  /** An entry of a class's method list: a primitive is only a name here. */
  function Invokables(ds: seq<Definition>, fields: seq<string>): seq<Option<VMMethod>>
    decreases |ds|
  {
    if ds == [] then []
    else [if ds[0].primitive then None else Some(Image(Compile(DefinitionSource(ds[0], fields))))] +
         Invokables(ds[1..], fields)
  }

  lemma DefinitionImages(d: Definition, fields: seq<string>)
    ensures var src := DefinitionSource(d, fields);
            Images(DefinitionListed(d, fields)) ==
            if d.primitive then [] else DefinitionMade(d, fields) + [(d.id, Image(Compile(src)))]
    ensures AllFit(Images(DefinitionListed(d, fields))) <==>
            d.primitive || (AllFit(DefinitionMade(d, fields)) && Fits(Compile(DefinitionSource(d, fields)).code))
  {
    hide Compile, DefinitionSource, Encode;
    if !d.primitive {
      var src := DefinitionSource(d, fields);
      var own := [(d.id, src)];
      BodyAssembled(src.Cx(), d.body, d.id);
      ImagesConcat(BodyListed(src.Cx(), d.body, d.id), own);
      assert own[1..] == [] && Images(own) == [(d.id, Image(Compile(src)))];
      AllFitConcat(DefinitionMade(d, fields), Images(own));
      assert Images(own)[0].1.bytecodes == Encode(Compile(src).code);
    }
  }

  lemma ClassImages(c: ClassDef, inherited: Inherited)
    ensures var a := Images(DefinitionsListed(c.instances.methods, InstanceFields(c, inherited)));
            if c.classes.None?
            then Images(ClassListed(c, inherited)) == a
            else var b := Images(DefinitionsListed(c.classes.value.methods, ClassFields(c, inherited)));
                 Images(ClassListed(c, inherited)) == a + b &&
                 (AllFit(Images(ClassListed(c, inherited))) <==> AllFit(a) && AllFit(b))
  {
    hide DefinitionsListed, Images, AllFit;
    var a := DefinitionsListed(c.instances.methods, InstanceFields(c, inherited));
    if c.classes.None? {
      assert a + [] == a;
    } else {
      var b := DefinitionsListed(c.classes.value.methods, ClassFields(c, inherited));
      ImagesConcat(a, b);
      AllFitConcat(Images(a), Images(b));
    }
  }

  /** The fields, inherited ones first, written out. */
  lemma FieldsAre(c: ClassDef, inherited: Inherited)
    ensures SuperName(c) == if c.superName.None? then "Object" else c.superName.value
    ensures SuperName(c) != "nil" ==>
              && InstanceFields(c, inherited) == inherited(SuperName(c)).0 + c.instances.fields.Names()
              && ClassFields(c, inherited) ==
                 inherited(SuperName(c)).1 + if c.classes.None? then [] else c.classes.value.fields.Names()
    ensures SuperName(c) == "nil" ==>
              && InstanceFields(c, inherited) == c.instances.fields.Names()
              && ClassFields(c, inherited) == ["superClass", "name", "instanceFields", "instanceInvokables"] +
                                              if c.classes.None? then [] else c.classes.value.fields.Names()
  {
    assert [] + c.instances.fields.Names() == c.instances.fields.Names();
  }

  /** The k-th entry of a method list is the k-th method, compiled. */
  lemma {:induction false} InvokableAt(ds: seq<Definition>, fields: seq<string>, k: nat)
    ensures |Invokables(ds, fields)| == |ds|
    ensures k < |ds| ==>
              Invokables(ds, fields)[k] ==
              if ds[k].primitive then None else Some(Image(Compile(DefinitionSource(ds[k], fields))))
    decreases |ds|
  {
    hide Image, Compile, DefinitionSource;
    if ds != [] {
      InvokableAt(ds[1..], fields, if k == 0 then 0 else k - 1);
    }
  }

  /** A method list holds the methods in their order: a primitive, or the object that is compiled. */
  ghost predicate MethodsAre(methods: seq<Option<VMMethod>>, ds: seq<Definition>, fields: seq<string>) {
    && |methods| == |ds|
    && forall k | 0 <= k < |ds| ::
         methods[k] ==
         if ds[k].primitive then None else Some(Image(Compile(DefinitionSource(ds[k], fields))))
  }

  lemma InvokablesAre(ds: seq<Definition>, fields: seq<string>)
    ensures MethodsAre(Invokables(ds, fields), ds, fields)
  {
    hide Image, Compile, DefinitionSource, Invokables;
    InvokableAt(ds, fields, 0);
    forall k | 0 <= k < |ds|
      ensures Invokables(ds, fields)[k] ==
              if ds[k].primitive then None else Some(Image(Compile(DefinitionSource(ds[k], fields))))
    {
      InvokableAt(ds, fields, k);
    }
  }

  // ----- class generation -----

  /** `class_generation_context`. */
  class ClassGenc {
    var name: string
    var superName: string
    var classSide: bool
    var instanceFields: seq<string>
    var instanceMethods: seq<Option<VMMethod>>
    var classFields: seq<string>
    var classMethods: seq<Option<VMMethod>>

    constructor ()
      ensures !classSide && instanceFields == [] && instanceMethods == [] && classFields == [] && classMethods == []
    {
      name, superName, classSide := "", "", false;
      instanceFields, instanceMethods, classFields, classMethods := [], [], [], [];
    }
  }

  /** `superclass`. */
  method Superclass(l: Lexer, g: ClassGenc, inherited: Inherited)
    modifies l`rest, l`peekDone, g`superName, g`instanceFields, g`classFields
    requires g.instanceFields == [] && g.classFields == []
    ensures g.superName == if old(l.Sym()) == Identifier then old(l.Text()) else "Object"
    ensures l.rest == if old(l.Sym()) == Identifier then Rest(old(l.rest)) else old(l.rest)
    ensures old(l.Sym()) != Identifier ==> l.peekDone == old(l.peekDone)
    ensures old(l.Sym()) == Identifier ==> !l.peekDone
    ensures g.instanceFields == if g.superName == "nil" then [] else inherited(g.superName).0
    ensures g.classFields == if g.superName == "nil" then CLASS_FIELDS else inherited(g.superName).1
    ensures g.superName == "nil" ==>
              g.instanceFields == [] && g.classFields == ["superClass", "name", "instanceFields", "instanceInvokables"]
  {
    if l.Sym() == Identifier {
      g.superName := l.Text();
      var _ := l.Accept(Identifier);
    } else {
      g.superName := "Object";
    }
    if g.superName != "nil" {
      g.instanceFields := g.instanceFields + inherited(g.superName).0;
      g.classFields := g.classFields + inherited(g.superName).1;
    } else {
      g.classFields := g.classFields + CLASS_FIELDS;
    }
  }

  /** `instanceFields` and `classFields`: the names between bars, if the first bar is there. */
  method FieldNames(l: Lexer, ghost fields: Locals) returns (names: seq<string>)
    requires EatLocals(fields, l.rest).Some? && (l.Sym() == Or <==> fields.Locals?)
    modifies l`rest, l`peekDone
    ensures names == fields.Names() && Some(l.rest) == EatLocals(fields, old(l.rest))
    ensures fields.NoLocals? ==> l.peekDone == old(l.peekDone)
    ensures fields.Locals? ==> !l.peekDone
  {
    names := [];
    ghost var ts := l.rest;
    var bar := l.Accept(Or);
    if bar {
      ghost var us := LocalsStep(fields, ts, EatLocals(fields, ts).value);
      ghost var cur := fields.names;
      while l.Sym() == Identifier
        invariant EatNames(cur, l.rest) == Some(us) && names + cur == fields.names && !l.peekDone
        decreases |l.rest|
      {
        NamesStep(cur, l.rest);
        var name := l.ReadVariable();
        names := names + [name];
        cur := cur[1..];
      }
      assert cur == [];
      var _ := l.Expect(Or);
    }
  }

  /** A method, and its object, which is recorded once it is assembled. */
  method MethodDefinition(l: Lexer, fields: seq<string>, ghost d: Definition) returns (o: Status, r: Option<VMMethod>)
    requires EatDefinition(d, l.rest).Some? && Head(l.rest).id == d.id
    modifies l
    ensures o.Done? <==> AllFit(Images(DefinitionListed(d, fields)))
    ensures o.Done? ==> r == if d.primitive then None else Some(Image(Compile(DefinitionSource(d, fields))))
    ensures o.Done? ==> l.assembled == old(l.assembled) + Images(DefinitionListed(d, fields))
    ensures o.Done? ==> Some(l.rest) == EatDefinition(d, old(l.rest))
  {
    hide Fits, AllFit, EatDefinition, DefinitionListed, Images, Compile, DefinitionSource, DefinitionMade;
    DefinitionImages(d, fields);
    var place := Head(l.rest).id;
    o, r := l.Method(fields, d);
    if o.Done? && r.Some? {
      l.assembled := l.assembled + [(place, r.value)];
    }
  }

  /** The first definitions are compiled and the given ones remain. */
  ghost predicate Midway(ds: seq<Definition>, fields: seq<string>, made0: Made, cur: seq<Definition>,
                         methods: seq<Option<VMMethod>>, made: Made) {
    && methods + Invokables(cur, fields) == Invokables(ds, fields)
    && made + Images(DefinitionsListed(cur, fields)) == made0 + Images(DefinitionsListed(ds, fields))
    && (AllFit(Images(DefinitionsListed(cur, fields))) <==> AllFit(Images(DefinitionsListed(ds, fields))))
  }

  lemma MidwayFirst(ds: seq<Definition>, fields: seq<string>, made: Made)
    ensures Midway(ds, fields, made, ds, [], made)
  {
  }

  lemma MidwayNext(ds: seq<Definition>, fields: seq<string>, made0: Made, cur: seq<Definition>,
                   methods: seq<Option<VMMethod>>, made: Made, r: Option<VMMethod>)
    requires Midway(ds, fields, made0, cur, methods, made) && cur != []
    requires r == if cur[0].primitive then None else Some(Image(Compile(DefinitionSource(cur[0], fields))))
    ensures AllFit(Images(DefinitionListed(cur[0], fields))) ==>
              Midway(ds, fields, made0, cur[1..], methods + [r], made + Images(DefinitionListed(cur[0], fields)))
    ensures !AllFit(Images(DefinitionListed(cur[0], fields))) ==> !AllFit(Images(DefinitionsListed(ds, fields)))
  {
    hide AllFit, Images, DefinitionListed, DefinitionsListed, Invokables, Compile, DefinitionSource;
    ListedStep(cur, fields);
    assert (methods + [r]) + Invokables(cur[1..], fields) == methods + ([r] + Invokables(cur[1..], fields));
    var a, b := Images(DefinitionListed(cur[0], fields)), Images(DefinitionsListed(cur[1..], fields));
    assert (made + a) + b == made + (a + b);
  }

  lemma MidwayLast(ds: seq<Definition>, fields: seq<string>, made0: Made, methods: seq<Option<VMMethod>>, made: Made)
    requires Midway(ds, fields, made0, [], methods, made)
    ensures methods == Invokables(ds, fields) && made == made0 + Images(DefinitionsListed(ds, fields))
    ensures AllFit(Images(DefinitionsListed(ds, fields)))
  {
    assert methods + [] == methods && made + [] == made;
  }

  /** The method definitions of one side. */
  method Definitions(l: Lexer, fields: seq<string>, ghost ds: seq<Definition>)
      returns (o: Status, methods: seq<Option<VMMethod>>)
    requires EatDefinitions(ds, l.rest).Some? && !StartsMethod(Head(EatDefinitions(ds, l.rest).value).sym)
    modifies l
    ensures o.Done? <==> AllFit(Images(DefinitionsListed(ds, fields)))
    ensures o.Done? ==> methods == Invokables(ds, fields) && Some(l.rest) == EatDefinitions(ds, old(l.rest))
    ensures o.Done? ==> l.assembled == old(l.assembled) + Images(DefinitionsListed(ds, fields))
  {
    hide Fits, AllFit, EatDefinition, EatDefinitions, DefinitionsListed, DefinitionListed, Invokables, Images, Compile,
      DefinitionSource, DefinitionMade, StartsMethod, Midway;
    methods := [];
    ghost var made0, cur, us := l.assembled, ds, EatDefinitions(ds, l.rest).value;
    MidwayFirst(ds, fields, made0);
    Starts(l.Sym());
    while l.Sym() == Identifier || l.Sym() == Keyword || l.Sym() == OperatorSequence || IsOpSymbol(l.Sym())
      invariant EatDefinitions(cur, l.rest) == Some(us) && Midway(ds, fields, made0, cur, methods, l.assembled)
      invariant StartsMethod(l.Sym()) <==>
                l.Sym() == Identifier || l.Sym() == Keyword || l.Sym() == OperatorSequence || IsOpSymbol(l.Sym())
      decreases |l.rest|
    {
      DefinitionsStep(cur, l.rest);
      ghost var made, first := l.assembled, cur[0];
      var r: Option<VMMethod>;
      o, r := MethodDefinition(l, fields, first);
      MidwayNext(ds, fields, made0, cur, methods, made,
                 if first.primitive then None else Some(Image(Compile(DefinitionSource(first, fields)))));
      if o.TooLong? {
        return;
      }
      methods := methods + [r];
      cur := cur[1..];
      Starts(l.Sym());
    }
    DefinitionsStep(cur, l.rest);
    MidwayLast(ds, fields, made0, methods, l.assembled);
    o := Done;
  }

  lemma Starts(s: Symbol)
    ensures StartsMethod(s) <==> s == Identifier || s == Keyword || s == OperatorSequence || IsOpSymbol(s)
  {
  }

  lemma NothingListed(fields: seq<string>)
    ensures Images(DefinitionsListed([], fields)) == [] && Invokables([], fields) == [] && AllFit([])
  {
  }

  lemma ListedStep(ds: seq<Definition>, fields: seq<string>)
    requires ds != []
    ensures Images(DefinitionsListed(ds, fields)) ==
            Images(DefinitionListed(ds[0], fields)) + Images(DefinitionsListed(ds[1..], fields))
    ensures AllFit(Images(DefinitionsListed(ds, fields))) <==>
            AllFit(Images(DefinitionListed(ds[0], fields))) && AllFit(Images(DefinitionsListed(ds[1..], fields)))
    ensures Invokables(ds, fields) ==
            [if ds[0].primitive then None else Some(Image(Compile(DefinitionSource(ds[0], fields))))] +
            Invokables(ds[1..], fields)
  {
    ImagesConcat(DefinitionListed(ds[0], fields), DefinitionsListed(ds[1..], fields));
    AllFitConcat(Images(DefinitionListed(ds[0], fields)), Images(DefinitionsListed(ds[1..], fields)));
  }

  /** The fields of one side, after those of the superclass, and its methods. */
  method Members(l: Lexer, above: seq<string>, ghost side: Side)
      returns (o: Status, fields: seq<string>, methods: seq<Option<VMMethod>>)
    requires EatSide(side, l.rest).Some? && !StartsMethod(Head(EatSide(side, l.rest).value).sym)
    modifies l
    ensures fields == above + side.fields.Names()
    ensures o.Done? <==> AllFit(Images(DefinitionsListed(side.methods, fields)))
    ensures o.Done? ==> methods == Invokables(side.methods, fields) && Some(l.rest) == EatSide(side, old(l.rest))
    ensures o.Done? ==> l.assembled == old(l.assembled) + Images(DefinitionsListed(side.methods, fields))
  {
    hide AllFit, EatSide, EatDefinitions, EatLocals, DefinitionsListed, Invokables, Images, StartsMethod;
    SideStep(side, l.rest);
    var names := FieldNames(l, side.fields);
    fields := above + names;
    o, methods := Definitions(l, fields, side.methods);
  }

  /** The name and the superclass. */
  method ClassHead(l: Lexer, g: ClassGenc, inherited: Inherited, ghost c: ClassDef)
    requires EatHead(c, l.rest).Some? && g.instanceFields == [] && g.classFields == []
    modifies l`rest, l`peekDone, g`name, g`superName, g`instanceFields, g`classFields
    ensures g.name == c.name && g.superName == SuperName(c) && Some(l.rest) == EatHead(c, old(l.rest))
    ensures g.instanceFields + c.instances.fields.Names() == InstanceFields(c, inherited)
    ensures (if c.classes.None? then g.classFields else g.classFields + c.classes.value.fields.Names()) ==
            ClassFields(c, inherited)
  {
    hide EatHead;
    ghost var us := HeadStep(c, l.rest);
    FieldsOf(c, inherited);
    g.name := l.Text();
    var _ := l.Expect(Identifier);
    var _ := l.Expect(Equal);
    Superclass(l, g, inherited);
    var _ := l.Expect(NewTerm);
  }

  /** `Parser_classdef`: both sides are compiled, each with its own fields. */
  method Classdef(l: Lexer, g: ClassGenc, inherited: Inherited, ghost c: ClassDef) returns (o: Status)
    requires EatClass(c, l.rest).Some?
    requires !g.classSide && g.instanceFields == [] && g.instanceMethods == [] && g.classFields == [] &&
             g.classMethods == []
    modifies l, g
    ensures o.Done? <==> AllFit(Images(ClassListed(c, inherited)))
    ensures o.Done? ==> Some(l.rest) == EatClass(c, old(l.rest))
    ensures o.Done? ==> l.assembled == old(l.assembled) + Images(ClassListed(c, inherited))
    ensures o.Done? ==> g.name == c.name && g.classSide == c.classes.Some?
    ensures o.Done? ==> g.superName == if c.superName.None? then "Object" else c.superName.value
    ensures o.Done? && g.superName != "nil" ==>
              && g.instanceFields == inherited(g.superName).0 + c.instances.fields.Names()
              && g.classFields ==
                 inherited(g.superName).1 + if c.classes.None? then [] else c.classes.value.fields.Names()
    ensures o.Done? && g.superName == "nil" ==>
              && g.instanceFields == c.instances.fields.Names()
              && g.classFields == ["superClass", "name", "instanceFields", "instanceInvokables"] +
                                  if c.classes.None? then [] else c.classes.value.fields.Names()
    ensures o.Done? ==> MethodsAre(g.instanceMethods, c.instances.methods, g.instanceFields)
    ensures o.Done? ==> if c.classes.None? then g.classMethods == []
                        else MethodsAre(g.classMethods, c.classes.value.methods, g.classFields)
  {
    hide AllFit, EatClass, Invokables, Images, ClassListed, MethodsAre, InstanceFields, ClassFields, SuperName;
    o := Sides(l, g, inherited, c);
    FieldsAre(c, inherited);
    InvokablesAre(c.instances.methods, InstanceFields(c, inherited));
    if c.classes.Some? {
      InvokablesAre(c.classes.value.methods, ClassFields(c, inherited));
    }
  }

  /** The head, the instance side and the class side, in turn. */
  method Sides(l: Lexer, g: ClassGenc, inherited: Inherited, ghost c: ClassDef) returns (o: Status)
    requires EatClass(c, l.rest).Some?
    requires !g.classSide && g.instanceFields == [] && g.instanceMethods == [] && g.classFields == [] &&
             g.classMethods == []
    modifies l, g
    ensures o.Done? <==> AllFit(Images(ClassListed(c, inherited)))
    ensures o.Done? ==> Some(l.rest) == EatClass(c, old(l.rest))
    ensures o.Done? ==> l.assembled == old(l.assembled) + Images(ClassListed(c, inherited))
    ensures o.Done? ==> g.name == c.name && g.superName == SuperName(c) && g.classSide == c.classes.Some?
    ensures o.Done? ==> g.instanceFields == InstanceFields(c, inherited) && g.classFields == ClassFields(c, inherited)
    ensures o.Done? ==> g.instanceMethods == Invokables(c.instances.methods, InstanceFields(c, inherited))
    ensures o.Done? ==> g.classMethods ==
                        if c.classes.None? then [] else Invokables(c.classes.value.methods, ClassFields(c, inherited))
  {
    hide AllFit, EatHead, EatSide, EatClass, EatClassSide, DefinitionsListed, Invokables, Images, ClassListed,
      InstanceFields, ClassFields, SuperName, StartsMethod;
    Starts(EndTerm);
    Starts(Separator);
    ghost var us, vs := ClassStep(c, l.rest);
    ClassImages(c, inherited);
    ClassHead(l, g, inherited, c);
    o := InstanceSide(l, g, c.instances, InstanceFields(c, inherited));
    if o.Done? {
      o := ClassSide(l, g, c.classes, ClassFields(c, inherited));
    }
  }

  method InstanceSide(l: Lexer, g: ClassGenc, ghost side: Side, ghost fields: seq<string>) returns (o: Status)
    requires EatSide(side, l.rest).Some? && !StartsMethod(Head(EatSide(side, l.rest).value).sym)
    requires g.instanceFields + side.fields.Names() == fields
    modifies l, g`instanceFields, g`instanceMethods
    ensures o.Done? <==> AllFit(Images(DefinitionsListed(side.methods, fields)))
    ensures o.Done? ==> Some(l.rest) == EatSide(side, old(l.rest))
    ensures o.Done? ==> l.assembled == old(l.assembled) + Images(DefinitionsListed(side.methods, fields))
    ensures o.Done? ==> g.instanceFields == fields && g.instanceMethods == Invokables(side.methods, fields)
  {
    hide AllFit, EatSide, DefinitionsListed, Invokables, Images, StartsMethod;
    o, g.instanceFields, g.instanceMethods := Members(l, g.instanceFields, side);
  }

  /** The class side after the separator, if there is one, and the end of the definition. */
  method ClassSide(l: Lexer, g: ClassGenc, ghost side: Option<Side>, ghost fields: seq<string>) returns (o: Status)
    requires EatClassSide(side, l.rest).Some? && !g.classSide && g.classMethods == []
    requires fields == if side.None? then g.classFields else g.classFields + side.value.fields.Names()
    modifies l, g`classSide, g`classFields, g`classMethods
    ensures o.Done? <==> side.None? || AllFit(Images(DefinitionsListed(side.value.methods, fields)))
    ensures o.Done? ==> Some(l.rest) == EatClassSide(side, old(l.rest))
    ensures o.Done? ==>
              l.assembled ==
              old(l.assembled) + if side.None? then [] else Images(DefinitionsListed(side.value.methods, fields))
    ensures o.Done? ==> g.classSide == side.Some? && g.classFields == fields
    ensures o.Done? ==> g.classMethods == if side.None? then [] else Invokables(side.value.methods, fields)
  {
    hide AllFit, EatSide, DefinitionsListed, Invokables, Images, StartsMethod;
    Starts(EndTerm);
    o := Done;
    var separated := l.Accept(Separator);
    if separated {
      g.classSide := true;
      o, g.classFields, g.classMethods := Members(l, g.classFields, side.value);
      if o.TooLong? {
        return;
      }
    }
    var _ := l.Expect(EndTerm);
  }
}

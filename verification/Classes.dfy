/** Classes and their instances (VMClass.c, VMObject.c): methods and fields looked up along the
    superclass chain. */
module Classes {
  import opened Common

  // ----- lists of names -----

  /** The greatest index of a name, or -1. */
  ghost function LastIndexOf(s: seq<string>, name: string): (i: int)
    ensures i == -1 <==> name !in s
    ensures i != -1 ==> 0 <= i < |s| && s[i] == name && name !in s[i + 1..]
  {
    if s == [] then -1
    else if s[|s| - 1] == name then |s| - 1
    else
      assert s == s[..|s| - 1] + [s[|s| - 1]];
      var i := LastIndexOf(s[..|s| - 1], name);
      assert i != -1 ==> s[i + 1..] == s[..|s| - 1][i + 1..] + [s[|s| - 1]];
      i
  }

  class VMInvokable {
    const signature: string
    var holder: VMClass?

    constructor (signature: string)
      ensures this.signature == signature && holder == null
    {
      this.signature, holder := signature, null;
    }
  }

  /** The first invokable with a signature. */
  ghost function Nearest(s: seq<VMInvokable>, signature: string): Option<VMInvokable> {
    if s == [] then None
    else if s[0].signature == signature then Some(s[0])
    else Nearest(s[1..], signature)
  }

  ghost predicate Defines(s: seq<VMInvokable>, signature: string) {
    exists i :: 0 <= i < |s| && s[i].signature == signature
  }

  lemma {:induction false} NearestConcat(a: seq<VMInvokable>, b: seq<VMInvokable>, signature: string)
    ensures Nearest(a + b, signature) ==
            if Nearest(a, signature).Some? then Nearest(a, signature) else Nearest(b, signature)
    decreases |a|
  {
    if a == [] {
      assert a + b == b;
    } else {
      assert (a + b)[1..] == a[1..] + b;
      NearestConcat(a[1..], b, signature);
    }
  }

  lemma {:induction false} NearestAt(s: seq<VMInvokable>, i: nat)
    requires i < |s| && forall j | 0 <= j < i :: s[j].signature != s[i].signature
    ensures Nearest(s, s[i].signature) == Some(s[i])
    decreases i
  {
    if i > 0 {
      NearestAt(s[1..], i - 1);
    }
  }

  lemma {:induction false} NearestNone(s: seq<VMInvokable>, signature: string)
    requires forall j | 0 <= j < |s| :: s[j].signature != signature
    ensures Nearest(s, signature) == None
    decreases |s|
  {
    if s != [] {
      NearestNone(s[1..], signature);
    }
  }

  /** Replacing the first definition of a signature changes the lookup of that signature alone. */
  lemma {:induction false} NearestReplaced(s: seq<VMInvokable>, i: nat, x: VMInvokable, signature: string)
    requires i < |s| && x.signature == s[i].signature && forall j | 0 <= j < i :: s[j].signature != x.signature
    ensures Nearest(s[i := x], signature) == if signature == x.signature then Some(x) else Nearest(s, signature)
    decreases i
  {
    if i > 0 {
      assert s[i := x][1..] == s[1..][i - 1 := x];
      NearestReplaced(s[1..], i - 1, x, signature);
    } else {
      assert s[i := x][1..] == s[1..];
    }
  }

  // ----- classes -----

  class VMClass {
    const superClass: VMClass?
    const instanceFields: seq<string>
    var instanceInvokables: seq<VMInvokable>
    ghost const Chain: set<VMClass>

    ghost predicate Valid()
      decreases Chain
    {
      && this in Chain
      && (superClass != null ==>
            superClass.Chain < Chain && this !in superClass.Chain && superClass.Valid())
    }

    /** A class with the given fields and methods, on top of another: each method is told its holder. */
    constructor (superClass: VMClass?, fields: seq<string>, invokables: seq<VMInvokable>)
      requires superClass != null ==> superClass.Valid()
      modifies (set x | x in invokables)`holder
      ensures Valid() && this.superClass == superClass && instanceFields == fields && instanceInvokables == invokables
      ensures forall x | x in invokables :: x.holder == this
    {
      this.superClass, instanceFields, instanceInvokables := superClass, fields, invokables;
      Chain := {this} + if superClass == null then {} else superClass.Chain;
      new;
      for i := 0 to |invokables|
        invariant instanceInvokables == invokables && forall j | 0 <= j < i :: invokables[j].holder == this
      {
        invokables[i].holder := this;
      }
    }

    /** All fields of an instance: those of the superclasses come first. */
    ghost function Fields(): seq<string>
      requires Valid()
      decreases Chain
    {
      (if superClass == null then [] else superClass.Fields()) + instanceFields
    }

    /** All methods an instance understands, the nearest first. */
    ghost function Invokables(): seq<VMInvokable>
      requires Valid()
      reads Chain
      decreases Chain
    {
      instanceInvokables + if superClass == null then [] else superClass.Invokables()
    }

    /** Nearest definition first: the class's own methods, then those of its superclass. */
    method LookupInvokable(signature: string) returns (r: VMInvokable?)
      requires Valid()
      ensures r == null <==> Nearest(Invokables(), signature) == None
      ensures r != null ==> Nearest(Invokables(), signature) == Some(r) && r.signature == signature
      ensures forall i | 0 <= i < |instanceInvokables| && instanceInvokables[i].signature == signature &&
                (forall j | 0 <= j < i :: instanceInvokables[j].signature != signature) :: r == instanceInvokables[i]
      ensures (forall i | 0 <= i < |instanceInvokables| :: instanceInvokables[i].signature != signature) ==>
                if superClass == null then r == null
                else Nearest(superClass.Invokables(), signature) == if r == null then None else Some(r)
      decreases Chain
    {
      NearestConcat(instanceInvokables, if superClass == null then [] else superClass.Invokables(), signature);
      for i := 0 to |instanceInvokables|
        invariant forall j | 0 <= j < i :: instanceInvokables[j].signature != signature
      {
        if instanceInvokables[i].signature == signature {
          NearestAt(instanceInvokables, i);
          return instanceInvokables[i];
        }
      }
      NearestNone(instanceInvokables, signature);
      if superClass != null {
        r := superClass.LookupInvokable(signature);
      } else {
        r := null;
      }
    }

    /** Replaces the method with this signature, or appends the method; only a replacing method is
        told its holder. */
    method AddInstanceInvokable(value: VMInvokable) returns (appended: bool)
      requires Valid()
      modifies this`instanceInvokables, value`holder
      ensures Valid()
      ensures appended <==> !Defines(old(instanceInvokables), value.signature)
      ensures forall s: string :: Nearest(Invokables(), s)
                == if s == value.signature then Some(value) else old(Nearest(Invokables(), s))
      ensures |instanceInvokables| == |old(instanceInvokables)| + if appended then 1 else 0
      ensures value.holder == if appended then old(value.holder) else this
    {
      ghost var own, rest := instanceInvokables, if superClass == null then [] else superClass.Invokables();
      for i := 0 to |instanceInvokables|
        invariant forall j | 0 <= j < i :: instanceInvokables[j].signature != value.signature
        invariant instanceInvokables == own && value.holder == old(value.holder)
      {
        if instanceInvokables[i].signature == value.signature {
          value.holder := this;
          instanceInvokables := instanceInvokables[i := value];
          forall s: string
            ensures Nearest(instanceInvokables + rest, s) ==
                      if s == value.signature then Some(value) else Nearest(own + rest, s)
          {
            NearestReplaced(own, i, value, s);
            NearestConcat(own, rest, s);
            NearestConcat(instanceInvokables, rest, s);
          }
          return false;
        }
      }
      instanceInvokables := instanceInvokables + [value];
      NearestNone(own, value.signature);
      forall s: string
        ensures Nearest(instanceInvokables + rest, s) ==
                  if s == value.signature then Some(value) else Nearest(own + rest, s)
      {
        NearestConcat(own, [value], s);
        NearestConcat(own, rest, s);
        NearestConcat(instanceInvokables, rest, s);
      }
      return true;
    }

    // ----- fields -----

    /** All fields, in order: those of the superclass at the same places, then the class's own. */
    lemma FieldsAre()
      requires Valid()
      ensures superClass == null ==> Fields() == instanceFields
      ensures superClass != null ==>
                && |Fields()| == |superClass.Fields()| + |instanceFields|
                && (forall k | 0 <= k < |superClass.Fields()| :: Fields()[k] == superClass.Fields()[k])
                && forall k | 0 <= k < |instanceFields| :: Fields()[|superClass.Fields()| + k] == instanceFields[k]
    {
    }

    function NumberOfSuperInstanceFields(): (n: nat)
      requires Valid()
      ensures n == |Fields()| - |instanceFields|
      decreases Chain, 0
    {
      if superClass != null then superClass.NumberOfInstanceFields() else 0
    }

    function NumberOfInstanceFields(): (n: nat)
      requires Valid()
      ensures n == |Fields()|
      decreases Chain, 1
    {
      |instanceFields| + NumberOfSuperInstanceFields()
    }

    /** The name of a field; the array access exits on an index that is too large. */
    function GetInstanceFieldName(index: nat): (r: Option<string>)
      requires Valid()
      ensures r == if index < |Fields()| then Some(Fields()[index]) else None
      ensures NumberOfSuperInstanceFields() <= index < NumberOfInstanceFields() ==>
                r == Some(instanceFields[index - NumberOfSuperInstanceFields()])
      ensures index >= NumberOfInstanceFields() ==> r == None
      decreases Chain
    {
      if index >= NumberOfSuperInstanceFields() then
        var i := index - NumberOfSuperInstanceFields();
        if i < |instanceFields| then Some(instanceFields[i]) else None
      else
        superClass.GetInstanceFieldName(index)
    }

    /** The greatest index of the name among all fields. */
    method LookupFieldIndex(fieldName: string) returns (r: int)
      requires Valid()
      ensures r == LastIndexOf(Fields(), fieldName)
    {
      var i: int := NumberOfInstanceFields() - 1;
      while i >= 0
        invariant -1 <= i < |Fields()| && fieldName !in Fields()[i + 1..]
        decreases i
      {
        if GetInstanceFieldName(i) == Some(fieldName) {
          LastIndexIs(Fields(), fieldName, i);
          return i;
        }
        assert Fields()[i..] == [Fields()[i]] + Fields()[i + 1..];
        i := i - 1;
      }
      assert Fields()[0..] == Fields();
      return -1;
    }

    /** This class is the other one, or inherits from it. */
    ghost predicate Inherits(c: VMClass)
      requires Valid()
      decreases Chain
    {
      this == c || (superClass != null && superClass.Inherits(c))
    }

    /** A subclass has the fields of its superclass, at the same places. */
    lemma FieldsInherited(c: VMClass)
      requires Valid() && c.Valid() && Inherits(c)
      ensures c.Fields() <= Fields()
      decreases Chain
    {
      if this != c {
        superClass.FieldsInherited(c);
      }
    }

    /** The compiler starts a class's field list with that of its superclass, so that names of
        superclasses occur again in `Fields`. */
    ghost predicate Compiled()
      requires Valid()
      decreases Chain
    {
      superClass != null ==> superClass.instanceFields <= instanceFields && superClass.Compiled()
    }

    /** The compiler takes a name for a field exactly when instances have such a field. */
    lemma FindFieldIsExact(name: string)
      requires Valid() && Compiled()
      ensures IndexOf(instanceFields, name) != -1 <==> LastIndexOf(Fields(), name) != -1
      decreases Chain
    {
      if superClass != null {
        superClass.FindFieldIsExact(name);
        assert forall i | 0 <= i < |superClass.instanceFields| :: instanceFields[i] == superClass.instanceFields[i];
      }
    }

    /** A name the compiler resolved as a field of class c, whose field list holds the names of its
        superclass and its own, is found in bounds in every instance of c and of its subclasses. */
    lemma ResolvedFieldInBounds(c: VMClass, name: string)
      requires Valid() && c.Valid() && Inherits(c) && IndexOf(c.instanceFields, name) != -1
      ensures 0 <= LastIndexOf(Fields(), name) < NumberOfInstanceFields()
      ensures GetInstanceFieldName(LastIndexOf(Fields(), name)) == Some(name)
    {
      FieldsInherited(c);
      assert forall i | 0 <= i < |c.instanceFields| ::
             c.Fields()[|c.Fields()| - |c.instanceFields| + i] == c.instanceFields[i];
    }
  }

  lemma LastIndexIs(s: seq<string>, name: string, i: nat)
    requires i < |s| && s[i] == name && name !in s[i + 1..]
    ensures LastIndexOf(s, name) == i
  {
    var k := LastIndexOf(s, name);
    assert forall j | i < j < |s| :: s[i + 1..][j - i - 1] == s[j];
    assert forall j | k < j < |s| :: s[k + 1..][j - k - 1] == s[j];
  }

  // ----- instances -----

  class VMObject<Value> {
    const class_: VMClass
    const fields: array<Value>

    ghost predicate Valid() {
      class_.Valid() && fields.Length == class_.NumberOfInstanceFields()
    }

    /** What field-reading bytecodes see under a name. */
    ghost function Named(name: string): Value
      requires Valid() && name in class_.Fields()
      reads fields
    {
      fields[LastIndexOf(class_.Fields(), name)]
    }

    constructor (class_: VMClass, nil: Value)
      requires class_.Valid()
      ensures Valid() && this.class_ == class_ && fresh(fields)
      ensures forall name | name in class_.Fields() :: Named(name) == nil
    {
      this.class_ := class_;
      fields := new Value[class_.NumberOfInstanceFields()](_ => nil);
    }

    /** `get_field_index` and `get_field`. */
    method GetNamed(name: string) returns (v: Value)
      requires Valid() && name in class_.Fields()
      ensures v == Named(name)
    {
      var index := class_.LookupFieldIndex(name);
      v := fields[index];
    }

    /** `get_field_index` and `set_field`: changes what is seen under this name alone. */
    method SetNamed(name: string, v: Value)
      requires Valid() && name in class_.Fields()
      modifies fields
      ensures Valid()
      ensures forall n | n in class_.Fields() :: Named(n) == if n == name then v else old(Named(n))
    {
      var index := class_.LookupFieldIndex(name);
      fields[index] := v;
    }
  }
}

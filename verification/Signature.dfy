/** Selectors and their arities (Signature.c, and the selectors the VM builds itself). */
module Signature {

  /** The characters that start a binary selector. */
  const OPERATORS: string := "~&|*/@+-=><,%\\"

  predicate IsBinary(sig: string) {
    |sig| >= 1 && sig[0] in OPERATORS
  }

  function Colons(s: string): nat {
    if s == [] then 0 else (if s[0] == ':' then 1 else 0) + Colons(s[1..])
  }

  /** The number of arguments of a message with this selector, the receiver included. */
  function Arity(sig: string): nat {
    if IsBinary(sig) then 2 else Colons(sig) + 1
  }

  lemma {:induction false} ColonsConcat(s: string, t: string)
    ensures Colons(s + t) == Colons(s) + Colons(t)
  {
    if s == [] {
      assert s + t == t;
    } else {
      ColonsConcat(s[1..], t);
      assert (s + t)[1..] == s[1..] + t;
    }
  }

  /** The arity, told of characters: two if the first one is an operator, and else one more than there are
      colons. */
  lemma ArityIs(sig: string)
    ensures Arity(sig) ==
            if sig != "" && (sig[0] == '~' || sig[0] == '&' || sig[0] == '|' || sig[0] == '*' || sig[0] == '/' ||
                             sig[0] == '@' || sig[0] == '+' || sig[0] == '-' || sig[0] == '=' || sig[0] == '>' ||
                             sig[0] == '<' || sig[0] == ',' || sig[0] == '%' || sig[0] == '\\')
            then 2 else multiset(sig)[':'] + 1
  {
    ColonsCounted(sig);
    if sig != "" {
      OperatorsAre(sig[0]);
    }
  }

  lemma OperatorsAre(c: char)
    ensures c in OPERATORS <==>
              c == '~' || c == '&' || c == '|' || c == '*' || c == '/' || c == '@' || c == '+' || c == '-' ||
              c == '=' || c == '>' || c == '<' || c == ',' || c == '%' || c == '\\'
  {
    var all := OPERATORS;
    assert all[0] == '~' && all[1] == '&' && all[2] == '|' && all[3] == '*' && all[4] == '/' && all[5] == '@';
    assert all[6] == '+' && all[7] == '-' && all[8] == '=' && all[9] == '>' && all[10] == '<' && all[11] == ',';
    assert all[12] == '%' && all[13] == '\\' && |all| == 14;
  }

  lemma {:induction false} ColonsCounted(s: string)
    ensures Colons(s) == multiset(s)[':']
  {
    if s != [] {
      ColonsCounted(s[1..]);
      assert s == [s[0]] + s[1..];
    }
  }

  /** The counting loop of `Signature_get_number_of_arguments`. */
  method NumberOfArguments(sig: string) returns (n: nat)
    ensures n == Arity(sig)
    ensures n == if sig != "" && sig[0] in {'~', '&', '|', '*', '/', '@', '+', '-', '=', '>', '<', ',', '%', '\\'}
                 then 2 else multiset(sig)[':'] + 1
  {
    ArityIs(sig);
    if IsBinary(sig) {
      return 2;
    }
    var colons := 0;
    var i := 0;
    while i < |sig|
      invariant 0 <= i <= |sig|
      invariant colons == Colons(sig[..i])
    {
      ColonsConcat(sig[..i], [sig[i]]);
      assert sig[..i + 1] == sig[..i] + [sig[i]];
      if sig[i] == ':' {
        colons := colons + 1;
      }
      i := i + 1;
    }
    assert sig[..i] == sig;
    return colons + 1;
  }

  // ----- selectors as the lexer delivers them -----

  predicate IsLetter(c: char) {
    'a' <= c <= 'z' || 'A' <= c <= 'Z'
  }

  /** An identifier starts with a letter and holds no colon. */
  predicate IsIdentifier(s: string) {
    |s| > 0 && IsLetter(s[0]) && Colons(s) == 0
  }

  /** A keyword is an identifier and one colon. */
  predicate IsKeyword(s: string) {
    |s| > 1 && IsIdentifier(s[..|s| - 1]) && s[|s| - 1] == ':'
  }

  predicate IsOperator(s: string) {
    IsBinary(s)
  }

  lemma KeywordColons(s: string)
    requires IsKeyword(s)
    ensures Colons(s) == 1 && IsLetter(s[0])
  {
    var id := s[..|s| - 1];
    assert s == id + ":";
    ColonsConcat(id, ":");
  }

  lemma LetterIsNoOperator(c: char)
    requires IsLetter(c)
    ensures c !in OPERATORS
  {
    assert forall i | 0 <= i < |OPERATORS| :: !IsLetter(OPERATORS[i]);
  }

  lemma UnaryArity(sel: string)
    requires IsIdentifier(sel)
    ensures Arity(sel) == 1
  {
    LetterIsNoOperator(sel[0]);
  }

  /** The selector of a keyword message is the concatenation of its keywords. */
  function Concat(parts: seq<string>): string {
    if parts == [] then "" else parts[0] + Concat(parts[1..])
  }

  /** The parts stand in their order. */
  lemma {:induction false} ConcatParts(a: seq<string>, b: seq<string>)
    ensures Concat(a + b) == Concat(a) + Concat(b)
    decreases |a|
  {
    if a == [] {
      assert a + b == b;
    } else {
      assert (a + b)[1..] == a[1..] + b && (a + b)[0] == a[0];
      ConcatParts(a[1..], b);
    }
  }

  lemma ConcatFirst(parts: seq<string>)
    requires parts != []
    ensures Concat(parts) == parts[0] + Concat(parts[1..])
  {
  }

  /** Part i stands behind the parts before it. */
  lemma ConcatAt(parts: seq<string>, i: nat)
    requires i < |parts|
    ensures Concat(parts) == Concat(parts[..i]) + parts[i] + Concat(parts[i + 1..])
  {
    hide Concat;
    var a, b := parts[..i], parts[i..];
    ConcatParts(a, b);
    ConcatFirst(b);
    assert parts == a + b && b[1..] == parts[i + 1..] && b[0] == parts[i];
    assert (Concat(a) + b[0]) + Concat(b[1..]) == Concat(a) + (b[0] + Concat(b[1..]));
  }

  lemma {:induction false} ConcatColons(parts: seq<string>)
    requires forall p | p in parts :: IsKeyword(p)
    ensures Colons(Concat(parts)) == |parts|
    ensures parts != [] ==> |Concat(parts)| > 0 && IsLetter(Concat(parts)[0])
  {
    if parts != [] {
      ConcatColons(parts[1..]);
      ColonsConcat(parts[0], Concat(parts[1..]));
      KeywordColons(parts[0]);
    }
  }

  /** A message of n keywords has n arguments and a receiver. */
  lemma KeywordArity(parts: seq<string>)
    requires parts != [] && forall p | p in parts :: IsKeyword(p)
    ensures Arity(Concat(parts)) == |parts| + 1
  {
    ConcatColons(parts);
    LetterIsNoOperator(Concat(parts)[0]);
  }

  function Repeat(s: string, n: nat): string {
    if n == 0 then "" else s + Repeat(s, n - 1)
  }

  lemma {:induction false} RepeatColons(s: string, n: nat)
    ensures Colons(Repeat(s, n)) == n * Colons(s)
  {
    if n > 0 {
      RepeatColons(s, n - 1);
      ColonsConcat(s, Repeat(s, n - 1));
    }
  }

  const BLOCK_METHOD: string := "$block method"

  /** The signature generated for a block with `argc` arguments, the block itself included. */
  function BlockSignature(argc: nat): string
    requires argc >= 1
  {
    BLOCK_METHOD + Repeat(":", argc - 1)
  }

  /** `$block method`, and a colon for every argument but the block itself. */
  lemma {:induction false} BlockSignatureIs(argc: nat)
    requires argc >= 1
    ensures var sig := BlockSignature(argc);
            && |sig| == 12 + argc && sig[..13] == "$block method"
            && forall i | 13 <= i < |sig| :: sig[i] == ':'
    decreases argc
  {
    if argc > 1 {
      BlockSignatureIs(argc - 1);
      RepeatSnoc(":", argc - 2);
      assert BlockSignature(argc) == BlockSignature(argc - 1) + ":";
    }
  }

  lemma BlockSignatureArity(argc: nat)
    requires argc >= 1
    ensures Arity(BlockSignature(argc)) == argc
  {
    BlockMethodHasNoColon();
    BlockIsNoOperator();
    ColonRun(argc - 1);
    ArityOfConcat(BLOCK_METHOD, Repeat(":", argc - 1));
  }

  lemma ArityOfConcat(prefix: string, rest: string)
    requires |prefix| > 0 && prefix[0] !in OPERATORS
    ensures Arity(prefix + rest) == Colons(prefix) + Colons(rest) + 1
  {
    ColonsConcat(prefix, rest);
    assert (prefix + rest)[0] == prefix[0];
  }

  lemma ColonRun(n: nat)
    ensures Colons(Repeat(":", n)) == n
  {
    RepeatColons(":", n);
    SingleColon();
  }

  lemma BlockMethodHasNoColon()
    ensures Colons(BLOCK_METHOD) == 0
  {
    NoColons(BLOCK_METHOD);
  }

  lemma BlockIsNoOperator()
    ensures |BLOCK_METHOD| > 0 && BLOCK_METHOD[0] !in OPERATORS
  {
    assert forall i | 0 <= i < |OPERATORS| :: OPERATORS[i] != '$';
  }

  lemma SingleColon()
    ensures Colons(":") == 1
  {
  }

  lemma {:induction false} NoColons(s: string)
    requires ':' !in s
    ensures Colons(s) == 0
  {
    if s != [] {
      NoColons(s[1..]);
    }
  }

  /** The selector under which the evaluation primitive for `argc` arguments is found. */
  function ValueSelector(argc: nat): string
    requires argc >= 1
  {
    if argc == 1 then "value" else "value:" + Repeat("with:", argc - 2)
  }

  lemma ValueSelectorArity(argc: nat)
    requires argc >= 1
    ensures Arity(ValueSelector(argc)) == argc
  {
    assert ValueSelector(argc)[0] == 'v';
    LetterIsNoOperator('v');
    if argc == 1 {
      NoColons("value");
    } else {
      ColonsConcat("value:", Repeat("with:", argc - 2));
      RepeatColons("with:", argc - 2);
      ColonsConcat("value", ":");
      NoColons("value");
      ColonsConcat("with", ":");
      NoColons("with");
      assert "value:" == "value" + ":" && "with:" == "with" + ":";
      SingleColon();
    }
  }

  lemma {:induction false} RepeatSnoc(s: string, n: nat)
    ensures Repeat(s, n) + s == Repeat(s, n + 1)
  {
    if n > 0 {
      RepeatSnoc(s, n - 1);
      assert Repeat(s, n) + s == s + (Repeat(s, n - 1) + s);
    }
  }

  /** `value`, or `value:` and a `with:` for every further argument. */
  lemma {:induction false} ValueSelectorIs(argc: nat)
    requires argc >= 1
    ensures ValueSelector(1) == "value"
    ensures argc >= 2 ==>
              var sig := ValueSelector(argc);
              && |sig| == 6 + 5 * (argc - 2) && sig[..6] == "value:"
              && forall k | 0 <= k < argc - 2 :: sig[6 + 5 * k..11 + 5 * k] == "with:"
    decreases argc
  {
    if argc > 2 {
      ValueSelectorIs(argc - 1);
      RepeatSnoc("with:", argc - 3);
      var sig, shorter := ValueSelector(argc), ValueSelector(argc - 1);
      assert sig == shorter + "with:";
      forall k | 0 <= k < argc - 2
        ensures sig[6 + 5 * k..11 + 5 * k] == "with:"
      {
        if k < argc - 3 {
          assert sig[6 + 5 * k..11 + 5 * k] == shorter[6 + 5 * k..11 + 5 * k];
        }
      }
    }
  }

  /** The `strcat` loop of `compute_signature_string`. */
  method ComputeSignatureString(argc0: nat) returns (sig: string)
    requires argc0 >= 1
    ensures sig == ValueSelector(argc0)
  {
    var argc: int := argc0;
    if argc == 1 {
      return "value";
    }
    sig := "value:";
    argc := argc - 1;
    argc := argc - 1;
    ghost var k := 0;
    while argc != 0
      invariant 0 <= argc && k == argc0 - 2 - argc
      invariant sig == "value:" + Repeat("with:", k)
      decreases argc
    {
      RepeatSnoc("with:", k);
      assert sig + "with:" == "value:" + (Repeat("with:", k) + "with:");
      sig := sig + "with:";
      k := k + 1;
      argc := argc - 1;
    }
  }
}

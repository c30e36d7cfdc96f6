/** The generation context of a method or block (GenerationContexts.c), the emitters that append to
    its bytecode (BytecodeGeneration.c), and the assembly of its method object (VMMethod.c). */
module GenerationContext {
  import opened Common
  import opened Bytecodes
  import opened Signature
  import opened StackDepth
  import opened CodeGen

  const GEN_BC_SIZE: nat := 1024

  /** `Universe_error_exit` ends the run: "Method is too long". */
  datatype Status = Done | TooLong

  /** A method object: its constants and its bytes. */
  datatype VMMethod = VMMethod(signature: string, numberOfLocals: nat, maximumStack: nat,
                               literals: seq<Value>, bytecodes: seq<byte>)

  /** How the method object stores a compiled method. */
  function Image(m: Method): VMMethod {
    VMMethod(m.signature, m.locals, m.maxStack, m.literals, Encode(m.code))
  }

  predicate Fits(code: seq<Instr>) {
    |Encode(code)| <= GEN_BC_SIZE
  }

  /** Longer code does not fit where its beginning does not. */
  lemma FitsPrefix(a: seq<Instr>, b: seq<Instr>)
    ensures Fits(a + b) ==> Fits(a)
  {
    EncodeConcat(a, b);
  }

  class MethodGenc {
    const outer: MethodGenc?
    const blockMethod: bool
    const fields: seq<string>
    const bytecode: array<byte>
    var signature: string
    var arguments: seq<string>
    var locals: seq<string>
    var literals: seq<Value>
    var finished: bool
    var bp: nat
    ghost var code: seq<Instr>
    ghost const Chain: set<MethodGenc>

    /** The enclosing contexts are others than this one. */
    ghost predicate ChainOk()
      decreases Chain
    {
      && this in Chain
      && (outer != null ==> outer.Chain < Chain && this !in outer.Chain && outer.ChainOk())
    }

    /** The bytes written so far are the encoding of the code emitted so far. */
    ghost predicate Valid()
      reads this`bp, this`code, bytecode
    {
      && ChainOk() && bytecode.Length == GEN_BC_SIZE
      && bp <= GEN_BC_SIZE && bytecode[..bp] == Encode(code)
    }

    ghost function Scopes(): (s: seq<Scope>)
      requires ChainOk()
      reads Chain`arguments, Chain`locals
      ensures |s| > 0 && s[0] == Scope(arguments, locals)
      ensures s[1..] == if outer == null then [] else outer.Scopes()
      decreases Chain
    {
      [Scope(arguments, locals)] + if outer == null then [] else outer.Scopes()
    }

    ghost function Cx(): Context
      requires ChainOk()
      reads Chain`arguments, Chain`locals
    {
      Context(fields, Scopes())
    }

    /** `method_genc_init`, with the fields that the parser sets at once. */
    constructor (outer: MethodGenc?, blockMethod: bool, fields: seq<string>)
      requires outer != null ==> outer.ChainOk()
      ensures Valid() && fresh(bytecode) && this.outer == outer && this.blockMethod == blockMethod &&
              this.fields == fields
      ensures arguments == [] && locals == [] && literals == [] && code == [] && bp == 0 && !finished && signature == ""
    {
      this.outer, this.blockMethod, this.fields := outer, blockMethod, fields;
      signature, arguments, locals, literals, finished, bp := "", [], [], [], false, 0;
      bytecode := new byte[GEN_BC_SIZE](_ => 0);
      code := [];
      Chain := {this} + if outer == null then {} else outer.Chain;
    }

    predicate HasBytecodes()
      reads this`bp
    {
      bp != 0
    }

    // ----- emitters -----

    method Emit1(bc: byte, ghost i: Instr) returns (o: Status)
      requires Valid() && EncodeInstr(i) == [bc]
      modifies this`bp, this`code, bytecode
      ensures o.Done? <==> Fits(old(code) + [i])
      ensures o.Done? <==> |Encode(old(code) + [i])| <= 1024
      ensures o.Done? ==> Valid() && code == old(code) + [i]
    {
      EncodeOne(code, i);
      if bp + 1 > GEN_BC_SIZE {
        return TooLong;
      }
      bytecode[bp] := bc;
      bp := bp + 1;
      code := code + [i];
      return Done;
    }

    method Emit2(bc: byte, idx: byte, ghost i: Instr) returns (o: Status)
      requires Valid() && EncodeInstr(i) == [bc, idx]
      modifies this`bp, this`code, bytecode
      ensures o.Done? <==> Fits(old(code) + [i])
      ensures o.Done? <==> |Encode(old(code) + [i])| <= 1024
      ensures o.Done? ==> Valid() && code == old(code) + [i]
    {
      EncodeOne(code, i);
      if bp + 2 > GEN_BC_SIZE {
        return TooLong;
      }
      bytecode[bp] := bc;
      bytecode[bp + 1] := idx;
      bp := bp + 2;
      code := code + [i];
      return Done;
    }

    method Emit3(bc: byte, idx: byte, ctx: byte, ghost i: Instr) returns (o: Status)
      requires Valid() && EncodeInstr(i) == [bc, idx, ctx]
      modifies this`bp, this`code, bytecode
      ensures o.Done? <==> Fits(old(code) + [i])
      ensures o.Done? <==> |Encode(old(code) + [i])| <= 1024
      ensures o.Done? ==> Valid() && code == old(code) + [i]
    {
      EncodeOne(code, i);
      if bp + 3 > GEN_BC_SIZE {
        return TooLong;
      }
      bytecode[bp] := bc;
      bytecode[bp + 1] := idx;
      bytecode[bp + 2] := ctx;
      bp := bp + 3;
      code := code + [i];
      return Done;
    }

    /** `literals.indexOf`, stored in a byte. */
    method LiteralOperand(v: Value) returns (idx: byte)
      ensures idx == LitIndex(literals, v)
    {
      idx := ToByte(IndexOf(literals, v));
    }

    /** `method_genc_find_literal_index` narrows to `int8_t` first; the stored byte is the same. */
    method FindLiteralIndex(v: Value) returns (idx: int)
      ensures ToByte(idx) == LitIndex(literals, v) && -128 <= idx < 128
    {
      idx := (IndexOf(literals, v) + 128) % 256 - 128;
    }

    method EmitDup() returns (o: Status)
      requires Valid()
      modifies this`bp, this`code, bytecode
      ensures o.Done? <==> Fits(old(code) + [Dup])
      ensures o.Done? ==> Valid() && code == old(code) + [Dup]
    {
      o := Emit1(1, Dup);
    }

    method EmitPop() returns (o: Status)
      requires Valid()
      modifies this`bp, this`code, bytecode
      ensures o.Done? <==> Fits(old(code) + [Pop])
      ensures o.Done? ==> Valid() && code == old(code) + [Pop]
    {
      o := Emit1(8, Pop);
    }

    method EmitReturnLocal() returns (o: Status)
      requires Valid()
      modifies this`bp, this`code, bytecode
      ensures o.Done? <==> Fits(old(code) + [ReturnLocal])
      ensures o.Done? ==> Valid() && code == old(code) + [ReturnLocal]
    {
      o := Emit1(14, ReturnLocal);
    }

    method EmitReturnNonLocal() returns (o: Status)
      requires Valid()
      modifies this`bp, this`code, bytecode
      ensures o.Done? <==> Fits(old(code) + [ReturnNonLocal])
      ensures o.Done? ==> Valid() && code == old(code) + [ReturnNonLocal]
    {
      o := Emit1(15, ReturnNonLocal);
    }

    method EmitPushLocal(idx: nat, ctx: nat) returns (o: Status)
      requires Valid()
      modifies this`bp, this`code, bytecode
      ensures o.Done? <==> Fits(old(code) + [PushLocal(ToByte(idx), ToByte(ctx))])
      ensures o.Done? ==> Valid() && code == old(code) + [PushLocal(ToByte(idx), ToByte(ctx))]
    {
      o := Emit3(2, ToByte(idx), ToByte(ctx), PushLocal(ToByte(idx), ToByte(ctx)));
    }

    method EmitPushArgument(idx: nat, ctx: nat) returns (o: Status)
      requires Valid()
      modifies this`bp, this`code, bytecode
      ensures o.Done? <==> Fits(old(code) + [PushArgument(ToByte(idx), ToByte(ctx))])
      ensures o.Done? ==> Valid() && code == old(code) + [PushArgument(ToByte(idx), ToByte(ctx))]
    {
      o := Emit3(3, ToByte(idx), ToByte(ctx), PushArgument(ToByte(idx), ToByte(ctx)));
    }

    method EmitPopLocal(idx: nat, ctx: nat) returns (o: Status)
      requires Valid()
      modifies this`bp, this`code, bytecode
      ensures o.Done? <==> Fits(old(code) + [PopLocal(ToByte(idx), ToByte(ctx))])
      ensures o.Done? ==> Valid() && code == old(code) + [PopLocal(ToByte(idx), ToByte(ctx))]
    {
      o := Emit3(9, ToByte(idx), ToByte(ctx), PopLocal(ToByte(idx), ToByte(ctx)));
    }

    method EmitPopArgument(idx: nat, ctx: nat) returns (o: Status)
      requires Valid()
      modifies this`bp, this`code, bytecode
      ensures o.Done? <==> Fits(old(code) + [PopArgument(ToByte(idx), ToByte(ctx))])
      ensures o.Done? ==> Valid() && code == old(code) + [PopArgument(ToByte(idx), ToByte(ctx))]
    {
      o := Emit3(10, ToByte(idx), ToByte(ctx), PopArgument(ToByte(idx), ToByte(ctx)));
    }

    method EmitPushField(field: Value) returns (o: Status)
      requires Valid()
      modifies this`bp, this`code, bytecode
      ensures o.Done? <==> Fits(old(code) + [PushField(LitIndex(literals, field))])
      ensures o.Done? ==> Valid() && code == old(code) + [PushField(LitIndex(literals, field))]
    {
      var idx := LiteralOperand(field);
      o := Emit2(4, idx, PushField(idx));
    }

    method EmitPushBlock(block: Value) returns (o: Status)
      requires Valid()
      modifies this`bp, this`code, bytecode
      ensures o.Done? <==> Fits(old(code) + [PushBlock(LitIndex(literals, block))])
      ensures o.Done? ==> Valid() && code == old(code) + [PushBlock(LitIndex(literals, block))]
    {
      var idx := LiteralOperand(block);
      o := Emit2(5, idx, PushBlock(idx));
    }

    method EmitPushConstant(cst: Value) returns (o: Status)
      requires Valid()
      modifies this`bp, this`code, bytecode
      ensures o.Done? <==> Fits(old(code) + [PushConstant(LitIndex(literals, cst))])
      ensures o.Done? ==> Valid() && code == old(code) + [PushConstant(LitIndex(literals, cst))]
    {
      var idx := LiteralOperand(cst);
      o := Emit2(6, idx, PushConstant(idx));
    }

    method EmitPushGlobal(global: Value) returns (o: Status)
      requires Valid()
      modifies this`bp, this`code, bytecode
      ensures o.Done? <==> Fits(old(code) + [PushGlobal(LitIndex(literals, global))])
      ensures o.Done? ==> Valid() && code == old(code) + [PushGlobal(LitIndex(literals, global))]
    {
      var idx := LiteralOperand(global);
      o := Emit2(7, idx, PushGlobal(idx));
    }

    method EmitPopField(field: Value) returns (o: Status)
      requires Valid()
      modifies this`bp, this`code, bytecode
      ensures o.Done? <==> Fits(old(code) + [PopField(LitIndex(literals, field))])
      ensures o.Done? ==> Valid() && code == old(code) + [PopField(LitIndex(literals, field))]
    {
      var idx := LiteralOperand(field);
      o := Emit2(11, idx, PopField(idx));
    }

    /** `emit_SEND` and `emit_SUPER_SEND`. */
    method EmitMessage(sel: string, toSuper: bool) returns (o: Status)
      requires Valid()
      modifies this`bp, this`code, bytecode
      ensures o.Done? <==> Fits(old(code) + [Message(sel, toSuper, literals)])
      ensures o.Done? ==> Valid() && code == old(code) + [Message(sel, toSuper, literals)]
    {
      var index := FindLiteralIndex(SymV(sel));
      var idx := ToByte(index);
      if toSuper {
        o := Emit2(13, idx, SuperSend(idx));
      } else {
        o := Emit2(12, idx, Send(idx));
      }
    }

    /** Takes the last byte back: the instruction, when it is one byte long. */
    method Elide()
      requires Valid() && |code| > 0 && code[|code| - 1] == Pop
      modifies this`bp, this`code
      ensures Valid() && code == old(code)[..|old(code)| - 1]
    {
      assert code == code[..|code| - 1] + [Pop];
      EncodeOne(code[..|code| - 1], Pop);
      code := code[..|code| - 1];
      bp := bp - 1;
    }

    // ----- names -----

    /** `method_genc_find_var`: locals before arguments, this context before the surrounding ones. */
    method FindVar(name: string, context0: nat) returns (found: bool, index: nat, context: nat, isArgument: bool)
      requires ChainOk()
      ensures found <==> CodeGen.FindVar(Scopes(), name).Some?
      ensures found ==> context >= context0 &&
                        CodeGen.FindVar(Scopes(), name) == Some(Slot(isArgument, index, context - context0))
      decreases Chain
    {
      hide IndexOf, CodeGen.FindVar;
      FindVarStep(Scopes(), name, if outer == null then [] else outer.Scopes());
      context, isArgument := context0, false;
      var i := IndexOf(locals, name);
      if i == -1 {
        i := IndexOf(arguments, name);
        if i == -1 {
          if outer == null {
            return false, 0, context, false;
          }
          found, index, context, isArgument := outer.FindVar(name, context + 1);
          return;
        }
        isArgument := true;
      }
      return true, i, context, isArgument;
    }

    method FindField(field: string) returns (found: bool)
      ensures found <==> field in fields
    {
      found := IndexOf(fields, field) != -1;
    }

    // ----- stack depth -----

    /** One scan over the bytes, in `uint8_t` arithmetic. */
    method ComputeStackDepth() returns (maxDepth: byte)
      requires Valid()
      ensures maxDepth == Scan(code, literals, 0, 0)
    {
      hide Scan, Offset, Encode, Effect, Selector, Arity, ChainOk, EncodeInstr, Decode, ToByte;
      var depth: byte := 0;
      maxDepth := 0;
      var i := 0;
      ghost var k: nat := 0;
      ScanStart(code);
      while i < bp
        invariant 0 <= k <= |code| && i == Offset(code, k) && bytecode[..bp] == Encode(code) && i <= bp
        invariant Scan(code[k..], literals, depth, maxDepth) == Scan(code, literals, 0, 0)
        decreases bp - i
      {
        OffsetInside(code, k);
        DecodeAtOffset(code, k);
        EffectByOpcode(code[k], literals);
        ScanStep(code, k, literals, depth, maxDepth);
        WrappedDepth(depth, 0);
        assert bytecode[i] == Encode(code)[i];
        var bc := bytecode[i];
        if 1 <= bc <= 7 {
          depth := ToByte(depth + 1);
        } else if 8 <= bc <= 11 {
          depth := ToByte(depth - 1);
        } else if 12 <= bc <= 13 {
          OperandAt(code, k);
          assert bytecode[i + 1] == Encode(code)[i + 1];
          var sig := Selector(literals, bytecode[i + 1]);
          var n := NumberOfArguments(sig);
          WrappedDepth(depth, n);
          depth := ToByte(depth - n);
          depth := ToByte(depth + 1);
        }
        i := i + BYTECODE_LENGTHS[bc];
        if depth > maxDepth {
          maxDepth := depth;
        }
        k := k + 1;
      }
      OffsetEnd(code, k);
      ScanEnd(code, literals, depth, maxDepth);
    }

    /** `VMMethod_assemble`: copies literals and bytes into the method object. */
    method Assemble() returns (m: VMMethod)
      requires Valid()
      ensures m == VMMethod(signature, |locals|, Scan(code, literals, 0, 0), literals, Encode(code))
    {
      var depth := ComputeStackDepth();
      var lits := [];
      for i := 0 to |literals|
        invariant lits == literals[..i]
      {
        lits := lits + [literals[i]];
      }
      var bytes := new byte[bp];
      for i := 0 to bp
        invariant bytes[..i] == bytecode[..i] && bytecode[..bp] == Encode(code)
      {
        bytes[i] := bytecode[i];
      }
      m := VMMethod(signature, |locals|, depth, lits, bytes[..]);
    }
  }

  /** The rest of the search, in the surrounding contexts. */
  lemma FindVarStep(scopes: seq<Scope>, name: string, around: seq<Scope>)
    requires scopes != [] && scopes[1..] == around
    ensures CodeGen.FindVar(scopes, name) ==
            if IndexOf(scopes[0].locals, name) != -1 then Some(Slot(false, IndexOf(scopes[0].locals, name), 0))
            else if IndexOf(scopes[0].args, name) != -1 then Some(Slot(true, IndexOf(scopes[0].args, name), 0))
            else if CodeGen.FindVar(around, name) == None then None
            else
              var s := CodeGen.FindVar(around, name).value;
              Some(Slot(s.isArgument, s.index, s.level + 1))
    ensures CodeGen.FindVar([], name) == None
    ensures IndexOf(scopes[0].locals, name) >= -1 && IndexOf(scopes[0].args, name) >= -1
  {
  }

  lemma EncodeOne(code: seq<Instr>, i: Instr)
    ensures Encode(code + [i]) == Encode(code) + EncodeInstr(i)
  {
    EncodeConcat(code, [i]);
    assert [i][1..] == [];
    assert Encode([i]) == EncodeInstr(i) + Encode([]);
  }

  lemma ScanStart(code: seq<Instr>)
    ensures code[0..] == code && Offset(code, 0) == 0
  {
  }

  lemma ScanEnd(code: seq<Instr>, lits: seq<Value>, depth: byte, max: byte)
    ensures Scan(code[|code|..], lits, depth, max) == max
  {
  }

  lemma ScanStep(code: seq<Instr>, k: nat, lits: seq<Value>, depth: byte, max: byte)
    requires k < |code|
    ensures var d := ToByte(depth + Effect(code[k], lits));
            Scan(code[k..], lits, depth, max) == Scan(code[k + 1..], lits, d, if d > max then d else max)
  {
    assert code[k..][1..] == code[k + 1..];
  }

  /** The cases of the scan. */
  lemma EffectByOpcode(i: Instr, lits: seq<Value>)
    ensures Opcode(i) < 16
    ensures 1 <= Opcode(i) <= 7 ==> Effect(i, lits) == 1
    ensures 8 <= Opcode(i) <= 11 ==> Effect(i, lits) == -1
    ensures 12 <= Opcode(i) <= 13 <==> i.Send? || i.SuperSend?
    ensures 12 <= Opcode(i) <= 13 ==> Effect(i, lits) == 1 - Arity(Selector(lits, i.lit))
    ensures Opcode(i) in {0, 14, 15} ==> Effect(i, lits) == 0
  {
  }

  /** An offset before the end is that of an instruction. */
  /** The two adjustments at a send wrap around as one. */
  lemma WrappedDepth(depth: byte, n: nat)
    ensures ToByte(depth) == depth
    ensures ToByte(ToByte(depth - n) + 1) == ToByte(depth + (1 - n))
  {
  }

  lemma OffsetInside(code: seq<Instr>, k: nat)
    requires k <= |code| && Offset(code, k) < |Encode(code)|
    ensures k < |code|
  {
    assert code[..|code|] == code;
  }

  lemma OffsetEnd(code: seq<Instr>, k: nat)
    requires k <= |code| && Offset(code, k) >= |Encode(code)|
    ensures k == |code|
  {
    if k < |code| {
      DecodeAtOffset(code, k);
    }
  }

  /** The byte after a message opcode is its operand. */
  lemma OperandAt(code: seq<Instr>, k: nat)
    requires k < |code| && (code[k].Send? || code[k].SuperSend?)
    ensures Offset(code, k) + 1 < |Encode(code)|
    ensures Encode(code)[Offset(code, k) + 1] == code[k].lit
  {
    DecodeAtOffset(code, k);
  }
}

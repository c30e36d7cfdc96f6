/** The instruction set (bytecodes.h), values, and the byte encoding of instructions. */
module Bytecodes {
  import opened Common
  import opened Syntax

  /** Object pointers. `Closure` is a block object: the method it runs and the frame it was made in;
      `ListV` is a literal array. */
  datatype Value =
    | Oop(address: int)
    | SymV(name: string)
    | ConstV(id: nat, lit: Literal)
    | ListV(id: nat, elements: seq<Value>)
    | CodeV(code: nat)
    | Closure(code: nat, home: nat)
    | ArrayV(made: nat)

  datatype Instr =
    | Halt
    | Dup
    | PushLocal(index: byte, level: byte)
    | PushArgument(index: byte, level: byte)
    | PushField(lit: byte)
    | PushBlock(lit: byte)
    | PushConstant(lit: byte)
    | PushGlobal(lit: byte)
    | Pop
    | PopLocal(index: byte, level: byte)
    | PopArgument(index: byte, level: byte)
    | PopField(lit: byte)
    | Send(lit: byte)
    | SuperSend(lit: byte)
    | ReturnLocal
    | ReturnNonLocal

  function Opcode(i: Instr): byte {
    match i
    case Halt => 0
    case Dup => 1
    case PushLocal(_, _) => 2
    case PushArgument(_, _) => 3
    case PushField(_) => 4
    case PushBlock(_) => 5
    case PushConstant(_) => 6
    case PushGlobal(_) => 7
    case Pop => 8
    case PopLocal(_, _) => 9
    case PopArgument(_, _) => 10
    case PopField(_) => 11
    case Send(_) => 12
    case SuperSend(_) => 13
    case ReturnLocal => 14
    case ReturnNonLocal => 15
  }

  /** The table `bytecode_lengths`. */
  const BYTECODE_LENGTHS: seq<nat> := [1, 1, 3, 3, 2, 2, 2, 2, 1, 3, 3, 2, 2, 2, 1, 1]

  function EncodeInstr(i: Instr): (b: seq<byte>)
    ensures |b| == BYTECODE_LENGTHS[Opcode(i)] && b[0] == Opcode(i)
  {
    match i
    case PushLocal(x, l) => [2, x, l]
    case PushArgument(x, l) => [3, x, l]
    case PopLocal(x, l) => [9, x, l]
    case PopArgument(x, l) => [10, x, l]
    case PushField(k) => [4, k]
    case PushBlock(k) => [5, k]
    case PushConstant(k) => [6, k]
    case PushGlobal(k) => [7, k]
    case PopField(k) => [11, k]
    case Send(k) => [12, k]
    case SuperSend(k) => [13, k]
    case Halt => [0]
    case Dup => [1]
    case Pop => [8]
    case ReturnLocal => [14]
    case ReturnNonLocal => [15]
  }

  function Encode(code: seq<Instr>): (b: seq<byte>)
    ensures |b| >= |code|
  {
    if code == [] then [] else EncodeInstr(code[0]) + Encode(code[1..])
  }

  /** The byte offset of instruction k. */
  function Offset(code: seq<Instr>, k: nat): (o: nat)
    requires k <= |code|
  {
    |Encode(code[..k])|
  }

  lemma {:induction false} EncodeConcat(a: seq<Instr>, b: seq<Instr>)
    ensures Encode(a + b) == Encode(a) + Encode(b)
  {
    if a == [] {
      assert a + b == b;
    } else {
      assert (a + b)[1..] == a[1..] + b;
      EncodeConcat(a[1..], b);
    }
  }

  /** The instruction whose encoding starts at offset `pc`, if there is one. */
  function Decode(b: seq<byte>, pc: nat): Option<Instr>
  {
    if pc >= |b| || b[pc] >= 16 || pc + BYTECODE_LENGTHS[b[pc]] > |b| then None
    else if b[pc] == 0 then Some(Halt)
    else if b[pc] == 1 then Some(Dup)
    else if b[pc] == 2 then Some(PushLocal(b[pc + 1], b[pc + 2]))
    else if b[pc] == 3 then Some(PushArgument(b[pc + 1], b[pc + 2]))
    else if b[pc] == 4 then Some(PushField(b[pc + 1]))
    else if b[pc] == 5 then Some(PushBlock(b[pc + 1]))
    else if b[pc] == 6 then Some(PushConstant(b[pc + 1]))
    else if b[pc] == 7 then Some(PushGlobal(b[pc + 1]))
    else if b[pc] == 8 then Some(Pop)
    else if b[pc] == 9 then Some(PopLocal(b[pc + 1], b[pc + 2]))
    else if b[pc] == 10 then Some(PopArgument(b[pc + 1], b[pc + 2]))
    else if b[pc] == 11 then Some(PopField(b[pc + 1]))
    else if b[pc] == 12 then Some(Send(b[pc + 1]))
    else if b[pc] == 13 then Some(SuperSend(b[pc + 1]))
    else if b[pc] == 14 then Some(ReturnLocal)
    else Some(ReturnNonLocal)
  }

  lemma DecodeInstr(i: Instr, rest: seq<byte>)
    ensures Decode(EncodeInstr(i) + rest, 0) == Some(i)
  {
    var b := EncodeInstr(i) + rest;
    assert b[0] == Opcode(i);
  }

  lemma DecodeShift(pre: seq<byte>, b: seq<byte>)
    ensures Decode(pre + b, |pre|) == Decode(b, 0)
  {
    var s, n := pre + b, |pre|;
    assert |b| > 0 ==> s[n] == b[0];
    assert |b| > 1 ==> s[n + 1] == b[1];
    assert |b| > 2 ==> s[n + 2] == b[2];
  }

  /** Fetching at the offset of instruction k finds instruction k, and stepping over its length
      lands on the next boundary. */
  lemma DecodeAtOffset(code: seq<Instr>, k: nat)
    requires k < |code|
    ensures Decode(Encode(code), Offset(code, k)) == Some(code[k])
    ensures Offset(code, k) < |Encode(code)|
    ensures Encode(code)[Offset(code, k)] == Opcode(code[k])
    ensures Offset(code, k + 1) == Offset(code, k) + BYTECODE_LENGTHS[Opcode(code[k])]
    ensures Offset(code, k + 1) <= |Encode(code)|
  {
    hide Encode, EncodeInstr, Decode;
    EncodeAt(code, k);
    var tail := EncodeInstr(code[k]) + Encode(code[k + 1..]);
    DecodeShift(Encode(code[..k]), tail);
    DecodeInstr(code[k], Encode(code[k + 1..]));
  }

  /** Where instruction k stands among the bytes. */
  lemma EncodeAt(code: seq<Instr>, k: nat)
    requires k < |code|
    ensures Encode(code) == Encode(code[..k]) + (EncodeInstr(code[k]) + Encode(code[k + 1..]))
    ensures Encode(code[..k + 1]) == Encode(code[..k]) + EncodeInstr(code[k])
  {
    hide Encode, EncodeInstr;
    var a, b := code[..k], code[k + 1..];
    SplitCode(code, k);
    EncodeConcat(a, [code[k]] + b);
    EncodeCons(code[k], b);
    EncodeConcat(a, [code[k]]);
    EncodeCons(code[k], []);
    assert [code[k]] + [] == [code[k]];
    assert EncodeInstr(code[k]) + Encode([]) == EncodeInstr(code[k]) by {
      EncodeNothing();
    }
  }

  lemma SplitCode(code: seq<Instr>, k: nat)
    requires k < |code|
    ensures code == code[..k] + ([code[k]] + code[k + 1..]) && code[..k + 1] == code[..k] + [code[k]]
  {
  }

  lemma EncodeCons(i: Instr, b: seq<Instr>)
    ensures Encode([i] + b) == EncodeInstr(i) + Encode(b)
  {
    hide EncodeInstr;
    assert ([i] + b)[1..] == b;
  }

  lemma EncodeNothing()
    ensures Encode([]) == []
  {
  }

  /** The bytes of instruction k. */
  lemma BytesAt(code: seq<Instr>, k: nat)
    requires k < |code|
    ensures Offset(code, k) + |EncodeInstr(code[k])| <= |Encode(code)|
    ensures forall j | 0 <= j < |EncodeInstr(code[k])| :: Encode(code)[Offset(code, k) + j] == EncodeInstr(code[k])[j]
  {
    hide Encode, EncodeInstr;
    EncodeAt(code, k);
  }
}

/** Frames as they lie in memory (VMFrame.c): arguments, locals and operands share one array of slots,
    told apart by the stack pointer and the offset of the locals. */
module Frames {
  import opened Common
  import opened Bytecodes
  import opened Signature
  import opened GenerationContext
  import opened Machine

  lemma StartOffset(instrs: seq<Instr>)
    ensures Offset(instrs, 0) == 0
  {
    assert instrs[..0] == [];
  }

  lemma NilsAre(s: seq<Value>)
    requires forall i | 0 <= i < |s| :: s[i] == Nil
    ensures s == Nils(|s|)
  {
  }

  class VMFrame {
    const code: nat
    const methodObject: VMMethod
    const context: VMFrame?
    const slots: array<Value>
    var previous: VMFrame?
    var localOffset: nat
    var stackPointer: int
    var bytecodeIndex: nat
    ghost const num: nat
    ghost const instrs: seq<Instr>
    ghost var pc: nat

    /** The stored `number_of_arguments` of the method. */
    function ArgumentCount(): nat {
      Arity(methodObject.signature)
    }

    function Base(): nat {
      ArgumentCount() + methodObject.numberOfLocals
    }

    /** Slots are allotted, operands lie above arguments and locals, and the bytecode index is at the
        start of instruction `pc`. */
    ghost predicate Ok()
      reads this`localOffset, this`stackPointer, this`bytecodeIndex, this`pc
    {
      && slots.Length == Base() + methodObject.maximumStack + 3 && localOffset == ArgumentCount()
      && Base() - 1 <= stackPointer < slots.Length
      && methodObject.bytecodes == Encode(instrs) && pc <= |instrs| && bytecodeIndex == Offset(instrs, pc)
      && ContextsOk()
    }

    /** Contexts are older frames. */
    ghost predicate ContextsOk()
      decreases num
    {
      context != null ==> context.num < num && context.ContextsOk()
    }

    ghost function Args(): seq<Value>
      requires Ok()
      reads this`localOffset, this`stackPointer, this`bytecodeIndex, this`pc, slots
    {
      slots[..ArgumentCount()]
    }

    ghost function Locals(): seq<Value>
      requires Ok()
      reads this`localOffset, this`stackPointer, this`bytecodeIndex, this`pc, slots
    {
      slots[ArgumentCount()..Base()]
    }

    ghost function Operands(): seq<Value>
      requires Ok()
      reads this`localOffset, this`stackPointer, this`bytecodeIndex, this`pc, slots
    {
      slots[Base()..stackPointer + 1]
    }

    /** The frame as the machine of module Machine sees it. */
    ghost function Abs(): Frame
      requires Ok()
      reads this, slots
    {
      Frame(code, if context == null then None else Some(context.num),
            if previous == null then None else Some(previous.num), Args(), Locals(), Operands(), pc)
    }

    /** `Universe_new_frame`: room for arguments, locals, the computed depth, and three more. */
    constructor (code: nat, m: VMMethod, context: VMFrame?, previous: VMFrame?, ghost num: nat,
                 ghost instrs: seq<Instr>)
      requires m.bytecodes == Encode(instrs) && (context != null ==> context.num < num && context.ContextsOk())
      ensures Ok() && fresh(slots) && this.num == num && this.instrs == instrs
      ensures this.code == code && this.methodObject == m && this.context == context && this.previous == previous
      ensures Args() == Nils(Arity(m.signature)) && Locals() == Nils(m.numberOfLocals) && Operands() == [] && pc == 0
      ensures slots.Length == Arity(m.signature) + m.numberOfLocals + m.maximumStack + 3
    {
      this.code, this.methodObject, this.context, this.previous := code, m, context, previous;
      var length := Arity(m.signature) + m.numberOfLocals + m.maximumStack + 3;
      slots := new Value[length](_ => Nil);
      localOffset, stackPointer, bytecodeIndex := 0, 0, 0;
      this.num, this.instrs, this.pc := num, instrs, 0;
      new;
      hide Encode, Arity, Nils;
      ResetStackPointer();
      bytecodeIndex := 0;
      StartOffset(instrs);
      hide Offset;
      NilsAre(slots[..ArgumentCount()]);
      NilsAre(slots[ArgumentCount()..Base()]);
    }

    /** `reset_stack_pointer`: clears the operands. */
    method ResetStackPointer()
      modifies this`localOffset, this`stackPointer
      ensures localOffset == ArgumentCount() && stackPointer == Base() - 1
    {
      localOffset := ArgumentCount();
      stackPointer := localOffset + methodObject.numberOfLocals - 1;
    }

    /** `_Block_restart`. */
    method Restart()
      requires Ok()
      modifies this`localOffset, this`stackPointer, this`bytecodeIndex, this`pc
      ensures Ok() && Abs() == old(Abs()).(pc := 0, stack := [])
    {
      bytecodeIndex, pc := 0, 0;
      ResetStackPointer();
    }

    /** Steps over the instruction at the bytecode index. */
    method Advance()
      requires Ok() && pc < |instrs|
      modifies this`bytecodeIndex, this`pc
      ensures Ok() && Abs() == old(Abs()).(pc := old(pc) + 1)
    {
      DecodeAtOffset(instrs, pc);
      var bytecode := methodObject.bytecodes[bytecodeIndex];
      bytecodeIndex := bytecodeIndex + BYTECODE_LENGTHS[bytecode];
      pc := pc + 1;
    }

    predicate HasPreviousFrame()
      reads this`previous
    {
      previous != null
    }

    method ClearPreviousFrame()
      requires Ok()
      modifies this`previous
      ensures Ok() && previous == null && Abs() == old(Abs()).(previous := None)
    {
      previous := null;
    }

    // ----- operands -----

    method Pop() returns (v: Value)
      requires Ok() && |Operands()| > 0
      modifies this`stackPointer
      ensures Ok() && Abs() == old(Abs()).(stack := old(Operands())[..|old(Operands())| - 1])
      ensures v == old(Operands())[|old(Operands())| - 1]
    {
      hide Encode, Arity, Offset;
      var sp := stackPointer;
      stackPointer := sp - 1;
      v := slots[sp];
    }

    method Push(v: Value)
      requires Ok() && |Operands()| < methodObject.maximumStack + 3
      modifies this`stackPointer, slots
      ensures Ok() && Abs() == old(Abs()).(stack := old(Operands()) + [v])
    {
      var sp := stackPointer + 1;
      stackPointer := sp;
      slots[sp] := v;
    }

    method GetStackElement(index: nat) returns (v: Value)
      requires Ok() && index < |Operands()|
      ensures v == Operands()[|Operands()| - 1 - index]
    {
      v := slots[stackPointer - index];
    }

    /** Pops the given number of operands. */
    method PopArguments(n: nat)
      requires Ok() && n <= |Operands()|
      modifies this`stackPointer
      ensures Ok() && Abs() == old(Abs()).(stack := old(Operands())[..|old(Operands())| - n])
    {
      ghost var a, s := Abs(), Operands();
      for i := 0 to n
        invariant Ok() && Abs() == a.(stack := s[..|s| - i]) && previous == old(previous)
      {
        var _ := Pop();
      }
    }

    /** The arguments on top of the other frame's operands become this frame's arguments. */
    method CopyArgumentsFrom(frame: VMFrame)
      requires Ok() && frame.Ok() && frame != this && frame.slots != slots && ArgumentCount() <= |frame.Operands()|
      modifies slots
      ensures Ok() && frame.Ok()
      ensures Abs() == old(Abs()).(args := frame.Operands()[|frame.Operands()| - ArgumentCount()..])
    {
      hide Arity, Encode, Offset;
      ghost var s := frame.Operands();
      var n := ArgumentCount();
      for i := 0 to n
        invariant slots[..i] == s[|s| - n..|s| - n + i]
        invariant slots[n..] == old(slots[n..]) && frame.Operands() == s
      {
        var stackElem := frame.GetStackElement(n - 1 - i);
        slots[i] := stackElem;
      }
      assert Locals() == old(slots[n..])[..methodObject.numberOfLocals];
      assert Operands() == old(slots[n..])[methodObject.numberOfLocals..stackPointer + 1 - n];
    }

    // ----- contexts -----

    /** The context `level` steps out, if there is one. */
    ghost function ContextLevel(level: nat): VMFrame?
      decreases level
    {
      if level == 0 then this
      else if context == null then null
      else context.ContextLevel(level - 1)
    }

    method GetContextLevel(level: nat) returns (r: VMFrame)
      requires ContextLevel(level) != null
      ensures r == ContextLevel(level)
    {
      var n := level;
      r := this;
      while n > 0
        invariant r.ContextLevel(n) == ContextLevel(level)
      {
        r := r.context;
        n := n - 1;
      }
    }

    ghost function Outermost(): VMFrame
      requires ContextsOk()
      decreases num
    {
      if context == null then this else context.Outermost()
    }

    method GetOuterContext() returns (r: VMFrame)
      requires ContextsOk()
      ensures r == Outermost()
    {
      r := this;
      while r.context != null
        invariant r.ContextsOk() && r.Outermost() == Outermost()
        decreases r.num
      {
        r := r.context;
      }
    }

    // ----- variables -----

    method GetLocal(index: nat, level: nat, ghost h: VMFrame) returns (v: Value)
      requires ContextLevel(level) == h && h.Ok() && index < |h.Locals()|
      ensures v == h.Locals()[index]
    {
      var c := GetContextLevel(level);
      v := c.slots[c.localOffset + index];
    }

    method SetLocal(index: nat, level: nat, v: Value, ghost h: VMFrame)
      requires ContextLevel(level) == h && h.Ok() && index < |h.Locals()|
      modifies h.slots
      ensures h.Ok() && h.Abs() == old(h.Abs()).(locals := old(h.Locals())[index := v])
    {
      var c := GetContextLevel(level);
      c.slots[c.localOffset + index] := v;
    }

    method GetArgument(index: nat, level: nat, ghost h: VMFrame) returns (v: Value)
      requires ContextLevel(level) == h && h.Ok() && index < |h.Args()|
      ensures v == h.Args()[index]
    {
      var c := GetContextLevel(level);
      v := c.slots[index];
    }

    method SetArgument(index: nat, level: nat, v: Value, ghost h: VMFrame)
      requires ContextLevel(level) == h && h.Ok() && index < |h.Args()|
      modifies h.slots
      ensures h.Ok() && h.Abs() == old(h.Abs()).(args := old(h.Args())[index := v])
    {
      var c := GetContextLevel(level);
      c.slots[index] := v;
    }
  }
}

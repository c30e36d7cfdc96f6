/** The interpreter (Interpreter.c) on frames in memory: each bytecode handler is proved to do what
    module Machine says, and the loop to run as it says, from every good state. */
module Interpreter {
  import opened Common
  import opened Bytecodes
  import opened Signature
  import opened StackDepth
  import GenerationContext
  import opened Machine
  import opened Chains
  import opened FrameInvariant
  import opened SafeRuns
  import opened Frames

  class Interpreter {
    const w: World
    const methods: map<nat, GenerationContext.VMMethod>
    ghost const t: Table
    /** All frames ever allocated, in order; a frame's place is its address. */
    var frames: seq<VMFrame>
    var frame: VMFrame
    var history: History
    var status: Status

    /** The method objects are those of the table. */
    ghost predicate MethodsOk() {
      ImagesOk(methods, t)
    }

    /** What never changes about the i-th frame in memory. */
    ghost predicate StaticOk(mem: seq<VMFrame>, i: nat)
      requires i < |mem|
    {
      var f := mem[i];
      && f.num == i
      && (f.context != null ==> f.context.num < |mem| && mem[f.context.num] == f.context)
      && (if i == 0 then f.code !in t && f.instrs == [Halt]
          else f.code in methods && f.methodObject == methods[f.code] && f.code in t && f.instrs == t[f.code].meth.code)
    }

    ghost predicate PreviousOk(mem: seq<VMFrame>, f: VMFrame)
      reads f`previous
    {
      f.previous != null ==> f.previous.num < |mem| && mem[f.previous.num] == f.previous
    }

    ghost predicate HoldsFrame(mem: seq<VMFrame>, f: VMFrame, a: Frame)
      reads f, f.slots
    {
      f.Ok() && f.Abs() == a && PreviousOk(mem, f)
    }

    ghost predicate Apart(mem: seq<VMFrame>) {
      forall i, j | 0 <= i < j < |mem| :: mem[i] != mem[j] && mem[i].slots != mem[j].slots
    }

    /** The frames in memory, but for frame k, are the given ones. */
    ghost predicate Others(mem: seq<VMFrame>, fs: seq<Frame>, k: nat)
      reads set i | 0 <= i < |mem| && i != k :: mem[i]
      reads set i | 0 <= i < |mem| && i != k :: mem[i].slots
    {
      && MethodsOk() && Apart(mem) && |fs| == |mem|
      && (forall i | 0 <= i < |mem| :: StaticOk(mem, i))
      && (forall i | 0 <= i < |mem| && i != k :: HoldsFrame(mem, mem[i], fs[i]))
    }

    /** The frames in memory are the given ones. */
    ghost predicate Body(mem: seq<VMFrame>, fs: seq<Frame>)
      reads mem, set f: VMFrame | f in mem :: f.slots
    {
      && MethodsOk() && Apart(mem) && |fs| == |mem|
      && (forall i | 0 <= i < |mem| :: StaticOk(mem, i))
      && (forall i | 0 <= i < |mem| :: HoldsFrame(mem, mem[i], fs[i]))
    }

    /** The interpreter's state is configuration c. */
    ghost predicate Holds(c: Config)
      reads this, frames, set f: VMFrame | f in frames :: f.slots
    {
      && Body(frames, c.frames) && c.current < |frames| && frame == frames[c.current]
      && history == c.history && status == c.status
    }

    /** `create_bootstrap_method`, and the frame it runs in. */
    constructor (w: World, methods: map<nat, GenerationContext.VMMethod>, boot: nat, ghost t: Table)
      requires ImagesOk(methods, t) && boot !in t
      ensures this.w == w && this.t == t && frames == [frame] && fresh(frame) && fresh(frame.slots)
      ensures frame.methodObject.maximumStack == 2
      ensures Holds(Config([Frame(boot, None, None, Nils(Arity("bootstrap")), [], [], 0)], 0, [], Running))
    {
      hide Encode, Arity, Offset, ImagesOk;
      this.w, this.methods, this.t := w, methods, t;
      BootstrapBytes();
      var bootstrap := GenerationContext.VMMethod("bootstrap", 0, 2, [], [0]);
      var f := new VMFrame(boot, bootstrap, null, null, 0, [Halt]);
      ghost var a := f.Abs();
      assert a == Frame(boot, None, None, Nils(Arity("bootstrap")), [], [], 0) by {
        assert Nils(0) == [];
      }
      frames, frame, history, status := [f], f, [], Running;
      new;
      hide Nils, VMFrame.Ok, VMFrame.Abs, VMFrame.Args, VMFrame.Locals, VMFrame.Operands;
      assert HoldsFrame(frames, frames[0], a);
      assert StaticOk(frames, 0);
    }

    lemma Parts(c: Config, k: nat)
      requires Holds(c) && k < |frames|
      ensures Others(frames, c.frames, k) && |c.frames| == |frames| && HoldsFrame(frames, frames[k], c.frames[k])
      ensures forall i | 0 <= i < |frames| && i != k :: frames[i] != frames[k] && frames[i].slots != frames[k].slots
    {
    }

    /** Frame k has changed, in its own memory. */
    lemma Together(mem: seq<VMFrame>, fs: seq<Frame>, k: nat, a: Frame)
      requires k < |mem| && Others(mem, fs, k) && HoldsFrame(mem, mem[k], a)
      ensures |fs| == |mem| && Body(mem, fs[k := a])
    {
    }

    /** A frame has been added. */
    lemma Added(mem: seq<VMFrame>, fs: seq<Frame>, f: VMFrame, a: Frame)
      requires Body(mem, fs) && HoldsFrame(mem + [f], f, a) && StaticOk(mem + [f], |mem|)
      requires forall i | 0 <= i < |mem| :: mem[i] != f && mem[i].slots != f.slots
      ensures Body(mem + [f], fs + [a])
    {
      hide VMFrame.Ok, VMFrame.Abs;
      var mem', fs' := mem + [f], fs + [a];
      forall i | 0 <= i < |mem'|
        ensures StaticOk(mem', i) && HoldsFrame(mem', mem'[i], fs'[i])
      {
        if i < |mem| {
          assert StaticOk(mem, i) && HoldsFrame(mem, mem[i], fs[i]);
        }
      }
    }

    lemma Current(c: Config)
      requires Holds(c)
      ensures c.current < |frames| == |c.frames| && frame == frames[c.current] && frame in frames
      ensures Others(frames, c.frames, c.current) && PreviousOk(frames, frame)
      ensures frame.Ok() && frame.Abs() == c.Top() && frame.Operands() == c.Stack() && frame.Args() == c.Top().args
      ensures frame.code == c.Top().code && frame.pc == c.Top().pc && frame.num == c.current
      ensures |c.Stack()| <= frame.methodObject.maximumStack + 3
      ensures forall i | 0 <= i < |frames| && i != c.current :: frames[i] != frame && frames[i].slots != frame.slots
    {
      Parts(c, c.current);
      assert StaticOk(frames, c.current);
    }

    lemma Settled(c: Config, a: Frame)
      requires c.current < |frames| && frame == frames[c.current] && Others(frames, c.frames, c.current) &&
               HoldsFrame(frames, frame, a)
      requires history == c.history && status == c.status
      ensures c.current < |c.frames| && Holds(c.WithTop(a))
    {
      Together(frames, c.frames, c.current, a);
    }

    lemma CurrentMethod(c: Config)
      requires Holds(c) && c.current > 0
      ensures c.current < |c.frames| && c.Top().code in t && frame.code == c.Top().code && frame.code in methods
      ensures frame.instrs == t[frame.code].meth.code &&
              frame.methodObject == GenerationContext.Image(t[frame.code].meth)
    {
      assert StaticOk(frames, c.current);
      ImagesAre(methods, t, frame.code);
    }

    // ----- operands of the current frame -----

    method PushOperand(v: Value, ghost c: Config)
      requires Holds(c) && |c.Stack()| < frame.methodObject.maximumStack + 3
      modifies frame`stackPointer, frame.slots
      ensures c.current < |c.frames| && Holds(c.WithStack(c.Stack() + [v]))
    {
      hide VMFrame.Ok, VMFrame.Abs, VMFrame.Args, VMFrame.Operands, Others;
      Current(c);
      frame.Push(v);
      Settled(c, frame.Abs());
    }

    method PopOperand(ghost c: Config) returns (v: Value)
      requires Holds(c) && |c.Stack()| > 0
      modifies frame`stackPointer
      ensures c.current < |c.frames| && Holds(c.WithStack(c.Stack()[..|c.Stack()| - 1])) &&
              v == c.Stack()[|c.Stack()| - 1]
    {
      hide VMFrame.Ok, VMFrame.Abs, VMFrame.Args, VMFrame.Operands, Others;
      Current(c);
      v := frame.Pop();
      Settled(c, frame.Abs());
    }

    method PopArguments(n: nat, ghost c: Config)
      requires Holds(c) && n <= |c.Stack()|
      modifies frame`stackPointer
      ensures c.current < |c.frames| && Holds(c.WithStack(c.Stack()[..|c.Stack()| - n]))
    {
      hide VMFrame.Ok, VMFrame.Abs, VMFrame.Args, VMFrame.Operands, Others;
      Current(c);
      frame.PopArguments(n);
      Settled(c, frame.Abs());
    }

    /** The top n operands, the deepest first. */
    method TopArguments(n: nat, ghost c: Config) returns (args: seq<Value>)
      requires Holds(c) && n <= |c.Stack()|
      ensures args == c.Stack()[|c.Stack()| - n..]
    {
      hide VMFrame.Ok, VMFrame.Abs, VMFrame.Args, VMFrame.Operands, Others;
      Current(c);
      args := [];
      ghost var s := c.Stack();
      for i := 0 to n
        invariant |args| == i && forall j | 0 <= j < i :: args[j] == s[|s| - i + j]
      {
        var v := frame.GetStackElement(i);
        args := [v] + args;
      }
    }

    // ----- contexts -----

    lemma HomeIs(c: Config, i: nat)
      requires Holds(c) && i < |frames|
      ensures |c.frames| == |frames| && frames[i].num == i && frames[i].Ok() && frames[i].Abs() == c.frames[i]
      ensures if frames[i].context == null then c.frames[i].home == None
              else frames[i].context.num < |frames| && c.frames[i].home == Some(frames[i].context.num) &&
                   frames[frames[i].context.num] == frames[i].context
      ensures frames[i].Args() == c.frames[i].args && frames[i].Locals() == c.frames[i].locals
      ensures frames[i].ContextsOk()
    {
      assert StaticOk(frames, i) && HoldsFrame(frames, frames[i], c.frames[i]);
    }

    lemma {:induction false} ContextIs(c: Config, a: nat, level: nat)
      requires Holds(c) && a < |frames| && ContextAt(c.frames, a, level).Some?
      ensures var h := ContextAt(c.frames, a, level).value;
              h < |frames| && frames[a].ContextLevel(level) == frames[h]
      decreases level
    {
      hide Body, VMFrame.Ok, VMFrame.Abs;
      HomeIs(c, a);
      if level > 0 {
        ContextIs(c, c.frames[a].home.value, level - 1);
      }
    }

    lemma {:induction false} OuterIs(c: Config, a: nat)
      requires Holds(c) && a < |frames| && OuterContext(c.frames, a).Some?
      ensures var h := OuterContext(c.frames, a).value;
              h < |frames| && frames[a].ContextsOk() && frames[a].Outermost() == frames[h]
      decreases a
    {
      hide Body, VMFrame.Ok, VMFrame.Abs;
      HomeIs(c, a);
      if c.frames[a].home.Some? {
        OuterIs(c, c.frames[a].home.value);
      }
    }

    // ----- calls -----

    /** Frames are only added to memory. */
    twostate predicate Grown()
      reads this`frames
    {
      old(frames) <= frames &&
      forall i | |old(frames)| <= i < |frames| :: fresh(frames[i]) && fresh(frames[i].slots)
    }

    /** `Interpreter_push_new_frame`. */
    method PushNewFrame(code: nat, context: VMFrame?, ghost home: Option<nat>, ghost c: Config)
      requires Holds(c) && code in t
      requires match home case None => context == null case Some(h) => h < |frames| && context == frames[h]
      modifies this`frames, this`frame
      ensures c.current < |c.frames| &&
              Holds(PushFrame(c, NewFrame(t, code, home, c.current, Nils(t[code].meth.Args()))))
      ensures frames == old(frames) + [frame] && fresh(frame) && fresh(frame.slots)
      ensures frame.code == code && frame.methodObject == GenerationContext.Image(t[code].meth)
    {
      hide VMFrame.Ok, VMFrame.Abs, VMFrame.Args, VMFrame.Locals, VMFrame.Operands, Others, Body, Encode,
        Arity, VMFrame.ContextsOk;
      hide Nils, ImagesOk;
      Current(c);
      ContextNum(c, context, home);
      HasImage(c, code);
      ghost var mem := frames;
      var f := new VMFrame(code, methods[code], context, frame, |frames|, t[code].meth.code);
      ghost var a := f.Abs();
      NewAbs(f, t, home, c.current);
      Added(mem, c.frames, f, a);
      frames := frames + [f];
      frame := f;
    }

    lemma ContextNum(c: Config, context: VMFrame?, home: Option<nat>)
      requires Holds(c)
      requires match home case None => context == null case Some(h) => h < |frames| && context == frames[h]
      ensures home == if context == null then None else Some(context.num)
      ensures context != null ==> context.num < |frames| && frames[context.num] == context && context.ContextsOk()
    {
      if home.Some? {
        HomeIs(c, home.value);
      }
    }

    lemma HasImage(c: Config, code: nat)
      requires Holds(c) && code in t
      ensures code in methods && methods[code] == GenerationContext.Image(t[code].meth)
      ensures methods[code].bytecodes == Encode(t[code].meth.code) &&
              Arity(methods[code].signature) == t[code].meth.Args()
      ensures methods[code].numberOfLocals == t[code].meth.locals && methods[code].maximumStack == t[code].meth.maxStack
      ensures forall i | 0 < i < |frames| :: frames[i].num == i
      ensures |frames| > 0
    {
      ImagesAre(methods, t, code);
      forall i | 0 < i < |frames|
        ensures frames[i].num == i
      {
        assert StaticOk(frames, i);
      }
    }

    /** `invoke` of a method: a new frame, and the arguments copied into it. */
    method InvokeMethod(code: nat, context: VMFrame?, ghost home: Option<nat>, ghost args: seq<Value>, ghost c: Config)
      requires Holds(c) && code in t && |args| == t[code].meth.Args() <= |c.Stack()|
      requires args == c.Stack()[|c.Stack()| - |args|..]
      requires match home case None => context == null case Some(h) => h < |frames| && context == frames[h]
      modifies this`frames, this`frame
      ensures c.current < |c.frames| && Holds(PushFrame(c, NewFrame(t, code, home, c.current, args)))
      ensures Grown()
    {
      hide VMFrame.Ok, VMFrame.Abs, VMFrame.Args, VMFrame.Locals, VMFrame.Operands, Others, Body, Encode,
        Offset, Arity, ContextAt, OuterContext, Unwind;
      hide Nils, ImagesOk;
      Current(c);
      HasImage(c, code);
      var caller := frame;
      ghost var d := PushFrame(c, NewFrame(t, code, home, c.current, Nils(t[code].meth.Args())));
      PushNewFrame(code, context, home, c);
      Current(d);
      CallerIs(c, d, caller);
      frame.CopyArgumentsFrom(caller);
      Settled(d, frame.Abs());
      assert d.WithTop(d.Top().(args := args)) == PushFrame(c, NewFrame(t, code, home, c.current, args));
    }

    lemma CallerIs(c: Config, d: Config, caller: VMFrame)
      requires Holds(d) && c.current < |c.frames| && |d.frames| == |c.frames| + 1 && d.frames[..|c.frames|] == c.frames
      requires d.current == |c.frames| && c.current < |frames| && caller == frames[c.current]
      ensures caller.Ok() && caller.Operands() == c.Stack() && caller != frame && caller.slots != frame.slots
    {
      assert HoldsFrame(frames, frames[c.current], d.frames[c.current]);
      assert d.frames[c.current] == c.frames[c.current];
    }

    // ----- returns -----

    method LeaveFrame(ghost c: Config) returns (result: VMFrame)
      requires Holds(c) && PopFrame(c).status == Running && c.status == Running
      modifies this`frame, frame`previous
      ensures c.current < |c.frames| && Holds(PopFrame(c)) && result == old(frame)
    {
      hide VMFrame.Ok, VMFrame.Abs, VMFrame.Args, VMFrame.Operands, Others, Body;
      Current(c);
      PreviousIs(c);
      result := frame;
      frame := frame.previous;
      result.ClearPreviousFrame();
      Together(frames, c.frames, c.current, result.Abs());
    }

    lemma PreviousIs(c: Config)
      requires Holds(c)
      ensures c.current < |c.frames|
      ensures c.Top().previous == if frame.previous == null then None else Some(frame.previous.num)
    {
      Parts(c, c.current);
    }

    method PopFrameAndPushResult(result: Value, ghost c: Config)
      requires Holds(c) && c.current > 0 && c.status == Running && PopFrameAndPush(t, c, result).status == Running
      modifies this`frame, frame`previous, frames, set f: VMFrame | f in frames :: f.slots
      ensures Holds(PopFrameAndPush(t, c, result))
    {
      hide VMFrame.Ok, VMFrame.Abs, VMFrame.Args, VMFrame.Locals, VMFrame.Operands, Others, Body, Encode,
        Offset, Arity, ContextAt, OuterContext, Unwind;
      CurrentMethod(c);
      Current(c);
      ghost var d := PopFrame(c);
      var prev := LeaveFrame(c);
      Current(d);
      var n := prev.ArgumentCount();
      PopArguments(n, d);
      ArityPositive(prev.methodObject.signature);
      ghost var e := d.WithStack(d.Stack()[..|d.Stack()| - n]);
      PushOperand(result, e);
      assert e.WithStack(e.Stack() + [result]) == d.WithStack(d.Stack()[..|d.Stack()| - n] + [result]);
    }

    method HandleReturnLocal(ghost c: Config)
      requires Holds(c) && c.current > 0 && c.status == Running && DoReturnLocal(t, c).status == Running
      modifies this`frame, frames, set f: VMFrame | f in frames :: f.slots
      ensures Holds(DoReturnLocal(t, c))
    {
      hide VMFrame.Ok, VMFrame.Abs, VMFrame.Args, VMFrame.Operands, Others;
      Current(c);
      var result := PopOperand(c);
      PopFrameAndPushResult(result, c.WithStack(c.Stack()[..|c.Stack()| - 1]));
    }

    /** The unwinding loop. */
    method UnwindTo(context: VMFrame, ghost home: nat, ghost c: Config)
      requires Holds(c) && c.status == Running && home < |frames| && context == frames[home]
      requires Unwind(c, home).status == Running
      modifies this`frame, frames
      ensures Holds(Unwind(c, home))
    {
      hide VMFrame.Ok, VMFrame.Abs, VMFrame.Args, VMFrame.Locals, VMFrame.Operands, Others,
        VMFrame.ContextsOk, Unwind;
      ghost var d := c;
      Current(c);
      while frame != context
        invariant Holds(d) && d.status == Running && d.current < |d.frames| && Unwind(d, home) == Unwind(c, home) &&
                  frames == old(frames)
        decreases d.current
      {
        Current(d);
        UnwindStep(d, home);
        HomeIs(d, home);
        var _ := LeaveFrame(d);
        d := PopFrame(d);
      }
      Current(d);
      HomeIs(d, home);
      UnwindDone(d);
    }


    /** `do_return_non_local`: unwinds to the home frame, if it is still on the chain. */
    method HandleReturnNonLocal(ghost c: Config)
      requires Holds(c) && c.current > 0 && c.status == Running &&
               DoReturnNonLocal(t, c).status in {Running, EscapedBlock}
      modifies this`frame, this`status, frames, set f: VMFrame | f in frames :: f.slots
      ensures Holds(DoReturnNonLocal(t, c))
    {
      hide VMFrame.Ok, VMFrame.Abs, VMFrame.Args, VMFrame.Locals, VMFrame.Operands, Others, Body, Encode,
        Offset, Arity, ContextAt, OuterContext, Unwind, VMFrame.ContextsOk, VMFrame.Outermost;
      Current(c);
      ghost var d := c.WithStack(c.Stack()[..|c.Stack()| - 1]);
      ReturnCases(t, c, d);
      var result := PopOperand(c);
      Current(d);
      OuterIs(d, d.current);
      ghost var home := OuterContext(d.frames, d.current).value;
      var context := frame.GetOuterContext();
      HasPreviousIs(d, home);
      if !context.HasPreviousFrame() {
        status := EscapedBlock;
        return;
      }
      UnwindTo(context, home, d);
      PopFrameAndPushResult(result, Unwind(d, home));
    }

    lemma HasPreviousIs(c: Config, i: nat)
      requires Holds(c) && i < |frames|
      ensures |c.frames| == |frames| && (frames[i].HasPreviousFrame() <==> c.frames[i].previous.Some?)
    {
      Parts(c, i);
    }

    // ----- operands of instructions -----

    /** Between fetching an instruction and executing it: the index is already past it. */
    ghost predicate Ready(c: Config)
      reads this, frame, frames, set f: VMFrame | f in frames :: f.slots
    {
      && Holds(c) && c.status == Running && 0 < c.current < |c.frames| && c.Top().code in t
      && |c.Stack()| <= t[c.Top().code].meth.maxStack
    }

    ghost predicate AtInstr(c: Config, bytecodeIndex: nat, i: Instr) {
      && c.current < |c.frames| && c.Top().code in t
      && var code := t[c.Top().code].meth.code;
         0 < c.Top().pc <= |code| && code[c.Top().pc - 1] == i && bytecodeIndex == Offset(code, c.Top().pc - 1)
    }

    /** `get_bytecode` of an operand. */
    method Operand(bytecodeIndex: nat, j: nat, ghost c: Config, ghost i: Instr) returns (b: byte)
      requires Ready(c) && AtInstr(c, bytecodeIndex, i) && j < |EncodeInstr(i)|
      ensures b == EncodeInstr(i)[j]
    {
      hide VMFrame.Args, Encode, Offset, Arity;
      CurrentMethod(c);
      HasImage(c, frame.code);
      BytesAt(t[frame.code].meth.code, c.Top().pc - 1);
      b := frame.methodObject.bytecodes[bytecodeIndex + j];
    }

    /** `get_constant`, where the constant is a symbol. */
    method SymbolOperand(bytecodeIndex: nat, ghost c: Config, ghost i: Instr) returns (name: string)
      requires Ready(c) && AtInstr(c, bytecodeIndex, i)
      requires i.Send? || i.SuperSend? || i.PushGlobal? || i.PushField? || i.PopField?
      ensures name == Selector(t[c.Top().code].meth.literals, i.lit)
    {
      var bc := Operand(bytecodeIndex, 1, c, i);
      CurrentMethod(c);
      name := Selector(frame.methodObject.literals, bc);
    }

    // ----- variables -----

    method HandlePushLocal(bytecodeIndex: nat, ghost c: Config, ghost i: Instr)
      requires Ready(c) && AtInstr(c, bytecodeIndex, i) && i.PushLocal?
      requires DoPushLocal(c, i.index, i.level).status == Running
      modifies frame`stackPointer, frame.slots
      ensures Holds(DoPushLocal(c, i.index, i.level))
    {
      hide VMFrame.Ok, VMFrame.Abs, VMFrame.Args, VMFrame.Locals, VMFrame.Operands, Others, Body, Encode,
        Offset, Arity, ContextAt, VMFrame.ContextLevel, VMFrame.ContextsOk;
      var bc1 := Operand(bytecodeIndex, 1, c, i);
      var bc2 := Operand(bytecodeIndex, 2, c, i);
      Current(c);
      CurrentMethod(c);
      ContextIs(c, c.current, bc2);
      ghost var h := ContextAt(c.frames, c.current, bc2).value;
      HomeIs(c, h);
      var local := frame.GetLocal(bc1, bc2, frames[h]);
      PushOperand(local, c);
    }

    method HandlePushArgument(bytecodeIndex: nat, ghost c: Config, ghost i: Instr)
      requires Ready(c) && AtInstr(c, bytecodeIndex, i) && i.PushArgument?
      requires DoPushArgument(c, i.index, i.level).status == Running
      modifies frame`stackPointer, frame.slots
      ensures Holds(DoPushArgument(c, i.index, i.level))
    {
      hide VMFrame.Ok, VMFrame.Abs, VMFrame.Args, VMFrame.Locals, VMFrame.Operands, Others, Body, Encode,
        Offset, Arity, ContextAt, VMFrame.ContextLevel, VMFrame.ContextsOk;
      var bc1 := Operand(bytecodeIndex, 1, c, i);
      var bc2 := Operand(bytecodeIndex, 2, c, i);
      Current(c);
      CurrentMethod(c);
      ContextIs(c, c.current, bc2);
      ghost var h := ContextAt(c.frames, c.current, bc2).value;
      HomeIs(c, h);
      var argument := frame.GetArgument(bc1, bc2, frames[h]);
      PushOperand(argument, c);
    }

    method HandlePopLocal(bytecodeIndex: nat, ghost c: Config, ghost i: Instr)
      requires Ready(c) && AtInstr(c, bytecodeIndex, i) && i.PopLocal?
      requires DoPopLocal(c, i.index, i.level).status == Running
      modifies frame`stackPointer, set f: VMFrame | f in frames :: f.slots
      ensures Holds(DoPopLocal(c, i.index, i.level))
    {
      hide VMFrame.Ok, VMFrame.Abs, VMFrame.Args, VMFrame.Locals, VMFrame.Operands, Others, Body, Encode,
        Offset, Arity, ContextAt, VMFrame.ContextLevel, VMFrame.ContextsOk;
      Current(c);
      var bc1 := Operand(bytecodeIndex, 1, c, i);
      var bc2 := Operand(bytecodeIndex, 2, c, i);
      var o := PopOperand(c);
      ghost var d := c.WithStack(c.Stack()[..|c.Stack()| - 1]);
      Current(d);
      ContextIs(d, d.current, bc2);
      ghost var h := ContextAt(d.frames, d.current, bc2).value;
      HomeIs(d, h);
      Parts(d, h);
      frame.SetLocal(bc1, bc2, o, frames[h]);
      Together(frames, d.frames, h, frames[h].Abs());
    }

    method HandlePopArgument(bytecodeIndex: nat, ghost c: Config, ghost i: Instr)
      requires Ready(c) && AtInstr(c, bytecodeIndex, i) && i.PopArgument?
      requires DoPopArgument(c, i.index, i.level).status == Running
      modifies frame`stackPointer, set f: VMFrame | f in frames :: f.slots
      ensures Holds(DoPopArgument(c, i.index, i.level))
    {
      hide VMFrame.Ok, VMFrame.Abs, VMFrame.Args, VMFrame.Locals, VMFrame.Operands, Others, Body, Encode,
        Offset, Arity, ContextAt, VMFrame.ContextLevel, VMFrame.ContextsOk;
      Current(c);
      var bc1 := Operand(bytecodeIndex, 1, c, i);
      var bc2 := Operand(bytecodeIndex, 2, c, i);
      var o := PopOperand(c);
      ghost var d := c.WithStack(c.Stack()[..|c.Stack()| - 1]);
      Current(d);
      ContextIs(d, d.current, bc2);
      ghost var h := ContextAt(d.frames, d.current, bc2).value;
      HomeIs(d, h);
      Parts(d, h);
      frame.SetArgument(bc1, bc2, o, frames[h]);
      Together(frames, d.frames, h, frames[h].Abs());
    }

    // ----- simple pushes -----

    method HandleDup(ghost c: Config)
      requires Ready(c) && |c.Stack()| > 0
      modifies frame`stackPointer, frame.slots
      ensures Holds(Push(c, c.Stack()[|c.Stack()| - 1]))
    {
      hide VMFrame.Ok, VMFrame.Abs, VMFrame.Args, VMFrame.Operands, Others;
      Current(c);
      CurrentMethod(c);
      var elem := frame.GetStackElement(0);
      PushOperand(elem, c);
    }

    method HandlePushConstant(bytecodeIndex: nat, ghost c: Config, ghost i: Instr)
      requires Ready(c) && AtInstr(c, bytecodeIndex, i) && i.PushConstant?
      requires i.lit < |t[c.Top().code].meth.literals|
      modifies frame`stackPointer, frame.slots
      ensures Holds(Push(c, t[c.Top().code].meth.literals[i.lit]))
    {
      hide VMFrame.Ok, VMFrame.Abs, VMFrame.Args, VMFrame.Operands, Others;
      var bc := Operand(bytecodeIndex, 1, c, i);
      Current(c);
      CurrentMethod(c);
      PushOperand(frame.methodObject.literals[bc], c);
    }

    /** A block object refers to its method and to the current frame. */
    method HandlePushBlock(bytecodeIndex: nat, ghost c: Config, ghost i: Instr)
      requires Ready(c) && AtInstr(c, bytecodeIndex, i) && i.PushBlock?
      requires i.lit < |t[c.Top().code].meth.literals| && t[c.Top().code].meth.literals[i.lit].CodeV?
      modifies frame`stackPointer, frame.slots
      ensures Holds(DoPushBlock(c, t[c.Top().code].meth.literals[i.lit]))
    {
      hide VMFrame.Ok, VMFrame.Abs, VMFrame.Args, VMFrame.Operands, Others;
      var bc := Operand(bytecodeIndex, 1, c, i);
      Current(c);
      CurrentMethod(c);
      var blockMethod := frame.methodObject.literals[bc];
      var place := FrameNumber(c);
      PushOperand(Closure(blockMethod.code, place), c);
    }

    /** The address of the current frame. */
    method FrameNumber(ghost c: Config) returns (n: nat)
      requires Holds(c)
      ensures n == c.current
    {
      hide VMFrame.Ok, VMFrame.Abs, VMFrame.Args, VMFrame.Operands, Others;
      Current(c);
      n := 0;
      Distinct(c);
      while frames[n] != frame
        invariant n <= c.current
        decreases c.current - n
      {
        n := n + 1;
      }
    }

    lemma Distinct(c: Config)
      requires Holds(c)
      ensures forall i | 0 <= i < |frames| :: frames[i] == frame ==> i == c.current
    {
    }

    // ----- self, fields and globals -----

    /** `Interpreter_get_self`. */
    method GetSelf(ghost c: Config) returns (v: Value)
      requires Holds(c) && SelfOf(c.frames, c.current).Some?
      ensures v == SelfOf(c.frames, c.current).value
    {
      hide VMFrame.Ok, VMFrame.Abs, VMFrame.Args, VMFrame.Locals, VMFrame.Operands, Others,
        VMFrame.ContextLevel, VMFrame.Outermost, VMFrame.ContextsOk, OuterContext;
      Current(c);
      OuterIs(c, c.current);
      ghost var h := OuterContext(c.frames, c.current).value;
      HomeIs(c, h);
      var context := frame.GetOuterContext();
      LevelZero(context);
      v := context.GetArgument(0, 0, context);
    }

    method HandlePushField(bytecodeIndex: nat, ghost c: Config, ghost i: Instr)
      requires Ready(c) && AtInstr(c, bytecodeIndex, i) && i.PushField? && SelfOf(c.frames, c.current).Some?
      modifies this`status, frame`stackPointer, frame.slots
      ensures Holds(DoPushField(w, c, Selector(t[c.Top().code].meth.literals, i.lit)))
    {
      hide VMFrame.Ok, VMFrame.Abs, VMFrame.Args, VMFrame.Locals, VMFrame.Operands, Others, Body, Encode,
        Offset, Arity, ContextAt, OuterContext, Unwind, VMFrame.ContextsOk, VMFrame.Outermost;
      hide SelfOf;
      var name := SymbolOperand(bytecodeIndex, c, i);
      Current(c);
      CurrentMethod(c);
      var self := GetSelf(c);
      if w.hasField(self, name) {
        PushOperand(w.field(self, name, history), c);
      } else {
        status := Stuck;
      }
    }

    method HandlePopField(bytecodeIndex: nat, ghost c: Config, ghost i: Instr)
      requires Ready(c) && AtInstr(c, bytecodeIndex, i) && i.PopField? && SelfOf(c.frames, c.current).Some? &&
               |c.Stack()| > 0
      modifies this`status, this`history, frame`stackPointer
      ensures Holds(DoPopField(w, c, Selector(t[c.Top().code].meth.literals, i.lit)))
    {
      hide VMFrame.Ok, VMFrame.Abs, VMFrame.Args, VMFrame.Locals, VMFrame.Operands, Others, Body, Encode,
        Offset, Arity, ContextAt, OuterContext, Unwind, VMFrame.ContextsOk, VMFrame.Outermost;
      hide SelfOf;
      var name := SymbolOperand(bytecodeIndex, c, i);
      Current(c);
      var self := GetSelf(c);
      if w.hasField(self, name) {
        var o := PopOperand(c);
        history := history + [FieldE(self, name, o)];
      } else {
        status := Stuck;
      }
    }


    // ----- sends -----

    /** `invoke` of whatever the lookup has found; its arguments are on top of the stack. */
    method InvokeFound(inv: Invokable, args: seq<Value>, ghost c: Config)
      requires Holds(c) && c.status == Running && 0 < |args| <= |c.Stack()| && args == c.Stack()[|c.Stack()| - |args|..]
      requires Invoke(w, t, c, inv, args).status == Running
      modifies this`frames, this`frame, this`history, this`status, frames, set f: VMFrame | f in frames :: f.slots
      ensures Grown()
      ensures Holds(Invoke(w, t, c, inv, args))
    {
      hide VMFrame.Ok, VMFrame.Abs, VMFrame.Args, VMFrame.Locals, VMFrame.Operands, Others, Body, Encode,
        Offset, Arity, ContextAt, OuterContext, Unwind;
      Current(c);
      InvokeCases(w, t, c, inv, args);
      match inv
      case MethodI(code) =>
        InvokeMethod(code, null, None, args, c);
      case PrimitiveI(p) =>
        PopArguments(|args|, c);
        ghost var d := c.WithStack(c.Stack()[..|c.Stack()| - |args|]);
        Current(d);
        var result := w.primitive(p, args, history);
        PushOperand(result, d);
        history := history + [PrimitiveE(p, args)];
        assert d.WithStack(d.Stack() + [result]).Record(PrimitiveE(p, args)) == Invoke(w, t, c, inv, args);
      case EvaluateI(argc) =>
        EvaluateBlock(argc, args, c);
      case RestartI =>
        frame.Restart();
        Settled(c, frame.Abs());
    }

    /** The routine of the evaluation primitive: a frame for the block's method, in the context that
        the block was made in. */
    method EvaluateBlock(argc: nat, ghost args: seq<Value>, ghost c: Config)
      requires Holds(c) && argc == |args| && 0 < argc <= |c.Stack()| && args == c.Stack()[|c.Stack()| - argc..]
      requires WellMade(t, c.frames, args[0]) && t[args[0].code].meth.Args() == argc
      modifies this`frames, this`frame
      ensures c.current < |c.frames| && Grown()
      ensures Holds(PushFrame(c, NewFrame(t, args[0].code, Some(args[0].home), c.current, args)))
    {
      hide VMFrame.Ok, VMFrame.Abs, VMFrame.Args, VMFrame.Operands, Others;
      Current(c);
      var block := frame.GetStackElement(argc - 1);
      assert block == args[0];
      var context := frames[block.home];
      InvokeMethod(block.code, context, Some(block.home), args, c);
    }

    /** `VMObject.send`: pushes receiver and arguments, looks up, invokes. */
    method SendMessage(sel: string, args: seq<Value>, ghost c: Config)
      requires Holds(c) && c.status == Running && args != [] &&
               |c.Stack()| + |args| <= frame.methodObject.maximumStack + 3
      requires c.current < |c.frames| && SendTo(w, t, c, sel, args).status == Running
      modifies this`frames, this`frame, this`history, this`status, frames, set f: VMFrame | f in frames :: f.slots
      ensures Grown()
      ensures Holds(SendTo(w, t, c, sel, args))
    {
      hide VMFrame.Ok, VMFrame.Abs, VMFrame.Args, VMFrame.Locals, VMFrame.Operands, Others, Body, Encode,
        Offset, Arity, ContextAt, OuterContext, Unwind;
      hide Invoke;
      Current(c);
      ghost var d := c;
      ghost var fr, mem := frame, frames;
      assert c.Stack() + args[..0] == c.Stack() && c.frames[c.current := c.Top()] == c.frames;
      for k := 0 to |args|
        invariant Holds(d) && d.current == c.current < |c.frames| && d == c.WithStack(c.Stack() + args[..k])
        invariant frame == fr && frames == mem
      {
        Current(d);
        PushOperand(args[k], d);
        assert c.Stack() + args[..k] + [args[k]] == c.Stack() + args[..k + 1];
        d := d.WithStack(d.Stack() + [args[k]]);
      }
      assert args[..|args|] == args;
      var found := w.lookup(args[0], sel, history);
      history := history + [SendE(sel, false, args)];
      assert d.Stack()[|d.Stack()| - |args|..] == args;
      InvokeFound(found.value, args, d.Record(SendE(sel, false, args)));
    }

    /** The end of `send` and of `do_super_send`. */
    method DispatchFound(sel: string, toSuper: bool, found: Option<Invokable>, args: seq<Value>, ghost c: Config)
      requires Ready(c) && 0 < |args| <= |c.Stack()| && args == c.Stack()[|c.Stack()| - |args|..]
      requires Dispatch(w, t, c, sel, toSuper, found, args).status == Running
      modifies this`frames, this`frame, this`history, this`status, frames, set f: VMFrame | f in frames :: f.slots
      ensures Grown()
      ensures Holds(Dispatch(w, t, c, sel, toSuper, found, args))
      ensures found.None? ==>
                old(history) + [SendE(sel, toSuper, args), ArrayE(if toSuper then args else args[1..]),
                                SendE("doesNotUnderstand:arguments:", false,
                                      [args[0], SymV(sel), ArrayV(|old(history)| + 1)])] <= history
    {
      hide VMFrame.Ok, VMFrame.Abs, VMFrame.Args, VMFrame.Locals, VMFrame.Operands, Others, Body, Encode,
        Offset, Arity, ContextAt, OuterContext, Unwind;
      hide Invoke, SendTo;
      CurrentMethod(c);
      Current(c);
      if found.None? {
        UnknownMessage(w, t, c, sel, toSuper, args);
      }
      ghost var d := c.Record(SendE(sel, toSuper, args));
      history := history + [SendE(sel, toSuper, args)];
      match found
      case Some(inv) =>
        InvokeFound(inv, args, d);
      case None =>
        var elements := if toSuper then args else args[1..];
        var place := |history|;
        PopArguments(|args|, d);
        ghost var e := d.WithStack(d.Stack()[..|d.Stack()| - |args|]);
        history := history + [ArrayE(elements)];
        SendMessage(DNU, [args[0], SymV(sel), ArrayV(place)], e.Record(ArrayE(elements)));
    }

    method HandleSend(bytecodeIndex: nat, ghost c: Config, ghost i: Instr)
      requires Ready(c) && AtInstr(c, bytecodeIndex, i) && i.Send?
      requires DoSend(w, t, c, Selector(t[c.Top().code].meth.literals, i.lit)).status == Running
      modifies this`frames, this`frame, this`history, this`status, frames, set f: VMFrame | f in frames :: f.slots
      ensures Grown()
      ensures Holds(DoSend(w, t, c, Selector(t[c.Top().code].meth.literals, i.lit)))
    {
      hide Arity;
      hide Dispatch;
      var signature := SymbolOperand(bytecodeIndex, c, i);
      var n := NumberOfArguments(signature);
      ArityPositive(signature);
      var args := TopArguments(n, c);
      DispatchFound(signature, false, w.lookup(args[0], signature, history), args, c);
    }

    /** Starts at the superclass of the class that holds the outermost method. */
    method HandleSuperSend(bytecodeIndex: nat, ghost c: Config, ghost i: Instr)
      requires Ready(c) && AtInstr(c, bytecodeIndex, i) && i.SuperSend?
      requires DoSuperSend(w, t, c, Selector(t[c.Top().code].meth.literals, i.lit)).status == Running
      modifies this`frames, this`frame, this`history, this`status, frames, set f: VMFrame | f in frames :: f.slots
      ensures Grown()
      ensures Holds(DoSuperSend(w, t, c, Selector(t[c.Top().code].meth.literals, i.lit)))
    {
      hide VMFrame.Ok, VMFrame.Abs, VMFrame.Args, VMFrame.Locals, VMFrame.Operands, Others, Body, Encode,
        Offset, Arity, ContextAt, OuterContext, Unwind, VMFrame.ContextsOk, VMFrame.Outermost;
      hide Dispatch;
      var signature := SymbolOperand(bytecodeIndex, c, i);
      Current(c);
      OuterIs(c, c.current);
      HomeIs(c, OuterContext(c.frames, c.current).value);
      var context := frame.GetOuterContext();
      CodeIs(c, context, OuterContext(c.frames, c.current).value);
      var found := w.superLookup(context.code, signature, history);
      var n := NumberOfArguments(signature);
      ArityPositive(signature);
      var args := TopArguments(n, c);
      DispatchFound(signature, true, found, args, c);
    }

    lemma CodeIs(c: Config, f: VMFrame, k: nat)
      requires Holds(c) && k < |frames| && f == frames[k]
      ensures |c.frames| == |frames| && f.code == c.frames[k].code
    {
      Parts(c, k);
    }

    method HandlePushGlobal(bytecodeIndex: nat, ghost c: Config, ghost i: Instr)
      requires Ready(c) && AtInstr(c, bytecodeIndex, i) && i.PushGlobal?
      requires DoPushGlobal(w, t, c, Selector(t[c.Top().code].meth.literals, i.lit)).status == Running
      modifies this`frames, this`frame, this`history, this`status, frames, set f: VMFrame | f in frames :: f.slots
      ensures Grown()
      ensures Holds(DoPushGlobal(w, t, c, Selector(t[c.Top().code].meth.literals, i.lit)))
      ensures var name := Selector(t[c.Top().code].meth.literals, i.lit);
              w.global(name, old(history)).None? ==>
                SelfOf(c.frames, c.current).Some? &&
                old(history) + [SendE("unknownGlobal:", false, [SelfOf(c.frames, c.current).value, SymV(name)])] <=
                history
    {
      hide VMFrame.Ok, VMFrame.Abs, VMFrame.Args, VMFrame.Operands, Others;
      hide SendTo, SelfOf;
      var name := SymbolOperand(bytecodeIndex, c, i);
      Current(c);
      CurrentMethod(c);
      var global := w.global(name, history);
      match global
      case Some(v) =>
        PushOperand(v, c);
      case None =>
        var self := GetSelf(c);
        UnknownGlobal(w, t, c, name);
        SendMessage(UNKNOWN_GLOBAL, [self, SymV(name)], c);
    }

    // ----- the loop -----

    /** Fetches the instruction at the bytecode index, and steps over it. */
    method FetchAndAdvance(ghost c: Config) returns (bytecodeIndex: nat, bytecode: byte)
      requires Holds(c) && c.status == Running && 0 < c.current < |c.frames| && c.Top().code in t
      requires c.Top().pc < |t[c.Top().code].meth.code|
      modifies frame`bytecodeIndex, frame`pc
      ensures c.current < |c.frames| && Holds(Advance(c))
      ensures bytecode == Opcode(t[c.Top().code].meth.code[c.Top().pc])
      ensures AtInstr(Advance(c), bytecodeIndex, t[c.Top().code].meth.code[c.Top().pc])
    {
      hide VMFrame.Ok, VMFrame.Abs, VMFrame.Args, VMFrame.Operands, Others, Encode, Offset;
      CurrentMethod(c);
      Current(c);
      FrameBytes(frame);
      DecodeAtOffset(frame.instrs, frame.pc);
      bytecodeIndex := frame.bytecodeIndex;
      bytecode := frame.methodObject.bytecodes[bytecodeIndex];
      frame.Advance();
      Settled(c, frame.Abs());
    }


    /** The switch over the fetched bytecode. */
    method ExecuteOne(bytecode: byte, bytecodeIndex: nat, ghost c: Config, ghost k: nat)
      requires Holds(c) && TableOk(t) && WorldOk(w, t) && Mid(t, c, k)
      requires AtInstr(c, bytecodeIndex, InstrAt(t, c, k)) && bytecode == Opcode(InstrAt(t, c, k))
      modifies this`frames, this`frame, this`history, this`status, frames, set f: VMFrame | f in frames :: f.slots
      ensures Grown()
      ensures Holds(Execute(w, t, c, InstrAt(t, c, k), Lits(t, c)))
    {
      hide ContextAt;
      hide Execute;
      ghost var i := InstrAt(t, c, k);
      Enabled(w, t, c, k);
      Opcodes(i);
      CurrentMethod(c);
      if bytecode <= 7 {
        ExecutePush(bytecode, bytecodeIndex, c, k);
      } else if bytecode <= 11 {
        ExecutePop(bytecode, bytecodeIndex, c, k);
      } else {
        ExecuteControl(bytecode, bytecodeIndex, c, k);
      }
    }

    method ExecutePush(bytecode: byte, bytecodeIndex: nat, ghost c: Config, ghost k: nat)
      requires Ready(c) && TableOk(t) && WorldOk(w, t) && Mid(t, c, k)
      requires AtInstr(c, bytecodeIndex, InstrAt(t, c, k)) && bytecode == Opcode(InstrAt(t, c, k)) <= 7
      modifies this`frames, this`frame, this`history, this`status, frames, set f: VMFrame | f in frames :: f.slots
      ensures Grown()
      ensures Holds(Execute(w, t, c, InstrAt(t, c, k), Lits(t, c)))
    {
      hide VMFrame.Ok, VMFrame.Abs, VMFrame.Args, VMFrame.Operands, Others;
      hide DoPushLocal, DoPushArgument, DoPushField, DoPushGlobal, DoPushBlock, Machine.Push, SelfOf,
        Selector, TableOk, WorldOk;
      ghost var i := InstrAt(t, c, k);
      Enabled(w, t, c, k);
      Opcodes(i);
      Current(c);
      match bytecode
      case 1 => HandleDup(c);
      case 2 => HandlePushLocal(bytecodeIndex, c, i);
      case 3 => HandlePushArgument(bytecodeIndex, c, i);
      case 4 => HandlePushField(bytecodeIndex, c, i);
      case 5 => HandlePushBlock(bytecodeIndex, c, i);
      case 6 => HandlePushConstant(bytecodeIndex, c, i);
      case 7 => HandlePushGlobal(bytecodeIndex, c, i);
      case _ =>
    }

    method ExecutePop(bytecode: byte, bytecodeIndex: nat, ghost c: Config, ghost k: nat)
      requires Ready(c) && TableOk(t) && WorldOk(w, t) && Mid(t, c, k)
      requires AtInstr(c, bytecodeIndex, InstrAt(t, c, k)) && 8 <= bytecode == Opcode(InstrAt(t, c, k)) <= 11
      modifies this`frames, this`frame, this`history, this`status, frames, set f: VMFrame | f in frames :: f.slots
      ensures Grown()
      ensures Holds(Execute(w, t, c, InstrAt(t, c, k), Lits(t, c)))
    {
      hide VMFrame.Ok, VMFrame.Abs, VMFrame.Args, VMFrame.Operands, Others, ContextAt;
      hide DoPopLocal, DoPopArgument, DoPopField, SelfOf, Selector, TableOk, WorldOk;
      ghost var i := InstrAt(t, c, k);
      Enabled(w, t, c, k);
      Opcodes(i);
      Current(c);
      match bytecode
      case 8 =>
        var _ := PopOperand(c);
      case 9 => HandlePopLocal(bytecodeIndex, c, i);
      case 10 => HandlePopArgument(bytecodeIndex, c, i);
      case 11 => HandlePopField(bytecodeIndex, c, i);
      case _ =>
    }

    method ExecuteControl(bytecode: byte, bytecodeIndex: nat, ghost c: Config, ghost k: nat)
      requires Ready(c) && TableOk(t) && WorldOk(w, t) && Mid(t, c, k)
      requires AtInstr(c, bytecodeIndex, InstrAt(t, c, k)) && 12 <= bytecode == Opcode(InstrAt(t, c, k))
      modifies this`frames, this`frame, this`history, this`status, frames, set f: VMFrame | f in frames :: f.slots
      ensures Grown()
      ensures Holds(Execute(w, t, c, InstrAt(t, c, k), Lits(t, c)))
    {
      hide VMFrame.Ok, VMFrame.Abs, VMFrame.Args, VMFrame.Operands, Others;
      hide DoSend, DoSuperSend, DoReturnLocal, DoReturnNonLocal, SelfOf, Selector, TableOk, WorldOk;
      ghost var i := InstrAt(t, c, k);
      Enabled(w, t, c, k);
      Opcodes(i);
      Current(c);
      match bytecode
      case 12 => HandleSend(bytecodeIndex, c, i);
      case 13 => HandleSuperSend(bytecodeIndex, c, i);
      case 14 => HandleReturnLocal(c);
      case 15 => HandleReturnNonLocal(c);
      case _ =>
    }

    /** One iteration of `Interpreter_start`; false when it returns. */
    method Iterate(ghost c: Config) returns (goesOn: bool)
      requires Holds(c) && TableOk(t) && WorldOk(w, t) && Inv(t, c) && BootWaits(c)
      modifies this`frames, this`frame, this`history, this`status, frames, set f: VMFrame | f in frames :: f.slots
      ensures Grown()
      ensures Holds(Machine.Step(w, t, c))
      ensures goesOn <==> Machine.Step(w, t, c).status == Running
    {
      hide VMFrame.Ok, VMFrame.Abs, VMFrame.Args, VMFrame.Locals, VMFrame.Operands, Others, Body, Encode,
        Offset, Arity, ContextAt, OuterContext, Unwind;
      hide Execute, WorldOk, TableOk, LinkOk, FrameInv, ValuesInv, GoodHistory, Height;
      Current(c);
      if frame == frames[0] {
        BootIs(c);
        Bootstrap(w, t, c);
        ghost var a := frame.Abs();
        frame.Advance();
        status := Halted;
        Settled(c.(status := Halted), frame.Abs());
        return false;
      }
      Distinct(c);
      AdvanceMid(t, c);
      ghost var k := c.Top().pc;
      var bytecodeIndex, bytecode := FetchAndAdvance(c);
      ExecuteOne(bytecode, bytecodeIndex, Advance(c), k);
      goesOn := status == Running;
    }

    lemma BootIs(c: Config)
      requires Holds(c) && frame == frames[0]
      ensures c.current == 0 && frame.instrs == [Halt]
    {
      assert StaticOk(frames, 0);
      Distinct(c);
    }

    /** `Interpreter_start`, for at most the given number of iterations. */
    method Start(iterations: nat, ghost c: Config)
      requires Holds(c) && TableOk(t) && WorldOk(w, t) && Inv(t, c) && BootWaits(c)
      modifies this`frames, this`frame, this`history, this`status, frames, set f: VMFrame | f in frames :: f.slots
      ensures Grown()
      ensures Holds(Run(w, t, c, iterations))
    {
      hide Step, Inv, WorldOk, TableOk, Holds;
      ghost var d := c;
      var n := 0;
      while n < iterations
        invariant n <= iterations && Holds(d) && Run(w, t, d, iterations - n) == Run(w, t, c, iterations)
        invariant Inv(t, d) && BootWaits(d) && Grown()
        decreases iterations - n
      {
        RunStep(w, t, d, iterations - n - 1);
        StepKeeps(w, t, d);
        InvUp(t, d);
        BootKept(w, t, d);
        var goesOn := Iterate(d);
        d := Machine.Step(w, t, d);
        n := n + 1;
        if !goesOn {
          StaysStopped(w, t, d, iterations - n);
          return;
        }
      }
      RunZero(w, t, d);
    }
  }

  // ----- the bootstrap frame waits at its only instruction -----

  ghost predicate BootWaits(c: Config) {
    |c.frames| > 0 && c.frames[0].pc == 0
  }

  /** No frame but the current one has moved to another instruction. */
  ghost predicate SamePlaces(c: Config, d: Config) {
    |c.frames| <= |d.frames| && forall i | 0 <= i < |c.frames| && i != c.current :: d.frames[i].pc == c.frames[i].pc
  }

  lemma InvokePlaces(w: World, t: Table, c: Config, inv: Invokable, args: seq<Value>)
    requires c.current < |c.frames|
    ensures SamePlaces(c, Invoke(w, t, c, inv, args))
  {
  }

  lemma SendToPlaces(w: World, t: Table, c: Config, sel: string, args: seq<Value>)
    requires c.current < |c.frames| && args != []
    ensures SamePlaces(c, SendTo(w, t, c, sel, args))
  {
    hide Invoke;
    var d := c.WithStack(c.Stack() + args).Record(SendE(sel, false, args));
    if w.lookup(args[0], sel, c.history).Some? {
      InvokePlaces(w, t, d, w.lookup(args[0], sel, c.history).value, args);
    }
  }

  lemma DispatchPlaces(w: World, t: Table, c: Config, sel: string, toSuper: bool, found: Option<Invokable>,
                       args: seq<Value>)
    requires c.current < |c.frames| && 0 < |args| <= |c.Stack()|
    ensures SamePlaces(c, Dispatch(w, t, c, sel, toSuper, found, args))
  {
    hide Invoke, SendTo;
    var d := c.Record(SendE(sel, toSuper, args));
    match found
    case Some(inv) => InvokePlaces(w, t, d, inv, args);
    case None =>
      var e := d.WithStack(d.Stack()[..|d.Stack()| - |args|]).Record(ArrayE(if toSuper then args else args[1..]));
      SendToPlaces(w, t, e, DNU, [args[0], SymV(sel), ArrayV(|d.history|)]);
  }

  lemma PopFrameAndPushPlaces(t: Table, c: Config, v: Value)
    requires c.current < |c.frames|
    ensures SamePlaces(c, PopFrameAndPush(t, c, v)) && PopFrameAndPush(t, c, v).frames[c.current].pc == c.Top().pc
  {
  }

  lemma {:induction false} UnwindPlaces(c: Config, home: nat)
    requires c.current < |c.frames|
    ensures |Unwind(c, home).frames| == |c.frames|
    ensures forall i | 0 <= i < |c.frames| :: Unwind(c, home).frames[i].pc == c.frames[i].pc
    decreases c.current
  {
    var d := PopFrame(c);
    if c.current != home && d.status == Running && d.current < c.current {
      UnwindPlaces(d, home);
    }
  }

  lemma ReturnNonLocalPlaces(t: Table, c: Config)
    requires c.current < |c.frames|
    ensures SamePlaces(c, DoReturnNonLocal(t, c))
  {
    hide Unwind, PopFrameAndPush;
    var n := |c.Stack()|;
    if n > 0 {
      var d := c.WithStack(c.Stack()[..n - 1]);
      var home := OuterContext(d.frames, d.current);
      if home.Some? {
        UnwindPlaces(d, home.value);
        var e := Unwind(d, home.value);
        if e.current < |e.frames| {
          PopFrameAndPushPlaces(t, e, c.Stack()[n - 1]);
        }
      }
    }
  }

  lemma ExecutePlaces(w: World, t: Table, c: Config, i: Instr, lits: seq<Value>)
    requires c.current < |c.frames|
    ensures SamePlaces(c, Execute(w, t, c, i, lits))
  {
    hide Invoke, SendTo, Dispatch, Unwind, DoReturnNonLocal, PopFrameAndPush, Arity, Selector, SelfOf,
      OuterContext, ContextAt;
    var n := |c.Stack()|;
    match i
    case Send(k) =>
      var sel := Selector(lits, k);
      ArityPositive(sel);
      if n >= Arity(sel) {
        var args := c.Stack()[n - Arity(sel)..];
        DispatchPlaces(w, t, c, sel, false, w.lookup(args[0], sel, c.history), args);
      }
    case SuperSend(k) =>
      var sel := Selector(lits, k);
      ArityPositive(sel);
      var o := OuterContext(c.frames, c.current);
      if o.Some? && n >= Arity(sel) {
        var args := c.Stack()[n - Arity(sel)..];
        DispatchPlaces(w, t, c, sel, true, w.superLookup(c.frames[o.value].code, sel, c.history), args);
      }
    case PushGlobal(k) =>
      var self := SelfOf(c.frames, c.current);
      if self.Some? {
        SendToPlaces(w, t, c, UNKNOWN_GLOBAL, [self.value, SymV(Selector(lits, k))]);
      }
    case ReturnLocal =>
      if n > 0 {
        PopFrameAndPushPlaces(t, c.WithStack(c.Stack()[..n - 1]), c.Stack()[n - 1]);
      }
    case ReturnNonLocal => ReturnNonLocalPlaces(t, c);
    case _ =>
  }

  lemma InvUp(t: Table, c: Config)
    requires Inv(t, c)
    ensures c.Up()
  {
  }

  lemma BootKept(w: World, t: Table, c: Config)
    requires c.Up() && BootWaits(c)
    ensures Step(w, t, c).status == Running ==> BootWaits(Step(w, t, c))
  {
    hide Execute;
    var i := Fetch(t, c);
    if c.current == 0 {
      Bootstrap(w, t, c);
    } else if i.Some? {
      ExecutePlaces(w, t, Advance(c), i.value, LiteralsOf(t, c.Top().code));
    }
  }

  lemma Bootstrap(w: World, t: Table, c: Config)
    requires c.Up() && c.current == 0
    ensures Step(w, t, c) == Advance(c).(status := Halted)
  {
  }

  lemma Opcodes(i: Instr)
    ensures Opcode(i) == 0 <==> i.Halt?
    ensures Opcode(i) == 1 <==> i.Dup?
    ensures Opcode(i) == 2 <==> i.PushLocal?
    ensures Opcode(i) == 3 <==> i.PushArgument?
    ensures Opcode(i) == 4 <==> i.PushField?
    ensures Opcode(i) == 5 <==> i.PushBlock?
    ensures Opcode(i) == 6 <==> i.PushConstant?
    ensures Opcode(i) == 7 <==> i.PushGlobal?
    ensures Opcode(i) == 8 <==> i.Pop?
    ensures Opcode(i) == 9 <==> i.PopLocal?
    ensures Opcode(i) == 10 <==> i.PopArgument?
    ensures Opcode(i) == 11 <==> i.PopField?
    ensures Opcode(i) == 12 <==> i.Send?
    ensures Opcode(i) == 13 <==> i.SuperSend?
    ensures Opcode(i) == 14 <==> i.ReturnLocal?
    ensures Opcode(i) == 15 <==> i.ReturnNonLocal?
    ensures Opcode(i) < 16
  {
  }

  /** What the handlers rely on, in every good state. */
  lemma Enabled(w: World, t: Table, c: Config, k: nat)
    requires TableOk(t) && WorldOk(w, t) && Mid(t, c, k)
    ensures var i, d := InstrAt(t, c, k), Execute(w, t, c, InstrAt(t, c, k), Lits(t, c));
            && !i.Halt? && c.status == Running && 0 < c.current < |c.frames| && c.Top().code in t
            && |c.Stack()| <= t[c.Top().code].meth.maxStack && Lits(t, c) == t[c.Top().code].meth.literals
            && (i.Dup? || i.Pop? || i.PopField? ==> |c.Stack()| > 0)
            && (i.PushConstant? ==> i.lit < |Lits(t, c)|)
            && (i.PushBlock? ==> i.lit < |Lits(t, c)| && Lits(t, c)[i.lit].CodeV?)
            && SelfOf(c.frames, c.current).Some?
            && (if i.ReturnNonLocal? then d.status in {Running, EscapedBlock}
                else !i.PushField? && !i.PopField? ==> d.status == Running)
  {
    hide Execute, SelfOf, LinkOk, FrameInv, ValuesInv, GoodHistory, WorldOk, TableOk;
    MethodFacts(t, c.Top().code, k);
    SelfExists(t, c, c.current);
    ExecuteInv(w, t, c, k);
  }

  lemma FrameBytes(f: VMFrame)
    requires f.Ok()
    ensures f.methodObject.bytecodes == Encode(f.instrs) && f.bytecodeIndex == Offset(f.instrs, f.pc)
  {
  }

  /** What must hold for an invocation to succeed. */
  lemma InvokeCases(w: World, t: Table, c: Config, inv: Invokable, args: seq<Value>)
    requires c.current < |c.frames| && c.status == Running && Invoke(w, t, c, inv, args).status == Running
    ensures 0 < |args| <= |c.Stack()|
    ensures inv.MethodI? ==> inv.code in t && t[inv.code].meth.Args() == |args|
    ensures inv.MethodI? ==> Invoke(w, t, c, inv, args) == PushFrame(c, NewFrame(t, inv.code, None, c.current, args))
    ensures inv.EvaluateI? ==>
              inv.argc == |args| && WellMade(t, c.frames, args[0]) && t[args[0].code].meth.Args() == |args|
    ensures inv.EvaluateI? ==>
              Invoke(w, t, c, inv, args) == PushFrame(c, NewFrame(t, args[0].code, Some(args[0].home), c.current, args))
  {
  }

  lemma LevelZero(f: VMFrame)
    ensures f.ContextLevel(0) == f
  {
  }

  /** The cases of a non-local return. */
  lemma ReturnCases(t: Table, c: Config, d: Config)
    requires c.current < |c.frames| && c.status == Running && DoReturnNonLocal(t, c).status in {Running, EscapedBlock}
    requires |c.Stack()| > 0 ==> d == c.WithStack(c.Stack()[..|c.Stack()| - 1])
    ensures |c.Stack()| > 0 && d.current < |d.frames| && OuterContext(d.frames, d.current).Some?
    ensures var home := OuterContext(d.frames, d.current).value;
            if d.frames[home].previous.None? then DoReturnNonLocal(t, c) == d.(status := EscapedBlock)
            else Unwind(d, home).status == Running && Unwind(d, home).current < |Unwind(d, home).frames| &&
                 DoReturnNonLocal(t, c) == PopFrameAndPush(t, Unwind(d, home), c.Stack()[|c.Stack()| - 1]) &&
                 DoReturnNonLocal(t, c).status == Running && Unwind(d, home).current > 0
  {
  }

  lemma UnwindStep(c: Config, home: nat)
    requires c.current < |c.frames| && c.status == Running && c.current != home && Unwind(c, home).status == Running
    ensures var d := PopFrame(c);
            d.status == Running && d.current < c.current && d.current < |d.frames| && Unwind(d, home) == Unwind(c, home)
  {
  }

  lemma UnwindDone(c: Config)
    requires c.current < |c.frames|
    ensures Unwind(c, c.current) == c
  {
  }

  /** The frame that a call makes, before its arguments are copied. */
  lemma NewAbs(f: VMFrame, t: Table, home: Option<nat>, current: nat)
    requires f.Ok() && f.code in t && f.Args() == Nils(t[f.code].meth.Args()) &&
             f.Locals() == Nils(t[f.code].meth.locals)
    requires f.Operands() == [] && f.pc == 0 && home == if f.context == null then None else Some(f.context.num)
    requires f.previous != null && f.previous.num == current
    ensures f.Abs() == NewFrame(t, f.code, home, current, Nils(t[f.code].meth.Args()))
  {
  }

  ghost predicate ImagesOk(methods: map<nat, GenerationContext.VMMethod>, t: Table) {
    methods.Keys == t.Keys && forall code | code in t :: methods[code] == GenerationContext.Image(t[code].meth)
  }

  lemma ImagesAre(methods: map<nat, GenerationContext.VMMethod>, t: Table, code: nat)
    requires ImagesOk(methods, t) && code in t
    ensures code in methods && methods[code] == GenerationContext.Image(t[code].meth)
  {
  }

  lemma BootstrapBytes()
    ensures Encode([Halt]) == [0]
  {
    assert [Halt][1..] == [];
  }
}

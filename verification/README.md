# CSOM, modelled and verified in Dafny

CSOM is a small Smalltalk virtual machine in C.  This project models the parts of it that are hardest
to get right, in the form the program has, and proves them for all inputs, all runs and all reachable
states.  `dafny verify dfyconfig.toml` checks everything.

## What is modelled

**The compiler and the interpreter.**  A token sequence goes through the recursive-descent parser
(`Parser`), which emits bytecode into a generation context (`GenerationContext`) as it reads; the
interpreter (`Interpreter`, on frames in memory, `Frames`) runs it.  Four descriptions of the same
program are proved to agree:

1. tokens and the imperative parser, with its one token of lookahead, its 1024-byte code buffer and its
   elided POP: `Parser` emits exactly what `CodeGen` says of the syntax tree (`Syntax`, `Grammar`,
   `Emission`);
2. the code of a tree, as a function: `CodeGen`, with `CodeOperands` (literal references and variable
   operands are right) and `CodeShape` (every expression has net stack effect +1; the scanned depth is
   the exact peak);
3. the meaning of the source, told without bytecode, stacks or slot numbers: `Semantics` evaluates trees
   over activations that bind names to values;
4. the machine, as a function from states to states: `Machine`, and the same machine on mutable frames:
   `Interpreter`.

`WholeProgram.MeaningPreserved` is the main result: the compiled program halts with a value after a
given sequence of sends, primitive calls and field writes if and only if its source evaluates to it with
exactly that sequence.  It rests on a simulation (`Simulation`, `Steps`, `Returns`, `Correctness`) that
covers chained assignments, cascades of unary, binary and keyword messages, super sends,
doesNotUnderstand:arguments:, unknownGlobal:, blocks as closures, non-local returns and `restart`.
Classes, primitives, object fields and globals are an arbitrary environment (`Machine.World`), whose
answers may depend on everything that has happened before.  `VirtualMachine.InterpretTexts` starts from
tokens: `Classdefs` parses whole class definitions, `Listing` and `Linking` show that the methods and blocks
of any well-formed texts, each named by a token of its own, make up a program as the theorem wants it.

What the four have in common is stated once more on its own, without the notions they share.  `Decompile`
reads bytecode back through its literals and scopes: the words of compiled code are the source in postfix
order, with a super send exactly where the first message after the word super is written.  `Messages` says
the same of what an evaluation records, and writes out what the virtual machine sends on its own.
`Parameters` says which argument a parameter is bound to.  `Written` lists the tokens of every phrase: a text
is read as a tree if and only if it starts with the tokens of that tree; and by `Unambiguous` no text has two
trees.

Beside it stands safety, for every table of methods with stack discipline and not only compiled ones
(`FrameInvariant`, `SafeRuns`): at every moment every operand height is the static height of its place,
frames are never outgrown, contexts mirror the nesting of the source, and the frames with a previous
frame are exactly those on the chain (`Chains`), which is what the check before a non-local return relies
on.  `CompiledRuns` shows that compiled programs are such tables, and `Lexical` that (index, level) pairs
address the variable that scoping means.  That a compiled program never gets stuck is false as it stands:
an assignment to a name that is declared nowhere is compiled to POP_FIELD (src/compiler/Parser.c:378-380),
and stores through the index -1.  `Example.UndeclaredStoreGetsStuck` is such a program,
`CompiledFields.StuckAtFields` says that a run is stuck if and only if it has named a field that the receiver
lacks, and `CompiledFields.DeclaredFieldsAreFound` gives conditions that can be read off the source and the
classes: assigned names are declared, self is neither assigned nor redeclared, and a method is found only
where its fields are.  `FieldSafety` proves them enough, by tracking which operands are self.
`Example.HypothesesCanBeMet` and `Example.TextsCanBeMet` give a program, as trees and as tokens, that meets
the hypotheses of the theorems.

**The heap.**  `Collector` is the mark-sweep collector and first-fit allocator on an array of words: a
recursive mark, one sweep that links free entries into the list while it walks, a coalescing pass, and an
allocator that splits entries.  `HeapTiles` and `HeapMoves` hold the layout (objects and free entries tile
the heap without gaps; the free list is threaded through it in address order), `HeapGraph` reachability and
marks, `HeapSweep` the sweep, and `HeapSound` what holds between operations.  A free list that is not empty
is not an invariant: `Collector.ListExhausted` says exactly when an allocation empties it, and `Allocate`
and `Collect` that the following dereference of NULL happens exactly then, and `Collector.Exhaustion` makes it
happen on every new heap.

**Tables and classes.**  `Probing` and `HashTables` are the open-addressing map, refined to a finite map;
`Symbols` is symbol interning on top of it; `Classes` is method and field lookup along the superclass chain.
A put never replaces a value: the new entry stands behind the old one.  A rehash reads the slots in order, so
it gives every key the value of its lowest slot, and it keeps every lookup if and only if, for every key, the
first entry before the key's home and the first one from its home on agree where both exist
(`Probing.RehashKeeps`).  Tables without duplicates satisfy that, and so do tables whose keys are all at home
in slot 0.  Those are the tables of the VM: symbols and primitives are put only after a failed get, and all
symbols, the keys of the globals, have the hash 0 (src/vmobjects/VMString.c:97), so a global keeps its first
value through every rehash (`Globals`).  The class as such gives no more: `HashTables.RehashReordersDuplicates`
builds, by puts into a new table of the default size, one whose rehash changes a value.

## How the model reads the source

- Objects that the compiler allocates are named by the token they come from; a block object is named by
  its method and by the frame it was made in; a frame is named by its place among all frames ever made.
- The pure machine calls a state *stuck* where C leaves the behaviour undefined (NULL dereferences, accesses
  out of bounds).  Compiled programs get there only at a field that the receiver does not have.
- The grammar at the head of Parser.c lets any binary selector follow a pound sign; the code does not take a
  minus sign there (src/compiler/Parser.c:391-393), and it reads literal arrays and doubles, which that grammar
  does not have.  The model follows the code.
- Byte-wide operands and depths are modelled with their wrap-around.  Results that need it ask for at most
  256 literals and scopes (`CodeGen.WithinLimits`) and a peak of at most 255; `ComputedDepthIsExact` and
  `CompiledShape` show that the latter is not only sufficient but necessary.
- Exits (`Universe_error_exit`, the allocator's failure) are results: `TooLong`, `NotEnoughHeap`,
  `NullDereference`.
- Heap sizes are counted in words of eight bytes; address 0 is NULL and lies below the heap.
- The comment above `gc_mark_object` speaks of objects inside the heap; the code also takes the address just
  behind it for one (it compares with `<=`).  The heap's invariant excludes references to that one address
  (`HeapGraph.Known`), and nothing is claimed about them.

## Reading the table

The first 37 rows, down to `Classes.VMClass.ResolvedFieldInBounds`, are the main results.  The rows after
them are the steps those rest on, in the order of the parts above, and, from `Interpreter.Interpreter.HandleDup`
on, the small operations.

## Model

| member | source | states |
|---|---|---|
| WholeProgram.MeaningPreserved | src/compiler/Parser.c:606-1138 | A started program halts with value v after the sends, primitive calls and field writes h if and only if its source, read by a name-based evaluator without stacks, slots or bytecode, evaluates to v with exactly h, for every program, world, value and history. |
| WholeProgram.FailuresPreserved | src/interpreter/Interpreter.c:334-374 | The compiled program reaches a return from a method that is gone, or behaviour C leaves undefined, exactly when the source does. |
| VirtualMachine.InterpretTexts | src/vm/Universe.c:398-422 | From tokens to an answer: for every sequence of well-formed class texts within the limits, the texts are parsed and compiled, or too long; the interpreter runs the main method on what was assembled, answers only what the source that the tokens spell evaluates to, and with declared names never gets stuck. |
| VirtualMachine.Interpret | src/vm/Universe.c:398-422 | Started on a compiled program, the interpreter answers a value only if the source evaluates to that value with the recorded history; it is stuck if and only if one of its steps named a missing field, and never if names are declared. |
| Messages.ExprRecords | src/compiler/Parser.c:742-766 | In a world whose lookups find ordinary primitives, an evaluated expression has recorded exactly the messages that are written in it, once each and in postfix order, to super exactly where the first message after the word super stands, each answered by what its receiver's class, or the superclass of the running method's holder, finds. |
| Decompile.CompiledReads | src/compiler/Parser.c:606-1138 | Every compiled method and block, read back instruction by instruction through its literals and scopes, is its source in postfix order: names, objects, messages with their selectors, copies, stores and returns; and it calls to super exactly where the first message after the word super is written. |
| SafeRuns.RunInv | src/interpreter/Interpreter.c:392-434 | The invariant (heights equal the static ones, suspended frames miss exactly the result to come, slots suffice, contexts mirror nesting) holds in every running state of every run. |
| CompiledRuns.CompiledProgramsAreSafe | src/interpreter/Interpreter.c:392-434 | As long as a compiled program runs, it keeps the invariant: it never underflows or outgrows a frame and never addresses a missing slot; its next step keeps it so, ends the program, or names a field the receiver lacks. |
| CompiledFields.DeclaredFieldsAreFound | src/compiler/GenerationContexts.c:142-149 | A program whose assignments are to names it declares, and that neither assigns nor redeclares self, never gets stuck, in every world that finds a method only for receivers with its fields and in which a class has its superclass's fields, started on a receiver with the main method's fields. |
| CompiledFields.StuckAtFields | src/interpreter/Interpreter.c:157-170 | A run of a compiled program is stuck after n steps if and only if one of its first n steps named a field that the receiver lacks. |
| Example.UndeclaredStoreGetsStuck | src/compiler/Parser.c:378-380 | An assignment to an undeclared name is compiled to a field store, and does get stuck: a program that meets all hypotheses but that one, and its run. |
| Lexical.Addressing | src/compiler/GenerationContexts.c:112-139 | In any run, a name resolves at compile time exactly when an activation on the context chain binds it, and its (index, level) pair leads to the slot of the innermost one that does. |
| Returns.StepReturnNonLocal | src/interpreter/Interpreter.c:334-382 | The check for a previous frame tells a live home from a dead one: `^` leaves the home method if that is still running, and is the escaped-block outcome otherwise. |
| StackDepth.ComputedDepthIsExact | src/compiler/GenerationContexts.c:152-193 | On code that never dips below its start, the byte-wide scan computes the exact peak height if and only if that peak is at most 255. |
| CodeShape.CompiledShape | src/vmobjects/VMMethod.c:75-97 | The stack size stored in every compiled method is its exact peak if and only if that peak fits a byte. |
| Parser.Lexer.Method | src/compiler/Parser.c:543-552 | For every token sequence that starts with a method definition, the method object is the image of the compiled source, and the blocks in it have been assembled, in order; it stops if and only if the method or a block in it is too long. |
| Classdefs.Classdef | src/compiler/Parser.c:420-476 | For every token sequence that starts with a class definition: name, superclass, fields (those of the superclass, then the declared ones) and method lists of both sides are those of the definition, and every method and block is assembled with the fields of its own side; stops if and only if one is too long. |
| Written.ClassWritten | src/compiler/Parser.c:43-190 | A token sequence is read as a given class definition if and only if it starts with the tokens of that definition, written out kind by kind and text by text, and reading it leaves what stands behind them. |
| Unambiguous.ClassOne | src/compiler/Parser.c:43-190 | A token sequence is the definition of at most one class, in at most one way. |
| VirtualMachine.LinkedStartable | src/compiler/SourcecodeCompiler.c:50-82 | For every sequence of class texts whose tokens are as the lexer delivers them and have different ids, within the limits of the bytecode: their methods and blocks make up a program that meets what the main theorems ask, and the objects assembled while parsing are its methods. |
| Linking.CompileAll | src/compiler/SourcecodeCompiler.c:50-82 | Parsing all class texts collects, by id, exactly the compiled methods and blocks written in them; it stops if and only if one of those is too long. |
| Interpreter.Interpreter.Iterate | src/interpreter/Interpreter.c:392-434 | One iteration of the loop on frames in memory is one step of the machine, from every good state; it goes on exactly if the machine still runs. |
| Interpreter.Interpreter.Start | src/interpreter/Interpreter.c:392-434 | n iterations are n steps of the machine. |
| Collector.Heap.MarkReachableObjects | src/memory/gc.c:145-166 | Afterwards an object is marked if and only if it is reached from the key or value of some global, or from the current frame when there is one, written out without the list of roots. |
| Collector.Heap.Sweep | src/memory/gc.c:256-316 | One pass classifies every block rightly, ends at the heap's end, and frees exactly the unmarked objects. |
| Collector.Heap.MergeFreeSpaces | src/memory/gc.c:441-469 | Terminates, keeps objects and free words, leaves no two adjacent free entries, and recomputes the free size as their sum. |
| Collector.Heap.Collect | src/memory/gc.c:249-329 | Succeeds if and only if there is a free entry to start from; then exactly the objects reached from a global's key or value or from the frame remain, the frame among them, in place, with all words and cleared marks, and the rest is free in as few entries as possible. |
| Collector.Heap.Allocate | src/memory/gc.c:332-411 | Collects exactly when free space is low and nothing forbids it; then the lowest free tile of exactly size words or at least size + 2 is taken, whole or split; NotEnoughHeap if and only if there is none; the free size stays the sum of the free entries. |
| Collector.ListExhausted | src/memory/gc.c:362-366 | An allocation empties the free list exactly when it takes the whole of the only entry; the next allocation or collection then dereferences NULL. |
| Collector.Exhaustion | src/memory/gc.c:332-366 | It does happen: from every new heap, allocating all of it succeeds, and the next allocation dereferences NULL. |
| Probing.RehashKeeps | src/misc/Hashmap.c:260-280 | A rehash keeps every lookup if and only if, for every key, the first entry before the key's home and the first one from its home on hold the same value where both exist. |
| HashTables.Hashmap.Put | src/misc/Hashmap.c:236-257 | For every table and key, what every lookup yields afterwards; which slot is filled, and what size the table grows to; the overflow exit is unreachable; a put of an absent key into a table without duplicates is the update of a finite map. |
| HashTables.RehashReordersDuplicates | src/misc/Hashmap.c:236-280 | A run of the class in which a rehash changes a value: from a new table of 101 slots, a sequence of puts before which a key's lookup yields one value and after which, by the rehash in the last put, it yields another. |
| Globals.Dictionary.SetGlobal | src/vm/Universe.c:772-775 | Stores a value for a name that has none, and changes no other; a name that has a value keeps it. |
| Symbols.SymbolTable.SymbolsFor | src/vm/Universe.c:495-501 | Over any sequence of calls, two calls answer the same symbol if and only if their strings are equal, and every symbol answered stays interned. |
| Classes.VMClass.LookupInvokable | src/vmobjects/VMClass.c:275-294 | The nearest definition along the superclass chain, or none if there is none. |
| Classes.VMClass.ResolvedFieldInBounds | src/vm/Universe.c:619-627 | A field resolved at compile time is found in bounds, under its name, in every instance of every subclass. |
| WholeProgram.Preservation | src/vm/Universe.c:398-422 | For every amount of fuel there is a number of steps after which the machine shows the outcome of the source evaluator; an evaluation that runs out of fuel is a run at least that long. |
| Messages.SendRecords | src/interpreter/Interpreter.c:86-122 | One message is recorded, with its selector, whether it goes to super, and its arguments, and the lookup is the one that this asks for. |
| Messages.NotUnderstood | src/interpreter/Interpreter.c:113-120 | When the lookup finds nothing, the evaluator records the message, the array of its arguments and `doesNotUnderstand:arguments:` with receiver, selector and array, and answers what that message answers. |
| Messages.GlobalUnknown | src/interpreter/Interpreter.c:203-212 | For a name that nothing binds and no global has, `unknownGlobal:` with the name is sent to self. |
| Messages.LiteralEvaluates | src/compiler/Parser.c:958-1075 | A literal evaluates to what is written: the number of its kind and text with its sign, the string, the symbol, the array whose k-th element is the object of the k-th literal, and no other element. |
| Machine.UnknownMessage | src/interpreter/Interpreter.c:113-120 | After a lookup that found nothing, the machine's history goes on with the message, the array and `doesNotUnderstand:arguments:` with receiver, selector and that array. |
| Machine.UnknownGlobal | src/interpreter/Interpreter.c:203-212 | After a global that is not there, the machine's history goes on with `unknownGlobal:`, to self, with the name. |
| Parameters.MethodParameters | src/compiler/Parser.c:560-603 | A new activation of a method binds self to the receiver and every parameter, at its first mention, to the argument behind as many as there are different names before it; nothing else is bound, and every local is nil. |
| Parameters.BlockParameters | src/compiler/Parser.c:1105-1122 | The same for a block, whose first argument is the block itself. |
| Parameters.BindsDistinct | src/compiler/Parser.c:560-603 | If the names differ, the k-th name is bound to the k-th argument. |
| Parameters.AddedAt | src/misc/List.c:153-157 | Names that are added if absent stand, at their first mention, behind as many as there are different names before it. |
| Correctness.SimExpr | src/compiler/Parser.c:742-766 | From any state that represents a source state, running the code of an expression, chained assignments included, ends behind that code with the value on top of an otherwise unchanged stack, and in the represented final state, or leaves the frame as the source says. |
| Correctness.SimBody | src/compiler/Parser.c:697-739 | Running the code of a method or block body returns, locally or non-locally, the value the source body has; empty blocks answer nil, methods without a return answer self, and the elided POP changes nothing. |
| Correctness.SimSend | src/interpreter/Interpreter.c:86-122 | A send of the machine, whether it finds a method, a primitive, a block evaluation or `restart`, or ends in doesNotUnderstand:arguments:, does what the source says of the same message, with the same arguments in the same order. |
| Correctness.SimArgs | src/compiler/Parser.c:918-935 | The arguments of a keyword message are evaluated and pushed from left to right. |
| Returns.ReturnFromFrame | src/interpreter/Interpreter.c:55-83 | Returning from any frame on the chain, local or not, leaves its caller with the result in place of receiver and arguments, and ends exactly the frames from it on. |
| Lexical.SelfAgrees | src/interpreter/Interpreter.c:458-461 | At any nesting of blocks, `Interpreter_get_self` answers the receiver of the method the code stands in. |
| Lexical.PushedSelfIsSelf | src/compiler/Parser.c:800-811 | The word self, compiled at any depth, addresses argument 0 of the outermost context, unless a scope redeclares the name. |
| Lexical.OutermostAgrees | src/vmobjects/VMFrame.c:138-144 | The outermost context of a frame is the activation of the method the running block is written in. |
| CodeOperands.FindVarInBounds | src/compiler/GenerationContexts.c:112-139 | A resolved index lies inside the argument or local list of the scope its level designates. |
| CodeOperands.LiteralStable | src/misc/List.c:153-157 | An index found for a literal while compiling designates that literal in the finished table, if the table has at most 256 entries. |
| CodeOperands.BodyOperands | src/compiler/BytecodeGeneration.c:75-142 | Every operand the generator emits designates a slot of an enclosing scope, a selector, a literal, or a block of the body, of the right kind. |
| Decompile.BodyReads | src/compiler/Parser.c:697-739 | The same for a body: a return inside a block goes home, a block ends with its last value, a method without a return ends with self. |
| Decompile.ExprReads | src/compiler/Parser.c:742-766 | The same for an expression, whose value is copied once for every target and then stored in the order the targets are written. |
| Decompile.SuperUnary | src/compiler/Parser.c:850-861 | After the word super, the first unary message is a super send of its selector and all later messages are ordinary ones. |
| Decompile.SuperBinary | src/compiler/Parser.c:863-877 | After the word super, the first binary message is a super send of its selector and all later ones are ordinary. |
| Decompile.SuperKeywords | src/compiler/Parser.c:918-935 | After the word super, a keyword message is a super send of all its keywords. |
| Decompile.NoSuperSend | src/compiler/BytecodeGeneration.c:135-142 | Code of an expression in which no operand is the word super holds no super send. |
| Decompile.KeywordsSpelled | src/compiler/Parser.c:918-935 | The selector of a keyword message is its keywords, one behind the other. |
| Decompile.LiteralDenotes | src/compiler/Parser.c:958-1075 | The object of a number has its kind, text and sign; those of strings and symbols have their text; that of an array has the objects of its elements. |
| Decompile.ArrayDenotes | src/compiler/Parser.c:1058-1075 | The k-th element of a literal array is the object of the k-th literal, and there are as many as literals. |
| Decompile.LiteralsDiffer | src/compiler/Parser.c:958-1075 | Literals that differ in sign, kind or text, at any depth of an array, have different objects. |
| Signature.NumberOfArguments | src/vmobjects/Signature.c:35-58 | The colon-counting loop computes the arity of every selector, told by its characters. |
| Signature.ArityIs | src/vmobjects/Signature.c:35-58 | The arity is two for a selector that starts with one of the fourteen operator characters, and else one more than the number of colons in it. |
| Signature.ConcatParts | src/compiler/Parser.c:918-935 | Concatenation keeps the keywords in their order. |
| Signature.ConcatAt | src/compiler/Parser.c:918-935 | Keyword i stands behind the keywords before it and in front of those after it. |
| Signature.BlockSignatureIs | src/compiler/Parser.c:1114-1120 | The signature is `$block method` and one colon for every argument but the block. |
| Signature.ValueSelectorIs | src/vmobjects/VMEvaluationPrimitive.c:96-120 | The selector is `value` for the block alone, and `value:` followed by a `with:` for every argument after the first. |
| Signature.UnaryArity | src/vmobjects/Signature.c:35-58 | An identifier has arity 1. |
| Signature.KeywordArity | src/compiler/Parser.c:918-935 | The selector concatenated from n keywords has arity n + 1. |
| Signature.BlockSignatureArity | src/compiler/Parser.c:1114-1120 | The signature made up for a block has the arity of its argument list. |
| Signature.ValueSelectorArity | src/vmobjects/VMEvaluationPrimitive.c:96-120 | The value:with:... selector for n arguments has arity n. |
| Signature.ComputeSignatureString | src/vmobjects/VMEvaluationPrimitive.c:96-120 | The strcat loop builds exactly that selector. |
| Grammar.PatternArity | src/compiler/Parser.c:560-603 | A method signature has one argument more than its pattern names; the argument list is that long if and only if the names differ from each other and from self. |
| Bytecodes.DecodeAtOffset | src/interpreter/bytecodes.h:55-100 | Fetching at the offset of instruction k of any code decodes instruction k, and its table length leads to the next boundary. |
| Bytecodes.BytesAt | src/interpreter/bytecodes.h:55-72 | The operand bytes after an opcode are the operands that were emitted. |
| StackDepth.HeightAt | src/compiler/GenerationContexts.c:152-193 | Every instruction boundary of such code has one static height, between 0 and the peak, with enough operands for the next instruction. |
| CodeShape.ExprShape | src/compiler/Parser.c:742-766 | Every compiled expression has net effect +1 and never dips below the height it starts at. |
| CodeShape.BodyShape | src/compiler/Parser.c:697-739 | Statements start and end at height 0, and the return stands at height 1. |
| SafeRuns.StepInv | src/interpreter/Interpreter.c:392-434 | One step from a state satisfying the frame invariant leads to such a state, to HALT of the bootstrap frame, to an escaped block, or to a field the receiver lacks; for every table of methods with stack discipline and every world that hands out only blocks it was given. |
| SafeRuns.OperandsFit | src/vm/Universe.c:583-602 | At every moment of every run, operands fit the slots allotted to their frame, the three extra ones included, and the current height is the static one. |
| SafeRuns.DoReturnNonLocalInv | src/interpreter/Interpreter.c:334-382 | A non-local return either finds its home off the chain or unwinds to it and keeps the invariant. |
| SafeRuns.DispatchInv | src/interpreter/Interpreter.c:86-122 | A send, found or ending in doesNotUnderstand:arguments:, keeps the invariant. |
| SafeRuns.DoPushGlobalInv | src/interpreter/Interpreter.c:197-215 | Pushing a global, or sending unknownGlobal:, keeps the invariant. |
| FrameInvariant.ContextMirrors | src/vmobjects/VMFrame.c:125-135 | In a good state, walking `level` contexts leads to a frame of the method or block `level` scopes out. |
| CompiledRuns.CompiledTableOk | src/vmobjects/VMMethod.c:75-97 | Every table of compiled methods has the stack discipline that the invariant needs. |
| CompiledFields.BodySegment | src/compiler/Parser.c:365-381 | Compiled from declared names, code names only fields of its class, stores nowhere into the receiver, and sends to super nothing but the receiver. |
| FieldSafety.StepSelf | src/interpreter/Interpreter.c:392-434 | For every table of methods with those three properties: one step finds its field, and afterwards the receiver of every frame still has the fields of the frame's method, and every operand known to be self is self. |
| FieldSafety.SuperSelf | src/interpreter/Interpreter.c:281-322 | A super send finds its method for a receiver that has that method's fields, because that receiver is self. |
| FieldSafety.StoreSelf | src/interpreter/Interpreter.c:236-244 | No store, at any context level, changes the receiver of a method. |
| FieldSafety.ReturnNonLocalSelf | src/interpreter/Interpreter.c:334-382 | Nor does unwinding; the result that a waiting caller gets is not taken to be self. |
| Chains.LinkedPop | src/interpreter/Interpreter.c:55-67 | pop_frame takes the current frame, and no other, off the chain. |
| Chains.UnwindReaches | src/interpreter/Interpreter.c:376-379 | If the home is on the chain, unwinding ends at it with exactly the frames above it cleared. |
| Chains.UnwindIff | src/interpreter/Interpreter.c:342-379 | Unwinding ends at the home frame if and only if the home frame is on the chain, that is, has a previous frame. |
| GenerationContext.MethodGenc.FindVar | src/compiler/GenerationContexts.c:112-139 | The search through the out-parameters finds what the scopes say: locals before arguments, this context before the surrounding ones, one level per context. |
| GenerationContext.MethodGenc.ComputeStackDepth | src/compiler/GenerationContexts.c:152-193 | The loop over the bytes computes the scan of the instructions that were emitted. |
| GenerationContext.MethodGenc.FindLiteralIndex | src/compiler/GenerationContexts.c:104-109 | The index narrowed to a signed byte is stored as the same byte as the index itself. |
| GenerationContext.MethodGenc.Emit1 | src/compiler/BytecodeGeneration.c:49-51 | Appends the instruction, or stops exactly when the method would exceed 1024 bytes. |
| GenerationContext.MethodGenc.Emit2 | src/compiler/BytecodeGeneration.c:53-56 | The same for an instruction with one operand. |
| GenerationContext.MethodGenc.Emit3 | src/compiler/BytecodeGeneration.c:58-62 | The same for an instruction with two operands. |
| GenerationContext.MethodGenc.EmitMessage | src/compiler/BytecodeGeneration.c:135-142 | Emits the send, or super send, of the selector at its place in the literal table. |
| GenerationContext.MethodGenc.Elide | src/compiler/Parser.c:700-705 | Taking one byte back removes the POP, and nothing else. |
| GenerationContext.MethodGenc.Assemble | src/vmobjects/VMMethod.c:75-97 | The method object holds the signature, the number of locals, the scanned depth, all literals and all bytes. |
| Parser.Lexer.Accept | src/compiler/Parser.c:288-294 | Consumes the current token if and only if it is of the given kind. |
| Parser.Lexer.GenPushVariable | src/compiler/Parser.c:339-362 | Emits the push of the local, argument, field or global the name resolves to. |
| Parser.Lexer.GenPopVariable | src/compiler/Parser.c:365-381 | Emits the pop into the local, argument or field the name resolves to. |
| Parser.Lexer.Expression | src/compiler/Parser.c:742-748 | For every token sequence that starts with the phrase of an expression tree: consumes exactly that phrase and emits exactly its code and literals, or stops, exactly when a method or a block in it exceeds 1024 bytes. |
| Parser.Lexer.Assignation | src/compiler/Parser.c:751-766 | The same for chained assignments: the value is duplicated once per target and stored left to right. |
| Parser.Lexer.Assignments | src/compiler/Parser.c:769-787 | Collects the targets in order and enters them into the literal table. |
| Parser.Lexer.Evaluation | src/compiler/Parser.c:790-797 | The same for a primary and its messages. |
| Parser.Lexer.Messages | src/compiler/Parser.c:850-878 | Unary, binary and keyword messages in this order; only the first can go to super. |
| Parser.Lexer.UnaryMessages | src/compiler/Parser.c:881-889 | The cascade of unary messages. |
| Parser.Lexer.BinaryMessage | src/compiler/Parser.c:892-903 | The selector enters the table before the operand is compiled, and is sent after it. |
| Parser.Lexer.BinaryOperand | src/compiler/Parser.c:906-915 | Answers whether the next message would be a super send. |
| Parser.Lexer.KeywordMessage | src/compiler/Parser.c:918-935 | Concatenates the keywords while compiling the arguments, and sends the result. |
| Parser.Lexer.Formula | src/compiler/Parser.c:938-949 | An operand and its binary messages. |
| Parser.Lexer.Primary | src/compiler/Parser.c:800-842 | Variables, nested terms, blocks and literals; the next message goes to super if and only if the current token is an identifier whose text is super. |
| Parser.Lexer.Literal | src/compiler/Parser.c:979-984 | A number, string, symbol or array is entered into the literal table and pushed. |
| Parser.Lexer.GenerateBlock | src/compiler/Parser.c:819-834 | A block is generated in a context of its own and assembled into the method object of its source. |
| Parser.Lexer.NestedBlock | src/compiler/Parser.c:1105-1138 | Arguments, locals, signature and code of a block are those of its source. |
| Parser.Lexer.BlockBody | src/compiler/Parser.c:697-728 | Statements up to the end of the body, with the elided POP before a closing bracket. |
| Parser.Lexer.MethodBlock | src/compiler/Parser.c:606-621 | A body without a return answers self. |
| Parser.Lexer.Pattern | src/compiler/Parser.c:560-603 | Signature and argument list of unary, binary and keyword patterns. |
| Parser.FollowOutcome | src/compiler/Parser.c:697-709 | Eliding the POP and emitting a return fits exactly when emitting the POP did. |
| Listing.BodyAssembled | src/compiler/Parser.c:819-834 | What is assembled while a body is read are the compiled sources of its blocks and of the blocks in them, one each and in order, whatever the body stands in. |
| Listing.BodyNest | src/compiler/Parser.c:1105-1138 | Every block at any depth is listed as the source it is, with the scopes and fields of the method or block it stands in, and with the arity of its signature. |
| Listing.BodyRead | src/compiler/Parser.c:819-834 | A body read from tokens has well-formed selectors, and every block in it is named by a token of its own. |
| Linking.ClassRead | src/compiler/Parser.c:420-476 | The methods and blocks of a class text, on both sides, are named by tokens of their own, well-formed, and nested as they are written. |
| Linking.TextsUnique | src/compiler/SourcecodeCompiler.c:50-82 | In class texts whose tokens have different ids, every method and block has an id of its own. |
| Linking.LinkedGood | src/compiler/SourcecodeCompiler.c:50-82 | Sources that are listed whole, each under an id of its own, with well-formed bodies and within limits, are a program with correct parents, scopes, arities and compiled methods. |
| Linking.LinkedImages | src/vmobjects/VMMethod.c:75-97 | The objects assembled while parsing are, id by id, the compiled methods of that program, and no others. |
| Classdefs.ClassHead | src/compiler/Parser.c:420-430 | The name, and the fields that the superclass hands down. |
| Classdefs.Members | src/compiler/Parser.c:431-449 | The declared fields follow those of the superclass, and every method is compiled with all of them. |
| Classdefs.ClassSide | src/compiler/Parser.c:451-475 | After a separator, the class side is compiled with the fields of the class side. |
| Classdefs.Definitions | src/compiler/Parser.c:431-449 | The loop over method definitions: one entry per definition, none for a primitive, and every object assembled in order. |
| Classdefs.MethodDefinition | src/compiler/Parser.c:543-552 | One definition: its object is that of its compiled source, assembled after the blocks in it. |
| Classdefs.Superclass | src/compiler/Parser.c:479-516 | Object unless another name is given; a class without superclass gets the four fields of Class on its class side. |
| Classdefs.Sides | src/compiler/Parser.c:420-476 | Both sides in turn: their fields, method lists and assembled objects. |
| Classdefs.FieldsAre | src/compiler/Parser.c:479-516 | The fields of either side are those of the superclass followed by the declared ones; without a superclass the class side starts with superClass, name, instanceFields and instanceInvokables. |
| Classdefs.InvokableAt | src/compiler/Parser.c:431-449 | The k-th entry of a method list is the k-th method: none for a primitive, and else the object compiled from it. |
| Classdefs.FieldNames | src/compiler/Parser.c:519-540 | The names between bars, in order, repeated ones included. |
| Grammar.EvaluationSecond | src/compiler/Parser.c:742-748 | One token of lookahead tells assignments from other expressions. |
| Written.ExprWritten | src/compiler/Parser.c:90-190 | The same for expressions. |
| Written.BodyWritten | src/compiler/Parser.c:90-120 | The same for bodies, which are read up to the token that ends them. |
| Written.DefinitionWritten | src/compiler/Parser.c:543-621 | The same for method definitions. |
| Written.LiteralWritten | src/compiler/Parser.c:979-1075 | The same for literals; the tokens that may follow a pound sign are listed. |
| Written.AfterIs | src/compiler/Parser.c:270-318 | Reading given tokens succeeds if and only if each stands at its place, and leaves the rest. |
| Unambiguous.ExprOne | src/compiler/Parser.c:742-766 | The same for expressions that are followed by what may follow one. |
| Unambiguous.DefinitionOne | src/compiler/Parser.c:543-621 | The same for method definitions. |
| Frames.VMFrame.constructor | src/vm/Universe.c:583-602 | A new frame has nil arguments and locals, no operands, and room for the computed depth and three more. |
| Frames.VMFrame.Push | src/vmobjects/VMFrame.c:161-166 | Adds one operand and changes no argument or local. |
| Frames.VMFrame.Pop | src/vmobjects/VMFrame.c:153-158 | Takes the top operand and changes nothing else. |
| Frames.VMFrame.Restart | src/primitives/Block.c:50-53 | Restart goes back to the first instruction with no operands, and keeps arguments and locals. |
| Frames.VMFrame.CopyArgumentsFrom | src/vmobjects/VMFrame.c:255-266 | The arguments become the top operands of the other frame, in order. |
| Frames.VMFrame.GetContextLevel | src/vmobjects/VMFrame.c:125-135 | The loop walks exactly `level` contexts out. |
| Frames.VMFrame.GetOuterContext | src/vmobjects/VMFrame.c:138-144 | The loop ends at the outermost context. |
| Frames.VMFrame.SetLocal | src/vmobjects/VMFrame.c:217-223 | Changes one local of the context designated, and nothing else of that frame. |
| Frames.VMFrame.SetArgument | src/vmobjects/VMFrame.c:243-252 | Changes one argument of the context designated, and nothing else of that frame. |
| Interpreter.Interpreter.PushNewFrame | src/interpreter/Interpreter.c:437-440 | The new current frame has the given method and context and the old frame as its previous one; the others keep their contents. |
| Interpreter.Interpreter.InvokeMethod | src/vmobjects/VMMethod.c:213-218 | Invoking a method pushes a frame with the arguments copied in. |
| Interpreter.Interpreter.EvaluateBlock | src/vmobjects/VMEvaluationPrimitive.c:123-135 | Evaluating a block pushes a frame in the context the block was made in. |
| Interpreter.Interpreter.LeaveFrame | src/interpreter/Interpreter.c:55-67 | Makes the previous frame current and clears the link of the old one. |
| Interpreter.Interpreter.PopFrameAndPushResult | src/interpreter/Interpreter.c:70-83 | Pops as many operands as the left method has arguments, and pushes the result. |
| Interpreter.Interpreter.UnwindTo | src/interpreter/Interpreter.c:376-379 | The loop on frames in memory is the machine's unwinding. |
| Interpreter.Interpreter.HandlePushLocal | src/interpreter/Interpreter.c:133-142 | The handler does what the machine's instruction does, on frames in memory. |
| Interpreter.Interpreter.HandlePopArgument | src/interpreter/Interpreter.c:236-244 | The same for storing an argument, possibly of another frame. |
| Interpreter.Interpreter.HandlePushBlock | src/interpreter/Interpreter.c:173-185 | The block object refers to its method and to the current frame. |
| Interpreter.Interpreter.HandlePushGlobal | src/interpreter/Interpreter.c:197-215 | A known global is pushed; for an unknown one the history goes on with `unknownGlobal:`, to self, with its name. |
| Interpreter.Interpreter.SendMessage | src/vmobjects/VMObject.c:165-181 | Pushes receiver and arguments, looks the selector up and invokes. |
| Interpreter.Interpreter.DispatchFound | src/interpreter/Interpreter.c:86-122 | Invokes what was found; otherwise the history goes on with the message, the array of its arguments and `doesNotUnderstand:arguments:` with receiver, selector and that array. |
| Interpreter.Interpreter.HandleSend | src/interpreter/Interpreter.c:263-278 | The receiver is the operand below the arguments that the signature counts. |
| Interpreter.Interpreter.HandleSuperSend | src/interpreter/Interpreter.c:281-322 | The lookup starts above the class of the outermost context's method. |
| Interpreter.Interpreter.HandleReturnNonLocal | src/interpreter/Interpreter.c:334-382 | Unwinds to the outermost context if that has a previous frame. |
| Interpreter.Interpreter.FetchAndAdvance | src/interpreter/Interpreter.c:395-409 | From a boundary, fetches the instruction there and moves to the next boundary. |
| Interpreter.BootKept | src/vm/Universe.c:388-395 | Until it halts, the bootstrap frame stands before its only instruction. |
| HeapTiles.TiledOrders | src/memory/gc.c:260-312 | Objects and free entries are ordered by address and do not overlap. |
| HeapTiles.WordsConserved | src/memory/gc.c:441-469 | Free words and object words add up to the heap. |
| HeapGraph.MarksAreReachable | src/memory/gc.c:145-166 | Marks that start empty, cover the roots, follow only references and are closed under them are exactly the reachable objects. |
| HeapGraph.FollowedNext | src/vmobjects/VMObject.c:189-195 | Following one more reference keeps the marks closed and reached. |
| Collector.Heap.MarkObject | src/memory/gc.c:177-190 | Terminates on every graph, cyclic ones included; marks the object and closes the marks under references, changing nothing but mark words. |
| Collector.Heap.MarkReferences | src/vmobjects/VMObject.c:189-195 | Marks the class and every field of an object, and all they reach. |
| Collector.Heap.RootsAre | src/memory/gc.c:145-166 | The roots are the keys and values of the globals, and the current frame if there is one. |
| Collector.Heap.CollectedIs | src/memory/gc.c:249-329 | What collection keeps, written out: the objects that a global's key or value, or the frame, reaches, and no others. |
| Collector.Heap.FrameKept | src/memory/gc.c:159-165 | A current frame that is an object is one afterwards. |
| HeapGraph.RefWords | src/vmobjects/VMObject.c:189-195 | The references of an object are its class word and the words of its fields. |
| HeapSweep.CurrentFound | src/memory/gc.c:266-287 | The sweep's test tells free entries from objects, and decides rightly where a new entry is linked in. |
| HeapSweep.CurrentAdvances | src/memory/gc.c:265-269 | The current entry only moves to a free entry before the cursor. |
| HeapSweep.SweepDead | src/memory/gc.c:288-309 | Freeing an object keeps the tiling, all links and all other objects. |
| Collector.Heap.FindEntry | src/memory/gc.c:265-269 | The inner loop ends at the last free entry before the cursor, or at the first of all. |
| Collector.Heap.FreeObjectAt | src/memory/gc.c:288-309 | The object becomes a free entry between its free neighbours, and the list head follows. |
| HeapSound.SweptSound | src/memory/gc.c:249-316 | Marking and sweeping leave exactly the live objects, with all their words, in a sound heap. |
| Collector.Heap.AppendNext | src/memory/gc.c:450-459 | Joins an entry with its neighbour; no object is touched. |
| HeapSound.LiveIsClosed | src/memory/gc.c:177-190 | What a live object refers to is live. |
| HeapSound.KeptSound | src/memory/gc.c:249-319 | Dropping objects that neither roots nor other objects refer to keeps the heap sound. |
| Collector.Heap.TakeFirstFit | src/memory/gc.c:348-400 | The search takes the lowest free tile of exactly size words or at least size + 2; it gives up if and only if the list is not empty and every free tile is smaller and not exact, and dereferences NULL if and only if the list is empty. |
| HeapSweep.NoneFits | src/memory/gc.c:348-358 | No entry fits if and only if every free tile is smaller than size + 2 words and not exactly size words. |
| HeapSweep.FirstFitIs | src/memory/gc.c:348-358 | The entry taken is the lowest free tile of exactly size words or at least size + 2. |
| HeapSweep.TakenIs | src/memory/gc.c:362-390 | An exact entry becomes the object; a larger one is split into the object and a free rest. |
| Collector.Heap.SearchFit | src/memory/gc.c:348-358 | The loop over the list ends at that entry, with its predecessor, or at NULL if there is none. |
| Collector.Heap.CollectIfLow | src/memory/gc.c:335-342 | Collects if and only if the free size is at most the limit and collection is not forbidden. |
| Collector.Heap.TakeEntryAt | src/memory/gc.c:362-409 | Removing or splitting the entry keeps the tiling, the list and every object, and clears the block given away. |
| Collector.Heap.AllocateObject | src/memory/gc.c:414-423 | The same for the size in bytes rounded up to words; a cleared object of that size; the heap is sound again, and nothing else has changed. |
| Collector.Heap.SetNumberOfFields | src/vmobjects/VMObject.c:154-163 | The object has that many fields, all nil, and the same class; no other object changes, and the heap stays sound. |
| Collector.Heap.SetGlobal | src/vm/Universe.c:772-775 | A stored global is a root from then on, and the heap stays sound. |
| Collector.Heap.MoveGlobals | src/misc/Hashmap.c:260-280 | Whatever a rehash does to the order of the globals, they stay the same roots. |
| HeapSound.FieldsSound | src/vmobjects/VMObject.c:154-163 | Giving one object other fields, with known references in them, keeps the heap sound and changes the references of that object alone. |
| Collector.Heap.NothingLost | src/memory/gc.c:441-469 | At all times the free size and the objects add up to the heap, and the list is empty exactly when nothing is free. |
| Collector.Heap.StoreReference | src/vmobjects/VMObject.c:110-114 | Storing a reference changes that reference alone in the object graph, and keeps the heap sound. |
| Collector.Heap.constructor | src/memory/gc.c:494-516 | Initially the whole heap is one free entry. |
| Collector.PadBytes | src/memory/gc.h:39-39 | The padding rounds up to a multiple of the word size. |
| Probing.LookupExact | src/misc/Hashmap.c:142-155 | With no hole between an element and its home, probing finds a key if and only if some slot holds it. |
| Probing.LookupIs | src/misc/Hashmap.c:142-155 | A probe from hash modulo size finds the first entry with the key, cyclically, before any hole. |
| Probing.FillKeeps | src/misc/Hashmap.c:219-233 | Filling the first hole on a key's way keeps the probing invariant. |
| Probing.FillLookup | src/misc/Hashmap.c:236-248 | A put adds an absent key and no other; a present key keeps its value, the new entry is shadowed. |
| Probing.MovedNext | src/misc/Hashmap.c:260-280 | Moving elements in slot order to a new table gives each key the value of its lowest slot. |
| Probing.LookupRotated | src/misc/Hashmap.c:142-155 | Probing from a key's home finds what the lowest slot from the home on holds, and then what the lowest slot of all holds. |
| Probing.AgreeExact | src/misc/Hashmap.c:142-155 | A key's probed value is that of its lowest slot if and only if the first entries before and from its home on, where both exist, agree. |
| HashTables.Hashmap.PutKeepsExact | src/misc/Hashmap.c:236-257 | A put of a key keeps all other lookups, and its own if it was present, if and only if the table was not full or all its keys agree. |
| HashTables.NextPrimeOrNumber | src/misc/Hashmap.c:205-210 | The first listed prime not below k, or k when there is none. |
| HashTables.Hashmap.PrimitiveGet | src/misc/Hashmap.c:142-155 | The probing loop answers the first entry for the key before any hole, and ends after one round. |
| HashTables.Hashmap.Get | src/misc/Hashmap.c:160-164 | A value is found if and only if the key is in the table. |
| HashTables.Hashmap.ContainsKey | src/misc/Hashmap.c:286-289 | Tells whether the key is in the table. |
| HashTables.Hashmap.AttemptPut | src/misc/Hashmap.c:219-233 | Fails if and only if the table is full; otherwise takes the first hole. |
| HashTables.Hashmap.Rehash | src/misc/Hashmap.c:260-280 | Moves every element; the overflow exit is unreachable. |
| HashTables.Hashmap.Placed | src/misc/Hashmap.c:219-233 | A put into a table that is not full fills the first hole from hash modulo size on, and changes no other slot. |
| HashTables.Hashmap.Clear | src/misc/Hashmap.c:295-302 | No key is left. |
| Symbols.SymbolTable.Lookup | src/vmobjects/Symboltable.c:37-39 | Answers the symbol interned for these characters, if there is one. |
| Symbols.SymbolTable.Insert | src/vmobjects/Symboltable.c:42-45 | Adds the symbol under its characters; the table still has one entry per string. |
| Symbols.SymbolTable.SymbolFor | src/vm/Universe.c:495-501 | The one symbol with these characters, made on first use; all others stay. |
| Globals.Dictionary.RehashHarmless | src/vm/Universe.c:772-775 | All names hash to slot 0, so a rehash changes no global. |
| Globals.Dictionary.GetGlobal | src/vm/Universe.c:761-769 | The value of the name, if it has one. |
| Globals.Dictionary.HasGlobal | src/vm/Universe.c:778-781 | Tells whether the name has a value. |
| Classes.VMClass.AddInstanceInvokable | src/vmobjects/VMClass.c:310-327 | Changes the answer of lookup for exactly one selector; replaces in place or appends, and sets the holder only when it replaces. |
| Classes.VMClass.LookupFieldIndex | src/vmobjects/VMClass.c:297-307 | The greatest index of the name among superclass fields and own fields, or -1. |
| Classes.VMClass.GetInstanceFieldName | src/vmobjects/VMClass.c:341-354 | The name at an index of superclass fields followed by own fields. |
| Classes.VMClass.NumberOfInstanceFields | src/vmobjects/VMClass.c:357-363 | The number of all fields. |
| Classes.VMClass.FieldsInherited | src/vmobjects/VMClass.c:341-388 | A subclass has its superclass's fields at the same places. |
| Classes.VMClass.FieldsAre | src/vmobjects/VMClass.c:341-388 | The fields of a class are those of its superclass, in their order, followed by its own in theirs. |
| Classes.VMClass.FindFieldIsExact | src/compiler/GenerationContexts.c:142-149 | The compiler takes a name for a field if and only if instances have such a field. |
| Classes.VMObject.SetNamed | src/interpreter/Interpreter.c:247-260 | Storing in a named field changes what is read under that name, and no other. |
| Classes.NearestReplaced | src/vmobjects/VMClass.c:310-322 | Replacing the first definition of a signature changes the lookup of that signature alone. |
| Common.IndexOf | src/misc/List.c:213-220 | The least index of an element, or -1 if and only if it is absent. |
| Common.AddIfAbsent | src/misc/List.c:153-157 | Appends the element at the end if it is absent, and changes nothing if it is there. |
| Common.AddAllSnoc | src/misc/List.c:153-157 | Names are added one after the other, each behind those before it. |
| Common.AddAllDistinct | src/misc/List.c:153-157 | Names that differ are appended in their order. |
| Interpreter.Interpreter.HandleDup | src/interpreter/Interpreter.c:126-130 | Pushes the top operand again. |
| Interpreter.Interpreter.HandlePushArgument | src/interpreter/Interpreter.c:145-154 | Pushes the argument of the context designated. |
| Interpreter.Interpreter.HandlePopLocal | src/interpreter/Interpreter.c:224-233 | Pops into a local, possibly of another frame; no other frame changes. |
| Interpreter.Interpreter.HandlePushConstant | src/interpreter/Interpreter.c:188-194 | Pushes the literal that the operand designates. |
| Interpreter.Interpreter.HandlePushField | src/interpreter/Interpreter.c:157-170 | Pushes the field of self, or gets stuck if self has no such field. |
| Interpreter.Interpreter.HandlePopField | src/interpreter/Interpreter.c:247-260 | Pops into the field of self, and the write is recorded. |
| Interpreter.Interpreter.HandleReturnLocal | src/interpreter/Interpreter.c:325-331 | The top operand becomes the result for the caller. |
| Interpreter.Interpreter.GetSelf | src/interpreter/Interpreter.c:458-461 | Argument 0 of the outermost context. |
| Interpreter.Interpreter.InvokeFound | src/vmobjects/VMObject.c:165-181 | Invokes a method, a primitive, the block evaluation or restart, as the machine does. |
| Interpreter.Interpreter.ExecuteOne | src/interpreter/Interpreter.c:412-433 | The switch executes the fetched instruction, from every good state. |
| Interpreter.Interpreter.constructor | src/vm/Universe.c:389-395 | A bootstrap frame whose method is HALT. |
| Frames.VMFrame.ResetStackPointer | src/vmobjects/VMFrame.c:169-179 | Operands start right above arguments and locals. |
| Frames.VMFrame.GetStackElement | src/vmobjects/VMFrame.c:194-198 | The operand `index` below the top. |
| Frames.VMFrame.PopArguments | src/interpreter/Interpreter.c:77-79 | The popping loop takes exactly n operands. |
| Frames.VMFrame.GetLocal | src/vmobjects/VMFrame.c:208-214 | The local of the context designated. |
| Frames.VMFrame.GetArgument | src/vmobjects/VMFrame.c:233-240 | The argument of the context designated. |
| Frames.VMFrame.Advance | src/interpreter/Interpreter.c:403-408 | The bytecode index moves to the next instruction boundary. |
| GenerationContext.MethodGenc.constructor | src/compiler/GenerationContexts.c:82-94 | A context with no names, no literals and no code. |
| GenerationContext.MethodGenc.FindField | src/compiler/GenerationContexts.c:142-149 | Tells whether the holder has a field of this name. |
| GenerationContext.MethodGenc.EmitPushLocal | src/compiler/BytecodeGeneration.c:75-77 | Index and level, cut to bytes. |
| GenerationContext.MethodGenc.EmitPushArgument | src/compiler/BytecodeGeneration.c:80-82 | Index and level, cut to bytes. |
| GenerationContext.MethodGenc.EmitPopLocal | src/compiler/BytecodeGeneration.c:120-122 | Index and level, cut to bytes. |
| GenerationContext.MethodGenc.EmitPopArgument | src/compiler/BytecodeGeneration.c:125-127 | Index and level, cut to bytes. |
| GenerationContext.MethodGenc.EmitPushField | src/compiler/BytecodeGeneration.c:85-87 | The place of the name in the literal table, cut to a byte. |
| GenerationContext.MethodGenc.EmitPushBlock | src/compiler/BytecodeGeneration.c:90-92 | The place of the block method in the literal table. |
| GenerationContext.MethodGenc.EmitPushConstant | src/compiler/BytecodeGeneration.c:95-97 | The place of the constant in the literal table. |
| GenerationContext.MethodGenc.EmitPushGlobal | src/compiler/BytecodeGeneration.c:110-112 | The place of the name in the literal table. |
| GenerationContext.MethodGenc.EmitPopField | src/compiler/BytecodeGeneration.c:130-132 | The place of the name in the literal table. |
| Parser.Lexer.GetSym | src/compiler/Lexer.c:266-276 | Moves to the next token and forgets what was peeked. |
| Parser.Lexer.Peek | src/compiler/Lexer.c:367-394 | Looks at the next token without moving; looking twice finds the same token. |
| Parser.Lexer.Expect | src/compiler/Parser.c:309-318 | Consumes the token if it is the expected one, and only then. |
| Parser.Lexer.BinarySelector | src/compiler/Parser.c:632-652 | Consumes one operator token of any kind and answers its text. |
| Parser.Lexer.UnaryMessage | src/compiler/Parser.c:881-889 | The selector enters the literal table and is sent. |
| Parser.Lexer.BinaryMessages | src/compiler/Parser.c:938-949 | The cascade of binary messages, left to right. |
| Parser.Lexer.NestedTerm | src/compiler/Parser.c:952-956 | The expression between the brackets. |
| Parser.Lexer.BlockPrimary | src/compiler/Parser.c:819-834 | The assembled block is appended to the literals and pushed. |
| Parser.Lexer.CurrentLiteral | src/compiler/Parser.c:958-976 | The object of the literal read, with the kind, text and sign of its tokens; one token of lookahead tells an array from a symbol. |
| Parser.Lexer.ArrayLiteral | src/compiler/Parser.c:1058-1075 | The array whose k-th element is the object of the k-th literal up to the closing bracket, arrays in arrays included. |
| Parser.Lexer.LiteralNumber | src/compiler/Parser.c:987-1032 | A number of the kind and text of its token, negative if and only if a minus sign stands before it. |
| Parser.Lexer.LiteralSymbol | src/compiler/Parser.c:1035-1046 | The symbol whose text is that of the token behind the pound sign. |
| Parser.Lexer.StoreTargets | src/compiler/Parser.c:757-763 | As many DUPs as targets, then the stores in order. |
| Parser.Lexer.Assignment | src/compiler/Parser.c:779-787 | The assigned name becomes a literal. |
| Parser.Lexer.BlockContents | src/compiler/Parser.c:679-685 | Locals between bars, if any, and the body. |
| Parser.Lexer.LocalsDecl | src/compiler/Parser.c:688-694 | Adds each local once. |
| Parser.Lexer.BlockPattern | src/compiler/Parser.c:1141-1153 | Adds each parameter once. |
| Parser.Lexer.BlockHeader | src/compiler/Parser.c:1105-1122 | The block itself is its first argument; the signature is `$block method` and a colon for every other argument. |
| Parser.Lexer.FinishBlock | src/compiler/Parser.c:1126-1135 | An open block answers its last expression. |
| Parser.Lexer.EndOfBlock | src/compiler/Parser.c:700-714 | The POP before the end of a block is elided; an empty block answers nil. |
| Parser.Lexer.EndOfMethod | src/compiler/Parser.c:715-720 | A method that ends after a period answers self. |
| Parser.Lexer.Statement | src/compiler/Parser.c:721-727 | An expression; after a period, its value is popped and the rest follows. |
| Parser.Lexer.Result | src/compiler/Parser.c:731-739 | Returns non-locally in a block and locally in a method; a period may follow. |
| Parser.Lexer.ReadKeywordPattern | src/compiler/Parser.c:588-603 | Keywords are concatenated, argument names added once each. |
| Collector.Heap.MarkRoot | src/memory/gc.c:152-165 | Marking one more root keeps the marks closed and reached. |
| Collector.Heap.MarkField | src/vmobjects/VMObject.c:192-194 | Marks what one field refers to, and all that it reaches. |
| Collector.Heap.Clear | src/memory/gc.c:406-406 | Zeroes the given words and no others. |
| Collector.Heap.Unlink | src/memory/gc.c:364-370 | What came before the entry is followed by what is given. |
| Collector.Heap.SetFrame | src/interpreter/Interpreter.c:443-445 | The new frame is a root, the old one is none unless a global refers to it, and all other roots stay; the heap stays sound. |
| HashTables.Hashmap.constructor | src/misc/Hashmap.c:95-121 | An empty table of the given size. |
| Symbols.SymbolTable.constructor | src/vmobjects/Symboltable.c:48-50 | No symbol is interned yet. |
| Classes.VMClass.constructor | src/vmobjects/VMClass.c:100-140 | Fields and methods are set, and every method is told its holder. |
| Classes.VMClass.NumberOfSuperInstanceFields | src/vmobjects/VMClass.c:379-388 | The number of fields of the superclasses. |
| Classes.VMObject.constructor | src/vm/Universe.c:619-627 | An instance has room for all fields, all nil. |
| Classes.VMObject.GetNamed | src/interpreter/Interpreter.c:157-170 | Reads what is stored under the name. |
| Correctness.SimVariable | src/compiler/Parser.c:339-362 | Reading a variable pushes the value the scopes give it. |
| Correctness.SimGlobal | src/interpreter/Interpreter.c:197-215 | Reading a global pushes it, or sends unknownGlobal: to self. |
| Correctness.SimPrimary | src/compiler/Parser.c:800-842 | A primary pushes its value; a block, a closure over the current frame. |
| Correctness.SimUnaries | src/compiler/Parser.c:850-861 | Cascaded unary messages are sent left to right, each to the last answer. |
| Correctness.SimBinaries | src/compiler/Parser.c:863-877 | Cascaded binary messages likewise, each argument evaluated before its send. |
| Correctness.SimKeywords | src/compiler/Parser.c:918-935 | A keyword message is one send of the concatenated selector. |
| Correctness.SimAssign | src/compiler/Parser.c:757-763 | The stores of a chained assignment give every target the one value. |
| Correctness.SimStatement | src/compiler/Parser.c:721-727 | The value of a statement is dropped before the next. |
| Correctness.SimEmptyBlock | src/compiler/Parser.c:700-714 | An empty block answers the global nil. |
| Correctness.SimInvoked | src/vmobjects/VMMethod.c:213-218 | An invoked method, primitive or block ends as the source says, with its result in place of the arguments. |
| Steps.StepPushBound | src/vmobjects/VMFrame.c:208-240 | A push of a variable pushes the value bound to its name. |
| Steps.StepPopBound | src/vmobjects/VMFrame.c:217-252 | A store changes the binding of its name in one activation. |
| Steps.StepPushBlock | src/vm/Universe.c:555-563 | The pushed block remembers its method and the activation it is made in. |
| Returns.StepReturnLocal | src/interpreter/Interpreter.c:325-331 | A local return ends the activation with its value. |
| SafeRuns.InvokeInv | src/vmobjects/VMMethod.c:213-218 | Entering a method or block, applying a primitive, and restart keep the invariant. |
| SafeRuns.SendToInv | src/vmobjects/VMObject.c:165-181 | The VM's own sends fit the three spare slots. |
| SafeRuns.ReturnInv | src/interpreter/Interpreter.c:70-83 | After a return the caller is at its static height again. |
| SafeRuns.DoPushVariableInv | src/vmobjects/VMFrame.c:208-240 | The slot of every variable instruction exists. |
| CompiledRuns.AncestorScopes | src/compiler/Parser.c:819-824 | The scope `level` levels out is that of the method or block `level` contexts out. |
| HeapSound.StoreSound | src/vmobjects/VMObject.c:110-114 | Storing a known reference keeps the heap sound. |
| HeapSound.BlankSound | src/memory/gc.c:414-423 | A cleared object that nothing refers to keeps the heap sound. |
| HeapMoves.FreeObject | src/memory/gc.c:288-309 | Linking a freed object between its free neighbours keeps the layout. |
| HeapMoves.JoinEntries | src/memory/gc.c:450-459 | Joining neighbours keeps the layout. |
| HeapMoves.TakeEntry | src/memory/gc.c:362-370 | Taking a whole entry keeps the layout. |
| HeapMoves.SplitEntry | src/memory/gc.c:375-390 | Splitting an entry keeps the layout. |
| HeapSweep.SweepLive | src/memory/gc.c:282-286 | Removing a mark changes nothing else. |

## Left out

- Interpreter.Interpreter.HandleReturnNonLocal: the escapedBlock: recovery (src/interpreter/Interpreter.c:342-374) is a final outcome, because it pops as many values as the resumed frame's own method has arguments, not the block's, so that no static height holds after it.
- perform:withArguments: (src/primitives/Object.c:88-119) pushes an unbounded number of values; ordinary primitives pop their arguments and push one result.
- Interpreter.Interpreter.Start: runs a given number of iterations, because the loop of the source need not end.
- VirtualMachine.Interpret: the same bound; that the machine halts for some bound whenever the source evaluates is stated by WholeProgram.MeaningPreserved.
- Collector.Heap.Allocate: sizes are unbounded integers, so the wrap-around of `size + sizeof(struct _free_list_entry)` for sizes near 2^64 is not modelled.
- Survival of objects held only in C variables, or only by the symbol table: neither is a root; collection is stated relative to the roots the code marks.
- Overrides of mark_references that mark again what is already among an object's class and fields; free methods, which do nothing for heap objects.
- Reclaiming frames: in the interpreter model a frame, once made, stays in memory; the collector is modelled on words, separately.
- The VM's lists (src/misc/List.c) and arrays of fields and invokables are sequences that are reassigned: aliasing of one array by two classes is not captured.
- Class structure as seen by the machine: lookup, fields and globals are an arbitrary environment there, and are modelled concretely, on their own, in Classes.
- Holders of methods appended to a class, or of blocks, beyond what Classes.VMClass.AddInstanceInvokable states.
- The lexer below the level of tokens, files, line numbers, error messages and recovery.
- The word primitive as the name of a variable or parameter, which the identifier rule would also accept.
- Classdefs.Superclass: loading the superclass is a parameter that answers its fields; the order in which classes are loaded is not modelled.
- Assembling the class object itself (src/vmobjects/VMClass.c:100-140) from what Classdefs.Classdef collects; classes are modelled on their own, in Classes.
- Values of numbers and strings: a literal object is known by its token and text.  Floating point, string utilities, time and random primitives.
- Loading primitives dynamically, class path, Shell, Disassembler, main, statistics and heap dumps.
- HashTables.Hashmap.Get: a NULL value stored under a key cannot be told from an absent key in the source; values are taken to be other than NULL, and table sizes to stay below the width of size_t.

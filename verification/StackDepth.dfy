/** Static operand heights: bytecode has no jumps, so every instruction boundary has one. */
module StackDepth {
  import opened Common
  import opened Bytecodes
  import opened Signature

  /** The selector that literal k names. */
  function Selector(lits: seq<Value>, k: nat): string {
    if k < |lits| && lits[k].SymV? then lits[k].name else ""
  }

  /** How many operands an instruction takes. */
  function Need(i: Instr, lits: seq<Value>): nat {
    match i
    case Dup => 1
    case Pop => 1
    case PopLocal(_, _) => 1
    case PopArgument(_, _) => 1
    case PopField(_) => 1
    case Send(k) => Arity(Selector(lits, k))
    case SuperSend(k) => Arity(Selector(lits, k))
    case ReturnLocal => 1
    case ReturnNonLocal => 1
    case _ => 0
  }

  /** The change of `depth` in `method_genc_compute_stack_depth`. */
  function Effect(i: Instr, lits: seq<Value>): int {
    match i
    case Halt => 0
    case ReturnLocal => 0
    case ReturnNonLocal => 0
    case Pop => -1
    case PopLocal(_, _) => -1
    case PopArgument(_, _) => -1
    case PopField(_) => -1
    case Send(k) => 1 - Arity(Selector(lits, k))
    case SuperSend(k) => 1 - Arity(Selector(lits, k))
    case _ => 1
  }

  function Net(code: seq<Instr>, lits: seq<Value>): int {
    if code == [] then 0 else Effect(code[0], lits) + Net(code[1..], lits)
  }

  /** Starting at height h, every instruction finds the operands it takes above height 0. */
  predicate NeverDips(code: seq<Instr>, lits: seq<Value>, h: int) {
    code == [] ||
    (Need(code[0], lits) <= h && NeverDips(code[1..], lits, h + Effect(code[0], lits)))
  }

  /** The greatest height at an instruction boundary. */
  function Peak(code: seq<Instr>, lits: seq<Value>, h: int): (p: int)
    ensures p >= h
  {
    if code == [] then h
    else
      var p := Peak(code[1..], lits, h + Effect(code[0], lits));
      if p > h then p else h
  }

  /** What the scan of `method_genc_compute_stack_depth` computes, in `uint8_t` arithmetic. */
  function Scan(code: seq<Instr>, lits: seq<Value>, depth: byte, max: byte): byte {
    if code == [] then max
    else
      var d := ToByte(depth + Effect(code[0], lits));
      Scan(code[1..], lits, d, if d > max then d else max)
  }

  // ----- concatenation -----

  lemma {:induction false} NetConcat(a: seq<Instr>, b: seq<Instr>, lits: seq<Value>)
    ensures Net(a + b, lits) == Net(a, lits) + Net(b, lits)
  {
    if a == [] {
      assert a + b == b;
    } else {
      assert (a + b)[1..] == a[1..] + b;
      NetConcat(a[1..], b, lits);
    }
  }

  lemma {:induction false} NeverDipsConcat(a: seq<Instr>, b: seq<Instr>, lits: seq<Value>, h: int)
    ensures NeverDips(a + b, lits, h) <==> NeverDips(a, lits, h) && NeverDips(b, lits, h + Net(a, lits))
  {
    if a == [] {
      assert a + b == b;
    } else {
      assert (a + b)[1..] == a[1..] + b;
      NeverDipsConcat(a[1..], b, lits, h + Effect(a[0], lits));
    }
  }

  lemma {:induction false} NeverDipsHigher(a: seq<Instr>, lits: seq<Value>, h: int, g: int)
    requires NeverDips(a, lits, h) && h <= g
    ensures NeverDips(a, lits, g)
  {
    if a != [] {
      NeverDipsHigher(a[1..], lits, h + Effect(a[0], lits), g + Effect(a[0], lits));
    }
  }

  lemma {:induction false} PeakConcat(a: seq<Instr>, b: seq<Instr>, lits: seq<Value>, h: int)
    ensures Peak(a + b, lits, h) >= Peak(a, lits, h)
    ensures Peak(a + b, lits, h) >= Peak(b, lits, h + Net(a, lits))
  {
    if a == [] {
      assert a + b == b;
    } else {
      assert (a + b)[1..] == a[1..] + b;
      PeakConcat(a[1..], b, lits, h + Effect(a[0], lits));
    }
  }

  /** The height before instruction k, with the bounds every boundary obeys. */
  lemma HeightAt(code: seq<Instr>, lits: seq<Value>, k: nat)
    requires k <= |code| && NeverDips(code, lits, 0)
    ensures 0 <= Net(code[..k], lits) <= Peak(code, lits, 0)
    ensures k < |code| ==> Need(code[k], lits) <= Net(code[..k], lits)
    ensures k < |code| ==> Net(code[..k + 1], lits) == Net(code[..k], lits) + Effect(code[k], lits)
  {
    assert code == code[..k] + code[k..];
    NetConcat(code[..k], code[k..], lits);
    NeverDipsConcat(code[..k], code[k..], lits, 0);
    PeakConcat(code[..k], code[k..], lits, 0);
    NeverDipsStaysUp(code[..k], lits, 0);
    if k < |code| {
      assert code[..k + 1] == code[..k] + [code[k]];
      NetConcat(code[..k], [code[k]], lits);
      assert [code[k]][1..] == [];
    }
  }

  lemma {:induction false} NeverDipsStaysUp(a: seq<Instr>, lits: seq<Value>, h: int)
    requires NeverDips(a, lits, h) && h >= 0
    ensures h + Net(a, lits) >= 0
  {
    if a != [] {
      NeverDipsStaysUp(a[1..], lits, h + Effect(a[0], lits));
    }
  }

  // ----- the computed depth -----

  lemma {:induction false} ScanIsPeak(code: seq<Instr>, lits: seq<Value>, h: nat, max: byte)
    requires NeverDips(code, lits, h) && h <= max
    requires Peak(code, lits, h) <= 255
    ensures Scan(code, lits, h, max) == if Peak(code, lits, h) > max then Peak(code, lits, h) else max
  {
    if code != [] {
      var g := h + Effect(code[0], lits);
      assert 0 <= g <= 255;
      ScanIsPeak(code[1..], lits, g, if g > max then g else max);
    }
  }

  /** The depth computed for a method is its exact peak, if and only if that fits in a byte. */
  lemma ComputedDepthIsExact(code: seq<Instr>, lits: seq<Value>)
    requires NeverDips(code, lits, 0)
    ensures Scan(code, lits, 0, 0) == Peak(code, lits, 0) <==> Peak(code, lits, 0) <= 255
  {
    if Peak(code, lits, 0) <= 255 {
      ScanIsPeak(code, lits, 0, 0);
    }
  }
}

/** Local and non-local returns: the frames they take off the chain are the activations they end. */
module Returns {
  import opened Common
  import opened Bytecodes
  import opened Signature
  import opened CodeGen
  import opened Machine
  import opened Chains
  import opened Semantics
  import opened Simulation
  import opened Lexical
  import opened Steps

  lemma FramesCleared(P: Program, acts: seq<Activation>, frames: seq<Frame>, acts': seq<Activation>,
                      frames': seq<Frame>, h: nat)
    requires FramesOk(P, acts, frames) && 1 <= h
    requires |acts'| == |acts| && |frames'| == |frames|
    requires forall i | 0 <= i < |acts| :: acts'[i] == if i >= h then acts[i].(live := false) else acts[i]
    requires forall i | 0 <= i < |frames| ::
               frames'[i] == if i >= h then frames[i].(previous := None) else frames[i]
    ensures FramesOk(P, acts', frames')
  {
    forall i | 0 <= i < |frames'|
      ensures SameShape(acts'[i], frames'[i])
      ensures i > 0 ==> FrameOk(P, acts', frames', i)
    {
      assert SameShape(acts[i], frames[i]);
      assert i > 0 ==> FrameOk(P, acts, frames, i);
    }
  }

  lemma UnwindFrames(c: Config, h: nat)
    requires c.Up() && Linked(c.frames, c.current) && OnChain(c.frames, h) && h > 0
    ensures h <= c.current
    ensures var e := Unwind(c, h);
            && e.Up() && e.current == h
            && var d := PopFrame(e);
               && d.Up() && d.history == c.history && Linked(d.frames, d.current) && |d.frames| == |c.frames|
               && Some(d.current) == c.frames[h].previous && d.current < h
               && forall i | 0 <= i < |c.frames| ::
                    d.frames[i] == if i >= h then c.frames[i].(previous := None) else c.frames[i]
  {
    UnwindReaches(c, h);
    LinkedPop(Unwind(c, h));
  }

  /** The result replaces the arguments on the caller's stack. */
  lemma PushResult(P: Program, st: State, d: Config, stack: seq<Value>)
    requires RelEnd(P, st, d)
    ensures RelEnd(P, st, d.WithStack(stack))
  {
    var p := d.current;
    var f := d.Top().(stack := stack);
    NothingAbove(d.frames, p);
    assert p > 0 ==> FrameOk(P, st.acts, d.frames, p);
    FramesReplace(P, st.acts, d.frames, p, st.acts[p], f);
    assert st.acts[p := st.acts[p]] == st.acts;
    LinkedReplace(d.frames, p, p, f);
  }

  /** Unwinding to frame h and leaving it. */
  lemma LeaveFrame(P: Program, st: State, c: Config, h: nat)
    requires Rel(P, st, c) && OnChain(c.frames, h) && h > 0
    ensures h <= c.current && c.frames[h].code in P.src
    ensures var e := Unwind(c, h);
            && e.Up() && e.current == h && e.frames[h].code == c.frames[h].code
            && var d := PopFrame(e);
               && d.Up() && Some(d.current) == c.frames[h].previous && d.current < h
               && RelEnd(P, KillFrom(st, h), d) && |d.frames| == |c.frames|
               && (forall i | 0 <= i < h :: d.frames[i] == c.frames[i])
               && |c.frames[d.current].stack| >= Arity(P.src[c.frames[h].code].signature)
  {
    UnwindFrames(c, h);
    assert FrameOk(P, st.acts, c.frames, h);
    var d := PopFrame(Unwind(c, h));
    FramesCleared(P, st.acts, c.frames, KillFrom(st, h).acts, d.frames, h);
    assert d.frames[h].code == c.frames[h].code;
  }

  /** Unwinding to frame h and returning from it. */
  lemma ReturnFromFrame(P: Program, st: State, c: Config, h: nat, v: Value)
    requires Good(P) && Rel(P, st, c) && OnChain(c.frames, h) && h > 0
    ensures h <= c.current && c.frames[h].code in P.src
    ensures var e := Unwind(c, h);
            e.Up() && e.current == h &&
            var d := PopFrameAndPush(P.t, e, v);
            Returned(P, c, d, h, v) && RelEnd(P, KillFrom(st, h), d)
  {
    hide Good, Unwind, KillFrom, Compile, HasCode;
    LeaveFrame(P, st, c, h);
    var d := PopFrame(Unwind(c, h));
    EntryFacts(P, c.frames[h].code);
    var n := Arity(P.src[c.frames[h].code].signature);
    PushResult(P, KillFrom(st, h), d, d.Stack()[..|d.Stack()| - n] + [v]);
  }

  /** Ending the current activation is ending everything from it on. */
  lemma KillCurrent(P: Program, st: State, c: Config)
    requires Rel(P, st, c)
    ensures KillFrom(st, c.current) == Kill(st, c.current)
  {
    forall i | c.current < i < |st.acts|
      ensures !st.acts[i].live
    {
      assert SameShape(st.acts[i], c.frames[i]);
    }
    assert KillFrom(st, c.current).acts == Kill(st, c.current).acts;
  }

  lemma ReturnedAdvanced(P: Program, c: Config, base: seq<Value>, d: Config, h: nat, v: Value)
    requires c.Up() && Linked(c.frames, c.current) && h <= c.current
    requires Returned(P, Advance(c).WithStack(base), d, h, v)
    ensures Returned(P, c, d, h, v)
  {
    AdvancedStack(c, base);
  }

  lemma StepReturnLocal(P: Program, st: State, c: Config, base: seq<Value>, v: Value)
    requires Good(P) && Rel(P, st, c) && HasCode(P, c.Top(), [ReturnLocal]) && c.Stack() == base + [v]
    ensures var d := Step(P.w, P.t, c);
            Returned(P, c, d, c.current, v) && RelEnd(P, Kill(st, c.current), d)
  {
    hide Good, HasCode, Compile, Represents, PopFrameAndPush, KillFrom;
    StepExecutes(P, c, ReturnLocal);
    AdvancedStack(c, base);
    assert c.Stack()[..|c.Stack()| - 1] == base;
    LandsStack(P, st, c, base);
    var d := Advance(c).WithStack(base);
    CurrentInSource(P, st, c);
    ReturnFromFrame(P, st, d, c.current, v);
    KillCurrent(P, st, c);
    ReturnedAdvanced(P, c, base, PopFrameAndPush(P.t, d, v), c.current, v);
  }

  /** A block's return goes to the frame of its method if that is still running. */
  lemma StepReturnNonLocal(P: Program, st: State, c: Config, base: seq<Value>, v: Value)
    requires Good(P) && Rel(P, st, c) && HasCode(P, c.Top(), [ReturnNonLocal]) && c.Stack() == base + [v]
    ensures match ReturnHome(c.current, v, st)
            case Ok(_, _) => false
            case Left(why, st1) => Leaves(P, c, Step(P.w, P.t, c), 1, why, st1, 0)
  {
    hide Good, Unwind, KillFrom, Compile, HasCode, Step, PopFrameAndPush, Represents;
    StepExecutes(P, c, ReturnNonLocal);
    AdvancedStack(c, base);
    assert c.Stack()[..|c.Stack()| - 1] == base;
    LandsStack(P, st, c, base);
    var d := Advance(c).WithStack(base);
    OutermostAgrees(P, st.acts, c.frames, c.current);
    OuterAdvance(c, base, c.current);
    var home := OuterContext(c.frames, c.current).value;
    assert SameShape(st.acts[home], c.frames[home]);
    assert d.frames[home].previous == c.frames[home].previous;
    if st.acts[home].live {
      ReturnFromFrame(P, st, d, home, v);
      ReturnedAdvanced(P, c, base, PopFrameAndPush(P.t, Unwind(d, home), v), home, v);
    }
  }
}

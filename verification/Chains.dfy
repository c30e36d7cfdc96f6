/** The chain of running frames.  Leaving a frame clears its link to the previous one, so the
    frames that have a previous frame are exactly those on the chain: that is what the check
    before a non-local return relies on. */
module Chains {
  import opened Common
  import opened Machine

  /** The frame below a frame on the chain is the nearest older one on the chain. */
  predicate LinkOk(frames: seq<Frame>, i: nat)
    requires i < |frames|
  {
    frames[i].previous.Some? ==>
      var p := frames[i].previous.value;
      p < i && (p == 0 || frames[p].previous.Some?) &&
      forall j | p < j < i :: frames[j].previous.None?
  }

  /** The frames with a previous frame are exactly those on the chain from the current frame down. */
  predicate Linked(frames: seq<Frame>, current: nat) {
    && current < |frames| && frames[0].previous.None?
    && (current == 0 || frames[current].previous.Some?)
    && (forall i | current < i < |frames| :: frames[i].previous.None?)
    && (forall i {:trigger LinkOk(frames, i)} | 0 <= i < |frames| :: LinkOk(frames, i))
  }

  predicate OnChain(frames: seq<Frame>, i: nat) {
    i < |frames| && (i == 0 || frames[i].previous.Some?)
  }

  lemma LinkedEnter(frames: seq<Frame>, current: nat, f: Frame)
    requires Linked(frames, current) && f.previous == Some(current)
    ensures Linked(frames + [f], |frames|)
  {
    var frames' := frames + [f];
    forall i | 0 <= i < |frames'|
      ensures LinkOk(frames', i)
    {
      if i < |frames| {
        assert LinkOk(frames, i);
      }
    }
  }

  /** No frame was called from the current one. */
  lemma NothingAbove(frames: seq<Frame>, current: nat)
    requires Linked(frames, current)
    ensures forall i | 0 <= i < |frames| :: frames[i].previous != Some(current)
  {
    forall i | 0 <= i < |frames|
      ensures frames[i].previous != Some(current)
    {
      assert LinkOk(frames, i);
    }
  }

  lemma LinkedReplace(frames: seq<Frame>, current: nat, h: nat, f: Frame)
    requires Linked(frames, current) && h < |frames| && f.previous == frames[h].previous
    ensures Linked(frames[h := f], current)
  {
    var frames' := frames[h := f];
    forall i | 0 <= i < |frames'|
      ensures LinkOk(frames', i)
    {
      assert LinkOk(frames, i);
    }
  }

  /** `pop_frame` takes the current frame, and no other, off the chain. */
  lemma LinkedPop(c: Config)
    requires c.Up() && Linked(c.frames, c.current) && c.current > 0
    ensures var d := PopFrame(c);
            && d.status == Running && d.current < c.current
            && Some(d.current) == c.Top().previous
            && d.frames == c.frames[c.current := c.Top().(previous := None)]
            && Linked(d.frames, d.current)
            && forall i | d.current < i < |d.frames| :: d.frames[i].previous.None?
  {
    var d := PopFrame(c);
    assert LinkOk(c.frames, c.current);
    forall i | 0 <= i < |d.frames|
      ensures LinkOk(d.frames, i)
    {
      assert LinkOk(c.frames, i);
    }
  }

  /** The frames after leaving everything above `home`. */
  predicate ClearedAbove(before: seq<Frame>, after: seq<Frame>, home: nat) {
    && |after| == |before|
    && forall i | 0 <= i < |before| ::
         after[i] == if i > home then before[i].(previous := None) else before[i]
  }

  /** If the home frame is on the chain, the unwinding loop stops at it, with exactly the frames
      above it taken off the chain. */
  lemma {:induction false} UnwindReaches(c: Config, home: nat)
    requires c.Up() && Linked(c.frames, c.current)
    requires OnChain(c.frames, home)
    ensures home <= c.current
    ensures var d := Unwind(c, home);
            && d.status == Running && d.current == home && d.history == c.history
            && ClearedAbove(c.frames, d.frames, home)
            && Linked(d.frames, home)
    decreases c.current
  {
    if c.current != home {
      LinkedPop(c);
      assert LinkOk(c.frames, c.current);
      UnwindReaches(PopFrame(c), home);
    }
  }

  /** If it is not, the loop runs off the end of the chain. */
  lemma {:induction false} UnwindMisses(c: Config, home: nat)
    requires c.Up() && Linked(c.frames, c.current)
    requires !OnChain(c.frames, home)
    ensures Unwind(c, home).status == Stuck
    decreases c.current
  {
    assert c.current != home;
    if c.current > 0 {
      LinkedPop(c);
      UnwindMisses(PopFrame(c), home);
    }
  }

  /** The loop ends at the home frame if and only if the home frame is on the chain. */
  lemma UnwindIff(c: Config, home: nat)
    requires c.Up() && Linked(c.frames, c.current)
    ensures Unwind(c, home).status == Running && Unwind(c, home).current == home <==> OnChain(c.frames, home)
  {
    if OnChain(c.frames, home) {
      UnwindReaches(c, home);
    } else {
      UnwindMisses(c, home);
    }
  }
}

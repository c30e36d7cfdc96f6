/** Lexical addressing: the index and context level the compiler computes for a name lead, through
    the contexts of the running frame, to the slot of the variable that the name denotes. */
module Lexical {
  import opened Common
  import opened CodeGen
  import opened Machine
  import opened Semantics
  import opened Simulation

  lemma NamesOf(s: Source, act: Activation, f: Frame, name: string)
    requires Represents(s, act, f)
    ensures name in act.locals <==> IndexOf(s.locals, name) != -1
    ensures name in act.params <==> IndexOf(s.args, name) != -1
  {
  }

  lemma ParentScopes(P: Program, code: nat)
    requires Good(P) && code in P.src && P.src[code].parent.Some?
    ensures P.src[code].parent.value in P.src
    ensures P.src[code].outer == P.src[P.src[code].parent.value].Cx().scopes
  {
    assert SourceOk(P.src, code);
  }

  lemma OutermostScopes(P: Program, code: nat)
    requires Good(P) && code in P.src && P.src[code].parent.None?
    ensures P.src[code].outer == []
    ensures P.src[code].args != [] && P.src[code].args[0] == "self"
  {
    assert SourceOk(P.src, code);
  }

  /** The slot, in frame h, that a resolved name denotes. */
  predicate Denotes(P: Program, acts: seq<Activation>, frames: seq<Frame>, h: nat, name: string, s: Slot)
    requires |acts| == |frames|
  {
    && 1 <= h < |frames| && frames[h].code in P.src
    && (if s.isArgument
        then name !in acts[h].locals && name in acts[h].params &&
             s.index == IndexOf(P.src[frames[h].code].args, name)
        else name in acts[h].locals && s.index == IndexOf(P.src[frames[h].code].locals, name))
  }

  /** A name resolves at compile time exactly when some enclosing activation binds it, and then to
      the slot, and the context level, of the innermost one that does. */
  lemma {:induction false} Addressing(P: Program, acts: seq<Activation>, frames: seq<Frame>, a: nat, name: string)
    requires Good(P) && FramesOk(P, acts, frames) && 1 <= a < |frames|
    ensures frames[a].code in P.src
    ensures var r := FindVar(P.src[frames[a].code].Cx().scopes, name);
            && (r.None? <==> Binder(acts, a, name).None?)
            && (r.Some? ==>
                  && Binder(acts, a, name) == ContextAt(frames, a, r.value.level)
                  && Denotes(P, acts, frames, Binder(acts, a, name).value, name, r.value))
    decreases a
  {
    assert FrameOk(P, acts, frames, a) && SameShape(acts[a], frames[a]);
    var s := P.src[frames[a].code];
    var scopes := s.Cx().scopes;
    NamesOf(s, acts[a], frames[a], name);
    assert scopes[0] == s.Own() && scopes[1..] == s.outer;
    if IndexOf(s.locals, name) == -1 && IndexOf(s.args, name) == -1 {
      match frames[a].home
      case None =>
        OutermostScopes(P, frames[a].code);
      case Some(h) =>
        ParentScopes(P, frames[a].code);
        Addressing(P, acts, frames, h, name);
    }
  }

  /** The outermost context of a frame is the activation of the method it belongs to. */
  lemma {:induction false} OutermostAgrees(P: Program, acts: seq<Activation>, frames: seq<Frame>, a: nat)
    requires Good(P) && FramesOk(P, acts, frames) && 1 <= a < |frames|
    ensures Outermost(acts, a) == OuterContext(frames, a)
    ensures OuterContext(frames, a).Some?
    ensures var o := OuterContext(frames, a).value;
            1 <= o <= a && o < |acts| && frames[o].code in P.src && P.src[frames[o].code].parent.None?
    decreases a
  {
    assert FrameOk(P, acts, frames, a) && SameShape(acts[a], frames[a]);
    if frames[a].home.Some? {
      OutermostAgrees(P, acts, frames, frames[a].home.value);
    }
  }

  /** In a method, `self` is argument 0, and its value is in the frame's first slot. */
  lemma SelfSlot(P: Program, acts: seq<Activation>, frames: seq<Frame>, o: nat)
    requires Good(P) && FramesOk(P, acts, frames) && 1 <= o < |frames|
    requires frames[o].code in P.src && P.src[frames[o].code].parent.None?
    ensures frames[o].args != [] && "self" in acts[o].params
    ensures acts[o].params["self"] == frames[o].args[0]
  {
    assert FrameOk(P, acts, frames, o);
    OutermostScopes(P, frames[o].code);
    var args := P.src[frames[o].code].args;
    assert IndexOf(args, "self") == 0;
  }

  /** `Interpreter_get_self` finds the receiver of the method at any depth of nesting. */
  lemma SelfAgrees(P: Program, acts: seq<Activation>, frames: seq<Frame>, a: nat)
    requires Good(P) && FramesOk(P, acts, frames) && 1 <= a < |frames|
    ensures Self(acts, a) == SelfOf(frames, a)
    ensures SelfOf(frames, a).Some?
  {
    OutermostAgrees(P, acts, frames, a);
    SelfSlot(P, acts, frames, OuterContext(frames, a).value);
  }

  /** The word `self`, compiled at any depth, pushes what `Interpreter_get_self` answers, unless an
      enclosing scope declares a variable of that name. */
  lemma {:induction false} PushedSelfIsSelf(P: Program, acts: seq<Activation>, frames: seq<Frame>, a: nat)
    requires Good(P) && FramesOk(P, acts, frames) && 1 <= a < |frames|
    requires frames[a].code in P.src
    requires forall k | 0 <= k < |P.src[frames[a].code].Cx().scopes| ::
               var scope := P.src[frames[a].code].Cx().scopes[k];
               "self" !in scope.locals &&
               (k + 1 < |P.src[frames[a].code].Cx().scopes| ==> "self" !in scope.args)
    ensures var r := FindVar(P.src[frames[a].code].Cx().scopes, "self");
            r.Some? && r.value.isArgument && r.value.index == 0 &&
            r.value.level + 1 == |P.src[frames[a].code].Cx().scopes| &&
            ContextAt(frames, a, r.value.level) == OuterContext(frames, a)
    decreases a
  {
    assert FrameOk(P, acts, frames, a);
    var s := P.src[frames[a].code];
    var scopes := s.Cx().scopes;
    assert scopes[0] == s.Own() && scopes[1..] == s.outer;
    match frames[a].home
    case None =>
      OutermostScopes(P, frames[a].code);
      assert IndexOf(s.args, "self") == 0;
    case Some(h) =>
      ParentScopes(P, frames[a].code);
      assert FrameOk(P, acts, frames, h);
      assert forall k | 0 <= k < |s.outer| :: s.outer[k] == scopes[k + 1];
      PushedSelfIsSelf(P, acts, frames, h);
  }
}

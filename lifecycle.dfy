/** A portal's activation lifecycle, as a value. Each activation makes a new
    cancellation source and starts one warp loop, one enter loop and one exit
    loop under its token; deactivation and destruction cancel the current
    source. Cancellation sources are numbered in the order they are made, so
    a token is a number and only the newest one can still be live. The class
    PortalSystem.Portal keeps these fields and is proved to agree with the
    functions here. */
module Lifecycle {

  datatype LoopKind = WarpLoop | EnterLoop | ExitLoop

  /** A loop that was started, with the token it was started under. */
  datatype Loop = Loop(kind: LoopKind, token: nat)

  /** `sources`: how many cancellation sources have been made; the current one
      is number `sources`, and 0 means none has been made yet. `live`: the
      current source has not been cancelled. `loops`: every loop ever started,
      oldest first. */
  datatype Activation = Activation(sources: nat, live: bool, destroyed: bool, loops: seq<Loop>)

  /** A portal that has never been activated. */
  const Dormant := Activation(0, false, false, [])

  /** Whether the token of a started loop has been cancelled. */
  predicate Cancelled(a: Activation, token: nat)
  {
    !(a.live && token == a.sources)
  }

  /** The three loops one activation starts. */
  function LoopSet(token: nat): seq<Loop>
  {
    [Loop(WarpLoop, token), Loop(EnterLoop, token), Loop(ExitLoop, token)]
  }

  /** Activate: nothing once destroyed; otherwise cancel the current source,
      make a new one and start a loop set under its token. */
  function Activate(a: Activation): Activation
  {
    if a.destroyed then a
    else Activation(a.sources + 1, true, false, a.loops + LoopSet(a.sources + 1))
  }

  /** Deactivate: nothing once destroyed; otherwise cancel the current source. */
  function Deactivate(a: Activation): Activation
  {
    if a.destroyed then a else a.(live := false)
  }

  /** OnDestroy: cancel the current source and remember the destruction. */
  function Destroy(a: Activation): Activation
  {
    a.(live := false, destroyed := true)
  }

  /** Every started loop's token was made, a destroyed portal has nothing
      live, and without a source nothing is live. */
  ghost predicate WellFormed(a: Activation)
  {
    && (a.sources == 0 ==> !a.live)
    && (a.destroyed ==> !a.live)
    && (forall i :: 0 <= i < |a.loops| ==> 1 <= a.loops[i].token <= a.sources)
  }

  /** The loops of `loops` whose tokens are not cancelled in `a`, in order. */
  function Live(loops: seq<Loop>, a: Activation): seq<Loop>
  {
    if loops == [] then []
    else (if Cancelled(a, loops[0].token) then [] else [loops[0]]) + Live(loops[1..], a)
  }

  /** The loops that still do work. */
  function Running(a: Activation): seq<Loop>
  {
    Live(a.loops, a)
  }

  lemma {:induction false} LiveAppend(x: seq<Loop>, y: seq<Loop>, a: Activation)
    ensures Live(x + y, a) == Live(x, a) + Live(y, a)
  {
    if x == [] {
      assert x + y == y;
    } else {
      assert (x + y)[1..] == x[1..] + y;
      LiveAppend(x[1..], y, a);
    }
  }

  lemma {:induction false} LiveAllCancelled(loops: seq<Loop>, a: Activation)
    requires forall i :: 0 <= i < |loops| ==> Cancelled(a, loops[i].token)
    ensures Live(loops, a) == []
  {
    if loops != [] {
      LiveAllCancelled(loops[1..], a);
    }
  }

  lemma DormantWellFormed()
    ensures WellFormed(Dormant) && Running(Dormant) == []
  {
  }

  lemma StepsKeepWellFormed(a: Activation)
    requires WellFormed(a)
    ensures WellFormed(Activate(a)) && WellFormed(Deactivate(a)) && WellFormed(Destroy(a))
  {
  }

  /** Activating cancels every earlier token and leaves exactly the one new
      loop set running. */
  lemma ActivateRunsOneSet(a: Activation)
    requires WellFormed(a) && !a.destroyed
    ensures forall t: nat :: t <= a.sources ==> Cancelled(Activate(a), t)
    ensures Running(Activate(a)) == LoopSet(a.sources + 1)
  {
    var b, t := Activate(a), a.sources + 1;
    LiveAllCancelled(a.loops, b);
    LiveAppend(a.loops, LoopSet(t), b);
    var set3 := LoopSet(t);
    assert set3[1..] == [set3[1], set3[2]] && set3[1..][1..] == [set3[2]] && set3[1..][1..][1..] == [];
    assert Live(set3[1..][1..], b) == [set3[2]];
    assert Live(set3[1..], b) == [set3[1], set3[2]];
    assert Live(set3, b) == set3;
  }

  /** Activating twice in a row: the first set is cancelled, one set runs. */
  lemma ActivateTwiceRunsOneSet(a: Activation)
    requires WellFormed(a) && !a.destroyed
    ensures Running(Activate(Activate(a))) == LoopSet(a.sources + 2)
    ensures |Running(Activate(Activate(a)))| == 3
  {
    StepsKeepWellFormed(a);
    ActivateRunsOneSet(Activate(a));
  }

  /** After deactivation every token is cancelled and no loop does work. */
  lemma DeactivateStopsAll(a: Activation)
    requires WellFormed(a)
    ensures forall t :: Cancelled(Deactivate(a), t)
    ensures Running(Deactivate(a)) == []
  {
    LiveAllCancelled(a.loops, Deactivate(a));
  }

  /** After destruction every token is cancelled, no loop does work, and
      Activate and Deactivate change nothing. */
  lemma DestroyIsFinal(a: Activation)
    ensures forall t :: Cancelled(Destroy(a), t)
    ensures Running(Destroy(a)) == []
    ensures Activate(Destroy(a)) == Destroy(a) && Deactivate(Destroy(a)) == Destroy(a)
  {
    LiveAllCancelled(a.loops, Destroy(a));
  }
}

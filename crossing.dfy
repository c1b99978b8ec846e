/** The crossing bookkeeping of one portalable object, as a value: its
    containment counter, its (in, out) portal pair, its clone and the
    collider pairs it has told the physics engine to ignore. The class
    PortalSystem.PortalableObject performs these transitions in place and is
    proved to agree with the functions here. `P` stands for portals, `C` for
    colliders. */
module Crossing {
  import opened Wrappers
  import opened Geometry

  /** Where the clone is parked when the object leaves its last portal. */
  const ParkedPosition := Vec3(-1000.0, 1000.0, -1000.0)

  /** The object's live transform and, when it has a Rigidbody, its velocity. */
  datatype Body = Body(position: Vec3, rotation: Quat, scale: Vec3, velocity: Option<Vec3>)

  /** The clone game object: whether it is active, and its transform. */
  datatype Clone = Clone(active: bool, position: Vec3, rotation: Quat, scale: Vec3)

  /** `count` is the number of portal zones holding the object; `cloneLoops`
      the number of clone-sync loops that are running; `ignored` the
      (own collider, wall) pairs whose collisions are switched off. */
  datatype State<P, C(==)> = State(
    body: Body,
    clone: Clone,
    inPortal: Option<P>,
    outPortal: Option<P>,
    count: int,
    ignored: set<(C, C)>,
    cloneLoops: nat,
    destroyed: bool)

  /** The pairs one wall forms with each of the object's colliders. */
  function Pairs<C(==)>(colliders: seq<C>, wall: C): set<(C, C)>
  {
    if |colliders| == 0 then {}
    else Pairs(colliders[..|colliders| - 1], wall) + {(colliders[|colliders| - 1], wall)}
  }

  lemma {:induction false} PairsMembers<C>(colliders: seq<C>, wall: C, c: C, w: C)
    ensures (c, w) in Pairs(colliders, wall) <==> c in colliders && w == wall
  {
    if |colliders| > 0 {
      var front := colliders[..|colliders| - 1];
      PairsMembers(front, wall, c, w);
      assert colliders == front + [colliders[|colliders| - 1]];
    }
  }

  /** The ghost is shown exactly while the object is in some portal zone. */
  ghost predicate Coherent<P, C>(s: State<P, C>)
  {
    s.count >= 0 && (s.clone.active <==> s.count > 0)
  }

  /** The state right after initialisation: the clone freshly provided,
      hidden, with the object's scale; nothing entered yet. */
  function Initial<P, C(==)>(body: Body, clonePose: Pose): State<P, C>
  {
    State(body, Clone(false, clonePose.position, clonePose.rotation, body.scale),
          None, None, 0, {}, 0, false)
  }

  lemma InitialHidden<P, C>(body: Body, clonePose: Pose)
    ensures var s: State<P, C> := Initial(body, clonePose);
      Coherent(s) && s.count == 0 && !s.clone.active && s.clone.scale == body.scale && s.cloneLoops == 0
  {
  }

  /** EnterPortal: record the pair, ignore the wall, count one more zone,
      show the clone and start the sync loop on the first zone. */
  function Enter<P, C(==)>(s: State<P, C>, inPortal: P, outPortal: Option<P>, wall: Option<C>, colliders: seq<C>): State<P, C>
  {
    s.(inPortal := Some(inPortal),
       outPortal := outPortal,
       ignored := if wall.Some? then s.ignored + Pairs(colliders, wall.value) else s.ignored,
       count := s.count + 1,
       clone := s.clone.(active := true),
       cloneLoops := if s.count + 1 == 1 then s.cloneLoops + 1 else s.cloneLoops)
  }

  /** ExitPortal: stop ignoring the wall, count one zone fewer and, when no
      zone is left, hide the clone and park it. */
  function Exit<P, C(==)>(s: State<P, C>, wall: Option<C>, colliders: seq<C>): State<P, C>
  {
    s.(ignored := if wall.Some? then s.ignored - Pairs(colliders, wall.value) else s.ignored,
       count := s.count - 1,
       clone := if s.count - 1 == 0 then s.clone.(active := false, position := ParkedPosition) else s.clone)
  }

  lemma EnterCoherent<P, C>(s: State<P, C>, inPortal: P, outPortal: Option<P>, wall: Option<C>, colliders: seq<C>)
    requires Coherent(s)
    ensures var r := Enter(s, inPortal, outPortal, wall, colliders);
      Coherent(r) && r.count == s.count + 1 && r.clone.active
      && r.inPortal == Some(inPortal) && r.outPortal == outPortal
      && r.body == s.body
  {
  }

  /** The clone-sync loop is started exactly when the counter becomes 1. */
  lemma EnterStartsSyncOnFirstZone<P, C>(s: State<P, C>, inPortal: P, outPortal: Option<P>, wall: Option<C>, colliders: seq<C>)
    requires Coherent(s)
    ensures var r := Enter(s, inPortal, outPortal, wall, colliders);
      (r.cloneLoops == s.cloneLoops + 1 <==> r.count == 1)
      && (r.cloneLoops == s.cloneLoops <==> r.count != 1)
  {
  }

  /** Leaving a zone keeps the ghost coherent: the clone is hidden and parked
      exactly when the last zone is left, and stays shown otherwise. */
  lemma ExitCoherent<P, C>(s: State<P, C>, wall: Option<C>, colliders: seq<C>)
    requires Coherent(s) && s.count > 0
    ensures var r := Exit(s, wall, colliders);
      Coherent(r) && r.count == s.count - 1
      && (r.clone.active <==> s.count > 1)
      && (s.count == 1 ==> r.clone.position == ParkedPosition)
      && (s.count > 1 ==> r.clone == s.clone)
      && r.body == s.body && r.inPortal == s.inPortal && r.outPortal == s.outPortal
  {
  }

  /** With a wall, entering ignores every (collider, wall) pair and leaving
      restores every one of them, touching no pair with another wall. */
  lemma WallIgnoredWhileInside<P, C>(s: State<P, C>, inPortal: P, outPortal: Option<P>, wall: C, colliders: seq<C>)
    ensures forall c :: c in colliders ==> (c, wall) in Enter(s, inPortal, outPortal, Some(wall), colliders).ignored
    ensures forall c :: c in colliders ==> (c, wall) !in Exit(s, Some(wall), colliders).ignored
    ensures forall c, w :: w != wall ==>
      ((c, w) in Enter(s, inPortal, outPortal, Some(wall), colliders).ignored <==> (c, w) in s.ignored)
    ensures forall c, w :: w != wall ==>
      ((c, w) in Exit(s, Some(wall), colliders).ignored <==> (c, w) in s.ignored)
  {
    forall c, w {
      PairsMembers(colliders, wall, c, w);
    }
  }

  /** Without a wall the ignored set is left alone. */
  lemma NoWallNoIgnore<P, C>(s: State<P, C>, inPortal: P, outPortal: Option<P>, colliders: seq<C>)
    ensures Enter(s, inPortal, outPortal, None, colliders).ignored == s.ignored
    ensures Exit(s, None, colliders).ignored == s.ignored
  {
  }

  /** Entering (with the first sync turn) and then leaving through the same
      wall gives back the counter, the body and, when none of the wall's
      pairs was ignored before, the ignored set. */
  lemma EnterExitBalanced<P, C>(g: Warps, s: State<P, C>, inPortal: P, outPortal: Option<P>, wall: Option<C>,
                                colliders: seq<C>, inFrame: Pose, outFrame: Pose)
    requires wall.Some? ==> Pairs(colliders, wall.value) !! s.ignored
    ensures var r := Exit(EnterAndSync(g, s, inPortal, outPortal, wall, colliders, inFrame, outFrame), wall, colliders);
      r.count == s.count && r.ignored == s.ignored && r.body == s.body
  {
  }

  /** OnWarp: the body's transform goes through the pair; the velocity is
      warped only when there is a Rigidbody. */
  function WarpBody(g: Warps, b: Body, inFrame: Pose, outFrame: Pose): Body
  {
    b.(position := g.position(inFrame, outFrame, b.position),
       rotation := g.rotation(inFrame, outFrame, b.rotation),
       velocity := match b.velocity
                   case None => None
                   case Some(v) => Some(g.direction(inFrame, outFrame, v)))
  }

  /** SwapPortals. */
  function Swap<P, C(==)>(s: State<P, C>): State<P, C>
  {
    s.(inPortal := s.outPortal, outPortal := s.inPortal)
  }

  /** Warp: OnWarp under the frames of the stored pair, then SwapPortals. */
  function Warp<P, C(==)>(g: Warps, s: State<P, C>, inFrame: Pose, outFrame: Pose): State<P, C>
  {
    Swap(s.(body := WarpBody(g, s.body, inFrame, outFrame)))
  }

  lemma WarpEffect<P, C>(g: Warps, s: State<P, C>, inFrame: Pose, outFrame: Pose)
    ensures var r := Warp(g, s, inFrame, outFrame);
      && r.body.position == g.position(inFrame, outFrame, s.body.position)
      && r.body.rotation == g.rotation(inFrame, outFrame, s.body.rotation)
      && r.body.scale == s.body.scale
      && (s.body.velocity.None? ==> r.body.velocity.None?)
      && (s.body.velocity.Some? ==> r.body.velocity == Some(g.direction(inFrame, outFrame, s.body.velocity.value)))
      && r.inPortal == s.outPortal && r.outPortal == s.inPortal
      && r.count == s.count && r.clone == s.clone && r.ignored == s.ignored
      && (Coherent(s) ==> Coherent(r))
  {
  }

  /** Warping back swaps the pair back: two warps restore the original pair. */
  lemma WarpTwiceRestoresPair<P, C>(g: Warps, s: State<P, C>, inFrame: Pose, outFrame: Pose)
    ensures var r := Warp(g, Warp(g, s, inFrame, outFrame), outFrame, inFrame);
      r.inPortal == s.inPortal && r.outPortal == s.outPortal && r.count == s.count
  {
  }

  /** The condition under which a clone-sync loop goes on running. */
  predicate SyncContinues<P, C(==)>(s: State<P, C>)
  {
    !s.destroyed && s.count > 0 && s.inPortal.Some? && s.outPortal.Some?
  }

  /** UpdateActiveClone: the clone takes the warp of the live transform. */
  function SyncClone<P, C(==)>(g: Warps, s: State<P, C>, inFrame: Pose, outFrame: Pose): State<P, C>
  {
    s.(clone := s.clone.(position := g.position(inFrame, outFrame, s.body.position),
                         rotation := g.rotation(inFrame, outFrame, s.body.rotation)))
  }

  /** The first turn of the clone-sync loop that EnterPortal has just started
      (and counted): it runs before EnterPortal returns, syncing the clone
      when the loop's condition holds and ending the loop at once otherwise. */
  function StartSync<P, C(==)>(g: Warps, r: State<P, C>, inFrame: Pose, outFrame: Pose): State<P, C>
    requires r.cloneLoops > 0
  {
    if SyncContinues(r) then SyncClone(g, r, inFrame, outFrame) else r.(cloneLoops := r.cloneLoops - 1)
  }

  /** EnterPortal as a whole: Enter, and on the first zone the first turn of
      the sync loop it starts, under the frames of the new pair. */
  function EnterAndSync<P, C(==)>(g: Warps, s: State<P, C>, inPortal: P, outPortal: Option<P>, wall: Option<C>,
                                  colliders: seq<C>, inFrame: Pose, outFrame: Pose): State<P, C>
  {
    var r := Enter(s, inPortal, outPortal, wall, colliders);
    if r.count == 1 then StartSync(g, r, inFrame, outFrame) else r
  }

  /** EnterPortal agrees with Enter except for the clone's pose and the loop
      count: on the first zone of a live object with both portals set, the
      clone is shown at once at the warp of the object's pose and its sync
      loop keeps running; without an out-portal, or once destroyed, the loop
      ends at once; on a later zone nothing more happens. The clone stays
      coherent. */
  lemma EnterAndSyncEffect<P, C>(g: Warps, s: State<P, C>, inPortal: P, outPortal: Option<P>, wall: Option<C>,
                                 colliders: seq<C>, inFrame: Pose, outFrame: Pose)
    requires Coherent(s)
    ensures var e := Enter(s, inPortal, outPortal, wall, colliders);
      var r := EnterAndSync(g, s, inPortal, outPortal, wall, colliders, inFrame, outFrame);
      && Coherent(r) && r.clone.active
      && r.count == e.count && r.ignored == e.ignored && r.body == s.body
      && r.inPortal == Some(inPortal) && r.outPortal == outPortal && r.destroyed == s.destroyed
      && r.clone.scale == s.clone.scale
      && (s.count != 0 ==> r == e)
      && (s.count == 0 && !s.destroyed && outPortal.Some? ==>
            && Pose(r.clone.position, r.clone.rotation) == WarpPose(g, inFrame, outFrame, Pose(s.body.position, s.body.rotation))
            && r.cloneLoops == s.cloneLoops + 1)
      && (s.count == 0 && (s.destroyed || outPortal.None?) ==> r == e.(cloneLoops := s.cloneLoops))
  {
  }

  lemma SyncCloneEffect<P, C>(g: Warps, s: State<P, C>, inFrame: Pose, outFrame: Pose)
    ensures var r := SyncClone(g, s, inFrame, outFrame);
      && Pose(r.clone.position, r.clone.rotation) == WarpPose(g, inFrame, outFrame, Pose(s.body.position, s.body.rotation))
      && r.body == s.body && r.clone.active == s.clone.active
      && r.(clone := s.clone) == s
  {
  }
}

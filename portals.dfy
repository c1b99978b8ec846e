/** Portals and the objects that cross them, as the objects they are: a
    Portal keeps the set of objects in its zone and a queue of objects that
    have just warped; a PortalableObject keeps its containment counter, its
    (in, out) portal pair, its clone and the wall collisions it ignores. The
    two classes refer to each other, so they share this module.

    The methods are proved against the value-level functions of Crossing and
    Lifecycle. Across all portals and objects of a scene they keep `Scene`:
    each object's counter is the number of portals whose set contains it,
    every contained object has its pair set, every clone is shown exactly
    while its object is in some zone, and every warp queue is empty between
    passes. */
module PortalSystem {
  import opened Wrappers
  import opened Geometry
  import Crossing
  import Lifecycle
  import opened TexturePool

  /** How far past the portal plane an object may be and still warp. */
  const WarpDistanceThreshold: real := 2.0

  function Abs(x: real): real
  {
    if x < 0.0 then -x else x
  }

  /** CanWarpObject's test on the object's z coordinate in the portal's local
      space: past the plane, and no farther than the threshold. */
  function CanWarp(z: real): (b: bool)
    ensures b <==> 0.0 < z <= WarpDistanceThreshold
  {
    if z <= 0.0 then false
    else if Abs(z) > WarpDistanceThreshold then false
    else true
  }

  /** A physics collider: an object's own colliders, or a portal's wall. */
  class Collider {
    constructor ()
    {
    }
  }

  function PortalRef(p: Portal?): Option<Portal>
  {
    if p == null then None else Some(p)
  }

  function ColliderRef(c: Collider?): Option<Collider>
  {
    if c == null then None else Some(c)
  }

  /** The frame of a portal reference, or `fallback` when there is none. */
  function FrameOf(p: Portal?, fallback: Pose): Pose
  {
    if p == null then fallback else p.frame
  }

  class PortalableObject {
    /** The object's transform and, when it has a Rigidbody, its velocity. */
    var position: Vec3
    var rotation: Quat
    var scale: Vec3
    var velocity: Option<Vec3>
    /** The clone game object. */
    var cloneActive: bool
    var clonePosition: Vec3
    var cloneRotation: Quat
    var cloneScale: Vec3
    var inPortal: Portal?
    var outPortal: Portal?
    var inPortalCount: int
    var isDestroyed: bool
    /** The colliders of the object and its children. */
    const colliders: seq<Collider>
    /** The (own collider, other collider) pairs the physics engine ignores. */
    var ignored: set<(Collider, Collider)>
    /** How many clone-sync loops are running. */
    var cloneLoops: nat

    function Snapshot(): Crossing.State<Portal, Collider>
      reads this
    {
      Crossing.State(
        Crossing.Body(position, rotation, scale, velocity),
        Crossing.Clone(cloneActive, clonePosition, cloneRotation, cloneScale),
        PortalRef(inPortal), PortalRef(outPortal),
        inPortalCount, ignored, cloneLoops, isDestroyed)
    }

    /** Awake: take the clone that the furnishing step provides, hide it,
        give it the object's scale, and collect the colliders. */
    constructor (position: Vec3, rotation: Quat, scale: Vec3, velocity: Option<Vec3>,
                 colliders: seq<Collider>, clone: Pose)
      ensures Snapshot() == Crossing.Initial(Crossing.Body(position, rotation, scale, velocity), clone)
      ensures this.colliders == colliders
      ensures !cloneActive && inPortalCount == 0 && Crossing.Coherent(Snapshot())
    {
      this.position, this.rotation, this.scale, this.velocity := position, rotation, scale, velocity;
      cloneActive := false;
      clonePosition, cloneRotation, cloneScale := clone.position, clone.rotation, scale;
      this.colliders := colliders;
      inPortal, outPortal := null, null;
      inPortalCount := 0;
      isDestroyed := false;
      ignored := {};
      cloneLoops := 0;
    }

    method OnDestroy()
      modifies this`isDestroyed
      ensures Snapshot() == old(Snapshot()).(destroyed := true)
    {
      isDestroyed := true;
    }

    /** EnterPortal: record the pair, ignore the wall for every collider,
        count the zone, show the clone and, on the first zone, start the
        sync loop, whose first turn runs before EnterPortal returns. */
    method EnterPortal(inPortal: Portal, outPortal: Portal?, wallCollider: Collider?, g: Warps)
      modifies this`inPortal, this`outPortal, this`ignored, this`inPortalCount, this`cloneActive, this`cloneLoops,
        this`clonePosition, this`cloneRotation
      ensures Snapshot() == Crossing.EnterAndSync(g, old(Snapshot()), inPortal, PortalRef(outPortal), ColliderRef(wallCollider),
                                                  colliders, inPortal.frame, FrameOf(outPortal, inPortal.frame))
    {
      this.inPortal := inPortal;
      this.outPortal := outPortal;
      if wallCollider != null {
        IgnoreWall(wallCollider);
      }
      inPortalCount := inPortalCount + 1;
      cloneActive := true;
      if inPortalCount == 1 {
        cloneLoops := cloneLoops + 1;
        var syncing := CloneSyncStep(g);
      }
    }

    /** The collider loop of EnterPortal: every (own collider, wall) pair
        joins the ignored ones. */
    method IgnoreWall(wall: Collider)
      modifies this`ignored
      ensures ignored == old(ignored) + Crossing.Pairs(colliders, wall)
    {
      for i := 0 to |colliders|
        invariant ignored == old(ignored) + Crossing.Pairs(colliders[..i], wall)
      {
        assert colliders[..i + 1][..i] == colliders[..i];
        ignored := ignored + {(colliders[i], wall)};
      }
      assert colliders[..|colliders|] == colliders;
    }

    /** The collider loop of ExitPortal: every (own collider, wall) pair
        leaves the ignored ones. */
    method RestoreWall(wall: Collider)
      modifies this`ignored
      ensures ignored == old(ignored) - Crossing.Pairs(colliders, wall)
    {
      for i := 0 to |colliders|
        invariant ignored == old(ignored) - Crossing.Pairs(colliders[..i], wall)
      {
        assert colliders[..i + 1][..i] == colliders[..i];
        ignored := ignored - {(colliders[i], wall)};
      }
      assert colliders[..|colliders|] == colliders;
    }

    /** ExitPortal: stop ignoring the wall, count one zone fewer and, on the
        last zone, hide the clone and park it out of the way. */
    method ExitPortal(wallCollider: Collider?)
      modifies this`ignored, this`inPortalCount, this`cloneActive, this`clonePosition
      ensures Snapshot() == Crossing.Exit(old(Snapshot()), ColliderRef(wallCollider), colliders)
    {
      if wallCollider != null {
        RestoreWall(wallCollider);
      }
      inPortalCount := inPortalCount - 1;
      if inPortalCount == 0 {
        cloneActive := false;
        clonePosition := Crossing.ParkedPosition;
      }
    }

    /** OnWarp: carry the transform, and the velocity if there is a
        Rigidbody, from the in-portal to the out-portal. */
    method OnWarp(g: Warps)
      requires inPortal != null && outPortal != null
      modifies this`position, this`rotation, this`velocity
      ensures Snapshot() == old(Snapshot()).(body := Crossing.WarpBody(g, old(Snapshot()).body, inPortal.frame, outPortal.frame))
    {
      var inFrame, outFrame := inPortal.frame, outPortal.frame;
      position := g.position(inFrame, outFrame, position);
      rotation := g.rotation(inFrame, outFrame, rotation);
      if velocity.Some? {
        velocity := Some(g.direction(inFrame, outFrame, velocity.value));
      }
    }

    method SwapPortals()
      modifies this`inPortal, this`outPortal
      ensures Snapshot() == Crossing.Swap(old(Snapshot()))
    {
      inPortal, outPortal := outPortal, inPortal;
    }

    /** Warp: OnWarp under the stored pair, then swap the pair. */
    method Warp(g: Warps)
      requires inPortal != null && outPortal != null
      modifies this
      ensures Snapshot() == Crossing.Warp(g, old(Snapshot()), old(inPortal).frame, old(outPortal).frame)
    {
      OnWarp(g);
      SwapPortals();
    }

    /** UpdateActiveClone: the clone takes the warp of the live transform. */
    method UpdateActiveClone(g: Warps)
      requires inPortal != null && outPortal != null
      modifies this`clonePosition, this`cloneRotation
      ensures Snapshot() == Crossing.SyncClone(g, old(Snapshot()), inPortal.frame, outPortal.frame)
    {
      var inFrame, outFrame := inPortal.frame, outPortal.frame;
      clonePosition := g.position(inFrame, outFrame, position);
      cloneRotation := g.rotation(inFrame, outFrame, rotation);
    }

    /** One turn of a running clone-sync loop: sync the clone while the loop's
        condition holds; otherwise the loop ends. */
    method CloneSyncStep(g: Warps) returns (ran: bool)
      requires cloneLoops > 0
      modifies this`clonePosition, this`cloneRotation, this`cloneLoops
      ensures ran == Crossing.SyncContinues(old(Snapshot()))
      ensures ran ==>
        && inPortal != null && outPortal != null
        && Snapshot() == Crossing.SyncClone(g, old(Snapshot()), inPortal.frame, outPortal.frame)
      ensures !ran ==> Snapshot() == old(Snapshot()).(cloneLoops := old(cloneLoops) - 1)
    {
      ran := !isDestroyed && inPortalCount > 0 && inPortal != null && outPortal != null;
      if ran {
        UpdateActiveClone(g);
      } else {
        cloneLoops := cloneLoops - 1;
      }
    }
  }

  class Portal {
    var other: Portal?
    /** The pose of the portal's transform. */
    const frame: Pose
    const wall: Collider?
    /** The objects in the portal's zone. */
    var contained: set<PortalableObject>
    /** The objects warped during the current pass, awaiting their exit. */
    var warped: seq<PortalableObject>
    var isDestroyed: bool
    /** The activation source: how many have been made (0: none yet), and
        whether the newest is not cancelled. */
    var sources: nat
    var live: bool
    /** Every loop started, with its token. */
    ghost var loops: seq<Lifecycle.Loop>
    /** The renderer: its enabled flag, whether the engine sees it, and the
        main texture of its material. */
    var rendererEnabled: bool
    var visible: bool
    var texture: Slot

    constructor (frame: Pose, wall: Collider?, texture: Slot)
      ensures this.frame == frame && this.wall == wall && this.texture == texture
      ensures other == null && contained == {} && warped == []
      ensures ActivationState() == Lifecycle.Dormant
      ensures rendererEnabled && !visible
    {
      this.frame, this.wall, this.texture := frame, wall, texture;
      other := null;
      contained, warped := {}, [];
      isDestroyed, sources, live, loops := false, 0, false, [];
      rendererEnabled, visible := true, false;
    }

    /** The serialized pairing of two portals. */
    static method Link(a: Portal, b: Portal)
      modifies a`other, b`other
      ensures a.other == b && b.other == a
    {
      a.other := b;
      b.other := a;
    }

    ghost function ActivationState(): Lifecycle.Activation
      reads this
    {
      Lifecycle.Activation(sources, live, isDestroyed, loops)
    }

    /** Activate: cancel the current source, make a new one and start the
        warp, enter and exit loops under its token; nothing once destroyed.
        Each loop runs up to its first await before Activate returns: for
        the warp loop that is one whole warp pass, for the other two nothing. */
    method Activate(ghost ps: set<Portal>, ghost os: set<PortalableObject>, g: Warps)
      requires Scene(ps, os) && this in ps
      modifies this`sources, this`live, this`loops, this`contained, this`warped, contained
      ensures ActivationState() == Lifecycle.Activate(old(ActivationState()))
      ensures Scene(ps, os)
      ensures isDestroyed ==> contained == old(contained) && unchanged(contained)
      ensures !isDestroyed ==> contained == old(contained) - old(Eligible(g))
      ensures !isDestroyed ==> forall o :: o in old(Eligible(g)) ==>
        o.Snapshot() == Crossing.Exit(
          Crossing.Warp(g, old(o.Snapshot()), old(o.inPortal).frame, old(o.outPortal).frame),
          ColliderRef(wall), o.colliders)
      ensures forall o :: o in old(contained) && o !in old(Eligible(g)) ==> o.Snapshot() == old(o.Snapshot())
    {
      if isDestroyed {
        return;
      }
      live := false;
      sources := sources + 1;
      live := true;
      loops := loops + Lifecycle.LoopSet(sources);
      var warping := WarpLoopStep(ps, os, g, sources);
    }

    method Deactivate()
      modifies this`live
      ensures ActivationState() == Lifecycle.Deactivate(old(ActivationState()))
    {
      if isDestroyed {
        return;
      }
      live := false;
    }

    method OnDestroy()
      modifies this`live, this`isDestroyed
      ensures ActivationState() == Lifecycle.Destroy(old(ActivationState()))
    {
      live := false;
      isDestroyed := true;
    }

    /** CanWarpObject. */
    function CanWarpObject(g: Warps, obj: PortalableObject): bool
      reads obj`position
    {
      CanWarp(g.localZ(frame, obj.position))
    }

    /** The contained objects that the warp pass would warp now. */
    ghost function Eligible(g: Warps): set<PortalableObject>
      reads this`contained, contained`position
    {
      set o | o in contained && CanWarpObject(g, o)
    }

    /** TryEnterPortal, given the PortalableObject found on the collider
        (null when there is none). */
    method TryEnterPortal(ghost ps: set<Portal>, ghost os: set<PortalableObject>, g: Warps, found: PortalableObject?)
      requires Scene(ps, os) && this in ps && (found != null ==> found in os)
      modifies this`contained, found
      ensures Scene(ps, os)
      ensures found == null || old(CanWarpObject(g, found)) || found in old(contained) ==>
        contained == old(contained) && (found != null ==> found.Snapshot() == old(found.Snapshot()))
      ensures found != null && !old(CanWarpObject(g, found)) && found !in old(contained) ==>
        && contained == old(contained) + {found}
        && found.Snapshot() == Crossing.EnterAndSync(g, old(found.Snapshot()), this, PortalRef(other), ColliderRef(wall), found.colliders,
                                                    frame, FrameOf(other, frame))
    {
      if found == null {
        return;
      }
      if CanWarpObject(g, found) {
        return;
      }
      EnterZone(ps, os, g, found);
    }

    /** The set's Add and, when the object was not yet in the set, its
        EnterPortal under this portal, the other portal and the wall. */
    method EnterZone(ghost ps: set<Portal>, ghost os: set<PortalableObject>, g: Warps, obj: PortalableObject)
      requires Linked(ps, os) && this in ps && obj in os
      modifies this`contained, obj
      ensures Linked(ps, os)
      ensures contained == old(contained) + {obj}
      ensures obj.Snapshot() ==
        (if obj in old(contained) then old(obj.Snapshot())
         else Crossing.EnterAndSync(g, old(obj.Snapshot()), this, PortalRef(other), ColliderRef(wall), obj.colliders,
                                    frame, FrameOf(other, frame)))
    {
      if obj !in contained {
        Admit(ps, os, obj);
        NotifyEnter(ps, os, g, obj);
      }
    }

    /** The set's Add: the scene is left pending on `obj`, which now has one
        holder more than its counter says. */
    method Admit(ghost ps: set<Portal>, ghost os: set<PortalableObject>, obj: PortalableObject)
      requires Linked(ps, os) && this in ps && obj in os && obj !in contained
      modifies this`contained
      ensures contained == old(contained) + {obj}
      ensures Pending(ps, os, obj, 1)
    {
      ghost var before := Holders(ps, obj);
      contained := contained + {obj};
      assert Holders(ps, obj) == before + {this};
      forall x | x in os && x != obj
        ensures x.inPortalCount == |Holders(ps, x)|
      {
        assert Holders(ps, x) == old(Holders(ps, x));
      }
    }

    /** EnterPortal of an object just added: the scene is whole again. */
    method NotifyEnter(ghost ps: set<Portal>, ghost os: set<PortalableObject>, g: Warps, obj: PortalableObject)
      requires Pending(ps, os, obj, 1) && this in ps && obj in os
      modifies obj
      ensures Linked(ps, os)
      ensures obj.Snapshot() == Crossing.EnterAndSync(g, old(obj.Snapshot()), this, PortalRef(other), ColliderRef(wall), obj.colliders,
                                    frame, FrameOf(other, frame))
    {
      Crossing.EnterAndSyncEffect(g, obj.Snapshot(), this, PortalRef(other), ColliderRef(wall), obj.colliders,
                                  frame, FrameOf(other, frame));
      obj.EnterPortal(this, other, wall, g);
    }

    /** TryExitPortal, given the PortalableObject found on the collider. */
    method TryExitPortal(ghost ps: set<Portal>, ghost os: set<PortalableObject>, found: PortalableObject?)
      requires Scene(ps, os) && this in ps && (found != null ==> found in os)
      modifies this`contained, found
      ensures Scene(ps, os)
      ensures found == null ==> contained == old(contained)
      ensures found != null ==> contained == old(contained) - {found}
      ensures found != null ==>
        found.Snapshot() == (if found in old(contained) then Crossing.Exit(old(found.Snapshot()), ColliderRef(wall), found.colliders)
          else old(found.Snapshot()))
    {
      if found != null {
        ExitPortal(ps, os, found);
      }
    }

    /** ExitPortal: only an object in the set is removed and told to exit. */
    method ExitPortal(ghost ps: set<Portal>, ghost os: set<PortalableObject>, obj: PortalableObject)
      requires Linked(ps, os) && this in ps && obj in os
      modifies this`contained, obj
      ensures Linked(ps, os)
      ensures contained == old(contained) - {obj}
      ensures obj.Snapshot() ==
        (if obj in old(contained) then Crossing.Exit(old(obj.Snapshot()), ColliderRef(wall), obj.colliders)
         else old(obj.Snapshot()))
    {
      if obj in contained {
        Dismiss(ps, os, obj);
        NotifyExit(ps, os, obj);
      }
    }

    /** The set's Remove: the scene is left pending on `obj`, which now has
        one holder fewer than its counter says. */
    method Dismiss(ghost ps: set<Portal>, ghost os: set<PortalableObject>, obj: PortalableObject)
      requires Linked(ps, os) && this in ps && obj in os && obj in contained
      modifies this`contained
      ensures contained == old(contained) - {obj}
      ensures Pending(ps, os, obj, -1) && obj.inPortal != null && obj.outPortal != null
    {
      ghost var before := Holders(ps, obj);
      assert this in before;
      contained := contained - {obj};
      assert Holders(ps, obj) == before - {this};
      forall x | x in os && x != obj
        ensures x.inPortalCount == |Holders(ps, x)|
      {
        assert Holders(ps, x) == old(Holders(ps, x));
      }
    }

    /** ExitPortal of an object just removed: the scene is whole again. */
    method NotifyExit(ghost ps: set<Portal>, ghost os: set<PortalableObject>, obj: PortalableObject)
      requires Pending(ps, os, obj, -1) && this in ps && obj in os
      requires obj.inPortal != null && obj.outPortal != null
      modifies obj
      ensures Linked(ps, os)
      ensures obj.Snapshot() == Crossing.Exit(old(obj.Snapshot()), ColliderRef(wall), obj.colliders)
    {
      Crossing.ExitCoherent(obj.Snapshot(), ColliderRef(wall), obj.colliders);
      obj.ExitPortal(wall);
    }

    /** TryWarpObjects: warp every contained object that is eligible and
        queue it; then exit every queued object. */
    method TryWarpObjects(ghost ps: set<Portal>, ghost os: set<PortalableObject>, g: Warps)
      requires Scene(ps, os) && this in ps
      modifies this`contained, this`warped, contained
      ensures Scene(ps, os)
      ensures warped == []
      ensures contained == old(contained) - old(Eligible(g))
      ensures forall o :: o in old(Eligible(g)) ==>
        o.Snapshot() == Crossing.Exit(
          Crossing.Warp(g, old(o.Snapshot()), old(o.inPortal).frame, old(o.outPortal).frame),
          ColliderRef(wall), o.colliders)
      ensures forall o :: o in old(contained) && o !in old(Eligible(g)) ==> o.Snapshot() == old(o.Snapshot())
    {
      WarpPass(ps, os, g);
      ExitPass(ps, os);
    }

    /** The first half of TryWarpObjects: every contained object that can
        warp is warped and queued, each exactly once. */
    method WarpPass(ghost ps: set<Portal>, ghost os: set<PortalableObject>, g: Warps)
      requires Linked(ps, os) && this in ps && warped == []
      modifies this`warped, contained
      ensures Linked(ps, os)
      ensures forall o :: o in warped <==> o in old(Eligible(g))
      ensures forall i, j :: 0 <= i < j < |warped| ==> warped[i] != warped[j]
      ensures forall o :: o in old(Eligible(g)) ==>
        o.Snapshot() == Crossing.Warp(g, old(o.Snapshot()), old(o.inPortal).frame, old(o.outPortal).frame)
      ensures forall o :: o in contained && o !in old(Eligible(g)) ==> o.Snapshot() == old(o.Snapshot())
    {
      ghost var elig := Eligible(g);
      ghost var start := map o | o in contained :: o.Snapshot();
      var pending := contained;
      while pending != {}
        invariant WarpProgress(ps, os, g, elig, pending, start)
        decreases pending
      {
        var o :| o in pending;
        WarpStep(ps, os, g, o, elig, pending, start);
        pending := pending - {o};
      }
    }

    /** The warp pass after the objects outside `pending` were visited:
        `start` holds each contained object's state before the pass, `elig`
        those that can warp; the queue holds the eligible ones visited, each
        once, and exactly these are warped. */
    ghost predicate WarpProgress(ps: set<Portal>, os: set<PortalableObject>, g: Warps,
                                 elig: set<PortalableObject>, pending: set<PortalableObject>,
                                 start: map<PortalableObject, Crossing.State<Portal, Collider>>)
      reads this`contained, this`warped, ps`other, ps`contained, os, contained
    {
      && Linked(ps, os) && this in ps && pending <= contained
      && (forall o :: o in contained ==> o in start && start[o].inPortal.Some? && start[o].outPortal.Some?)
      && (forall o :: o in elig ==> o in start && CanWarp(g.localZ(frame, start[o].body.position)))
      && (forall o :: o in start && CanWarp(g.localZ(frame, start[o].body.position)) ==> o in elig)
      && (forall o :: o in warped ==> o in elig && o !in pending)
      && (forall o :: o in elig && o !in pending ==> o in warped)
      && (forall i, j :: 0 <= i < j < |warped| ==> warped[i] != warped[j])
      && (forall o :: o in contained && o !in pending && o in elig ==>
            o.Snapshot() == Crossing.Warp(g, start[o], start[o].inPortal.value.frame, start[o].outPortal.value.frame))
      && (forall o :: o in contained && (o in pending || o !in elig) ==> o.Snapshot() == start[o])
    }

    /** The loop body of the first half: `o` is warped and queued when it
        can warp, and left alone otherwise. */
    method WarpStep(ghost ps: set<Portal>, ghost os: set<PortalableObject>, g: Warps, o: PortalableObject,
                    ghost elig: set<PortalableObject>, ghost pending: set<PortalableObject>,
                    ghost start: map<PortalableObject, Crossing.State<Portal, Collider>>)
      requires WarpProgress(ps, os, g, elig, pending, start) && o in pending
      modifies this`warped, o
      ensures WarpProgress(ps, os, g, elig, pending - {o}, start)
    {
      if CanWarpObject(g, o) {
        WarpOne(ps, os, g, o);
      }
    }

    /** The loop body of the first half: warp `o` and queue it. */
    method WarpOne(ghost ps: set<Portal>, ghost os: set<PortalableObject>, g: Warps, o: PortalableObject)
      requires Linked(ps, os) && this in ps && o in contained
      modifies this`warped, o
      ensures Linked(ps, os)
      ensures warped == old(warped) + [o]
      ensures o.inPortal != null && o.outPortal != null
      ensures o.Snapshot() == Crossing.Warp(g, old(o.Snapshot()), old(o.inPortal).frame, old(o.outPortal).frame)
    {
      Crossing.WarpEffect(g, o.Snapshot(), o.inPortal.frame, o.outPortal.frame);
      o.Warp(g);
      warped := warped + [o];
      forall x | x in os
        ensures x.inPortalCount == |Holders(ps, x)|
      {
        assert Holders(ps, x) == old(Holders(ps, x));
      }
      forall p, x | p in ps && x in p.contained
        ensures x.inPortal != null && x.outPortal != null
      {
        assert x in old(p.contained);
      }
    }

    /** The second half of TryWarpObjects: dequeue every warped object and
        exit it from this portal. */
    method ExitPass(ghost ps: set<Portal>, ghost os: set<PortalableObject>)
      requires Linked(ps, os) && this in ps
      requires forall o :: o in warped ==> o in contained
      requires forall i, j :: 0 <= i < j < |warped| ==> warped[i] != warped[j]
      modifies this`contained, this`warped, contained
      ensures Linked(ps, os)
      ensures warped == []
      ensures forall o :: o in contained <==> o in old(contained) && o !in old(warped)
      ensures forall o :: o in old(warped) ==>
        o.Snapshot() == Crossing.Exit(old(o.Snapshot()), ColliderRef(wall), o.colliders)
      ensures forall o :: o in old(contained) && o !in old(warped) ==> o.Snapshot() == old(o.Snapshot())
    {
      ghost var c0 := contained;
      ghost var w0 := warped;
      ghost var start := map o | o in contained :: o.Snapshot();
      while warped != []
        invariant ExitProgress(ps, os, c0, w0, start)
        decreases |warped|
      {
        ExitStep(ps, os, c0, w0, start);
      }
    }

    /** The exit pass after the objects leaving the queue so far were exited:
        `c0` and `w0` are the set and the queue before the pass, `start`
        each object's state then; exactly the dequeued ones have left the
        set and been exited. */
    ghost predicate ExitProgress(ps: set<Portal>, os: set<PortalableObject>, c0: set<PortalableObject>,
                                 w0: seq<PortalableObject>, start: map<PortalableObject, Crossing.State<Portal, Collider>>)
      reads this`contained, this`warped, ps`other, ps`contained, os, c0
    {
      && Linked(ps, os) && this in ps
      && (forall o :: o in warped ==> o in contained)
      && (forall i, j :: 0 <= i < j < |warped| ==> warped[i] != warped[j])
      && (forall o :: o in warped ==> o in w0)
      && (forall o :: o in contained ==> o in c0 && (o !in w0 || o in warped))
      && (forall o :: o in c0 && (o !in w0 || o in warped) ==> o in contained)
      && (forall o :: o in c0 ==> o in start)
      && (forall o :: o in w0 ==> o in c0)
      && (forall o :: o in w0 && o !in warped ==>
            o.Snapshot() == Crossing.Exit(start[o], ColliderRef(wall), o.colliders))
      && (forall o :: o in c0 && (o !in w0 || o in warped) ==> o.Snapshot() == start[o])
    }

    /** The loop body of the second half: dequeue the head of the queue
        and exit it from this portal. */
    method ExitStep(ghost ps: set<Portal>, ghost os: set<PortalableObject>, ghost c0: set<PortalableObject>,
                    ghost w0: seq<PortalableObject>, ghost start: map<PortalableObject, Crossing.State<Portal, Collider>>)
      requires ExitProgress(ps, os, c0, w0, start) && warped != []
      modifies this`contained, this`warped, contained
      ensures ExitProgress(ps, os, c0, w0, start)
      ensures |warped| == |old(warped)| - 1
    {
      var obj := warped[0];
      warped := warped[1..];
      assert obj !in warped;
      ExitPortal(ps, os, obj);
    }

    /** One turn of the warp loop started under `token`: a pass while the
        token is live, nothing once it is cancelled. */
    method WarpLoopStep(ghost ps: set<Portal>, ghost os: set<PortalableObject>, g: Warps, token: nat) returns (ran: bool)
      requires Scene(ps, os) && this in ps
      requires Lifecycle.Loop(Lifecycle.WarpLoop, token) in loops
      modifies this`contained, this`warped, contained
      ensures Scene(ps, os)
      ensures ran == !Lifecycle.Cancelled(ActivationState(), token)
      ensures !ran ==> contained == old(contained) && unchanged(contained)
      ensures ran ==> contained == old(contained) - old(Eligible(g))
      ensures ran ==> forall o :: o in old(Eligible(g)) ==>
        o.Snapshot() == Crossing.Exit(
          Crossing.Warp(g, old(o.Snapshot()), old(o.inPortal).frame, old(o.outPortal).frame),
          ColliderRef(wall), o.colliders)
      ensures ran ==> forall o :: o in old(contained) && o !in old(Eligible(g)) ==> o.Snapshot() == old(o.Snapshot())
    {
      ran := live && token == sources;
      if ran {
        TryWarpObjects(ps, os, g);
      }
    }

    /** One trigger-enter event reaching the enter loop started under
        `token`: handled while the token is live, dropped once cancelled. */
    method EnterLoopStep(ghost ps: set<Portal>, ghost os: set<PortalableObject>, g: Warps, token: nat, found: PortalableObject?) returns (ran: bool)
      requires Scene(ps, os) && this in ps && (found != null ==> found in os)
      requires Lifecycle.Loop(Lifecycle.EnterLoop, token) in loops
      modifies this`contained, found
      ensures Scene(ps, os)
      ensures ran == !Lifecycle.Cancelled(ActivationState(), token)
      ensures !ran ==> contained == old(contained) && (found != null ==> unchanged(found))
      ensures ran && (found == null || old(CanWarpObject(g, found)) || found in old(contained)) ==>
        contained == old(contained) && (found != null ==> found.Snapshot() == old(found.Snapshot()))
      ensures ran && found != null && !old(CanWarpObject(g, found)) ==> contained == old(contained) + {found}
      ensures ran && found != null && !old(CanWarpObject(g, found)) && found !in old(contained) ==>
        found.Snapshot() == Crossing.EnterAndSync(g, old(found.Snapshot()), this, PortalRef(other), ColliderRef(wall), found.colliders,
                                                  frame, FrameOf(other, frame))
    {
      ran := live && token == sources;
      if ran {
        TryEnterPortal(ps, os, g, found);
      }
    }

    /** One trigger-exit event reaching the exit loop started under `token`. */
    method ExitLoopStep(ghost ps: set<Portal>, ghost os: set<PortalableObject>, token: nat, found: PortalableObject?) returns (ran: bool)
      requires Scene(ps, os) && this in ps && (found != null ==> found in os)
      requires Lifecycle.Loop(Lifecycle.ExitLoop, token) in loops
      modifies this`contained, found
      ensures Scene(ps, os)
      ensures ran == !Lifecycle.Cancelled(ActivationState(), token)
      ensures !ran ==> contained == old(contained) && (found != null ==> unchanged(found))
      ensures ran && found != null ==> contained == old(contained) - {found}
      ensures ran && found != null ==>
        found.Snapshot() == (if found in old(contained) then Crossing.Exit(old(found.Snapshot()), ColliderRef(wall), found.colliders)
          else old(found.Snapshot()))
    {
      ran := live && token == sources;
      if ran {
        TryExitPortal(ps, os, found);
      }
    }
  }

  /** The portals of `ps` whose zone holds `o`. */
  ghost function Holders(ps: set<Portal>, o: PortalableObject): set<Portal>
    reads ps`contained
  {
    set p | p in ps && o in p.contained
  }

  /** Every object's counter is the number of portals holding it. */
  ghost predicate Tallied(ps: set<Portal>, os: set<PortalableObject>)
    reads ps`contained, os`inPortalCount
  {
    forall o :: o in os ==> o.inPortalCount == |Holders(ps, o)|
  }

  /** The scene invariant except for the warp queues. */
  ghost predicate Linked(ps: set<Portal>, os: set<PortalableObject>)
    reads ps`other, ps`contained, os
  {
    && (forall p :: p in ps ==> p.other != null && p.contained <= os)
    && (forall p, o :: p in ps && o in p.contained ==> o.inPortal != null && o.outPortal != null)
    && (forall o :: o in os ==> Crossing.Coherent(o.Snapshot()))
    && Tallied(ps, os)
  }

  /** Linked, but for `obj`, whose holders number its counter plus `d` and
      whose pair need not be recorded yet: the scene between a zone's set
      update and the object's own EnterPortal or ExitPortal. */
  ghost predicate Pending(ps: set<Portal>, os: set<PortalableObject>, obj: PortalableObject, d: int)
    reads ps`other, ps`contained, os
  {
    && (forall p :: p in ps ==> p.other != null && p.contained <= os)
    && (forall p, o :: p in ps && o in p.contained && o != obj ==> o.inPortal != null && o.outPortal != null)
    && (forall o :: o in os ==> Crossing.Coherent(o.Snapshot()))
    && (forall o :: o in os && o != obj ==> o.inPortalCount == |Holders(ps, o)|)
    && (obj in os ==> obj.inPortalCount + d == |Holders(ps, obj)|)
  }

  /** The scene invariant: Linked, and no warp queue holds anything. */
  ghost predicate Scene(ps: set<Portal>, os: set<PortalableObject>)
    reads ps`other, ps`contained, ps`warped, os
  {
    Linked(ps, os) && forall p :: p in ps ==> p.warped == []
  }

  /** A scene whose portals hold nothing and whose objects are fresh obeys
      the invariant. */
  lemma EmptyScene(ps: set<Portal>, os: set<PortalableObject>)
    requires forall p :: p in ps ==> p.other != null && p.contained == {} && p.warped == []
    requires forall o :: o in os ==> o.inPortalCount == 0 && !o.cloneActive
    ensures Scene(ps, os)
  {
    forall o | o in os
      ensures o.inPortalCount == |Holders(ps, o)|
    {
      assert Holders(ps, o) == {};
    }
  }
}

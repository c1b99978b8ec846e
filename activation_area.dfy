/** PortalActivationArea: a trigger volume near a portal. When the player
    comes near, it activates its own portal and the paired portal's area
    activates the other one, and the portal's renderer is shown; when the
    player leaves, both are deactivated and the renderer hidden. The
    player test is not implemented in the system and throws. */
module ActivationGate {
  import opened Wrappers
  import opened Geometry
  import Lifecycle
  import Crossing
  import PortalSystem

  /** What SetPlayerNear does to one portal's activation. */
  function Near(a: Lifecycle.Activation, isNear: bool): Lifecycle.Activation
  {
    if isNear then Lifecycle.Activate(a) else Lifecycle.Deactivate(a)
  }

  /** Bringing the player near leaves exactly one fresh loop set running on a
      live portal, even when both areas activate the same portal; sending
      them away stops every loop. Both keep the activation well formed. */
  lemma NearEffect(a: Lifecycle.Activation)
    requires Lifecycle.WellFormed(a)
    ensures Lifecycle.WellFormed(Near(a, true)) && Lifecycle.WellFormed(Near(a, false))
    ensures !a.destroyed ==> Lifecycle.Running(Near(a, true)) == Lifecycle.LoopSet(a.sources + 1)
    ensures !a.destroyed ==> Lifecycle.Running(Near(Near(a, true), true)) == Lifecycle.LoopSet(a.sources + 2)
    ensures Lifecycle.Running(Near(a, false)) == []
    ensures Lifecycle.Running(Near(Near(a, false), false)) == []
  {
    Lifecycle.StepsKeepWellFormed(a);
    if !a.destroyed {
      Lifecycle.ActivateRunsOneSet(a);
      Lifecycle.ActivateTwiceRunsOneSet(a);
    }
    Lifecycle.DeactivateStopsAll(a);
    Lifecycle.DeactivateStopsAll(Near(a, false));
  }

  /** IsPlayer: not implemented; it always throws. */
  function IsPlayer(other: PortalSystem.Collider): (r: Result<bool>)
    ensures r.Failure? && r.error.NotImplemented?
  {
    Failure(NotImplemented("IsPlayer"))
  }

  class ActivationArea {
    const portal: PortalSystem.Portal
    /** The area under the other portal, once Awake has looked it up. */
    var otherArea: ActivationArea?

    constructor (portal: PortalSystem.Portal)
      ensures this.portal == portal && otherArea == null
    {
      this.portal := portal;
      otherArea := null;
    }

    /** The portals SetPlayerNear may change: its own and the paired area's. */
    function Pair(): set<PortalSystem.Portal>
      reads this`otherArea
    {
      {portal} + if otherArea == null then {} else {otherArea.portal}
    }

    /** The portals whose zones SetPlayerNear may change: activation runs a
        warp pass, deactivation does not. */
    function Warping(isNear: bool): set<PortalSystem.Portal>
      reads this`otherArea
    {
      if isNear then Pair() else {}
    }

    /** Awake, given the area found under the other portal (null when there
        is none): remember it and set the player not near. Without a paired
        portal the lookup throws before anything changes. Deactivation warps
        nothing, so `g` reaches no zone and no scene is needed. */
    method Awake(g: Warps, found: ActivationArea?) returns (r: Outcome)
      modifies this`otherArea, portal`sources, portal`live, portal`loops, portal`rendererEnabled,
        if found == null then {} else {found.portal}`sources,
        if found == null then {} else {found.portal}`live,
        if found == null then {} else {found.portal}`loops
      ensures portal.other == null ==>
        r == Fail(NullReference("OtherPortal")) && otherArea == old(otherArea)
        && portal.ActivationState() == old(portal.ActivationState())
        && portal.rendererEnabled == old(portal.rendererEnabled)
      ensures portal.other != null ==> otherArea == found
      ensures portal.other != null && found == null ==>
        r == Fail(NullReference("otherArea"))
        && portal.ActivationState() == Lifecycle.Deactivate(old(portal.ActivationState()))
        && portal.rendererEnabled == old(portal.rendererEnabled)
      ensures portal.other != null && found != null ==>
        r == Pass && !portal.rendererEnabled
        && portal.ActivationState() == Lifecycle.Deactivate(old(portal.ActivationState()))
        && found.portal.ActivationState() == Lifecycle.Deactivate(old(found.portal.ActivationState()))
      ensures portal.other != null && found != null && found.portal != portal ==>
        found.portal.rendererEnabled == old(found.portal.rendererEnabled)
    {
      if portal.other == null {
        return Fail(NullReference("OtherPortal"));
      }
      otherArea := found;
      r := SetPlayerNear({}, {}, g, false);
    }

    /** OnTriggerEnter: the player test throws, so nothing changes. */
    method OnTriggerEnter(other: PortalSystem.Collider) returns (r: Outcome)
      ensures r == Fail(NotImplemented("IsPlayer"))
    {
      var isPlayer := IsPlayer(other);
      r := Fail(isPlayer.error);
    }

    /** OnTriggerExit: the player test throws, so nothing changes. */
    method OnTriggerExit(other: PortalSystem.Collider) returns (r: Outcome)
      ensures r == Fail(NotImplemented("IsPlayer"))
    {
      var isPlayer := IsPlayer(other);
      r := Fail(isPlayer.error);
    }

    /** SetPlayerNear: activate (or deactivate) this area's portal, then the
        paired area's, then show (or hide) the renderer. Without a paired
        area the second step throws after the first has happened. When both
        areas hold the same portal it is stepped twice. Each activation runs
        that portal's first warp pass. */
    method SetPlayerNear(ghost ps: set<PortalSystem.Portal>, ghost os: set<PortalSystem.PortalableObject>, g: Warps, isNear: bool)
      returns (r: Outcome)
      requires isNear ==> PortalSystem.Scene(ps, os) && Pair() <= ps
      modifies Pair()`sources, Pair()`live, Pair()`loops, portal`rendererEnabled,
        Warping(isNear)`contained, Warping(isNear)`warped, if isNear then os else {}
      ensures isNear ==> PortalSystem.Scene(ps, os)
      ensures !isNear ==> portal.contained == old(portal.contained)
      ensures isNear && old(portal.isDestroyed) ==> portal.contained == old(portal.contained)
      ensures isNear && !old(portal.isDestroyed) && (otherArea == null || otherArea.portal != portal) ==>
        portal.contained == old(portal.contained) - old(portal.Eligible(g))
      ensures isNear && !old(portal.isDestroyed) && otherArea != null && otherArea.portal == portal ==>
        portal.contained <= old(portal.contained) - old(portal.Eligible(g))
      ensures otherArea != null ==> otherArea.portal.contained <= old(otherArea.portal.contained)
      ensures otherArea == null ==>
        r == Fail(NullReference("otherArea"))
        && portal.ActivationState() == Near(old(portal.ActivationState()), isNear)
        && portal.rendererEnabled == old(portal.rendererEnabled)
      ensures otherArea != null && otherArea.portal == portal ==>
        r == Pass && portal.rendererEnabled == isNear
        && portal.ActivationState() == Near(Near(old(portal.ActivationState()), isNear), isNear)
      ensures otherArea != null && otherArea.portal != portal ==>
        r == Pass && portal.rendererEnabled == isNear
        && portal.ActivationState() == Near(old(portal.ActivationState()), isNear)
        && otherArea.portal.ActivationState() == Near(old(otherArea.portal.ActivationState()), isNear)
        && otherArea.portal.rendererEnabled == old(otherArea.portal.rendererEnabled)
    {
      if isNear {
        Activate(ps, os, g);
      } else {
        Deactivate();
      }
      if otherArea == null {
        return Fail(NullReference("otherArea"));
      }
      if isNear {
        otherArea.Activate(ps, os, g);
      } else {
        otherArea.Deactivate();
      }
      portal.rendererEnabled := isNear;
      r := Pass;
    }

    method Activate(ghost ps: set<PortalSystem.Portal>, ghost os: set<PortalSystem.PortalableObject>, g: Warps)
      requires PortalSystem.Scene(ps, os) && portal in ps
      modifies portal`sources, portal`live, portal`loops, portal`contained, portal`warped, portal.contained
      ensures portal.ActivationState() == Lifecycle.Activate(old(portal.ActivationState()))
      ensures PortalSystem.Scene(ps, os)
      ensures portal.isDestroyed ==> portal.contained == old(portal.contained) && unchanged(portal.contained)
      ensures !portal.isDestroyed ==> portal.contained == old(portal.contained) - old(portal.Eligible(g))
      ensures !portal.isDestroyed ==> forall o :: o in old(portal.Eligible(g)) ==>
        o.Snapshot() == Crossing.Exit(
          Crossing.Warp(g, old(o.Snapshot()), old(o.inPortal).frame, old(o.outPortal).frame),
          PortalSystem.ColliderRef(portal.wall), o.colliders)
      ensures forall o :: o in old(portal.contained) && o !in old(portal.Eligible(g)) ==> o.Snapshot() == old(o.Snapshot())
    {
      portal.Activate(ps, os, g);
    }

    method Deactivate()
      modifies portal`live
      ensures portal.ActivationState() == Lifecycle.Deactivate(old(portal.ActivationState()))
    {
      portal.Deactivate();
    }
  }
}

/** The portal camera: each time the main camera begins rendering it
    reclaims the render textures of portals that are not visible, makes sure
    every visible portal has a render texture, and renders the view through
    each visible portal once per recursion iteration, deepest first.

    The class works on the portals' material slots in place; its methods are
    proved against TexturePool's Extract, Supply, Acquire and Schedule. */
module Rendering {
  import opened Wrappers
  import opened Geometry
  import opened TexturePool
  import PortalSystem

  /** The inspector range of the recursion iteration count. */
  const MinIterations: nat := 1
  const MaxIterations: nat := 5

  /** One call of the single-camera render: the portal looked through, the
      iteration id, the portal camera's pose and its target texture. */
  datatype CameraPass = CameraPass(portal: PortalSystem.Portal, iteration: nat, pose: Pose, target: Option<Texture>)

  /** The material main textures of a list of portals, in list order. */
  function Slots(ps: seq<PortalSystem.Portal>): (r: seq<Slot>)
    reads ps`texture
    ensures |r| == |ps|
    ensures forall i :: 0 <= i < |ps| ==> r[i] == ps[i].texture
  {
    if ps == [] then [] else Slots(ps[..|ps| - 1]) + [ps[|ps| - 1].texture]
  }

  /** Which portals of a list the engine considers visible. */
  function Visible(ps: seq<PortalSystem.Portal>): (r: seq<bool>)
    reads ps`visible
    ensures |r| == |ps|
    ensures forall i :: 0 <= i < |ps| ==> r[i] == ps[i].visible
  {
    if ps == [] then [] else Visible(ps[..|ps| - 1]) + [ps[|ps| - 1].visible]
  }

  class PortalCamera {
    /** All portals of the scene, as found at start. */
    const portals: seq<PortalSystem.Portal>
    const iterations: nat
    /** Where each portal's partner sits in the list. */
    ghost const partner: seq<nat>
    var pool: seq<Texture>
    /** The handle the next new render texture gets. */
    var next: Texture
    /** The main camera's pose, and the portal camera's pose and target. */
    var mainPose: Pose
    var cameraPose: Pose
    var target: Option<Texture>
    /** Every single-camera render issued, oldest first. */
    var passes: seq<CameraPass>

    ghost function State(): Stock
      reads this`pool, this`next, portals`texture
    {
      Stock(Slots(portals), pool, next)
    }

    function Visibility(): seq<bool>
      reads portals`visible
    {
      Visible(portals)
    }

    /** The portal list holds each portal once and each portal's partner is
        in the list too (the list holds every portal of the scene), the
        iteration count is in its range, and no render texture is held
        twice, by two portals or by a portal and the pool. */
    ghost predicate Valid()
      reads this`pool, this`next, portals`other, portals`texture
    {
      && (forall i, j :: 0 <= i < j < |portals| ==> portals[i] != portals[j])
      && |partner| == |portals|
      && (forall i {:trigger partner[i]} :: 0 <= i < |portals| ==> partner[i] < |portals| && portals[i].other == portals[partner[i]])
      && MinIterations <= iterations <= MaxIterations
      && Exclusive(State())
    }

    /** Start, with the portal list, the iteration count and the poses given;
        `firstFresh` is a handle above those of the textures already set. */
    constructor (portals: seq<PortalSystem.Portal>, ghost partner: seq<nat>, iterations: nat,
                 mainPose: Pose, cameraPose: Pose, firstFresh: Texture)
      requires forall i, j :: 0 <= i < j < |portals| ==> portals[i] != portals[j]
      requires |partner| == |portals|
      requires forall i {:trigger partner[i]} :: 0 <= i < |portals| ==> partner[i] < |portals| && portals[i].other == portals[partner[i]]
      requires MinIterations <= iterations <= MaxIterations
      requires Exclusive(Stock(Slots(portals), [], firstFresh))
      ensures Valid()
      ensures this.portals == portals && this.iterations == iterations
      ensures State() == Stock(Slots(portals), [], firstFresh)
      ensures this.mainPose == mainPose && this.cameraPose == cameraPose
      ensures target == None && passes == []
    {
      this.portals, this.partner, this.iterations := portals, partner, iterations;
      pool, next := [], firstFresh;
      this.mainPose, this.cameraPose := mainPose, cameraPose;
      target, passes := None, [];
    }

    /** Pass `p` is the render that job `j` calls for: through portal
        `j.portal` at `j.iteration`, from the main pose warped iteration + 1
        times through that portal and its partner, into the render texture
        that `slots` gives the portal. */
    ghost predicate Performed(p: CameraPass, j: Job, slots: seq<Slot>, g: Warps)
      reads this`mainPose
    {
      && j.portal < |portals| && j.portal < |slots| && j.portal < |partner|
      && partner[j.portal] < |portals|
      && p.portal == portals[j.portal]
      && p.iteration == j.iteration
      && p.pose == WarpPoseTimes(g, portals[j.portal].frame, portals[partner[j.portal]].frame, mainPose, j.iteration + 1)
      && slots[j.portal].Render?
      && p.target == Some(slots[j.portal].texture)
    }

    /** The passes `ps` are the renders the jobs call for, one for one. */
    ghost predicate Runs(ps: seq<CameraPass>, jobs: seq<Job>, slots: seq<Slot>, g: Warps)
      reads this`mainPose
    {
      |ps| == |jobs| && forall k :: 0 <= k < |jobs| ==> Performed(ps[k], jobs[k], slots, g)
    }

    lemma RunsAppend(a: seq<CameraPass>, b: seq<CameraPass>, x: seq<Job>, y: seq<Job>, slots: seq<Slot>, g: Warps)
      requires Runs(a, x, slots, g) && Runs(b, y, slots, g)
      ensures Runs(a + b, x + y, slots, g)
    {
      forall k | 0 <= k < |x + y|
        ensures Performed((a + b)[k], (x + y)[k], slots, g)
      {
        if k >= |x| {
          assert (a + b)[k] == b[k - |x|] && (x + y)[k] == y[k - |x|];
        }
      }
    }

    /** Slots that no job looks at may change. */
    lemma RunsReslot(ps: seq<CameraPass>, jobs: seq<Job>, slots: seq<Slot>, slots': seq<Slot>, g: Warps)
      requires Runs(ps, jobs, slots, g)
      requires forall k :: 0 <= k < |jobs| ==> jobs[k].portal < |slots'| && slots'[jobs[k].portal] == slots[jobs[k].portal]
      ensures Runs(ps, jobs, slots', g)
    {
    }

    /** UpdateCamera: reclaim, then render; `warned` tells whether the
        too-many-visible-portals warning is logged. */
    method UpdateCamera(g: Warps) returns (warned: bool)
      requires Valid()
      modifies this`pool, this`next, this`target, this`cameraPose, this`passes, portals`texture
      ensures Valid()
      ensures State() == Tick(old(State()), Visibility())
      ensures Visibility() == old(Visibility())
      ensures |old(passes)| <= |passes| && passes[..|old(passes)|] == old(passes)
      ensures Runs(passes[|old(passes)|..], Schedule(Visibility(), iterations), State().slots, g)
      ensures warned <==> CountVisible(Visibility()) > 1
    {
      ExtractRenderTextures();
      warned := RenderPortals(g);
    }

    /** ExtractRenderTextures: every portal that is not visible and holds a
        render texture gives it to the back of the pool and is left without
        a texture. */
    method ExtractRenderTextures()
      requires Valid()
      modifies this`pool, portals`texture
      ensures Valid()
      ensures State() == Extract(old(State()), Visibility(), |portals|)
    {
      ghost var vis := Visibility();
      for i := 0 to |portals|
        invariant Valid()
        invariant State() == Extract(old(State()), vis, i)
      {
        ReclaimPortal(i);
      }
    }

    /** The loop body of ExtractRenderTextures for portal `i`. */
    method ReclaimPortal(i: nat)
      requires Valid() && i < |portals|
      modifies this`pool, portals`texture
      ensures Valid()
      ensures State() == ReclaimAt(old(State()), Visibility(), i)
    {
      ghost var before := State();
      ReclaimAtKeepsExclusive(before, Visibility(), i);
      var portal := portals[i];
      if portal.visible {
        return;
      }
      if portal.texture.Render? {
        pool := pool + [portal.texture.texture];
        portal.texture := Unset;
        assert Slots(portals) == before.slots[i := Unset];
      }
    }

    /** GetRenderTexture: the pool's front, or else a new render texture. */
    method GetRenderTexture() returns (t: Texture)
      modifies this`pool, this`next
      ensures (t, State()) == Acquire(old(State()))
    {
      if |pool| > 0 {
        t := pool[0];
        pool := pool[1..];
        return;
      }
      t := next;
      next := next + 1;
    }

    /** RenderPortals: render through every visible portal in list order,
        then warn if more than one was visible. */
    method RenderPortals(g: Warps) returns (warned: bool)
      requires Valid()
      modifies this`pool, this`next, this`target, this`cameraPose, this`passes, portals`texture
      ensures Valid()
      ensures State() == Supply(old(State()), Visibility(), |portals|)
      ensures |old(passes)| <= |passes| && passes[..|old(passes)|] == old(passes)
      ensures Runs(passes[|old(passes)|..], Schedule(Visibility(), iterations), State().slots, g)
      ensures warned <==> CountVisible(Visibility()) > 1
    {
      var renderedCount := RenderVisible(g);
      warned := renderedCount > 1;
    }

    /** The loop of RenderPortals: every portal in list order, counting the
        visible ones. */
    method RenderVisible(g: Warps) returns (renderedCount: nat)
      requires Valid()
      modifies this`pool, this`next, this`target, this`cameraPose, this`passes, portals`texture
      ensures Valid()
      ensures State() == Supply(old(State()), Visibility(), |portals|)
      ensures renderedCount == CountVisible(Visibility())
      ensures |old(passes)| <= |passes| && passes[..|old(passes)|] == old(passes)
      ensures Runs(passes[|old(passes)|..], Schedule(Visibility(), iterations), State().slots, g)
    {
      ghost var vis := Visibility();
      renderedCount := 0;
      ghost var start := State();
      ghost var prefix := passes;
      for i := 0 to |portals|
        invariant Progress(i, vis, start, prefix, g)
        invariant renderedCount == CountVisible(vis[..i])
      {
        assert vis[..i + 1][..i] == vis[..i];
        var shown := RenderStep(i, g, vis, start, prefix);
        if shown {
          renderedCount := renderedCount + 1;
        }
      }
      assert vis[..|portals|] == vis;
    }

    /** The loop invariant of RenderPortals after the first `i` portals:
        the stock is `start` supplied for the visible ones among them, and
        the passes are `prefix` followed by their schedule. */
    ghost predicate Progress(i: nat, vis: seq<bool>, start: Stock, prefix: seq<CameraPass>, g: Warps)
      reads this`pool, this`next, this`passes, this`mainPose, portals`other, portals`texture, portals`visible
    {
      && Valid() && Visibility() == vis && i <= |portals|
      && |start.slots| == |portals| && State() == Supply(start, vis, i)
      && |prefix| <= |passes| && passes[..|prefix|] == prefix
      && Runs(passes[|prefix|..], Schedule(vis[..i], iterations), State().slots, g)
    }

    /** The loop body of RenderPortals for portal `i`, stated as the step
        from the loop's invariant at `i` to the one at `i + 1`: a visible
        portal is supplied and rendered, its passes following those of the
        portals before it. */
    method RenderStep(i: nat, g: Warps, ghost vis: seq<bool>, ghost start: Stock, ghost prefix: seq<CameraPass>)
      returns (shown: bool)
      requires Progress(i, vis, start, prefix, g) && i < |portals|
      modifies this`pool, this`next, this`target, this`cameraPose, this`passes, portals`texture
      ensures Progress(i + 1, vis, start, prefix, g)
      ensures shown == vis[i]
    {
      assert Supply(start, vis, i + 1) == SupplyAt(State(), vis, i);
      shown := portals[i].visible;
      if !shown {
        assert vis[..i + 1][..i] == vis[..i];
        return;
      }
      ghost var done := passes;
      ghost var slots := State().slots;
      RenderPortal(i, g);
      assert passes[..|prefix|] == done[..|prefix|];
      RunsExtend(done, passes, |prefix|, vis, i, slots, State().slots, g);
    }

    /** The passes of visible portal `i` extend those of the portals before
        it to the schedule of the first i + 1 portals, since rendering it
        touched no earlier portal's slot. */
    lemma RunsExtend(done: seq<CameraPass>, now: seq<CameraPass>, base: nat, vis: seq<bool>, i: nat,
                     slots: seq<Slot>, slots': seq<Slot>, g: Warps)
      requires i < |vis| && vis[i] && base <= |done| <= |now| && now[..|done|] == done
      requires i < |slots'| && forall j :: 0 <= j < i ==> j < |slots| && slots'[j] == slots[j]
      requires Runs(done[base..], Schedule(vis[..i], iterations), slots, g)
      requires Runs(now[|done|..], Countdown(i, iterations), slots', g)
      ensures Runs(now[base..], Schedule(vis[..i + 1], iterations), slots', g)
    {
      assert vis[..i + 1][..i] == vis[..i];
      ScheduleJobs(vis[..i], iterations);
      RunsReslot(done[base..], Schedule(vis[..i], iterations), slots, slots', g);
      assert now[base..] == done[base..] + now[|done|..];
      RunsAppend(done[base..], now[|done|..], Schedule(vis[..i], iterations), Countdown(i, iterations), slots', g);
    }

    /** The loop body of RenderPortals for a visible portal: give it a render
        texture if it lacks one, target that texture, and render the
        iterations from the deepest down to 0. */
    method RenderPortal(i: nat, g: Warps)
      requires Valid() && i < |portals| && portals[i].visible
      modifies this`pool, this`next, this`target, this`cameraPose, this`passes, portals`texture
      ensures Valid()
      ensures State() == SupplyAt(old(State()), Visibility(), i)
      ensures |old(passes)| <= |passes| && passes[..|old(passes)|] == old(passes)
      ensures Runs(passes[|old(passes)|..], Countdown(i, iterations), State().slots, g)
    {
      EnsureTexture(i);
      RenderIterations(i, g);
    }

    /** The texture hand-out of RenderPortals for a visible portal: a portal
        without a render texture gets the one GetRenderTexture yields. */
    method EnsureTexture(i: nat)
      requires Valid() && i < |portals| && portals[i].visible
      modifies this`pool, this`next, portals`texture
      ensures Valid()
      ensures State() == SupplyAt(old(State()), Visibility(), i)
      ensures portals[i].texture.Render?
    {
      ghost var before := State();
      SupplyAtKeepsExclusive(before, Visibility(), i);
      var portal := portals[i];
      if !portal.texture.Render? {
        var t := GetRenderTexture();
        portal.texture := Render(t);
        assert Slots(portals) == before.slots[i := Render(t)];
      }
    }

    /** The end of RenderPortals' body for a visible portal: target its
        render texture, then render the iterations from the deepest down
        to 0; no texture moves. */
    method RenderIterations(i: nat, g: Warps)
      requires Valid() && i < |portals| && portals[i].texture.Render?
      modifies this`target, this`cameraPose, this`passes
      ensures Valid() && State() == old(State())
      ensures target == Some(portals[i].texture.texture)
      ensures |old(passes)| <= |passes| && passes[..|old(passes)|] == old(passes)
      ensures Runs(passes[|old(passes)|..], Countdown(i, iterations), State().slots, g)
    {
      CountdownIds(i, iterations);
      assert partner[i] < |portals|;
      var portal := portals[i];
      target := Some(portal.texture.texture);
      ghost var slots := State().slots;
      ghost var base := passes;
      ghost var jobs := Countdown(i, iterations);
      var iter: int := iterations - 1;
      while iter >= 0
        invariant -1 <= iter < iterations
        invariant target == Some(portal.texture.texture)
        invariant |base| <= |passes| && passes[..|base|] == base
        invariant Runs(passes[|base|..], jobs[..iterations - 1 - iter], slots, g)
      {
        ghost var done := passes;
        RenderCamera(portal, portal.other, iter, g);
        assert passes[|base|..] == done[|base|..] + [passes[|done|]];
        assert jobs[..iterations - iter] == jobs[..iterations - 1 - iter] + [Job(i, iter)];
        RunsAppend(done[|base|..], [passes[|done|]], jobs[..iterations - 1 - iter], [Job(i, iter)], slots, g);
        iter := iter - 1;
      }
      assert jobs[..iterations] == jobs;
    }

    /** RenderCamera: the portal camera starts at the main camera's pose and
        is warped iterationID + 1 times through the pair, then renders. */
    method RenderCamera(inPortal: PortalSystem.Portal, outPortal: PortalSystem.Portal, iterationID: nat, g: Warps)
      modifies this`cameraPose, this`passes
      ensures cameraPose == WarpPoseTimes(g, inPortal.frame, outPortal.frame, mainPose, iterationID + 1)
      ensures passes == old(passes) + [CameraPass(inPortal, iterationID, cameraPose, target)]
    {
      var inFrame, outFrame := inPortal.frame, outPortal.frame;
      cameraPose := mainPose;
      for k := 0 to iterationID + 1
        invariant cameraPose == WarpPoseTimes(g, inFrame, outFrame, mainPose, k)
        modifies this`cameraPose
      {
        cameraPose := Pose(g.position(inFrame, outFrame, cameraPose.position),
                           g.rotation(inFrame, outFrame, cameraPose.rotation));
      }
      passes := passes + [CameraPass(inPortal, iterationID, cameraPose, target)];
    }
  }
}

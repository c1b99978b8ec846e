/** The portal camera's texture bookkeeping and pass schedule, as values.
    Each render tick first reclaims the render textures of portals that are
    not visible into a FIFO pool, then hands a render texture to every
    visible portal that lacks one (the pool's front, or a new allocation),
    and issues the recursion passes. The class Rendering.PortalCamera does
    this in place and is proved to agree with the functions here. */
module TexturePool {

  /** A render texture handle. Allocation yields the next unused number,
      which is how the model states that a new texture is fresh. */
  type Texture = nat

  /** A portal material's main texture: nothing, a texture that is not a
      render texture, or a render texture. */
  datatype Slot = Unset | Plain | Render(texture: Texture)

  /** `slots`: the main texture of each portal of the camera's list, in list
      order; `pool`: the reclaimed textures, front first; `next`: the handle
      the next allocation yields. */
  datatype Stock = Stock(slots: seq<Slot>, pool: seq<Texture>, next: Texture)

  // ---------------------------------------------------------------------------
  // ExtractRenderTextures

  /** One step of the reclaiming loop: an invisible portal's render texture
      is appended to the pool and its slot cleared. */
  function ReclaimAt(s: Stock, visible: seq<bool>, i: nat): (r: Stock)
    requires i < |s.slots| && i < |visible|
    ensures |r.slots| == |s.slots|
  {
    if visible[i] then s
    else match s.slots[i]
      case Render(t) => s.(pool := s.pool + [t], slots := s.slots[i := Unset])
      case _ => s
  }

  /** The reclaiming loop run over the first `n` portals. */
  function Extract(s: Stock, visible: seq<bool>, n: nat): (r: Stock)
    requires n <= |s.slots| && n <= |visible|
    ensures |r.slots| == |s.slots|
  {
    if n == 0 then s else ReclaimAt(Extract(s, visible, n - 1), visible, n - 1)
  }

  /** The render texture a slot holds, if any. */
  function HeldIn(x: Slot): seq<Texture>
  {
    match x
    case Render(t) => [t]
    case _ => []
  }

  /** The render textures of the invisible portals, in portal order: what
      reclaiming should move to the pool. */
  function Released(slots: seq<Slot>, visible: seq<bool>): seq<Texture>
    requires |slots| == |visible|
  {
    if slots == [] then []
    else
      var n := |slots| - 1;
      Released(slots[..n], visible[..n]) + (if visible[n] then [] else HeldIn(slots[n]))
  }

  /** 1 when the slot holds render texture `t`, else 0. */
  function Hits(x: Slot, t: Texture): nat
  {
    if x == Render(t) then 1 else 0
  }

  /** How many slots hold render texture `t`. */
  function SlotCount(slots: seq<Slot>, t: Texture): nat
  {
    if slots == [] then 0
    else SlotCount(slots[..|slots| - 1], t) + Hits(slots[|slots| - 1], t)
  }

  /** How many times `t` sits in the pool. */
  function PoolCount(pool: seq<Texture>, t: Texture): nat
  {
    if pool == [] then 0
    else PoolCount(pool[..|pool| - 1], t) + (if pool[|pool| - 1] == t then 1 else 0)
  }

  /** How many times `t` is held, by the portals and the pool together. */
  function Count(s: Stock, t: Texture): nat
  {
    SlotCount(s.slots, t) + PoolCount(s.pool, t)
  }

  /** No texture is held twice (by two portals, twice in the pool, or by a
      portal and the pool), and every texture held is below `next`, so the
      next allocation is new. */
  ghost predicate Exclusive(s: Stock)
  {
    forall t: Texture :: Count(s, t) <= if t < s.next then 1 else 0
  }

  /** Replacing one slot trades the texture it held for the one it holds. */
  lemma {:induction false} SlotCountUpdate(slots: seq<Slot>, i: nat, x: Slot, t: Texture)
    requires i < |slots|
    ensures SlotCount(slots[i := x], t) + Hits(slots[i], t) == SlotCount(slots, t) + Hits(x, t)
  {
    var n := |slots| - 1;
    if i == n {
      assert slots[i := x][..n] == slots[..n];
    } else {
      SlotCountUpdate(slots[..n], i, x, t);
      assert slots[i := x][..n] == slots[..n][i := x];
    }
  }

  lemma {:induction false} PoolCountConcat(a: seq<Texture>, b: seq<Texture>, t: Texture)
    ensures PoolCount(a + b, t) == PoolCount(a, t) + PoolCount(b, t)
  {
    if b == [] {
      assert a + b == a;
    } else {
      var n := |b| - 1;
      PoolCountConcat(a, b[..n], t);
      assert (a + b)[..|a + b| - 1] == a + b[..n];
      assert (a + b)[|a + b| - 1] == b[n];
    }
  }

  /** The pool's front counts once for itself. */
  lemma PoolCountFront(pool: seq<Texture>, t: Texture)
    requires pool != []
    ensures PoolCount(pool, t) == (if pool[0] == t then 1 else 0) + PoolCount(pool[1..], t)
  {
    PoolCountConcat([pool[0]], pool[1..], t);
    assert [pool[0]] + pool[1..] == pool;
    assert PoolCount([pool[0]], t) == PoolCount([], t) + (if pool[0] == t then 1 else 0);
  }

  lemma PoolCountAt(pool: seq<Texture>, j: nat)
    requires j < |pool|
    ensures PoolCount(pool, pool[j]) == PoolCount(pool[..j], pool[j]) + PoolCount(pool[j..], pool[j])
    ensures PoolCount(pool[j..], pool[j]) >= 1
  {
    PoolCountConcat(pool[..j], pool[j..], pool[j]);
    assert pool[..j] + pool[j..] == pool;
    PoolCountFront(pool[j..], pool[j]);
  }

  /** Exclusive in the words of its comment: two portals never share a
      render texture, a pooled texture is held by no portal and sits in the
      pool once, and every texture held is below `next`. */
  lemma ExclusiveMeans(s: Stock)
    requires Exclusive(s)
    ensures forall i, j :: 0 <= i < j < |s.slots| && s.slots[i].Render? && s.slots[j].Render? ==>
      s.slots[i].texture != s.slots[j].texture
    ensures forall i, j :: 0 <= i < |s.slots| && 0 <= j < |s.pool| && s.slots[i].Render? ==>
      s.slots[i].texture != s.pool[j]
    ensures forall i, j :: 0 <= i < j < |s.pool| ==> s.pool[i] != s.pool[j]
    ensures forall i :: 0 <= i < |s.slots| && s.slots[i].Render? ==> s.slots[i].texture < s.next
    ensures forall j :: 0 <= j < |s.pool| ==> s.pool[j] < s.next
  {
    forall i, j | 0 <= i < j < |s.slots| && s.slots[i].Render? && s.slots[j].Render?
      ensures s.slots[i].texture != s.slots[j].texture
    {
      var t := s.slots[i].texture;
      SlotCountUpdate(s.slots, i, Unset, t);
      SlotCountUpdate(s.slots[i := Unset], j, Unset, t);
      assert Count(s, t) <= 1;
    }
    forall i | 0 <= i < |s.slots| && s.slots[i].Render?
      ensures s.slots[i].texture < s.next
    {
      SlotCountUpdate(s.slots, i, Unset, s.slots[i].texture);
      assert Count(s, s.slots[i].texture) >= 1;
    }
    forall j | 0 <= j < |s.pool|
      ensures s.pool[j] < s.next
    {
      PoolCountAt(s.pool, j);
      assert Count(s, s.pool[j]) >= 1;
    }
    forall i, j | 0 <= i < |s.slots| && 0 <= j < |s.pool| && s.slots[i].Render?
      ensures s.slots[i].texture != s.pool[j]
    {
      SlotCountUpdate(s.slots, i, Unset, s.slots[i].texture);
      PoolCountAt(s.pool, j);
      assert Count(s, s.pool[j]) <= 1;
    }
    forall i, j | 0 <= i < j < |s.pool|
      ensures s.pool[i] != s.pool[j]
    {
      PoolCountAt(s.pool, j);
      PoolCountAt(s.pool[..j], i);
      assert s.pool[..j][i] == s.pool[i];
      assert Count(s, s.pool[j]) <= 1;
    }
  }

  /** Reclaiming over the first `n` portals clears exactly the invisible
      portals' render textures, appends them to the pool in portal order and
      leaves every other slot and the allocator alone. */
  lemma {:induction false} ExtractEffect(s: Stock, visible: seq<bool>, n: nat)
    requires n <= |s.slots| == |visible|
    ensures var r := Extract(s, visible, n);
      && r.next == s.next
      && r.pool == s.pool + Released(s.slots[..n], visible[..n])
      && (forall i :: 0 <= i < |s.slots| ==>
            r.slots[i] == if i < n && !visible[i] && s.slots[i].Render? then Unset else s.slots[i])
  {
    if n > 0 {
      ExtractEffect(s, visible, n - 1);
      assert s.slots[..n][..n - 1] == s.slots[..n - 1];
      assert visible[..n][..n - 1] == visible[..n - 1];
    }
  }

  /** One reclaiming step moves a texture from a slot to the pool's back. */
  lemma ReclaimAtKeepsExclusive(s: Stock, visible: seq<bool>, i: nat)
    requires i < |s.slots| == |visible|
    requires Exclusive(s)
    ensures Exclusive(ReclaimAt(s, visible, i))
  {
    var r := ReclaimAt(s, visible, i);
    if !visible[i] && s.slots[i].Render? {
      var u := s.slots[i].texture;
      forall t
        ensures Count(r, t) == Count(s, t)
      {
        SlotCountUpdate(s.slots, i, Unset, t);
        PoolCountConcat(s.pool, [u], t);
        assert PoolCount([u], t) == PoolCount([], t) + (if u == t then 1 else 0);
      }
    }
  }

  /** Reclaiming never makes a texture held twice. */
  lemma {:induction false} ExtractKeepsExclusive(s: Stock, visible: seq<bool>, n: nat)
    requires n <= |s.slots| == |visible|
    requires Exclusive(s)
    ensures Exclusive(Extract(s, visible, n))
  {
    if n > 0 {
      ExtractKeepsExclusive(s, visible, n - 1);
      ReclaimAtKeepsExclusive(Extract(s, visible, n - 1), visible, n - 1);
    }
  }

  // ---------------------------------------------------------------------------
  // GetRenderTexture and RenderPortals' texture hand-out

  /** GetRenderTexture: the pool's front if there is one, else a new texture. */
  function Acquire(s: Stock): (Texture, Stock)
  {
    if |s.pool| > 0 then (s.pool[0], s.(pool := s.pool[1..]))
    else (s.next, s.(next := s.next + 1))
  }

  /** What the texture ends up being when a portal needs one. */
  function Handed(s: Stock): Texture
  {
    Acquire(s).0
  }

  /** One step of the hand-out loop: a visible portal without a render
      texture gets one from Acquire; every other slot is kept. */
  function SupplyAt(s: Stock, visible: seq<bool>, i: nat): (r: Stock)
    requires i < |s.slots| && i < |visible|
    ensures |r.slots| == |s.slots|
  {
    if visible[i] && !s.slots[i].Render? then
      var (t, s') := Acquire(s);
      s'.(slots := s'.slots[i := Render(t)])
    else s
  }

  /** The hand-out loop run over the first `n` portals. */
  function Supply(s: Stock, visible: seq<bool>, n: nat): (r: Stock)
    requires n <= |s.slots| && n <= |visible|
    ensures |r.slots| == |s.slots|
  {
    if n == 0 then s else SupplyAt(Supply(s, visible, n - 1), visible, n - 1)
  }

  /** The hand-out over the first `n` portals gives each visible one a render
      texture, keeps a texture already there, leaves the others alone, only
      ever takes from the front of the pool, and allocates only once the
      pool is empty. */
  lemma {:induction false} SupplyEffect(s: Stock, visible: seq<bool>, n: nat)
    requires n <= |s.slots| == |visible|
    ensures var r := Supply(s, visible, n);
      && (forall i :: 0 <= i < n && visible[i] ==> r.slots[i].Render?)
      && (forall i :: 0 <= i < |s.slots| && s.slots[i].Render? ==> r.slots[i] == s.slots[i])
      && (forall i :: 0 <= i < |s.slots| && !(i < n && visible[i]) ==> r.slots[i] == s.slots[i])
      && |r.pool| <= |s.pool| && r.pool == s.pool[|s.pool| - |r.pool|..]
      && s.next <= r.next && (s.next < r.next ==> r.pool == [])
  {
    if n > 0 {
      SupplyEffect(s, visible, n - 1);
      var m := Supply(s, visible, n - 1);
      if visible[n - 1] && !m.slots[n - 1].Render? && |m.pool| > 0 {
        assert m.pool[1..] == s.pool[|s.pool| - |m.pool| + 1..];
      }
    }
  }

  /** One hand-out step keeps the textures exclusive: a pooled texture moves
      from the pool to the slot; an allocated one is new. */
  lemma SupplyAtKeepsExclusive(s: Stock, visible: seq<bool>, i: nat)
    requires i < |s.slots| == |visible|
    requires Exclusive(s)
    ensures Exclusive(SupplyAt(s, visible, i))
  {
    var r := SupplyAt(s, visible, i);
    if visible[i] && !s.slots[i].Render? {
      var u := Handed(s);
      forall t
        ensures Count(r, t) == Count(s, t) + (if |s.pool| == 0 && t == u then 1 else 0)
      {
        SlotCountUpdate(s.slots, i, Render(u), t);
        if |s.pool| > 0 {
          PoolCountFront(s.pool, t);
        }
      }
    }
  }

  lemma {:induction false} SupplyKeepsExclusive(s: Stock, visible: seq<bool>, n: nat)
    requires n <= |s.slots| == |visible|
    requires Exclusive(s)
    ensures Exclusive(Supply(s, visible, n))
  {
    if n > 0 {
      SupplyKeepsExclusive(s, visible, n - 1);
      SupplyAtKeepsExclusive(Supply(s, visible, n - 1), visible, n - 1);
    }
  }

  // ---------------------------------------------------------------------------
  // UpdateCamera

  /** One render tick's texture work: reclaim over all portals, then hand out. */
  function Tick(s: Stock, visible: seq<bool>): (r: Stock)
    requires |s.slots| == |visible|
    ensures |r.slots| == |s.slots|
  {
    Supply(Extract(s, visible, |visible|), visible, |visible|)
  }

  /** After a tick exactly the visible portals hold render textures, a
      visible portal's earlier render texture is kept, a hidden portal
      without one is left as it was, and the textures stay exclusive. */
  lemma TickEffect(s: Stock, visible: seq<bool>)
    requires |s.slots| == |visible|
    requires Exclusive(s)
    ensures var r := Tick(s, visible);
      && Exclusive(r)
      && (forall i :: 0 <= i < |visible| ==> (r.slots[i].Render? <==> visible[i]))
      && (forall i :: 0 <= i < |visible| && visible[i] && s.slots[i].Render? ==> r.slots[i] == s.slots[i])
      && (forall i :: 0 <= i < |visible| && !visible[i] && !s.slots[i].Render? ==> r.slots[i] == s.slots[i])
  {
    var n := |visible|;
    var e := Extract(s, visible, n);
    ExtractEffect(s, visible, n);
    ExtractKeepsExclusive(s, visible, n);
    SupplyEffect(e, visible, n);
    SupplyKeepsExclusive(e, visible, n);
  }

  // ---------------------------------------------------------------------------
  // The pass schedule of RenderPortals

  /** One render pass: which portal of the list, and which iteration id. */
  datatype Job = Job(portal: nat, iteration: nat)

  /** The passes of one visible portal: iteration ids n-1 down to 0. */
  function Countdown(portal: nat, n: nat): seq<Job>
  {
    if n == 0 then [] else [Job(portal, n - 1)] + Countdown(portal, n - 1)
  }

  /** All passes of a tick, portal by portal in list order. */
  function Schedule(visible: seq<bool>, n: nat): seq<Job>
  {
    if visible == [] then []
    else
      var last := |visible| - 1;
      Schedule(visible[..last], n) + (if visible[last] then Countdown(last, n) else [])
  }

  function CountVisible(visible: seq<bool>): nat
  {
    if visible == [] then 0
    else CountVisible(visible[..|visible| - 1]) + (if visible[|visible| - 1] then 1 else 0)
  }

  /** The passes of one portal among a list of passes. */
  function JobsOf(jobs: seq<Job>, portal: nat): seq<Job>
  {
    if jobs == [] then []
    else JobsOf(jobs[..|jobs| - 1], portal) + (if jobs[|jobs| - 1].portal == portal then [jobs[|jobs| - 1]] else [])
  }

  lemma {:induction false} CountdownIds(portal: nat, n: nat)
    ensures |Countdown(portal, n)| == n
    ensures forall k :: 0 <= k < n ==> Countdown(portal, n)[k] == Job(portal, n - 1 - k)
  {
    if n > 0 {
      CountdownIds(portal, n - 1);
    }
  }

  /** A tick issues as many passes as there are visible portals times the
      recursion depth. */
  lemma {:induction false} ScheduleSize(visible: seq<bool>, n: nat)
    ensures |Schedule(visible, n)| == CountVisible(visible) * n
  {
    if visible != [] {
      var last := |visible| - 1;
      var c, tail := CountVisible(visible[..last]), if visible[last] then Countdown(last, n) else [];
      ScheduleSize(visible[..last], n);
      CountdownIds(last, n);
      assert |Schedule(visible, n)| == c * n + |tail|;
      if visible[last] {
        MulSucc(c, n);
      }
    }
  }

  lemma MulSucc(c: nat, n: nat)
    ensures (c + 1) * n == c * n + n
  {
  }

  /** Every pass is for a visible portal of the list and an id below n. */
  lemma {:induction false} ScheduleJobs(visible: seq<bool>, n: nat)
    ensures forall j :: 0 <= j < |Schedule(visible, n)| ==>
      && Schedule(visible, n)[j].portal < |visible|
      && visible[Schedule(visible, n)[j].portal]
      && Schedule(visible, n)[j].iteration < n
  {
    if visible != [] {
      var last := |visible| - 1;
      ScheduleJobs(visible[..last], n);
      CountdownIds(last, n);
    }
  }

  lemma {:induction false} JobsOfAppend(x: seq<Job>, y: seq<Job>, portal: nat)
    ensures JobsOf(x + y, portal) == JobsOf(x, portal) + JobsOf(y, portal)
  {
    if y == [] {
      assert x + y == x;
    } else {
      var last := |y| - 1;
      assert (x + y)[..|x + y| - 1] == x + y[..last];
      JobsOfAppend(x, y[..last], portal);
    }
  }

  lemma {:induction false} JobsOfCountdown(q: nat, n: nat, portal: nat)
    ensures JobsOf(Countdown(q, n), portal) == if q == portal then Countdown(q, n) else []
  {
    if n > 0 {
      JobsOfCountdown(q, n - 1, portal);
      JobsOfAppend([Job(q, n - 1)], Countdown(q, n - 1), portal);
      assert [Job(q, n - 1)][..0] == [];
    }
  }

  /** Each visible portal receives exactly its countdown of n passes, in
      order; an invisible portal or one outside the list receives none. */
  lemma {:induction false} ScheduleOfPortal(visible: seq<bool>, n: nat, portal: nat)
    ensures JobsOf(Schedule(visible, n), portal)
         == if portal < |visible| && visible[portal] then Countdown(portal, n) else []
  {
    if visible != [] {
      var last := |visible| - 1;
      ScheduleOfPortal(visible[..last], n, portal);
      var tail := if visible[last] then Countdown(last, n) else [];
      JobsOfAppend(Schedule(visible[..last], n), tail, portal);
      JobsOfCountdown(last, n, portal);
    }
  }
}

# Portals: a verified model of the crossing and rendering bookkeeping

This project models the bookkeeping core of the Portals Unity project in Dafny. It leaves the geometry out.

- **Crossing state machine (`Portal`).** Each portal keeps the set of objects in its zone and a queue of objects that have just warped. It also keeps an activation lifecycle: a cancellation source per activation, one warp loop, one enter loop and one exit loop per source, and a destroyed flag.
  - Trigger-enter adds an object unless it can warp now (0 < z <= 2 in the portal's frame).
  - The warp pass warps every contained object that can warp, queues it, and then exits each queued object. Activation runs the first warp pass before it returns.
  - Trigger-exit removes an object and tells it to exit.
- **Per-object crossing state (`PortalableObject`).** This covers:
  - the containment counter and the (in, out) portal pair, which a warp swaps;
  - the clone, with its active flag, its parking position and its sync loop;
  - the (collider, wall) pairs whose collisions are switched off.
- **Render textures and passes (`PortalCamera`).** On every render tick, the camera:
  - moves the render textures of invisible portals into a FIFO pool;
  - gives each visible portal a render texture, either the pool's front or a new one;
  - issues, for each visible portal, one render pass per recursion iteration, deepest first. Each pass's camera pose is the main pose warped iteration + 1 times through the pair.
- **Activation gate (`PortalActivationArea`).** Sets the player near or away. Near activates both paired portals; away deactivates them. Either way, only its own portal's renderer is shown or hidden.

Layout:
- Value-level modules describe each transition as a function and carry the lemmas:
  - `Crossing`: one object's crossing state;
  - `Lifecycle`: a portal's activation tokens;
  - `TexturePool`: texture slots, pool and allocator, and the pass schedule;
  - `Geometry`: poses, and the warp maps as uninterpreted functions held in a `Warps` record that every caller passes in.
- Classes perform the same transitions in place. Their methods are proved to agree with those functions:
  - `PortalSystem.Portal`, `PortalSystem.PortalableObject` and `PortalSystem.Collider`;
  - `Rendering.PortalCamera`;
  - `ActivationGate.ActivationArea`.

Across a scene (a ghost set of portals `ps` and of objects `os`), the portal methods keep the invariant `PortalSystem.Scene`:
- every object's counter equals the number of portals whose set holds it;
- every contained object has its pair set;
- every clone is shown exactly while its object is in some zone;
- every warp queue is empty between passes.

The camera keeps `Rendering.PortalCamera.Valid`. Its main part is `TexturePool.Exclusive`: no render texture is held twice, by two portals, by a portal and the pool, or twice in the pool, and every texture is below the next fresh handle.

Modelling choices:
- **The component lookup.** `TryGetComponent<PortalableObject>` on a trigger's collider, and `GetComponentInChildren<PortalActivationArea>` under the other portal, become a `found` parameter. It is null when there is nothing to find.
- **Textures.** A render texture is a natural-number handle. Allocation takes the next unused one, which is how the model says a new texture is fresh.
- **The material slot.** A portal's material main texture is a `Slot`: nothing, a texture that is not a render texture, or a render texture. The source reads the slot `as RenderTexture`, so it treats a non-render texture like nothing, and the model does the same.
- **Per-frame loops.** Each loop of the source becomes one step method (`WarpLoopStep`, `EnterLoopStep`, `ExitLoopStep`, `CloneSyncStep`). A step runs only while its guard holds. An async loop runs synchronously up to its first await, so the call that starts it also runs that part:
  - `Portal.Activate` runs one `WarpLoopStep`, a whole warp pass;
  - `PortalableObject.EnterPortal` runs one `CloneSyncStep` when it starts the sync loop;
  - the enter and exit loops await a trigger event first, so starting them does nothing more.
- **Cancellation.** Sources are numbered in the order they are made, so a token is a number, and only the newest token can be live.
- **The clone-sync loop** is counted (`cloneLoops`): EnterPortal starts one exactly when the counter becomes 1. Its first turn places the clone before EnterPortal returns (`Crossing.EnterAndSync`).
- **Physics.** `Physics.IgnoreCollision` is modelled as a set of ignored (collider, wall) pairs.
- **Outputs.** Each issued render pass is appended to a log (`passes`). The warning of RenderPortals is an output flag (`warned`).
- **Exceptions.** A handler that throws returns `Fail(error)`.

## Model

| member | source | states |
|---|---|---|
| PortalSystem.CanWarp | Assets/Scripts/Portal.cs:145-156 | CanWarpObject's test holds exactly when 0 < z <= 2 for the local z coordinate (threshold at line 9): z = 0 and z > 2 are refused, z = 2 is accepted |
| PortalSystem.Portal.constructor | Assets/Scripts/Portal.cs:24-29 | a new portal has an empty set and queue and a dormant lifecycle (no source yet) |
| PortalSystem.Portal.Link | Assets/Scripts/Portal.cs:12 | the serialized pairing makes each portal the other's partner |
| PortalSystem.Portal.Activate | Assets/Scripts/Portal.cs:38-49 | the new activation state is Lifecycle.Activate of the old: no change once destroyed, else a new source and one new loop set under its token; a live activation then runs the warp loop's first turn, so exactly the objects eligible before the call are warped, exited and leave the set, the rest stay untouched; the scene invariant is kept |
| PortalSystem.Portal.Deactivate | Assets/Scripts/Portal.cs:52-58 | the new activation state is Lifecycle.Deactivate of the old: the current source cancelled unless destroyed |
| PortalSystem.Portal.OnDestroy | Assets/Scripts/Portal.cs:71-75 | the new activation state is Lifecycle.Destroy of the old: cancelled and destroyed |
| Lifecycle.DormantWellFormed | Assets/Scripts/Portal.cs:29 | before any activation the lifecycle is well formed and no loop runs |
| Lifecycle.StepsKeepWellFormed | Assets/Scripts/Portal.cs:38-75 | Activate, Deactivate and OnDestroy keep every started loop's token among the sources made, and nothing live once destroyed |
| Lifecycle.ActivateRunsOneSet | Assets/Scripts/Portal.cs:38-49 | on a live portal, Activate cancels every earlier token, and exactly the warp, enter and exit loops of the new token keep running |
| Lifecycle.ActivateTwiceRunsOneSet | Assets/Scripts/Portal.cs:43-48 | activating twice leaves only the second loop set running, three loops in all |
| Lifecycle.DeactivateStopsAll | Assets/Scripts/Portal.cs:52-58 | after Deactivate every token is cancelled and no loop runs |
| Lifecycle.DestroyIsFinal | Assets/Scripts/Portal.cs:71-75 | after OnDestroy every token is cancelled, no loop runs, and Activate and Deactivate change nothing |
| PortalSystem.Portal.WarpLoopStep | Assets/Scripts/Portal.cs:78-85 | a warp-loop turn runs exactly when its token is not cancelled; cancelled, it changes nothing; run, it has TryWarpObjects' effect: the eligible objects are warped, exited and leave the set, the others are untouched; the scene invariant is kept |
| PortalSystem.Portal.EnterLoopStep | Assets/Scripts/Portal.cs:104-108 | an enter event is handled exactly when the loop's token is not cancelled; dropped, it changes nothing; handled, it has TryEnterPortal's effect: no object, one that can warp or one already contained changes neither set nor object, any other joins the set and gets Crossing.EnterAndSync |
| PortalSystem.Portal.ExitLoopStep | Assets/Scripts/Portal.cs:111-115 | an exit event is handled exactly when the loop's token is not cancelled; dropped, it changes nothing; handled, the object is out of the set, and gets Crossing.Exit exactly when it was in the set before |
| PortalSystem.Portal.TryEnterPortal | Assets/Scripts/Portal.cs:118-128 | no object, or one that can warp now, or one already contained: set and object unchanged; otherwise the object joins the set and gets exactly one Crossing.EnterAndSync under (this, other, wall); the scene invariant is kept |
| PortalSystem.Portal.EnterZone | Assets/Scripts/Portal.cs:126-127 | the set's Add, then EnterPortal only when the object was not in the set before |
| PortalSystem.Portal.Admit | Assets/Scripts/Portal.cs:126 | the Add leaves the scene pending on the object: its holders number its counter plus one, all else intact |
| PortalSystem.Portal.NotifyEnter | Assets/Scripts/Portal.cs:127 | EnterPortal on a pending object restores the scene invariant and performs Crossing.EnterAndSync under the two portals' frames |
| PortalSystem.Portal.TryExitPortal | Assets/Scripts/Portal.cs:131-135 | no object: nothing changes; otherwise ExitPortal's effect; the scene invariant is kept |
| PortalSystem.Portal.ExitPortal | Assets/Scripts/Portal.cs:138-142 | the object leaves the set; it performs Crossing.Exit only when it was in the set, otherwise it is unchanged; the counter invariant is kept |
| PortalSystem.Portal.Dismiss | Assets/Scripts/Portal.cs:140 | the Remove leaves the scene pending on the object: its holders number its counter minus one |
| PortalSystem.Portal.NotifyExit | Assets/Scripts/Portal.cs:141 | ExitPortal on a pending object restores the scene invariant and performs Crossing.Exit |
| PortalSystem.Portal.TryWarpObjects | Assets/Scripts/Portal.cs:88-101 | every object eligible at the start is warped once under its pair, then exited once, and leaves the set; the others stay in the set untouched; the queue ends empty and the scene invariant is kept |
| PortalSystem.Portal.WarpPass | Assets/Scripts/Portal.cs:90-97 | the queue holds exactly the eligible objects, each once; each is warped under its old pair; the other contained objects are unchanged |
| PortalSystem.Portal.WarpStep | Assets/Scripts/Portal.cs:92-96 | one visit keeps the warp-pass invariant with one object fewer pending |
| PortalSystem.Portal.WarpOne | Assets/Scripts/Portal.cs:95-96 | the object is warped under its pair and appended to the queue; the scene stays linked |
| PortalSystem.Portal.ExitPass | Assets/Scripts/Portal.cs:99-100 | the queue is drained; exactly the queued objects leave the set, each exited once; the rest are unchanged |
| PortalSystem.Portal.ExitStep | Assets/Scripts/Portal.cs:99-100 | one dequeue keeps the exit-pass invariant with the queue one shorter |
| PortalSystem.EmptyScene | Assets/Scripts/Portal.cs:24-25 | portals with empty sets and queues and fresh objects satisfy the scene invariant |
| PortalSystem.PortalableObject.constructor | Assets/Scripts/PortalableObject.cs:23-29 | after Awake the state is Crossing.Initial: clone hidden with the object's scale, counter 0, colliders collected |
| Crossing.InitialHidden | Assets/Scripts/PortalableObject.cs:23-29 | the initial state is coherent, the counter is 0, the clone is inactive with the object's scale, no sync loop runs |
| PortalSystem.PortalableObject.OnDestroy | Assets/Scripts/PortalableObject.cs:32-35 | only the destroyed flag changes |
| PortalSystem.PortalableObject.EnterPortal | Assets/Scripts/PortalableObject.cs:41-76 | the new state is Crossing.EnterAndSync of the old: Crossing.Enter, and when the counter becomes 1 the new sync loop's first turn |
| Crossing.EnterCoherent | Assets/Scripts/PortalableObject.cs:62-72 | EnterPortal records (in, out), adds exactly one to the counter, shows the clone, keeps the body and keeps the clone coherent |
| Crossing.EnterStartsSyncOnFirstZone | Assets/Scripts/PortalableObject.cs:71-75 | a sync loop is started exactly when the counter becomes 1, and never otherwise |
| Crossing.EnterAndSyncEffect | Assets/Scripts/PortalableObject.cs:41-76 | EnterPortal with the sync loop's first turn keeps the state coherent and the clone shown; it differs from Crossing.Enter only on the first zone; there, with a pair and not destroyed, the clone is placed at the warp of the object's pose and one sync loop stays running; otherwise that loop ends at once |
| PortalSystem.PortalableObject.IgnoreWall | Assets/Scripts/PortalableObject.cs:67-69 | the collider loop adds every (collider, wall) pair to the ignored set |
| PortalSystem.PortalableObject.RestoreWall | Assets/Scripts/PortalableObject.cs:81-83 | the collider loop removes every (collider, wall) pair from the ignored set |
| Crossing.PairsMembers | Assets/Scripts/PortalableObject.cs:67-69 | the pairs of one wall are exactly (c, wall) for the object's colliders c |
| Crossing.WallIgnoredWhileInside | Assets/Scripts/PortalableObject.cs:67-83 | with a wall, Enter ignores and Exit restores every (collider, wall) pair; pairs with other colliders are untouched |
| Crossing.NoWallNoIgnore | Assets/Scripts/PortalableObject.cs:67-83 | without a wall, Enter and Exit leave the ignored set alone |
| Crossing.EnterExitBalanced | Assets/Scripts/PortalableObject.cs:41-92 | EnterPortal (with the sync loop's first turn) and then ExitPortal through the same wall give back the counter and the body, and the ignored set when none of the wall's pairs was ignored before |
| PortalSystem.PortalableObject.ExitPortal | Assets/Scripts/PortalableObject.cs:79-92 | the new state is Crossing.Exit of the old |
| Crossing.ExitCoherent | Assets/Scripts/PortalableObject.cs:85-91 | ExitPortal takes exactly one from the counter; the clone is hidden and parked at (-1000, 1000, -1000) exactly when the counter reaches 0, and is otherwise unchanged and shown |
| PortalSystem.PortalableObject.OnWarp | Assets/Scripts/PortalableObject.cs:102-112 | only the body changes: it becomes Crossing.WarpBody under the pair's frames |
| PortalSystem.PortalableObject.SwapPortals | Assets/Scripts/PortalableObject.cs:115-118 | only the pair changes: in and out are exchanged |
| PortalSystem.PortalableObject.Warp | Assets/Scripts/PortalableObject.cs:95-99 | the new state is Crossing.Warp under the old pair's frames |
| Crossing.WarpEffect | Assets/Scripts/PortalableObject.cs:95-118 | a warp replaces position and rotation by the warp maps under (in, out); the velocity is warped by the direction map only when there is one; the pair is swapped; counter, clone and ignored set are kept |
| Crossing.WarpTwiceRestoresPair | Assets/Scripts/PortalableObject.cs:115-118 | two successive warps give back the original pair |
| PortalSystem.PortalableObject.UpdateActiveClone | Assets/Scripts/PortalableObject.cs:51-59 | the new state is Crossing.SyncClone under the current pair |
| Crossing.SyncCloneEffect | Assets/Scripts/PortalableObject.cs:51-59 | the clone's pose becomes the warp of the object's pose; the object's own body and all else are unchanged |
| PortalSystem.PortalableObject.CloneSyncStep | Assets/Scripts/PortalableObject.cs:41-48 | a sync-loop turn runs exactly while not destroyed, counter > 0 and both portals are set; otherwise the loop ends |
| Rendering.PortalCamera.constructor | Assets/Scripts/PortalCamera.cs:12-24 | Start: the portal list, an iteration count within 1..5, an empty pool and no passes |
| Rendering.PortalCamera.UpdateCamera | Assets/Scripts/PortalCamera.cs:39-43 | extraction then rendering: the stock becomes TexturePool.Tick of the old, the passes added are exactly the schedule, warned iff more than one portal is visible, and the camera invariant is kept |
| TexturePool.TickEffect | Assets/Scripts/PortalCamera.cs:39-43 | after a tick exactly the visible portals hold render textures, a visible portal keeps the one it had, an invisible portal holding none keeps its slot, and nothing is held twice |
| Rendering.PortalCamera.ExtractRenderTextures | Assets/Scripts/PortalCamera.cs:46-61 | the stock becomes TexturePool.Extract of the old over all portals |
| Rendering.PortalCamera.ReclaimPortal | Assets/Scripts/PortalCamera.cs:50-59 | one loop turn: TexturePool.ReclaimAt, keeping the camera invariant |
| TexturePool.ExtractEffect | Assets/Scripts/PortalCamera.cs:46-61 | reclaiming clears exactly the invisible portals' render textures, appends them to the pool in portal order, and leaves the other slots and the allocator alone |
| TexturePool.ReclaimAtKeepsExclusive | Assets/Scripts/PortalCamera.cs:55-59 | moving a texture from a slot to the pool's back holds no texture twice |
| TexturePool.ExtractKeepsExclusive | Assets/Scripts/PortalCamera.cs:46-61 | reclaiming keeps every texture held at most once |
| TexturePool.ExclusiveMeans | Assets/Scripts/PortalCamera.cs:17 | the count form of exclusivity gives pairwise distinct portal textures, pool entries and portal-versus-pool textures, all below the next fresh handle |
| Rendering.PortalCamera.GetRenderTexture | Assets/Scripts/PortalCamera.cs:96-102 | the result and the new stock are TexturePool.Acquire of the old: the pool's front if any, else the next fresh handle |
| Rendering.PortalCamera.RenderPortals | Assets/Scripts/PortalCamera.cs:64-93 | the stock becomes TexturePool.Supply of the old over all portals, the passes added are exactly the schedule, and warned iff more than one portal is visible |
| Rendering.PortalCamera.RenderVisible | Assets/Scripts/PortalCamera.cs:66-89 | the portal loop returns the number of visible portals, supplies the textures and appends the schedule of passes |
| Rendering.PortalCamera.RenderStep | Assets/Scripts/PortalCamera.cs:70-88 | one loop turn: skipped when invisible; otherwise the portal is supplied and its passes extend those of the earlier portals |
| Rendering.PortalCamera.RunsExtend | Assets/Scripts/PortalCamera.cs:68-88 | a visible portal's countdown of passes extends the schedule of the portals before it, since it touches no earlier portal's slot |
| Rendering.PortalCamera.RenderPortal | Assets/Scripts/PortalCamera.cs:77-88 | a visible portal is supplied by TexturePool.SupplyAt and gets its countdown of passes |
| Rendering.PortalCamera.EnsureTexture | Assets/Scripts/PortalCamera.cs:77-83 | a visible portal ends up holding a render texture; the stock is TexturePool.SupplyAt of the old |
| TexturePool.SupplyEffect | Assets/Scripts/PortalCamera.cs:77-83 | the hand-out gives every visible portal a render texture, keeps one already there, leaves the rest alone, takes only from the pool's front, never grows the pool, and allocates only once the pool is empty |
| TexturePool.SupplyAtKeepsExclusive | Assets/Scripts/PortalCamera.cs:79-83 | handing a pooled or fresh texture to a portal holds no texture twice |
| TexturePool.SupplyKeepsExclusive | Assets/Scripts/PortalCamera.cs:68-89 | the whole hand-out keeps every texture held at most once |
| Rendering.PortalCamera.RenderIterations | Assets/Scripts/PortalCamera.cs:85-88 | the camera targets the portal's render texture and issues the passes of iterations N-1 down to 0, each from the main pose warped id + 1 times through the portal and its partner; no texture moves |
| Rendering.PortalCamera.RenderCamera | Assets/Scripts/PortalCamera.cs:105-120 | the camera pose is the main pose warped iterationID + 1 times through the pair, and exactly one pass is logged with it |
| TexturePool.CountdownIds | Assets/Scripts/PortalCamera.cs:87-88 | a visible portal's passes are N, with iteration ids N-1 down to 0 in that order |
| TexturePool.ScheduleSize | Assets/Scripts/PortalCamera.cs:68-88 | a tick issues as many passes as visible portals times N |
| TexturePool.ScheduleJobs | Assets/Scripts/PortalCamera.cs:68-88 | every pass is for a visible portal of the list and an iteration id below N |
| TexturePool.ScheduleOfPortal | Assets/Scripts/PortalCamera.cs:68-88 | each visible portal receives exactly its countdown of N passes, an invisible one none |
| ActivationGate.ActivationArea.constructor | Assets/Scripts/PortalActivationArea.cs:6-8 | an area holds its portal and no paired area yet |
| ActivationGate.ActivationArea.Awake | Assets/Scripts/PortalActivationArea.cs:10-14 | without a paired portal it throws before changing anything; with one it records the found area and sets the player away: both portals deactivated and the renderer disabled, or a throw after its own portal is deactivated when no area was found |
| ActivationGate.IsPlayer | Assets/Scripts/PortalActivationArea.cs:28-31 | the player test always throws NotImplemented |
| ActivationGate.ActivationArea.OnTriggerEnter | Assets/Scripts/PortalActivationArea.cs:16-20 | always fails with IsPlayer's exception, so triggers never change the activation |
| ActivationGate.ActivationArea.OnTriggerExit | Assets/Scripts/PortalActivationArea.cs:22-26 | always fails with IsPlayer's exception, so triggers never change the activation |
| ActivationGate.ActivationArea.SetPlayerNear | Assets/Scripts/PortalActivationArea.cs:33-47 | both portals are activated (near) or deactivated (away), and this portal's renderer is enabled exactly when near while the paired portal's renderer is untouched; a missing paired area throws after its own portal was stepped; a shared portal is stepped twice; away leaves this portal's set alone; near removes this portal's eligible objects and keeps the scene invariant |
| ActivationGate.NearEffect | Assets/Scripts/PortalActivationArea.cs:33-47 | near leaves exactly one fresh loop set running even when stepped twice, away stops every loop, and both keep the lifecycle well formed |
| ActivationGate.ActivationArea.Activate | Assets/Scripts/PortalActivationArea.cs:50-53 | the portal's activation state is Lifecycle.Activate of the old, and the portal's first warp pass has PortalSystem.Portal.Activate's effect on its set and its objects |
| ActivationGate.ActivationArea.Deactivate | Assets/Scripts/PortalActivationArea.cs:56-59 | the portal's activation state is Lifecycle.Deactivate of the old |

## Left out

- PortalUtils (Assets/Scripts/PortalUtils.cs) is not part of this model. Its floating-point transform maps become the uninterpreted fields of `Geometry.Warps`, so every result holds for any choice of maps. The same goes for InverseTransformPoint, which becomes the `localZ` map. The approximate round trip through swapped frames is not claimed.
- PortalableMesh (Assets/Scripts/PortalableMesh.cs) is not part of this model; it only copies a mesh and its materials onto the clone.
- Portal.Awake is not modelled. Its error log for a missing partner and its trigger lookups are engine plumbing. The scene invariant instead requires each portal's partner to be set.
- The gizmo drawing of Portal is editor-only and is left out.
- RenderCamera's oblique clip plane, its projection matrix and RenderSingleCamera are floating-point matrices and an engine call. Each pass is recorded in the `passes` log instead.
- The texture's screen size and format are left out. A new texture is the next fresh handle.
- FindObjectsOfType in Start and the render-pipeline subscription in OnEnable/OnDisable are engine calls. The constructor of PortalCamera takes the portal list instead.
- The ghost `partner` index list stands for the scene's pairing: every portal's partner is in the list.
- The engine's visibility test (`Renderer.isVisible`) is an input field (`visible`) that the model never changes.
- Portal transforms are fixed (`const frame`). The model assumes that no transform moves while a method runs.
- Debug.LogWarning is not printed. RenderPortals returns the flag `warned` instead.
- UniTask scheduling (Yield timings, Forget, awaiting trigger events) is not modelled beyond each loop's synchronous first turn. Each later loop body is one step method, and a step runs only while its guard holds. Interleaving between loops and frames is not modelled.
- Several clone-sync loops may overlap. The model counts them (`cloneLoops`) but does not interleave them.
- HashSet iteration order is not modelled. The warp pass visits the set in an arbitrary order, and the proved results hold for every order.
- A null reference in the source throws. Two of these are modelled:
  - a missing partner in Awake of the activation area;
  - a missing paired area in SetPlayerNear, after the first step has already happened.
  
  Two are excluded by preconditions:
  - warping or syncing an object with no pair set (`inPortal != null && outPortal != null`);
  - a portal without a partner (the scene invariant).
- OnTriggerEnter and OnTriggerExit: the branch that would call SetPlayerNear is not modelled, because IsPlayer always throws first.
- ActivationGate.ActivationArea.SetPlayerNear states the paired portal's set only as shrinking. With a shared portal, it states this portal's set only as within the first pass's result. The second warp pass's eligibility depends on positions the first pass changed. The objects' new states are stated on PortalSystem.Portal.Activate, which it calls.
- PortalSystem.PortalableObject.OnWarp: the Rigidbody is given by whether the velocity is present; the component lookup itself is not modelled.

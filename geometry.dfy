/** Positions, rotations and poses, and the three warp maps of the portal
    utilities. The maps are floating-point frame changes; the model keeps them
    uninterpreted: they are the fields of a `Warps` record, and every operation
    that needs one takes the record as a parameter, so everything proved here
    holds for every choice of maps. */
module Geometry {

  datatype Vec3 = Vec3(x: real, y: real, z: real)

  datatype Quat = Quat(x: real, y: real, z: real, w: real)

  /** A world transform: where something is and how it is turned.
      A portal's frame is the pose of its transform. */
  datatype Pose = Pose(position: Vec3, rotation: Quat)

  /** The geometry the bookkeeping consults, each map taking the in-frame and
      the out-frame first:
      - `position`, `rotation`, `direction`: warp a point, a rotation or a
        velocity from the in-portal's frame to the out-portal's frame;
      - `localZ(frame, p)`: the z coordinate of p in the given frame's local
        space (what InverseTransformPoint yields). */
  datatype Warps = Warps(
    position: (Pose, Pose, Vec3) -> Vec3,
    rotation: (Pose, Pose, Quat) -> Quat,
    direction: (Pose, Pose, Vec3) -> Vec3,
    localZ: (Pose, Vec3) -> real)

  /** A pose carried through the portal pair once: position and rotation warped. */
  function WarpPose(g: Warps, inFrame: Pose, outFrame: Pose, p: Pose): Pose
  {
    Pose(g.position(inFrame, outFrame, p.position), g.rotation(inFrame, outFrame, p.rotation))
  }

  /** The pose carried through the portal pair `n` times over. */
  function WarpPoseTimes(g: Warps, inFrame: Pose, outFrame: Pose, p: Pose, n: nat): Pose
  {
    if n == 0 then p else WarpPose(g, inFrame, outFrame, WarpPoseTimes(g, inFrame, outFrame, p, n - 1))
  }
}

/** Types, constants and external operations shared by every part of the 1DSfM translation-averaging model.

    The GTSAM geometry (unit directions, rotations, calibrations, poses) is kept abstract: the model never looks
    inside a direction or a rotation, it only moves them between dictionaries and hands them to the geometric
    operations collected in `Geometry`. */
module Common {

  /** A unit direction on the sphere (gtsam.Unit3). */
  type Unit3(!new)
  /** A rotation (gtsam.Rot3). */
  type Rot3(!new)
  /** A 2-D pixel observation. */
  type Point2(!new)
  /** A 3-D point or translation (gtsam.Point3). */
  type Point3(!new)
  /** Camera intrinsics of any calibration model. */
  type Calibration(!new)
  /** A rigid pose (gtsam.Pose3). */
  type Pose3(!new)

  datatype Option<+T> = None | Some(value: T)

  datatype Result<+R, +E> = Success(value: R) | Failure(error: E)

  /** The exceptions the averaging code raises, one constructor per raise site. */
  datatype Error =
    | MissingCalibrationOrRotation   // ValueError: a selected track uses a camera without intrinsics or rotation
    | IntrinsicsLengthMismatch       // ValueError: number of intrinsics differs from number of rotations
    | MissingPriorRotation           // AttributeError: a relative pose prior on a camera whose rotation is None
    | UndefinedAngle                 // ValueError: the angle between a measurement and ground truth is undefined
    | MissingGroundTruth             // KeyError: a measured pair has no ground-truth direction
    | DummyError                     // ValueError("dummy error"), raised unconditionally at the end of a run

  /** A dictionary key made of two integers: (i1, i2) for camera pairs, (track_id, cam_id) for landmarks. */
  type Pair = (int, int)

  /** Average outlier weight below which a measurement is an inlier. */
  const OUTLIER_WEIGHT_THRESHOLD: real := 0.125

  /** Default number of selected tracks per valid camera. */
  const TRACKS_TO_CAMERAS_RATIO: real := 20.0

  /** A track needs at least this many camera rays to take part in averaging. */
  const MIN_TRACK_LENGTH: nat := 3

  /** The numerical operations of GTSAM, used but never inspected by the model. */
  datatype Geometry = Geometry(
    // Unit3(wR.rotate(u.point3())): a unit direction rotated into the world frame
    rotate: (Rot3, Unit3) -> Unit3,
    // Unit3(Point3(calibrate(uv)[0], calibrate(uv)[1], 1.0)): the ray of a pixel in the camera frame
    backProject: (Calibration, Point2) -> Unit3,
    // wR.rotate(t) for a translation
    rotatePoint: (Rot3, Point3) -> Point3,
    // Pose3(wR, wt)
    makePose: (Rot3, Point3) -> Pose3,
    // T.translation()
    translationOf: Pose3 -> Point3
  )

  /** The set of camera indices that are an endpoint of some key. */
  function Endpoints(keys: set<Pair>): (cams: set<int>)
    ensures forall k :: k in keys ==> k.0 in cams && k.1 in cams
    ensures forall c :: c in cams ==> exists k :: k in keys && (c == k.0 || c == k.1)
  {
    (set k | k in keys :: k.0) + (set k | k in keys :: k.1)
  }

  /** Adding one key adds exactly its two endpoints. */
  lemma EndpointsInsert(keys: set<Pair>, k: Pair)
    ensures Endpoints(keys + {k}) == Endpoints(keys) + {k.0, k.1}
  {
  }
}

/** The 1DSfM translation-averaging run: measurement filtering, optional landmark directions from tracks,
    outlier classification, translation recovery, result assembly and metrics.

    The translation solver (TranslationRecovery) is the oracle `recover`, which maps the call it receives to the
    solver values it returns: a partial map from symbols to points. */
module Averaging {
  import opened Common
  import opened Symbols
  import Measurements
  import Tracks
  import Inliers
  import Metrics

  /** A prior on a pose (the covariance is not modelled). */
  datatype PosePrior = PosePrior(value: Pose3)

  /** A relative translation prior between two symbols, in the world frame (BinaryMeasurementPoint3). */
  datatype PointMeasurement = PointMeasurement(key1: Sym, key2: Sym, value: Point3)

  /** The two ways the solver is run: with relative priors, initial values and scale 0.0, or with a scale only. */
  datatype SolverCall =
    | WithPriors(measurements: seq<BinaryMeasurement>, priors: seq<PointMeasurement>, initial: map<Sym, Point3>)
    | WithScale(measurements: seq<BinaryMeasurement>, scale: real)

  /** The external computations a run depends on. */
  datatype Oracles = Oracles(
    geo: Geometry,
    // MFAS outlier weight of a measurement's symbol pair under a projection direction
    weight: (SymPair, Unit3) -> real,
    // TranslationRecovery: the solver values of a call
    recover: SolverCall -> map<Sym, Point3>,
    // ground-truth relative directions of all image pairs, from ground-truth poses
    gtDirections: seq<Option<Pose3>> -> map<Pair, Option<Unit3>>,
    // angle between a measured and a ground-truth direction, None when undefined
    angle: (Option<Unit3>, Option<Unit3>) -> Option<real>
  )

  /** What a run has computed once the poses are assembled. */
  datatype Outcome = Outcome(
    poses: seq<Option<Pose3>>,
    metrics: Option<Metrics.Metrics>,
    wti: seq<Option<Point3>>,
    values: map<Sym, Point3>,
    inlierCams: map<Pair, Unit3>,
    inlierTracks: map<Pair, Unit3>
  )

  // ---------------------------------------------------------------- solver inputs

  /** The prior on camera pair (i1, i2), in the world frame: (C(i2), C(i1), wRi2 * t). */
  function PriorMeasurement(k: Pair, prior: PosePrior, wRi: seq<Option<Rot3>>, geo: Geometry): (m: PointMeasurement)
    requires 0 <= k.1 < |wRi| && wRi[k.1].Some?
    ensures m.key1 == Cam(k.1) && m.key2 == Cam(k.0)
    ensures PriorEntry(m) == k
  {
    PointMeasurement(Cam(k.1), Cam(k.0), geo.rotatePoint(wRi[k.1].value, geo.translationOf(prior.value)))
  }

  /** The dictionary key a prior measurement came from. */
  function PriorEntry(m: PointMeasurement): Pair {
    (m.key2.index, m.key1.index)
  }

  /** ms holds one prior measurement for each entry of `done`, and every entry of `done` has a rotation. */
  ghost predicate PriorListOf(ms: seq<PointMeasurement>, done: set<Pair>, priors: map<Pair, PosePrior>,
                              wRi: seq<Option<Rot3>>, geo: Geometry)
    requires forall k :: k in priors ==> 0 <= k.1 < |wRi|
  {
    && done <= priors.Keys
    && |ms| == |done|
    && (forall k :: k in done ==> wRi[k.1].Some? && PriorMeasurement(k, priors[k], wRi, geo) in ms)
    && (forall i :: 0 <= i < |ms| ==>
          var k := PriorEntry(ms[i]);
          k in done && wRi[k.1].Some? && ms[i] == PriorMeasurement(k, priors[k], wRi, geo))
  }

  /** Appending the measurement of one more entry with a rotation keeps the list exact. */
  lemma PriorStep(ms: seq<PointMeasurement>, done: set<Pair>, priors: map<Pair, PosePrior>,
                  wRi: seq<Option<Rot3>>, geo: Geometry, k: Pair)
    requires forall k :: k in priors ==> 0 <= k.1 < |wRi|
    requires PriorListOf(ms, done, priors, wRi, geo)
    requires k in priors && k !in done && wRi[k.1].Some?
    ensures PriorListOf(ms + [PriorMeasurement(k, priors[k], wRi, geo)], done + {k}, priors, wRi, geo)
  {
    var m := PriorMeasurement(k, priors[k], wRi, geo);
    var next := ms + [m];
    forall x | x in done + {k} ensures PriorMeasurement(x, priors[x], wRi, geo) in next {
      if x != k {
        assert PriorMeasurement(x, priors[x], wRi, geo) in ms;
      } else {
        assert next[|ms|] == m;
      }
    }
    forall i | 0 <= i < |next|
      ensures var x := PriorEntry(next[i]);
        x in done + {k} && wRi[x.1].Some? && next[i] == PriorMeasurement(x, priors[x], wRi, geo)
    {
      if i < |ms| {
        assert next[i] == ms[i];
      }
    }
  }

  /** A list built from every entry has the entry count and covers every entry. */
  lemma PriorListComplete(ms: seq<PointMeasurement>, priors: map<Pair, PosePrior>, wRi: seq<Option<Rot3>>,
                          geo: Geometry)
    requires forall k :: k in priors ==> 0 <= k.1 < |wRi|
    requires PriorListOf(ms, priors.Keys, priors, wRi, geo)
    ensures |ms| == |priors|
    ensures forall k :: k in priors ==> wRi[k.1].Some? && PriorMeasurement(k, priors[k], wRi, geo) in ms
    ensures forall i :: 0 <= i < |ms| ==>
      var k := PriorEntry(ms[i]);
      k in priors && wRi[k.1].Some? && ms[i] == PriorMeasurement(k, priors[k], wRi, geo)
  {
  }

  /** Converts the relative pose priors to world-frame translation priors; a prior whose camera i2 has no rotation
      makes the conversion fail. */
  method PriorMeasurements(priors: map<Pair, PosePrior>, wRi: seq<Option<Rot3>>, geo: Geometry)
    returns (r: Result<seq<PointMeasurement>, Error>)
    requires forall k :: k in priors ==> 0 <= k.1 < |wRi|
    ensures r.Failure? <==> exists k :: k in priors && wRi[k.1].None?
    ensures r.Failure? ==> r.error == MissingPriorRotation
    ensures r.Success? ==> PriorListOf(r.value, priors.Keys, priors, wRi, geo)
    ensures r.Success? ==> |r.value| == |priors|
    ensures r.Success? ==> forall k :: k in priors ==>
      wRi[k.1].Some? && PriorMeasurement(k, priors[k], wRi, geo) in r.value
    ensures r.Success? ==> forall i :: 0 <= i < |r.value| ==>
      var k := PriorEntry(r.value[i]);
      k in priors && wRi[k.1].Some? && r.value[i] == PriorMeasurement(k, priors[k], wRi, geo)
  {
    var ms: seq<PointMeasurement> := [];
    var rest := priors.Keys;
    ghost var done: set<Pair> := {};
    while rest != {}
      invariant rest <= priors.Keys && done == priors.Keys - rest
      invariant PriorListOf(ms, done, priors, wRi, geo)
      decreases rest
    {
      var k :| k in rest;
      if wRi[k.1].None? {
        return Failure(MissingPriorRotation);
      }
      PriorStep(ms, done, priors, wRi, geo, k);
      ms := ms + [PriorMeasurement(k, priors[k], wRi, geo)];
      rest := rest - {k};
      done := done + {k};
    }
    PriorListComplete(ms, priors, wRi, geo);
    r := Success(ms);
  }

  /** C(i) holds the translation of the i-th absolute pose prior, when there is one, and nothing else is set. */
  ghost predicate InitialFor(initial: map<Sym, Point3>, absPriors: seq<Option<PosePrior>>, geo: Geometry) {
    && (forall s :: s in initial <==> s.Cam? && 0 <= s.index < |absPriors| && absPriors[s.index].Some?)
    && forall s :: s in initial ==>
         s.Cam? && 0 <= s.index < |absPriors| && absPriors[s.index].Some?
         && initial[s] == geo.translationOf(absPriors[s.index].value.value)
  }

  /** The initial solver values, one per absolute pose prior. */
  method InitialValues(absPriors: seq<Option<PosePrior>>, geo: Geometry) returns (initial: map<Sym, Point3>)
    ensures InitialFor(initial, absPriors, geo)
  {
    initial := map[];
    var i := 0;
    while i < |absPriors|
      invariant 0 <= i <= |absPriors|
      invariant forall s :: s in initial <==> s.Cam? && 0 <= s.index < i && absPriors[s.index].Some?
      invariant forall s :: s in initial ==>
        s.Cam? && 0 <= s.index < i && absPriors[s.index].Some?
        && initial[s] == geo.translationOf(absPriors[s.index].value.value)
    {
      if absPriors[i].Some? {
        initial := initial[Cam(i) := geo.translationOf(absPriors[i].value.value)];
      }
      i := i + 1;
    }
  }

  // ---------------------------------------------------------------- result assembly

  /** The translation list of the first numImages cameras: the solver's value of C(i) where camera i has a rotation
      and the solver returned C(i), None elsewhere. */
  function Translations(numImages: nat, wRi: seq<Option<Rot3>>, values: map<Sym, Point3>): (wti: seq<Option<Point3>>)
    requires numImages <= |wRi|
    ensures |wti| == numImages
    ensures forall i :: 0 <= i < numImages ==> (wti[i].Some? <==> wRi[i].Some? && Cam(i) in values)
    ensures forall i :: 0 <= i < numImages && wti[i].Some? ==> wti[i].value == values[Cam(i)]
  {
    seq(numImages, i requires 0 <= i < numImages =>
      if wRi[i].Some? && Cam(i) in values then Some(values[Cam(i)]) else None)
  }

  /** Fills a list of numImages empty slots with the solver values of the cameras that have a rotation. */
  method TranslationsFromValues(numImages: nat, wRi: seq<Option<Rot3>>, values: map<Sym, Point3>)
    returns (wti: seq<Option<Point3>>)
    requires numImages <= |wRi|
    ensures wti == Translations(numImages, wRi, values)
  {
    wti := seq(numImages, _ => None);
    for i := 0 to numImages
      invariant |wti| == numImages
      invariant forall j :: 0 <= j < i ==> wti[j] == Translations(numImages, wRi, values)[j]
      invariant forall j :: i <= j < numImages ==> wti[j].None?
    {
      if wRi[i].Some? && Cam(i) in values {
        wti := wti[i := Some(values[Cam(i)])];
      }
    }
  }

  /** Poses zipped from rotations and translations; a pose exists where both parts exist. */
  function CombinePoses(wRi: seq<Option<Rot3>>, wti: seq<Option<Point3>>, geo: Geometry): (poses: seq<Option<Pose3>>)
    ensures |poses| == if |wRi| < |wti| then |wRi| else |wti|
    ensures forall i :: 0 <= i < |poses| ==> (poses[i].Some? <==> wRi[i].Some? && wti[i].Some?)
    ensures forall i :: 0 <= i < |poses| && poses[i].Some? ==>
      poses[i].value == geo.makePose(wRi[i].value, wti[i].value)
  {
    var n := if |wRi| < |wti| then |wRi| else |wti|;
    seq(n, i requires 0 <= i < n =>
      if wRi[i].Some? && wti[i].Some? then Some(geo.makePose(wRi[i].value, wti[i].value)) else None)
  }

  /** A pose is estimated exactly where a translation is: a translation already needs a rotation, so the final pose
      list has one entry per image and as many poses as translations. */
  lemma PosesFollowTranslations(numImages: nat, wRi: seq<Option<Rot3>>, values: map<Sym, Point3>, geo: Geometry)
    requires numImages <= |wRi|
    ensures var wti := Translations(numImages, wRi, values);
            var poses := CombinePoses(wRi, wti, geo);
            && |poses| == numImages
            && (forall i :: 0 <= i < numImages ==> (poses[i].Some? <==> wRi[i].Some? && Cam(i) in values))
            && Metrics.CountSome(poses) == Metrics.CountSome(wti)
  {
    var wti := Translations(numImages, wRi, values);
    Metrics.CountSomeSamePattern(CombinePoses(wRi, wti, geo), wti);
  }

  /** The solver call a run makes from its inliers: exactly the inlier measurements; with relative priors, the
      world-frame prior of every entry and the initial values of the absolute priors; otherwise the given scale. */
  ghost predicate CallFor(call: SolverCall, inlierCams: map<Pair, Unit3>, inlierTracks: map<Pair, Unit3>,
                          priors: map<Pair, PosePrior>, absPriors: seq<Option<PosePrior>>, wRi: seq<Option<Rot3>>,
                          scale: real, geo: Geometry)
    requires forall k :: k in priors ==> 0 <= k.1 < |wRi|
  {
    && ExactMeasurements(call.measurements, inlierCams, inlierTracks)
    && (call.WithPriors? <==> |priors| > 0)
    && (call.WithScale? ==> call.scale == scale)
    && (call.WithPriors? ==>
          PriorListOf(call.priors, priors.Keys, priors, wRi, geo) && InitialFor(call.initial, absPriors, geo))
  }

  /** Runs the solver on the inlier measurements, with the relative priors when there are any, and reads back the
      translations of the cameras that have a rotation. */
  method RunAveraging(numImages: nat, inlierCams: map<Pair, Unit3>, inlierTracks: map<Pair, Unit3>,
                      wRi: seq<Option<Rot3>>, priors: map<Pair, PosePrior>, absPriors: seq<Option<PosePrior>>,
                      scale: real, geo: Geometry, recover: SolverCall -> map<Sym, Point3>)
    returns (r: Result<seq<Option<Point3>>, Error>, call: SolverCall)
    requires numImages <= |wRi|
    requires forall k :: k in priors ==> 0 <= k.1 < |wRi|
    ensures r.Failure? <==> exists k :: k in priors && wRi[k.1].None?
    ensures r.Failure? ==> r.error == MissingPriorRotation
    ensures r.Success? ==> CallFor(call, inlierCams, inlierTracks, priors, absPriors, wRi, scale, geo)
    ensures r.Success? ==> (KeySet(call.measurements) ==
      (set k | k in inlierCams :: CameraPairKey(k)) + (set k | k in inlierTracks :: LandmarkKey(k)))
    ensures r.Success? ==> r.value == Translations(numImages, wRi, recover(call))
  {
    var ms := BinaryMeasurementsFromDict(inlierCams, inlierTracks);
    KeySetOfMeasurements(ms, inlierCams, inlierTracks);
    if |priors| > 0 {
      var priorMs := PriorMeasurements(priors, wRi, geo);
      if priorMs.Failure? {
        return Failure(priorMs.error), WithScale(ms, scale);
      }
      var initial := InitialValues(absPriors, geo);
      call := WithPriors(ms, priorMs.value, initial);
    } else {
      call := WithScale(ms, scale);
    }
    var wti := TranslationsFromValues(numImages, wRi, recover(call));
    r := Success(wti);
  }

  // ---------------------------------------------------------------- the run

  /** Tracks are used when enabled and some are given. */
  predicate NeedTracks(useTracks: bool, tracks: seq<Tracks.Track2d>) {
    useTracks && |tracks| > 0
  }

  /** The landmark stage fails: intrinsics and rotations disagree in number, or a selected track observes a camera
      without intrinsics or rotation. */
  ghost predicate TrackStageFails(useTracks: bool, tracks: seq<Tracks.Track2d>, validCameras: set<int>,
                                  intrinsics: seq<Option<Calibration>>, wRi: seq<Option<Rot3>>)
    requires forall c :: c in validCameras ==> 0 <= c < |wRi|
  {
    NeedTracks(useTracks, tracks)
    && (|intrinsics| != |wRi|
        || !Tracks.AllCalibrated(Tracks.Selection(tracks, validCameras, intrinsics, TRACKS_TO_CAMERAS_RATIO),
                                 intrinsics, wRi))
  }

  /** The landmark directions a run feeds to the classification: none when tracks are not used, otherwise one per
      camera observing each selected track. */
  ghost function TrackDirections(useTracks: bool, tracks: seq<Tracks.Track2d>, validCameras: set<int>,
                                 intrinsics: seq<Option<Calibration>>, wRi: seq<Option<Rot3>>, geo: Geometry)
    : map<Pair, Unit3>
    requires forall c :: c in validCameras ==> 0 <= c < |wRi|
    requires !TrackStageFails(useTracks, tracks, validCameras, intrinsics, wRi)
  {
    if !NeedTracks(useTracks, tracks) then map[]
    else
      var selected := Tracks.Selection(tracks, validCameras, intrinsics, TRACKS_TO_CAMERAS_RATIO);
      Tracks.ExpectedDirections(selected, intrinsics, wRi, geo)
  }

  /** Landmark directions of the selected tracks, or none when tracks are not used. */
  method LandmarkStage(useTracks: bool, tracks: seq<Tracks.Track2d>, validCameras: set<int>,
                       intrinsics: seq<Option<Calibration>>, wRi: seq<Option<Rot3>>, geo: Geometry)
    returns (r: Result<map<Pair, Unit3>, Error>)
    requires forall c :: c in validCameras ==> 0 <= c < |wRi|
    ensures r.Failure? <==> TrackStageFails(useTracks, tracks, validCameras, intrinsics, wRi)
    ensures !NeedTracks(useTracks, tracks) ==> r == Success(map[])
    ensures NeedTracks(useTracks, tracks) && |intrinsics| != |wRi| ==> r == Failure(IntrinsicsLengthMismatch)
    ensures NeedTracks(useTracks, tracks) && |intrinsics| == |wRi| && r.Failure? ==>
      r.error == MissingCalibrationOrRotation
    ensures r.Success? && NeedTracks(useTracks, tracks) ==>
      |intrinsics| == |wRi| &&
      var selected := Tracks.Selection(tracks, validCameras, intrinsics, TRACKS_TO_CAMERAS_RATIO);
      forall k :: k in r.value ==>
        0 <= k.0 < |selected| && Tracks.LastObservation(selected[k.0].measurements, k.1).Some?
        && k.1 in validCameras
    ensures r.Success? ==> r.value == TrackDirections(useTracks, tracks, validCameras, intrinsics, wRi, geo)
  {
    if !NeedTracks(useTracks, tracks) {
      return Success(map[]);
    }
    if |intrinsics| != |wRi| {
      return Failure(IntrinsicsLengthMismatch);
    }
    var selected := Tracks.SelectTracksForAveraging(tracks, validCameras, intrinsics, TRACKS_TO_CAMERAS_RATIO);
    r := Tracks.LandmarkDirections(selected, intrinsics, wRi, geo);
  }

  /** The run gets as far as the assembled poses: the landmark stage succeeds, every relative prior has the rotation
      of its camera i2, and with ground truth the metrics can be computed for the inlier camera pairs. */
  ghost predicate ReachesEnd(i2Ui1: map<Pair, Option<Unit3>>, wRi: seq<Option<Rot3>>, tracks: seq<Tracks.Track2d>,
                             intrinsics: seq<Option<Calibration>>, priors: map<Pair, PosePrior>,
                             gtPoses: Option<seq<Option<Pose3>>>, useTracks: bool, dirs: seq<Unit3>, ops: Oracles)
    requires forall k :: k in i2Ui1 ==> 0 <= k.0 < |wRi| && 0 <= k.1 < |wRi|
    requires forall k :: k in priors ==> 0 <= k.1 < |wRi|
  {
    var valid := Measurements.ValidCameras(i2Ui1, wRi, ops.geo);
    var inliers := Inliers.InlierCameraPairs(Measurements.WorldFrame(i2Ui1, wRi, ops.geo), dirs, ops.weight,
                                             OUTLIER_WEIGHT_THRESHOLD);
    && !TrackStageFails(useTracks, tracks, valid, intrinsics, wRi)
    && !(exists k :: k in priors && wRi[k.1].None?)
    && (gtPoses.Some? ==>
          !Metrics.MetricsFail(inliers.Keys, i2Ui1, ops.gtDirections(gtPoses.value), ops.angle))
  }

  /** The exception the stages after the classification raise: an AttributeError for a prior whose camera has no
      rotation, then, with ground truth, the ValueError of an undefined angle before the KeyError of a missing
      ground-truth direction; the dummy error when none of these occurs. */
  ghost function SolveError(priors: map<Pair, PosePrior>, wRi: seq<Option<Rot3>>, inliers: set<Pair>,
                            i2Ui1: map<Pair, Option<Unit3>>, gtPoses: Option<seq<Option<Pose3>>>, ops: Oracles)
    : Error
    requires forall k :: k in priors ==> 0 <= k.1 < |wRi|
  {
    if exists k :: k in priors && wRi[k.1].None? then MissingPriorRotation
    else if gtPoses.Some? && Metrics.AnyAngleUndefined(inliers, i2Ui1, ops.gtDirections(gtPoses.value), ops.angle)
    then UndefinedAngle
    else if gtPoses.Some? && Metrics.MetricsFail(inliers, i2Ui1, ops.gtDirections(gtPoses.value), ops.angle)
    then MissingGroundTruth
    else DummyError
  }

  /** The exception a run raises: the first failing stage's error, in the order the stages run (the landmark stage,
      then the stages after the classification), and the dummy error when no stage fails. */
  ghost function RunError(i2Ui1: map<Pair, Option<Unit3>>, wRi: seq<Option<Rot3>>, tracks: seq<Tracks.Track2d>,
                          intrinsics: seq<Option<Calibration>>, priors: map<Pair, PosePrior>,
                          gtPoses: Option<seq<Option<Pose3>>>, useTracks: bool, dirs: seq<Unit3>, ops: Oracles)
    : Error
    requires forall k :: k in i2Ui1 ==> 0 <= k.0 < |wRi| && 0 <= k.1 < |wRi|
    requires forall k :: k in priors ==> 0 <= k.1 < |wRi|
  {
    var valid := Measurements.ValidCameras(i2Ui1, wRi, ops.geo);
    var inliers := Inliers.InlierCameraPairs(Measurements.WorldFrame(i2Ui1, wRi, ops.geo), dirs, ops.weight,
                                             OUTLIER_WEIGHT_THRESHOLD);
    if TrackStageFails(useTracks, tracks, valid, intrinsics, wRi) then
      (if |intrinsics| != |wRi| then IntrinsicsLengthMismatch else MissingCalibrationOrRotation)
    else SolveError(priors, wRi, inliers.Keys, i2Ui1, gtPoses, ops)
  }

  /** A run reaches its final raise exactly when the first error met is the dummy error. */
  lemma RunErrorAtEnd(i2Ui1: map<Pair, Option<Unit3>>, wRi: seq<Option<Rot3>>, tracks: seq<Tracks.Track2d>,
                      intrinsics: seq<Option<Calibration>>, priors: map<Pair, PosePrior>,
                      gtPoses: Option<seq<Option<Pose3>>>, useTracks: bool, dirs: seq<Unit3>, ops: Oracles)
    requires forall k :: k in i2Ui1 ==> 0 <= k.0 < |wRi| && 0 <= k.1 < |wRi|
    requires forall k :: k in priors ==> 0 <= k.1 < |wRi|
    ensures RunError(i2Ui1, wRi, tracks, intrinsics, priors, gtPoses, useTracks, dirs, ops) == DummyError <==>
            ReachesEnd(i2Ui1, wRi, tracks, intrinsics, priors, gtPoses, useTracks, dirs, ops)
  {
  }

  /** The measurements a run keeps, split by the classification: the inlier camera pairs of the world-frame
      directions and the inlier landmark directions of the selected tracks. */
  method InlierStage(i2Ui1: map<Pair, Option<Unit3>>, wRi: seq<Option<Rot3>>, tracks: seq<Tracks.Track2d>,
                     intrinsics: seq<Option<Calibration>>, useTracks: bool, dirs: seq<Unit3>, ops: Oracles)
    returns (r: Result<(map<Pair, Unit3>, map<Pair, Unit3>), Error>)
    requires forall k :: k in i2Ui1 ==> 0 <= k.0 < |wRi| && 0 <= k.1 < |wRi|
    ensures var valid := Measurements.ValidCameras(i2Ui1, wRi, ops.geo);
      r.Failure? <==> TrackStageFails(useTracks, tracks, valid, intrinsics, wRi)
    ensures NeedTracks(useTracks, tracks) && |intrinsics| != |wRi| ==> r == Failure(IntrinsicsLengthMismatch)
    ensures r.Failure? && |intrinsics| == |wRi| ==> r.error == MissingCalibrationOrRotation
    ensures r.Success? ==>
      r.value.0 ==
        Inliers.InlierCameraPairs(Measurements.WorldFrame(i2Ui1, wRi, ops.geo), dirs, ops.weight,
                                  OUTLIER_WEIGHT_THRESHOLD)
    ensures r.Success? ==>
      r.value.1 ==
        Inliers.InlierLandmarkPairs(
          TrackDirections(useTracks, tracks, Measurements.ValidCameras(i2Ui1, wRi, ops.geo), intrinsics, wRi, ops.geo),
          Endpoints(r.value.0.Keys), dirs, ops.weight, OUTLIER_WEIGHT_THRESHOLD)
    ensures r.Success? ==> r.value.0.Keys <= Metrics.MeasuredPairs(i2Ui1)
  {
    var w, validCameras := Measurements.ValidMeasurementsInWorldFrame(i2Ui1, wRi, ops.geo);
    ValidCamerasInRange(i2Ui1, wRi, ops.geo);
    var landmarkDirs := LandmarkStage(useTracks, tracks, validCameras, intrinsics, wRi, ops.geo);
    if landmarkDirs.Failure? {
      return Failure(landmarkDirs.error);
    }
    var inlierCams, inlierTracks, inlierCameras := Inliers.ComputeInliers(w, landmarkDirs.value, dirs, ops.weight);
    InliersAreMeasured(i2Ui1, wRi, dirs, ops);
    r := Success((inlierCams, inlierTracks));
  }

  /** What a run assembles from the solver values of `call`: the translations of the cameras with a rotation, the
      poses zipped from rotations and translations, and, exactly when ground truth is given, the metrics of the
      inlier camera pairs. */
  ghost predicate OutcomeOf(o: Outcome, call: SolverCall, numImages: nat, i2Ui1: map<Pair, Option<Unit3>>,
                            wRi: seq<Option<Rot3>>, gtPoses: Option<seq<Option<Pose3>>>, ops: Oracles)
    requires numImages <= |wRi|
  {
    && o.values == ops.recover(call)
    && o.wti == Translations(numImages, wRi, o.values)
    && o.poses == CombinePoses(wRi, o.wti, ops.geo)
    && (o.metrics.Some? <==> gtPoses.Some?)
    && (o.metrics.Some? ==>
          && o.metrics.value.numTotal == |Metrics.MeasuredPairs(i2Ui1)|
          && Metrics.MetricsOf(o.metrics.value, o.inlierCams.Keys, i2Ui1, o.wti, ops.gtDirections(gtPoses.value),
                               ops.angle))
  }

  /** The solver run on the inliers, the metrics and the assembled poses. */
  method SolveStage(numImages: nat, inlierCams: map<Pair, Unit3>, inlierTracks: map<Pair, Unit3>,
                    i2Ui1: map<Pair, Option<Unit3>>, wRi: seq<Option<Rot3>>, absPriors: seq<Option<PosePrior>>,
                    priors: map<Pair, PosePrior>, scale: real, gtPoses: Option<seq<Option<Pose3>>>, ops: Oracles)
    returns (r: Result<Outcome, Error>, call: SolverCall)
    requires numImages <= |wRi|
    requires forall k :: k in priors ==> 0 <= k.1 < |wRi|
    requires inlierCams.Keys <= Metrics.MeasuredPairs(i2Ui1)
    ensures r.Failure? && r.error == MissingPriorRotation <==> exists k :: k in priors && wRi[k.1].None?
    ensures r.Failure? ==> r.error in {MissingPriorRotation, UndefinedAngle, MissingGroundTruth}
    ensures r.Failure? && r.error != MissingPriorRotation ==> gtPoses.Some?
    ensures r.Failure? ==> r.error == SolveError(priors, wRi, inlierCams.Keys, i2Ui1, gtPoses, ops)
    ensures r.Success? <==>
      !(exists k :: k in priors && wRi[k.1].None?)
      && (gtPoses.Some? ==> !Metrics.MetricsFail(inlierCams.Keys, i2Ui1, ops.gtDirections(gtPoses.value), ops.angle))
    ensures r.Success? ==> r.value.inlierCams == inlierCams && r.value.inlierTracks == inlierTracks
    ensures r.Success? ==> CallFor(call, inlierCams, inlierTracks, priors, absPriors, wRi, scale, ops.geo)
    ensures r.Success? ==> OutcomeOf(r.value, call, numImages, i2Ui1, wRi, gtPoses, ops)
  {
    var wti;
    wti, call := RunAveraging(numImages, inlierCams, inlierTracks, wRi, priors, absPriors, scale, ops.geo,
                              ops.recover);
    if wti.Failure? {
      return Failure(wti.error), call;
    }
    var metrics := MetricsStage(inlierCams, i2Ui1, wti.value, gtPoses, ops);
    if metrics.Failure? {
      return Failure(metrics.error), call;
    }
    var poses := CombinePoses(wRi, wti.value, ops.geo);
    r := Success(Outcome(poses, metrics.value, wti.value, ops.recover(call), inlierCams, inlierTracks));
  }

  /** The run up to the assembled poses, which the source computes just before it raises. */
  method AverageTranslations(numImages: nat, i2Ui1: map<Pair, Option<Unit3>>, wRi: seq<Option<Rot3>>,
                             tracks: seq<Tracks.Track2d>, intrinsics: seq<Option<Calibration>>,
                             absPriors: seq<Option<PosePrior>>, priors: map<Pair, PosePrior>, scale: real,
                             gtPoses: Option<seq<Option<Pose3>>>, useTracks: bool, dirs: seq<Unit3>, ops: Oracles)
    returns (r: Result<Outcome, Error>, call: SolverCall)
    requires numImages <= |wRi|
    requires forall k :: k in i2Ui1 ==> 0 <= k.0 < |wRi| && 0 <= k.1 < |wRi|
    requires forall k :: k in priors ==> 0 <= k.1 < |wRi|
    ensures NeedTracks(useTracks, tracks) && |intrinsics| != |wRi| ==> r == Failure(IntrinsicsLengthMismatch)
    ensures var valid := Measurements.ValidCameras(i2Ui1, wRi, ops.geo);
      r.Failure? && r.error == MissingCalibrationOrRotation <==>
        TrackStageFails(useTracks, tracks, valid, intrinsics, wRi) && |intrinsics| == |wRi|
    ensures var valid := Measurements.ValidCameras(i2Ui1, wRi, ops.geo);
      r.Failure? && r.error == MissingPriorRotation <==>
        !TrackStageFails(useTracks, tracks, valid, intrinsics, wRi) && exists k :: k in priors && wRi[k.1].None?
    ensures r.Failure? && (r.error == UndefinedAngle || r.error == MissingGroundTruth) ==> gtPoses.Some?
    ensures r.Failure? ==> r.error == RunError(i2Ui1, wRi, tracks, intrinsics, priors, gtPoses, useTracks, dirs, ops)
    ensures r.Failure? ==> r.error != DummyError
    ensures r.Success? <==> ReachesEnd(i2Ui1, wRi, tracks, intrinsics, priors, gtPoses, useTracks, dirs, ops)
    ensures r.Success? ==>
      r.value.inlierCams ==
        Inliers.InlierCameraPairs(Measurements.WorldFrame(i2Ui1, wRi, ops.geo), dirs, ops.weight,
                                  OUTLIER_WEIGHT_THRESHOLD)
    ensures r.Success? ==>
      r.value.inlierTracks ==
        Inliers.InlierLandmarkPairs(
          TrackDirections(useTracks, tracks, Measurements.ValidCameras(i2Ui1, wRi, ops.geo), intrinsics, wRi, ops.geo),
          Endpoints(r.value.inlierCams.Keys), dirs, ops.weight, OUTLIER_WEIGHT_THRESHOLD)
    ensures r.Success? && !NeedTracks(useTracks, tracks) ==> r.value.inlierTracks == map[]
    ensures r.Success? ==>
      CallFor(call, r.value.inlierCams, r.value.inlierTracks, priors, absPriors, wRi, scale, ops.geo)
    ensures r.Success? ==> OutcomeOf(r.value, call, numImages, i2Ui1, wRi, gtPoses, ops)
  {
    var inliers := InlierStage(i2Ui1, wRi, tracks, intrinsics, useTracks, dirs, ops);
    if inliers.Failure? {
      return Failure(inliers.error), WithScale([], scale);
    }
    RunErrorAtEnd(i2Ui1, wRi, tracks, intrinsics, priors, gtPoses, useTracks, dirs, ops);
    r, call := SolveStage(numImages, inliers.value.0, inliers.value.1, i2Ui1, wRi, absPriors, priors, scale, gtPoses,
                          ops);
  }

  /** The metrics group, computed only when ground-truth poses are given. */
  method MetricsStage(inlierCams: map<Pair, Unit3>, i2Ui1: map<Pair, Option<Unit3>>, wti: seq<Option<Point3>>,
                      gtPoses: Option<seq<Option<Pose3>>>, ops: Oracles)
    returns (r: Result<Option<Metrics.Metrics>, Error>)
    requires inlierCams.Keys <= Metrics.MeasuredPairs(i2Ui1)
    ensures r.Failure? ==> gtPoses.Some? && (r.error == UndefinedAngle || r.error == MissingGroundTruth)
    ensures gtPoses.Some? ==>
      (r.Failure? <==> Metrics.MetricsFail(inlierCams.Keys, i2Ui1, ops.gtDirections(gtPoses.value), ops.angle))
    ensures gtPoses.Some? ==>
      (r.Failure? && r.error == UndefinedAngle <==>
        Metrics.AnyAngleUndefined(inlierCams.Keys, i2Ui1, ops.gtDirections(gtPoses.value), ops.angle))
    ensures gtPoses.None? ==> r == Success(None)
    ensures r.Success? ==> (r.value.Some? <==> gtPoses.Some?)
    ensures r.Success? && r.value.Some? ==>
      var m := r.value.value;
      && m.numInliers == |inlierCams|
      && m.numTotal == |Metrics.MeasuredPairs(i2Ui1)|
      && m.numInliers + m.numOutliers == m.numTotal
      && m.numTranslationsEstimated == Metrics.CountSome(wti)
      && Metrics.MetricsOf(m, inlierCams.Keys, i2Ui1, wti, ops.gtDirections(gtPoses.value), ops.angle)
  {
    if gtPoses.None? {
      return Success(None);
    }
    var computed := Metrics.ComputeMetrics(inlierCams.Keys, i2Ui1, wti, gtPoses.value, ops.gtDirections, ops.angle);
    if computed.Failure? {
      return Failure(computed.error);
    }
    Metrics.PartitionCounts(i2Ui1, inlierCams.Keys);
    r := Success(Some(computed.value));
  }

  /** Every valid camera indexes the rotation list. */
  lemma ValidCamerasInRange(i2Ui1: map<Pair, Option<Unit3>>, wRi: seq<Option<Rot3>>, geo: Geometry)
    requires forall k :: k in i2Ui1 ==> 0 <= k.0 < |wRi| && 0 <= k.1 < |wRi|
    ensures forall c :: c in Measurements.ValidCameras(i2Ui1, wRi, geo) ==> 0 <= c < |wRi|
  {
  }

  /** An inlier camera pair always carried a measured direction, so the metrics count it among the measured pairs. */
  lemma InliersAreMeasured(i2Ui1: map<Pair, Option<Unit3>>, wRi: seq<Option<Rot3>>, dirs: seq<Unit3>, ops: Oracles)
    requires forall k :: k in i2Ui1 ==> 0 <= k.1 < |wRi|
    ensures Inliers.InlierCameraPairs(Measurements.WorldFrame(i2Ui1, wRi, ops.geo), dirs, ops.weight,
                                      OUTLIER_WEIGHT_THRESHOLD).Keys
            <= Metrics.MeasuredPairs(i2Ui1)
  {
  }

  /** The full call: whatever the averaging computes, the run ends by raising. The error is the first one met, and
      the unconditional "dummy error" when the averaging itself succeeds. */
  method RunTranslationAveraging(numImages: nat, i2Ui1: map<Pair, Option<Unit3>>, wRi: seq<Option<Rot3>>,
                                 tracks: seq<Tracks.Track2d>, intrinsics: seq<Option<Calibration>>,
                                 absPriors: seq<Option<PosePrior>>, priors: map<Pair, PosePrior>, scale: real,
                                 gtPoses: Option<seq<Option<Pose3>>>, useTracks: bool, dirs: seq<Unit3>,
                                 ops: Oracles)
    returns (r: Result<(seq<Option<Pose3>>, Option<Metrics.Metrics>), Error>)
    requires numImages <= |wRi|
    requires forall k :: k in i2Ui1 ==> 0 <= k.0 < |wRi| && 0 <= k.1 < |wRi|
    requires forall k :: k in priors ==> 0 <= k.1 < |wRi|
    ensures r.Failure?
    ensures NeedTracks(useTracks, tracks) && |intrinsics| != |wRi| ==> r.error == IntrinsicsLengthMismatch
    ensures r.error == RunError(i2Ui1, wRi, tracks, intrinsics, priors, gtPoses, useTracks, dirs, ops)
    ensures r.error == DummyError <==>
      ReachesEnd(i2Ui1, wRi, tracks, intrinsics, priors, gtPoses, useTracks, dirs, ops)
  {
    var outcome, _ := AverageTranslations(numImages, i2Ui1, wRi, tracks, intrinsics, absPriors, priors, scale,
                                          gtPoses, useTracks, dirs, ops);
    if outcome.Failure? {
      return Failure(outcome.error);
    }
    RunErrorAtEnd(i2Ui1, wRi, tracks, intrinsics, priors, gtPoses, useTracks, dirs, ops);
    r := Failure(DummyError);
  }

  /** Only the rotation of camera i2 decides whether a measurement is kept, so a camera without a rotation can
      still be valid, and a track it observes makes the landmark stage fail. Here camera 0 has no rotation but is
      the i1 endpoint of measurement (0, 2); the only track observes cameras 0, 1 and 2 and is selected whole. */
  lemma LandmarkFailureReachable(u: Unit3, rot: Rot3, cal: Calibration, p: Point2, geo: Geometry)
    ensures var i2Ui1 := map[(0, 2) := Some(u), (1, 2) := Some(u)];
            var wRi := [None, Some(rot), Some(rot)];
            var intrinsics := [Some(cal), Some(cal), Some(cal)];
            var track := Tracks.Track2d([Tracks.Measurement2d(0, p), Tracks.Measurement2d(1, p),
                                         Tracks.Measurement2d(2, p)]);
            && TrackStageFails(true, [track], {0, 1, 2}, intrinsics, wRi)
            && Measurements.ValidCameras(i2Ui1, wRi, geo) == {0, 1, 2}
  {
    var i2Ui1 := map[(0, 2) := Some(u), (1, 2) := Some(u)];
    var wRi := [None, Some(rot), Some(rot)];
    var intrinsics := [Some(cal), Some(cal), Some(cal)];
    var ms := [Tracks.Measurement2d(0, p), Tracks.Measurement2d(1, p), Tracks.Measurement2d(2, p)];
    var track := Tracks.Track2d(ms);
    ScenarioValidCameras(u, rot, geo);
    ScenarioSelection(track, intrinsics);
    ScenarioStageFails(track, intrinsics, wRi);
  }

  /** The selected track observes camera 0, which has no rotation. */
  lemma ScenarioStageFails(track: Tracks.Track2d, intrinsics: seq<Option<Calibration>>, wRi: seq<Option<Rot3>>)
    requires |intrinsics| == 3 && |wRi| == 3 && wRi[0].None?
    requires |track.measurements| == 3
    requires track.measurements[0].i == 0 && track.measurements[1].i == 1 && track.measurements[2].i == 2
    requires Tracks.Selection([track], {0, 1, 2}, intrinsics, TRACKS_TO_CAMERAS_RATIO) == [track]
    ensures TrackStageFails(true, [track], {0, 1, 2}, intrinsics, wRi)
  {
    var m := track.measurements[0];
    assert m in [track][0].measurements && !Tracks.Calibrated(m, intrinsics, wRi);
  }

  /** Camera 0 is valid although it has no rotation. */
  lemma ScenarioValidCameras(u: Unit3, rot: Rot3, geo: Geometry)
    ensures Measurements.ValidCameras(map[(0, 2) := Some(u), (1, 2) := Some(u)], [None, Some(rot), Some(rot)], geo)
            == {0, 1, 2}
  {
    var i2Ui1 := map[(0, 2) := Some(u), (1, 2) := Some(u)];
    var wRi := [None, Some(rot), Some(rot)];
    var w := Measurements.WorldFrame(i2Ui1, wRi, geo);
    assert w.Keys == {(0, 2)} + {(1, 2)} by {
      assert Measurements.Usable(i2Ui1, wRi, (0, 2)) && Measurements.Usable(i2Ui1, wRi, (1, 2));
    }
    assert Endpoints({}) == {};
    EndpointsInsert({}, (0, 2));
    assert {} + {(0, 2)} == {(0, 2)};
    EndpointsInsert({(0, 2)}, (1, 2));
  }

  /** A single track whose three cameras are valid and calibrated is selected whole. */
  lemma ScenarioSelection(track: Tracks.Track2d, intrinsics: seq<Option<Calibration>>)
    requires |intrinsics| == 3 && intrinsics[0].Some? && intrinsics[1].Some? && intrinsics[2].Some?
    requires |track.measurements| == 3
    requires track.measurements[0].i == 0 && track.measurements[1].i == 1 && track.measurements[2].i == 2
    ensures Tracks.Selection([track], {0, 1, 2}, intrinsics, TRACKS_TO_CAMERAS_RATIO) == [track]
  {
    var valid: set<int> := {0, 1, 2};
    var cams := Tracks.CamerasWithIntrinsics(valid, intrinsics);
    assert cams == {0, 1, 2};
    assert 0 in valid;
    Tracks.SingleTrackSelected(track, valid, intrinsics, TRACKS_TO_CAMERAS_RATIO);
  }
}

# 1DSfM translation averaging, modelled in Dafny

This project models the combinatorial core of GTSfM's 1DSfM translation averaging
(`gtsfm/averaging/translation/averaging_1dsfm.py`). A run takes relative unit translations between
camera pairs, absolute camera rotations and, optionally, 2-D feature tracks. It then:

- keeps the measurements whose second camera `i2` has a rotation, rotates them into the world frame and
  collects the *valid cameras* (module `Measurements`);
- optionally selects the longest tracks on valid, calibrated cameras and turns each observation into a
  camera-to-landmark direction (module `Tracks`);
- converts both dictionaries into the solver's binary measurements over the symbols `C(i)` and `L(j)`
  (module `Symbols`);
- classifies every measurement as inlier or outlier by averaging MFAS outlier weights over the projection
  directions (module `Inliers`);
- runs the translation solver on the inliers, with relative and absolute pose priors when present, reads the
  translations back and assembles the poses (module `Averaging`);
- optionally computes the count and angle-list metrics against ground truth (module `Metrics`).

The numerical parts of GTSAM are abstract. Directions, rotations, points, calibrations and poses are opaque
types. Rotating, back-projecting, building a pose, the MFAS outlier weights, the TranslationRecovery solver,
the ground-truth directions and the angle between two directions are passed in as functions (`Geometry`,
`Averaging.Oracles`). Python dictionaries become maps and Python sets become sets. Each loop that iterates a
dictionary picks its entries in an unspecified order.

Each method that changes state is proved against a function of its inputs (`WorldFrame`, `Selection`,
`ExpectedDirections`, `InlierCameraPairs`, `InlierLandmarkPairs`, `Translations`, `CombinePoses`). The properties the code
promises are then lemmas about those functions.

The model follows the code as written, including where the code's own docstrings and attributes suggest
otherwise (averaging_1dsfm.py:96, 229, 278, 554, 563):

- The inlier test compares against the module constant `OUTLIER_WEIGHT_THRESHOLD` (0.125, line 229). The
  attribute `_outlier_weight_threshold` that the constructor sets (line 96) is never read.
- The docstrings say both cameras of a kept measurement have rotations (lines 278, 554, 563), but only camera
  `i2` is checked. The valid cameras are the endpoints of every kept measurement. That includes camera `i1`, whose rotation
  is never checked (`Measurements.FirstRotationIgnored`). A selected track can therefore observe a camera
  without a rotation, and the landmark stage then raises (`Averaging.LandmarkFailureReachable`).
- The weight sums are only filled inside the loop over projection directions. With no direction, no
  measurement has a sum, so every measurement is an outlier and nothing is divided by zero
  (`Inliers.NoDirectionsRejectsAll`).
- `run_translation_averaging` always ends by raising `ValueError("dummy error")`. It never returns the poses
  and metrics it has computed (`Averaging.RunTranslationAveraging`).

## Model

| member | source | states |
|---|---|---|
| Common.Endpoints | gtsfm/averaging/translation/averaging_1dsfm.py:239-240 | both endpoints of every key are collected, and every collected camera is an endpoint of some key |
| Common.EndpointsInsert | gtsfm/averaging/translation/averaging_1dsfm.py:572-573 | adding one key adds exactly its two cameras to the endpoint set |
| Symbols.CameraPairKey | gtsfm/averaging/translation/averaging_1dsfm.py:149 | pair (i1, i2) becomes (C(i2), C(i1)); reading the symbols back gives (i1, i2) and never a landmark entry |
| Symbols.LandmarkKey | gtsfm/averaging/translation/averaging_1dsfm.py:151 | entry (track_id, cam_id) becomes (C(cam_id), L(track_id)); reading it back gives the entry and never a camera pair |
| Symbols.KeysNeverCollide | gtsfm/averaging/translation/averaging_1dsfm.py:147-153 | distinct dictionary keys get distinct symbol pairs, and a camera pair never shares symbols with a landmark entry |
| Symbols.CameraMeasurements | gtsfm/averaging/translation/averaging_1dsfm.py:148-149 | one measurement per camera-pair entry: every entry appears, each element comes from an entry, no symbol pair twice, length = number of entries |
| Symbols.LandmarkMeasurements | gtsfm/averaging/translation/averaging_1dsfm.py:150-151 | one measurement per landmark entry, with the same exactness as for camera pairs |
| Symbols.BinaryMeasurementsFromDict | gtsfm/averaging/translation/averaging_1dsfm.py:147-153 | the list holds exactly the measurements of both dictionaries, each once, with distinct symbol pairs |
| Symbols.KeySetOfMeasurements | gtsfm/averaging/translation/averaging_1dsfm.py:147-153 | the symbol pairs of such a list are exactly the symbols of the camera pairs plus those of the landmark entries |
| Measurements.WorldFrame | gtsfm/averaging/translation/averaging_1dsfm.py:566-571 | an entry is kept iff its direction is present and camera i2 has a rotation; no other key appears |
| Measurements.ValidCameras | gtsfm/averaging/translation/averaging_1dsfm.py:567-573 | every valid camera is an endpoint of some input measurement |
| Measurements.ValidMeasurementsInWorldFrame | gtsfm/averaging/translation/averaging_1dsfm.py:551-575 | the loop keeps exactly the usable entries, each rotated by the rotation of i2, and returns the endpoints of the kept entries |
| Measurements.FirstRotationIgnored | gtsfm/averaging/translation/averaging_1dsfm.py:569-570 | changing the rotation of camera i1 never changes whether (i1, i2) is kept |
| Measurements.ValidCameraWitness | gtsfm/averaging/translation/averaging_1dsfm.py:568-573 | a camera is valid iff it is an endpoint of an entry with a direction and a rotation of i2 |
| Tracks.KeepCameras | gtsfm/averaging/translation/averaging_1dsfm.py:289 | the kept observations are exactly those on the given cameras, never more than before |
| Tracks.SelectForCameras | gtsfm/averaging/translation/averaging_1dsfm.py:289 | the restricted track keeps exactly the observations on the given cameras, and never has more than the original |
| Tracks.KeepAllCameras | gtsfm/averaging/translation/averaging_1dsfm.py:289 | restricting a track to cameras that cover all its observations leaves it unchanged |
| Tracks.CamerasWithIntrinsics | gtsfm/averaging/translation/averaging_1dsfm.py:287 | a valid camera is kept iff its intrinsics are present |
| Tracks.KeptIndices | gtsfm/averaging/translation/averaging_1dsfm.py:286-292 | the input positions the loop appends, strictly increasing and in range; a position is among them iff its restricted track has at least three observations |
| Tracks.RestrictedTracks | gtsfm/averaging/translation/averaging_1dsfm.py:286-292 | one track per kept position, in input order: the j-th is the restriction to the given cameras of the input track at the j-th kept position |
| Tracks.RestrictedTracksUsable | gtsfm/averaging/translation/averaging_1dsfm.py:286-292 | no more tracks than the input; every kept track has at least three observations, all on the given cameras; every restriction that long is kept |
| Tracks.InsertByLength | gtsfm/averaging/translation/averaging_1dsfm.py:293 | insertion adds one element, the inserted track |
| Tracks.SortByLength | gtsfm/averaging/translation/averaging_1dsfm.py:293 | the sort keeps the length of its input; permutation, order and stability are the lemmas below |
| Tracks.InsertByLengthPermutes | gtsfm/averaging/translation/averaging_1dsfm.py:293 | insertion adds the track and keeps the others (multiset) |
| Tracks.InsertByLengthSorted | gtsfm/averaging/translation/averaging_1dsfm.py:293 | insertion into a longest-first sequence keeps it longest-first |
| Tracks.InsertByLengthClasses | gtsfm/averaging/translation/averaging_1dsfm.py:293 | insertion puts the track before every track of equal length and leaves the other lengths untouched |
| Tracks.SortByLengthPermutes | gtsfm/averaging/translation/averaging_1dsfm.py:293 | the sort is a permutation of its input |
| Tracks.SortByLengthSorted | gtsfm/averaging/translation/averaging_1dsfm.py:293 | the sort puts longer tracks first (reverse=True) |
| Tracks.SortByLengthStable | gtsfm/averaging/translation/averaging_1dsfm.py:293 | the sort is stable: the tracks of each length keep their input order |
| Tracks.SortIsUnique | gtsfm/averaging/translation/averaging_1dsfm.py:293 | any longest-first arrangement that keeps ties in input order equals the sort |
| Tracks.SameClassesSameSorted | gtsfm/averaging/translation/averaging_1dsfm.py:293 | two longest-first sequences with the same tracks of each length, in the same order, are equal |
| Tracks.WithLengthBelowHead | gtsfm/averaging/translation/averaging_1dsfm.py:293 | in a longest-first sequence there is no track of a length above the first one's |
| Tracks.TruncateToInt | gtsfm/averaging/translation/averaging_1dsfm.py:285 | int() truncates toward zero, for positive and negative values |
| Tracks.MaxTracks | gtsfm/averaging/translation/averaging_1dsfm.py:285 | for a non-negative ratio, the cap is the largest integer not above the number of valid cameras times the ratio, and never negative |
| Tracks.PrefixSlice | gtsfm/averaging/translation/averaging_1dsfm.py:293 | [:max_tracks] is a prefix of the right length, with a negative stop counting from the end |
| Tracks.Selection | gtsfm/averaging/translation/averaging_1dsfm.py:263-293 | a prefix of the sorted restricted tracks holding exactly min(max_tracks, number of restricted tracks) tracks (for a negative max_tracks, Python's negative-stop count), longest first, each with at least three observations, all on valid cameras with intrinsics |
| Tracks.SelectionPartition | gtsfm/averaging/translation/averaging_1dsfm.py:285-293 | the selected and the dropped tracks together are the restricted tracks, as a multiset |
| Tracks.SelectionKeepsLongest | gtsfm/averaging/translation/averaging_1dsfm.py:293 | no dropped track is longer than a selected one |
| Tracks.SelectionStable | gtsfm/averaging/translation/averaging_1dsfm.py:286-293 | the selected tracks of each length are the first ones of that length among the restricted tracks, in input order |
| Tracks.SelectTracksForAveraging | gtsfm/averaging/translation/averaging_1dsfm.py:285-293 | the filter loop followed by sort and slice computes the selection |
| Tracks.SingleTrackSelected | gtsfm/averaging/translation/averaging_1dsfm.py:285-293 | a lone long-enough track on valid calibrated cameras is selected whole when the cap admits a track |
| Tracks.LastObservation | gtsfm/averaging/translation/averaging_1dsfm.py:324 | the observation whose direction the dictionary keeps for a camera lies on that camera and belongs to the track; there is none exactly when no observation is on that camera |
| Tracks.LastObservationOfDistinct | gtsfm/averaging/translation/averaging_1dsfm.py:313-324 | when a track's cameras are distinct, every observation is the one recorded for its camera |
| Tracks.DirectionStep | gtsfm/averaging/translation/averaging_1dsfm.py:313-324 | recording one more calibrated observation extends the directions to the longer prefix of the track |
| Tracks.AddTrackDirections | gtsfm/averaging/translation/averaging_1dsfm.py:313-324 | one track succeeds iff all its cameras have intrinsics and rotation; the keys added are (track, camera) for its cameras, with the ray of the last observation; earlier keys are untouched |
| Tracks.ExpectedDirections | gtsfm/averaging/translation/averaging_1dsfm.py:311-325 | for calibrated tracks, the keys are exactly (track position, camera) of the observations, each with the ray of that camera's last observation in the track |
| Tracks.LandmarkDirections | gtsfm/averaging/translation/averaging_1dsfm.py:311-325 | succeeds iff every observed camera is calibrated, else raises; the keys are exactly (track, camera) of the observations, each with the ray of its last observation, so the result equals `ExpectedDirections` |
| Inliers.PassesThreshold | gtsfm/averaging/translation/averaging_1dsfm.py:229 | a key passes iff there is a projection direction and its weight sum is below the threshold times the number of directions |
| Inliers.InlierCameraPairs | gtsfm/averaging/translation/averaging_1dsfm.py:228-240 | a camera pair is an inlier iff its symbols pass the threshold; directions unchanged |
| Inliers.InlierLandmarkPairs | gtsfm/averaging/translation/averaging_1dsfm.py:242-244 | a landmark entry is an inlier iff its symbols pass and its camera is an inlier camera; directions unchanged |
| Inliers.RoundWeightAbsent | gtsfm/averaging/translation/averaging_1dsfm.py:225-227 | a symbol pair absent from the list gets no weight in a round |
| Inliers.RoundWeightOfDistinct | gtsfm/averaging/translation/averaging_1dsfm.py:225-227 | with distinct symbol pairs, each pair receives its weight exactly once per round |
| Inliers.TotalWeightOfDistinct | gtsfm/averaging/translation/averaging_1dsfm.py:222-227 | with distinct symbol pairs, the accumulated weight is the sum of the pair's weight over all directions |
| Inliers.AddRoundWeights | gtsfm/averaging/translation/averaging_1dsfm.py:225-227 | one pass over the measurements adds the round's weight of each symbol pair to its running sum, starting at 0.0 for a new key |
| Inliers.SumOutlierWeights | gtsfm/averaging/translation/averaging_1dsfm.py:222-227 | the defaultdict holds every measured symbol pair when there is a direction and nothing otherwise; each sum is the accumulated weight |
| Inliers.AverageBelowThreshold | gtsfm/averaging/translation/averaging_1dsfm.py:228-230 | a symbol pair is an inlier iff it has a sum whose average over the directions is below 0.125 |
| Inliers.KeepInlierCameraPairs | gtsfm/averaging/translation/averaging_1dsfm.py:236-240 | keeps pair (i1, i2) iff (C(i2), C(i1)) is an inlier, with its direction; the inlier cameras are the endpoints of the kept pairs |
| Inliers.KeepInlierLandmarks | gtsfm/averaging/translation/averaging_1dsfm.py:242-244 | keeps entry (track_id, cam_id) iff (C(cam_id), L(track_id)) is an inlier and cam_id is an inlier camera |
| Inliers.InlierSymbolsPass | gtsfm/averaging/translation/averaging_1dsfm.py:222-230 | the symbols kept by the threshold step are exactly those of the entries whose average weight is below the threshold |
| Inliers.KeptMatchesClassification | gtsfm/averaging/translation/averaging_1dsfm.py:233-244 | filtering the dictionaries by the passing symbols yields the inlier classification |
| Inliers.ComputeInliers | gtsfm/averaging/translation/averaging_1dsfm.py:190-246 | returns the inlier camera pairs, their endpoints and the inlier landmark entries as the classification defines them |
| Inliers.DirectionSumBelow | gtsfm/averaging/translation/averaging_1dsfm.py:229 | a sum of n weights each below b is below n times b |
| Inliers.DirectionSumAtLeast | gtsfm/averaging/translation/averaging_1dsfm.py:229 | a sum of n weights each at least b is at least n times b |
| Inliers.UniformWeightsDecide | gtsfm/averaging/translation/averaging_1dsfm.py:229 | weight below the threshold in every projection makes an inlier; weight at or above it in every projection makes an outlier |
| Inliers.ThresholdMonotone | gtsfm/averaging/translation/averaging_1dsfm.py:228-244 | raising the threshold never removes an inlier camera pair or an inlier landmark entry |
| Inliers.LandmarkNeedsCameraPair | gtsfm/averaging/translation/averaging_1dsfm.py:243 | an inlier landmark entry's camera is an endpoint of some passing camera pair |
| Inliers.NoDirectionsRejectsAll | gtsfm/averaging/translation/averaging_1dsfm.py:222-230 | with no projection direction, every measurement is an outlier |
| Metrics.MeasuredPairs | gtsfm/averaging/translation/averaging_1dsfm.py:508 | exactly the pairs whose direction is not None |
| Metrics.OutlierPairs | gtsfm/averaging/translation/averaging_1dsfm.py:507-509 | the measured pairs that are not inliers, disjoint from the inliers |
| Metrics.PartitionCounts | gtsfm/averaging/translation/averaging_1dsfm.py:533-538 | when the inliers are measured, inliers and outliers partition the measured pairs, so the total equals the number of measured pairs |
| Metrics.CountSome | gtsfm/averaging/translation/averaging_1dsfm.py:541 | the number of estimated translations never exceeds the list length |
| Metrics.CountSomeIsIndexCount | gtsfm/averaging/translation/averaging_1dsfm.py:541 | the count of present translations is the number of positions holding one |
| Metrics.CountSomeSamePattern | gtsfm/averaging/translation/averaging_1dsfm.py:450-452 | two lists with values at the same positions count the same |
| Metrics.ComparablePairs | gtsfm/averaging/translation/averaging_1dsfm.py:474-475 | exactly the pairs present in both the measured and the ground-truth directions |
| Metrics.AngleErrors | gtsfm/averaging/translation/averaging_1dsfm.py:457-482 | raises iff some comparable pair has an undefined angle; otherwise one angle per comparable pair, each pair once, each angle that pair's |
| Metrics.DistinctCard | gtsfm/averaging/translation/averaging_1dsfm.py:473-482 | a duplicate-free list has as many elements as its set of elements |
| Metrics.ComputeMetrics | gtsfm/averaging/translation/averaging_1dsfm.py:505-541 | undefined angle error iff some inlier or outlier angle is undefined; missing-key error iff none is and some pair lacks ground truth; it fails iff one of these holds; otherwise the inlier, outlier, total and estimated-translation counts, and for inliers and outliers alike one angle per comparable pair, in some order naming each such pair once, each angle that pair's |
| Metrics.MeasuredGroundTruth | gtsfm/averaging/translation/averaging_1dsfm.py:518-520 | raises a missing-key error iff some pair has no ground-truth direction; otherwise copies exactly those pairs |
| Averaging.PriorMeasurement | gtsfm/averaging/translation/averaging_1dsfm.py:181-186 | the prior of entry (i1, i2) is between C(i2) and C(i1), and reads back to its dictionary entry |
| Averaging.PriorStep | gtsfm/averaging/translation/averaging_1dsfm.py:179-187 | appending one more prior whose camera i2 has a rotation keeps the list exact |
| Averaging.PriorMeasurements | gtsfm/averaging/translation/averaging_1dsfm.py:155-188 | fails iff some prior's camera i2 has no rotation; otherwise one world-frame prior (C(i2), C(i1), wRi2 t) per entry and nothing else |
| Averaging.InitialValues | gtsfm/averaging/translation/averaging_1dsfm.py:248-261 | C(i) is set iff absolute prior i exists, to that prior's translation |
| Averaging.Translations | gtsfm/averaging/translation/averaging_1dsfm.py:374-377 | num_images entries; entry i is the solver's C(i) iff camera i has a rotation and the solver returned C(i) |
| Averaging.TranslationsFromValues | gtsfm/averaging/translation/averaging_1dsfm.py:374-378 | the loop over [None] * num_images computes those translations |
| Averaging.CombinePoses | gtsfm/averaging/translation/averaging_1dsfm.py:450-452 | zip length; a pose iff both rotation and translation exist, built from them |
| Averaging.PosesFollowTranslations | gtsfm/averaging/translation/averaging_1dsfm.py:446-452 | the final list has num_images entries, a pose exactly where a translation exists, and as many poses as translations |
| Averaging.RunAveraging | gtsfm/averaging/translation/averaging_1dsfm.py:327-378 | fails iff a prior lacks its rotation; otherwise the solver gets exactly the inlier camera and landmark measurements, each once; with relative priors it also gets the world-frame prior of every entry and the initial values of the absolute priors, otherwise the scale; returns the translations of that call's values |
| Averaging.LandmarkStage | gtsfm/averaging/translation/averaging_1dsfm.py:414-424 | no directions unless tracks are enabled and given; a length-mismatch error when intrinsics and rotations differ in number; otherwise fails iff a selected track's camera lacks intrinsics or rotation, and on success holds exactly one ray per (selected track, observing camera) |
| Averaging.InlierStage | gtsfm/averaging/translation/averaging_1dsfm.py:412-428 | fails exactly as the landmark stage does; otherwise the inlier camera pairs classified from the world-frame measurements, and the inlier landmark entries classified from the selected tracks' directions |
| Averaging.SolveStage | gtsfm/averaging/translation/averaging_1dsfm.py:430-452 | fails iff a prior lacks its rotation or, with ground truth, the metrics fail, and then raises the first of these errors (`SolveError`: the AttributeError, then an undefined angle before a missing ground-truth direction); otherwise the solver call of the inliers, translations and poses from its values, and the metrics of the inliers iff ground truth is given |
| Averaging.AverageTranslations | gtsfm/averaging/translation/averaging_1dsfm.py:410-452 | fails with exactly the first error met (`RunError`: the intrinsics length mismatch or a missing calibration or rotation, then a prior without its rotation, then an undefined angle, then a missing ground-truth direction); succeeds iff no stage fails; the inlier camera pairs and inlier landmark entries as classified; the solver call of those inliers; translations and poses from its values; metrics of the inliers iff ground truth is given |
| Averaging.MetricsStage | gtsfm/averaging/translation/averaging_1dsfm.py:440-444 | metrics iff ground-truth poses are given; with them, fails iff an angle is undefined or a measured pair lacks ground truth, with the undefined-angle ValueError exactly when an angle is undefined, and otherwise reports the counts and angle lists of the inliers and outliers |
| Averaging.ValidCamerasInRange | gtsfm/averaging/translation/averaging_1dsfm.py:412 | every valid camera indexes the rotation list |
| Averaging.InliersAreMeasured | gtsfm/averaging/translation/averaging_1dsfm.py:442 | every inlier camera pair had a direction, so it is counted among the measured pairs |
| Averaging.RunErrorAtEnd | gtsfm/averaging/translation/averaging_1dsfm.py:453 | the first error met is the dummy error exactly when the run reaches the final raise |
| Averaging.RunTranslationAveraging | gtsfm/averaging/translation/averaging_1dsfm.py:381-454 | always raises, and raises exactly `RunError`: the first failing stage's error, and the dummy error exactly when every earlier stage succeeds |
| Averaging.LandmarkFailureReachable | gtsfm/averaging/translation/averaging_1dsfm.py:412-422 | a camera without a rotation can be valid, and a selected track on it makes the landmark stage raise |
| Averaging.ScenarioValidCameras | gtsfm/averaging/translation/averaging_1dsfm.py:566-573 | in that scenario the valid cameras are {0, 1, 2}, although camera 0 has no rotation |
| Averaging.ScenarioSelection | gtsfm/averaging/translation/averaging_1dsfm.py:285-293 | in that scenario the single track is selected whole |
| Averaging.ScenarioStageFails | gtsfm/averaging/translation/averaging_1dsfm.py:317-318 | in that scenario the selected track observes camera 0, which has no rotation, so the stage fails |

## Left out

- Geometry numerics are not modelled. Unit3 normalisation, rotation, calibration and back-projection, and Pose3
  construction are opaque functions. Floating-point values are `real`, with no rounding.
- MFAS is not modelled. Its outlier weights for a symbol pair under a projection direction are an input function,
  which stands for MFAS run on this run's measurement graph. That function is total, so an exception raised
  inside MFAS is not modelled.
- TranslationRecovery is not modelled. Its result is an input function of the call (measurements, priors,
  initial values or scale). That function is total, so an exception raised inside the solver is not modelled.
- Noise models, the Huber loss option and the robust-noise flag are not modelled. They only configure the solver.
- The `TypeError` fallback to the older TranslationRecovery API is not modelled.
- Sampling of projection directions is not modelled. The directions are an input sequence, so randomness and
  MAX_PROJECTION_DIRECTIONS do not appear.
- `reject_outliers` and MAX_INLIER_MEASUREMENT_ERROR_DEG are not modelled. The first is never read by the core
  code, and the second only feeds the precision/recall metric, which is left out.
- These metrics are not modelled: precision and recall, Sim(3) alignment of the estimated poses, and the
  translation angle and distance metrics. They are numerical, so the `wRi_list` parameter of
  `compute_metrics` has no counterpart. The ground-truth directions of all image pairs are an input function.
  `ComputeMetrics` fails only through the angles and the ground-truth lookup; an exception raised inside
  `get_precision_recall_from_errors` (line 514), `align_poses_sim3_ignore_missing` (line 529) or the angle and
  distance metrics (lines 544-545) is not modelled.
- Logging is not modelled.
- Dictionary and set iteration order is not modelled. Loops pick entries in an unspecified order. The order of
  measurement lists, prior lists and angle-error lists is therefore left open, and their contents are stated
  exactly.
- Out-of-range and negative list indices (Python's IndexError and wrap-around) are not modelled. Members
  require camera indices to be in range, and `num_images` to be a natural number no larger than the rotation
  list.
- `sfm_track.py` is not part of this model. `select_for_cameras` is assumed to keep a track's observations on
  the given cameras, in their original order.
- The covariance of pose priors is not modelled, because the code does not use it.
- `data_association/data_assoc.py`, `gtsfm/frontend/matcher/matcher_base.py` and the tests are not part of
  this model.

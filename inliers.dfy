/** 1DSfM outlier classification of camera-pair and camera-landmark direction measurements.

    The MFAS solver is an oracle: `weight(key, direction)` is the outlier weight it assigns to the measurement
    with symbol pair `key` when the measurements are projected onto `direction`. A measurement is an inlier when
    its weight, averaged over all projection directions, is below the threshold. */
module Inliers {
  import opened Common
  import opened Symbols

  /** The sum over all projection directions of the outlier weight of key k. */
  function DirectionSum(dirs: seq<Unit3>, weight: (SymPair, Unit3) -> real, k: SymPair): real {
    if dirs == [] then 0.0
    else DirectionSum(dirs[..|dirs| - 1], weight, k) + weight(k, dirs[|dirs| - 1])
  }

  /** Key k passes when its outlier weight averaged over the directions is below the threshold. With no
      directions no key has a weight sum at all, so none passes. */
  predicate PassesThreshold(dirs: seq<Unit3>, weight: (SymPair, Unit3) -> real, k: SymPair, threshold: real)
    : (p: bool)
    ensures p <==> |dirs| > 0 && DirectionSum(dirs, weight, k) < threshold * (|dirs| as real)
  {
    |dirs| > 0 && DirectionSum(dirs, weight, k) / (|dirs| as real) < threshold
  }

  /** The camera pairs kept by the classification, with their directions unchanged. */
  function InlierCameraPairs(cams: map<Pair, Unit3>, dirs: seq<Unit3>, weight: (SymPair, Unit3) -> real,
                             threshold: real): (r: map<Pair, Unit3>)
    ensures r.Keys <= cams.Keys
    ensures forall k :: k in r ==> r[k] == cams[k]
    ensures forall k :: k in cams ==> (k in r <==> PassesThreshold(dirs, weight, CameraPairKey(k), threshold))
  {
    map k | k in cams && PassesThreshold(dirs, weight, CameraPairKey(k), threshold) :: cams[k]
  }

  /** The landmark measurements kept by the classification: those that pass on their own AND whose camera is
      already an inlier camera through some camera pair. */
  function InlierLandmarkPairs(tracks: map<Pair, Unit3>, inlierCameras: set<int>, dirs: seq<Unit3>,
                               weight: (SymPair, Unit3) -> real, threshold: real): (r: map<Pair, Unit3>)
    ensures r.Keys <= tracks.Keys
    ensures forall k :: k in r ==> r[k] == tracks[k]
    ensures forall k :: k in tracks ==>
      (k in r <==> PassesThreshold(dirs, weight, LandmarkKey(k), threshold) && k.1 in inlierCameras)
  {
    map k | k in tracks && PassesThreshold(dirs, weight, LandmarkKey(k), threshold) && k.1 in inlierCameras
      :: tracks[k]
  }

  // ---------------------------------------------------------------- accumulation of outlier weights

  /** The weight of key k under direction d, added once for every measurement of ms that has key k. */
  function RoundWeight(ms: seq<BinaryMeasurement>, d: Unit3, weight: (SymPair, Unit3) -> real, k: SymPair): real {
    if ms == [] then 0.0
    else RoundWeight(ms[..|ms| - 1], d, weight, k) + (if ms[|ms| - 1].Key() == k then weight(k, d) else 0.0)
  }

  /** What the accumulation loops add up for key k over all directions. */
  function TotalWeight(ms: seq<BinaryMeasurement>, dirs: seq<Unit3>, weight: (SymPair, Unit3) -> real,
                       k: SymPair): real {
    if dirs == [] then 0.0
    else TotalWeight(ms, dirs[..|dirs| - 1], weight, k) + RoundWeight(ms, dirs[|dirs| - 1], weight, k)
  }

  lemma {:induction false} RoundWeightAbsent(ms: seq<BinaryMeasurement>, d: Unit3,
                                             weight: (SymPair, Unit3) -> real, k: SymPair)
    requires k !in KeySet(ms)
    ensures RoundWeight(ms, d, weight, k) == 0.0
  {
    if ms != [] {
      assert KeySet(ms[..|ms| - 1]) <= KeySet(ms) by {
        forall s | s in KeySet(ms[..|ms| - 1]) ensures s in KeySet(ms) {
          var i :| 0 <= i < |ms| - 1 && ms[..|ms| - 1][i].Key() == s;
          assert ms[i].Key() == s;
        }
      }
      assert ms[|ms| - 1].Key() in KeySet(ms);
      RoundWeightAbsent(ms[..|ms| - 1], d, weight, k);
    }
  }

  /** When every key occurs once, a key of the list is counted exactly once per direction. */
  lemma {:induction false} RoundWeightOfDistinct(ms: seq<BinaryMeasurement>, d: Unit3,
                                                 weight: (SymPair, Unit3) -> real, k: SymPair)
    requires DistinctKeys(ms)
    requires k in KeySet(ms)
    ensures RoundWeight(ms, d, weight, k) == weight(k, d)
  {
    var n := |ms|;
    var prefix := ms[..n - 1];
    assert DistinctKeys(prefix);
    if ms[n - 1].Key() == k {
      forall s | s in KeySet(prefix) ensures s != k {
        var i :| 0 <= i < n - 1 && prefix[i].Key() == s;
        assert ms[i].Key() != ms[n - 1].Key();
      }
      RoundWeightAbsent(prefix, d, weight, k);
    } else {
      var i :| 0 <= i < n && ms[i].Key() == k;
      assert prefix[i].Key() == k;
      RoundWeightOfDistinct(prefix, d, weight, k);
    }
  }

  /** When every key occurs once, the accumulated weight of a key of the list is its sum over directions. */
  lemma {:induction false} TotalWeightOfDistinct(ms: seq<BinaryMeasurement>, dirs: seq<Unit3>,
                                                 weight: (SymPair, Unit3) -> real, k: SymPair)
    requires DistinctKeys(ms)
    requires k in KeySet(ms)
    ensures TotalWeight(ms, dirs, weight, k) == DirectionSum(dirs, weight, k)
  {
    if dirs != [] {
      TotalWeightOfDistinct(ms, dirs[..|dirs| - 1], weight, k);
      RoundWeightOfDistinct(ms, dirs[|dirs| - 1], weight, k);
    }
  }

  lemma KeySetSnoc(ms: seq<BinaryMeasurement>, i: nat)
    requires i < |ms|
    ensures KeySet(ms[..i + 1]) == KeySet(ms[..i]) + {ms[i].Key()}
  {
    assert forall j :: 0 <= j < i ==> ms[..i + 1][j] == ms[..i][j];
    assert ms[..i + 1][i] == ms[i];
  }

  /** One pass of the inner loop: adds the weight of every measurement for direction d to its key's running sum. */
  method AddRoundWeights(ms: seq<BinaryMeasurement>, d: Unit3, weight: (SymPair, Unit3) -> real,
                         sums: map<SymPair, real>)
    returns (out: map<SymPair, real>)
    requires sums.Keys == {} || sums.Keys == KeySet(ms)
    ensures out.Keys == KeySet(ms)
    ensures forall k :: k in out ==>
      out[k] == (if k in sums then sums[k] else 0.0) + RoundWeight(ms, d, weight, k)
  {
    out := sums;
    var i := 0;
    assert ms[..0] == [];
    while i < |ms|
      invariant 0 <= i <= |ms|
      invariant out.Keys == sums.Keys + KeySet(ms[..i])
      invariant forall k :: k in out ==>
        out[k] == (if k in sums then sums[k] else 0.0) + RoundWeight(ms[..i], d, weight, k)
    {
      var k := ms[i].Key();
      KeySetSnoc(ms, i);
      assert ms[..i + 1][..i] == ms[..i];
      if k !in out {
        RoundWeightAbsent(ms[..i], d, weight, k);
      }
      var previous := if k in out then out[k] else 0.0;
      out := out[k := previous + weight(k, d)];
      i := i + 1;
    }
    assert ms[..i] == ms;
  }

  /** The defaultdict of outlier-weight sums: for every direction, the weight of every measurement is added
      under its symbol pair. No direction means no entry at all. */
  method SumOutlierWeights(ms: seq<BinaryMeasurement>, dirs: seq<Unit3>, weight: (SymPair, Unit3) -> real)
    returns (sums: map<SymPair, real>)
    ensures sums.Keys == if dirs == [] then {} else KeySet(ms)
    ensures forall k :: k in sums ==> sums[k] == TotalWeight(ms, dirs, weight, k)
  {
    sums := map[];
    var j := 0;
    while j < |dirs|
      invariant 0 <= j <= |dirs|
      invariant sums.Keys == if j == 0 then {} else KeySet(ms)
      invariant forall k :: k in sums ==> sums[k] == TotalWeight(ms, dirs[..j], weight, k)
    {
      assert dirs[..j + 1][..j] == dirs[..j];
      if j == 0 {
        assert dirs[..j] == [];
      }
      sums := AddRoundWeights(ms, dirs[j], weight, sums);
      j := j + 1;
    }
    assert dirs[..j] == dirs;
  }

  // ---------------------------------------------------------------- classification

  /** The symbol pairs whose weight sum divided by the number of directions is below the threshold. */
  method AverageBelowThreshold(sums: map<SymPair, real>, numDirections: nat) returns (inliers: set<SymPair>)
    requires sums != map[] ==> numDirections > 0
    ensures forall s :: s in inliers <==>
      s in sums && sums[s] / (numDirections as real) < OUTLIER_WEIGHT_THRESHOLD
  {
    inliers := {};
    var rest := sums.Keys;
    while rest != {}
      invariant rest <= sums.Keys
      invariant forall s :: s in inliers <==>
        s in sums && s !in rest && sums[s] / (numDirections as real) < OUTLIER_WEIGHT_THRESHOLD
      decreases rest
    {
      var s :| s in rest;
      if sums[s] / (numDirections as real) < OUTLIER_WEIGHT_THRESHOLD {
        inliers := inliers + {s};
      }
      rest := rest - {s};
    }
  }

  /** The camera pairs (i1, i2) whose symbols (C(i2), C(i1)) are inliers, and the cameras they connect. */
  method KeepInlierCameraPairs(cams: map<Pair, Unit3>, inliers: set<SymPair>)
    returns (inlierCams: map<Pair, Unit3>, inlierCameras: set<int>)
    ensures forall k :: k in inlierCams <==> k in cams && CameraPairKey(k) in inliers
    ensures forall k :: k in inlierCams ==> inlierCams[k] == cams[k]
    ensures inlierCameras == Endpoints(inlierCams.Keys)
  {
    inlierCams := map[];
    inlierCameras := {};
    var pairs := cams.Keys;
    while pairs != {}
      invariant pairs <= cams.Keys
      invariant forall k :: k in inlierCams <==> k in cams && k !in pairs && CameraPairKey(k) in inliers
      invariant forall k :: k in inlierCams ==> inlierCams[k] == cams[k]
      invariant inlierCameras == Endpoints(inlierCams.Keys)
      decreases pairs
    {
      var k :| k in pairs;
      if CameraPairKey(k) in inliers {
        EndpointsInsert(inlierCams.Keys, k);
        inlierCams := inlierCams[k := cams[k]];
        inlierCameras := inlierCameras + {k.0, k.1};
      }
      pairs := pairs - {k};
    }
  }

  /** The landmark entries (track_id, cam_id) whose symbols (C(cam_id), L(track_id)) are inliers and whose camera
      is an inlier camera. */
  method KeepInlierLandmarks(tracks: map<Pair, Unit3>, inliers: set<SymPair>, inlierCameras: set<int>)
    returns (inlierTracks: map<Pair, Unit3>)
    ensures forall k :: k in inlierTracks <==> k in tracks && LandmarkKey(k) in inliers && k.1 in inlierCameras
    ensures forall k :: k in inlierTracks ==> inlierTracks[k] == tracks[k]
  {
    inlierTracks := map[];
    var entries := tracks.Keys;
    while entries != {}
      invariant entries <= tracks.Keys
      invariant forall k :: k in inlierTracks <==>
        k in tracks && k !in entries && LandmarkKey(k) in inliers && k.1 in inlierCameras
      invariant forall k :: k in inlierTracks ==> inlierTracks[k] == tracks[k]
      decreases entries
    {
      var k :| k in entries;
      if LandmarkKey(k) in inliers && k.1 in inlierCameras {
        inlierTracks := inlierTracks[k := tracks[k]];
      }
      entries := entries - {k};
    }
  }

  /** Classifies the measurements: a camera pair (i1, i2) is kept when the symbols (C(i2), C(i1)) pass the
      threshold; the inlier cameras are the endpoints of the kept pairs; a landmark entry (track_id, cam_id) is
      kept when (C(cam_id), L(track_id)) passes and cam_id is an inlier camera. */
  method ComputeInliers(cams: map<Pair, Unit3>, tracks: map<Pair, Unit3>, dirs: seq<Unit3>,
                        weight: (SymPair, Unit3) -> real)
    returns (inlierCams: map<Pair, Unit3>, inlierTracks: map<Pair, Unit3>, inlierCameras: set<int>)
    ensures inlierCams == InlierCameraPairs(cams, dirs, weight, OUTLIER_WEIGHT_THRESHOLD)
    ensures inlierCameras == Endpoints(inlierCams.Keys)
    ensures inlierTracks == InlierLandmarkPairs(tracks, inlierCameras, dirs, weight, OUTLIER_WEIGHT_THRESHOLD)
  {
    var ms := BinaryMeasurementsFromDict(cams, tracks);
    var sums := SumOutlierWeights(ms, dirs, weight);
    var inliers := AverageBelowThreshold(sums, |dirs|);
    KeySetOfMeasurements(ms, cams, tracks);
    InlierSymbolsPass(ms, cams, tracks, dirs, weight, sums, inliers);
    inlierCams, inlierCameras := KeepInlierCameraPairs(cams, inliers);
    inlierTracks := KeepInlierLandmarks(tracks, inliers, inlierCameras);
    KeptMatchesClassification(cams, tracks, dirs, weight, inliers, inlierCams, inlierCameras, inlierTracks);
  }

  /** Filtering the dictionaries by the passing symbols yields the classification that InlierCameraPairs and
      InlierLandmarkPairs define. */
  lemma KeptMatchesClassification(cams: map<Pair, Unit3>, tracks: map<Pair, Unit3>, dirs: seq<Unit3>,
                                  weight: (SymPair, Unit3) -> real, inliers: set<SymPair>,
                                  inlierCams: map<Pair, Unit3>, inlierCameras: set<int>,
                                  inlierTracks: map<Pair, Unit3>)
    requires forall k :: k in cams ==>
      (CameraPairKey(k) in inliers <==> PassesThreshold(dirs, weight, CameraPairKey(k), OUTLIER_WEIGHT_THRESHOLD))
    requires forall k :: k in tracks ==>
      (LandmarkKey(k) in inliers <==> PassesThreshold(dirs, weight, LandmarkKey(k), OUTLIER_WEIGHT_THRESHOLD))
    requires forall k :: k in inlierCams <==> k in cams && CameraPairKey(k) in inliers
    requires forall k :: k in inlierCams ==> inlierCams[k] == cams[k]
    requires forall k :: k in inlierTracks <==> k in tracks && LandmarkKey(k) in inliers && k.1 in inlierCameras
    requires forall k :: k in inlierTracks ==> inlierTracks[k] == tracks[k]
    ensures inlierCams == InlierCameraPairs(cams, dirs, weight, OUTLIER_WEIGHT_THRESHOLD)
    ensures inlierTracks == InlierLandmarkPairs(tracks, inlierCameras, dirs, weight, OUTLIER_WEIGHT_THRESHOLD)
  {
    var expectedCams := InlierCameraPairs(cams, dirs, weight, OUTLIER_WEIGHT_THRESHOLD);
    assert inlierCams.Keys == expectedCams.Keys;
    var expectedTracks := InlierLandmarkPairs(tracks, inlierCameras, dirs, weight, OUTLIER_WEIGHT_THRESHOLD);
    assert inlierTracks.Keys == expectedTracks.Keys;
  }

  /** The symbols kept by the threshold step are exactly the measurement symbols that pass on average. */
  lemma InlierSymbolsPass(ms: seq<BinaryMeasurement>, cams: map<Pair, Unit3>, tracks: map<Pair, Unit3>,
                          dirs: seq<Unit3>, weight: (SymPair, Unit3) -> real,
                          sums: map<SymPair, real>, inliers: set<SymPair>)
    requires DistinctKeys(ms)
    requires KeySet(ms) == (set k | k in cams :: CameraPairKey(k)) + (set k | k in tracks :: LandmarkKey(k))
    requires sums.Keys == if dirs == [] then {} else KeySet(ms)
    requires forall k :: k in sums ==> sums[k] == TotalWeight(ms, dirs, weight, k)
    requires sums != map[] ==> |dirs| > 0
    requires forall s :: s in inliers <==> s in sums && sums[s] / (|dirs| as real) < OUTLIER_WEIGHT_THRESHOLD
    ensures forall k :: k in cams ==>
      (CameraPairKey(k) in inliers <==> PassesThreshold(dirs, weight, CameraPairKey(k), OUTLIER_WEIGHT_THRESHOLD))
    ensures forall k :: k in tracks ==>
      (LandmarkKey(k) in inliers <==> PassesThreshold(dirs, weight, LandmarkKey(k), OUTLIER_WEIGHT_THRESHOLD))
  {
    forall s | s in KeySet(ms)
      ensures s in inliers <==> PassesThreshold(dirs, weight, s, OUTLIER_WEIGHT_THRESHOLD)
    {
      TotalWeightOfDistinct(ms, dirs, weight, s);
    }
    forall k | k in cams ensures CameraPairKey(k) in KeySet(ms) { }
    forall k | k in tracks ensures LandmarkKey(k) in KeySet(ms) { }
  }

  // ---------------------------------------------------------------- properties of the classification

  /** A weight sum over n directions stays below n times any strict bound of every single weight. */
  lemma {:induction false} DirectionSumBelow(dirs: seq<Unit3>, weight: (SymPair, Unit3) -> real, k: SymPair,
                                             bound: real)
    requires forall j :: 0 <= j < |dirs| ==> weight(k, dirs[j]) < bound
    ensures dirs != [] ==> DirectionSum(dirs, weight, k) < (|dirs| as real) * bound
    ensures dirs == [] ==> DirectionSum(dirs, weight, k) == 0.0
  {
    if dirs != [] {
      var prefix := dirs[..|dirs| - 1];
      assert forall j :: 0 <= j < |prefix| ==> prefix[j] == dirs[j];
      DirectionSumBelow(prefix, weight, k, bound);
    }
  }

  /** A weight sum over n directions reaches n times any common lower bound of every single weight. */
  lemma {:induction false} DirectionSumAtLeast(dirs: seq<Unit3>, weight: (SymPair, Unit3) -> real, k: SymPair,
                                               bound: real)
    requires forall j :: 0 <= j < |dirs| ==> weight(k, dirs[j]) >= bound
    ensures DirectionSum(dirs, weight, k) >= (|dirs| as real) * bound
  {
    if dirs != [] {
      var prefix := dirs[..|dirs| - 1];
      assert forall j :: 0 <= j < |prefix| ==> prefix[j] == dirs[j];
      DirectionSumAtLeast(prefix, weight, k, bound);
    }
  }

  /** The classification averages over the directions: a key whose weight is below the threshold in every
      projection is an inlier, and one whose weight reaches the threshold in every projection is an outlier. */
  lemma UniformWeightsDecide(dirs: seq<Unit3>, weight: (SymPair, Unit3) -> real, k: SymPair, threshold: real)
    requires dirs != []
    ensures (forall j :: 0 <= j < |dirs| ==> weight(k, dirs[j]) < threshold)
            ==> PassesThreshold(dirs, weight, k, threshold)
    ensures (forall j :: 0 <= j < |dirs| ==> weight(k, dirs[j]) >= threshold)
            ==> !PassesThreshold(dirs, weight, k, threshold)
  {
    var n := |dirs| as real;
    var sum := DirectionSum(dirs, weight, k);
    assert sum / n * n == sum;
    if forall j :: 0 <= j < |dirs| ==> weight(k, dirs[j]) < threshold {
      DirectionSumBelow(dirs, weight, k, threshold);
      assert sum / n < threshold;
    }
    if forall j :: 0 <= j < |dirs| ==> weight(k, dirs[j]) >= threshold {
      DirectionSumAtLeast(dirs, weight, k, threshold);
      assert sum / n >= threshold;
    }
  }

  /** Raising the threshold never removes an inlier, camera pair or landmark. */
  lemma ThresholdMonotone(cams: map<Pair, Unit3>, tracks: map<Pair, Unit3>, dirs: seq<Unit3>,
                          weight: (SymPair, Unit3) -> real, low: real, high: real)
    requires low <= high
    ensures InlierCameraPairs(cams, dirs, weight, low).Keys <= InlierCameraPairs(cams, dirs, weight, high).Keys
    ensures InlierLandmarkPairs(tracks, Endpoints(InlierCameraPairs(cams, dirs, weight, low).Keys),
                                dirs, weight, low).Keys
            <= InlierLandmarkPairs(tracks, Endpoints(InlierCameraPairs(cams, dirs, weight, high).Keys),
                                   dirs, weight, high).Keys
  {
    var lowCams := InlierCameraPairs(cams, dirs, weight, low).Keys;
    var highCams := InlierCameraPairs(cams, dirs, weight, high).Keys;
    assert Endpoints(lowCams) <= Endpoints(highCams) by {
      forall c | c in Endpoints(lowCams) ensures c in Endpoints(highCams) {
        var k :| k in lowCams && (c == k.0 || c == k.1);
        assert k in highCams;
      }
    }
  }

  /** A landmark measurement is never an inlier when its camera has no inlier camera pair. */
  lemma LandmarkNeedsCameraPair(cams: map<Pair, Unit3>, tracks: map<Pair, Unit3>, dirs: seq<Unit3>,
                                weight: (SymPair, Unit3) -> real, threshold: real, k: Pair)
    requires k in InlierLandmarkPairs(tracks, Endpoints(InlierCameraPairs(cams, dirs, weight, threshold).Keys),
                                      dirs, weight, threshold)
    ensures exists p :: p in cams && PassesThreshold(dirs, weight, CameraPairKey(p), threshold)
                        && (k.1 == p.0 || k.1 == p.1)
  {
    var ic := InlierCameraPairs(cams, dirs, weight, threshold);
    var p :| p in ic.Keys && (k.1 == p.0 || k.1 == p.1);
    assert p in cams;
  }

  /** With no projection direction no weight sum exists, so every measurement is an outlier. */
  lemma NoDirectionsRejectsAll(cams: map<Pair, Unit3>, tracks: map<Pair, Unit3>,
                               weight: (SymPair, Unit3) -> real, threshold: real, inlierCameras: set<int>)
    ensures InlierCameraPairs(cams, [], weight, threshold) == map[]
    ensures InlierLandmarkPairs(tracks, inlierCameras, [], weight, threshold) == map[]
  {
  }
}

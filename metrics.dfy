/** The set and count bookkeeping of the 1DSfM translation-averaging metrics.

    Angles between measured and ground-truth directions are computed by an external routine, modelled as the
    oracle `angle`, which answers None when the angle is undefined. The ground-truth directions of all image pairs
    come from the ground-truth poses through the oracle `gtDirections`. */
module Metrics {
  import opened Common

  /** The counts and angle lists the metrics group reports. */
  datatype Metrics = Metrics(
    numTotal: nat,                  // num_total_1dsfm_measurements
    numInliers: nat,                // num_inlier_1dsfm_measurements
    numOutliers: nat,               // num_outlier_1dsfm_measurements
    numTranslationsEstimated: nat,  // num_translations_estimated
    inlierErrors: seq<real>,        // 1dsfm_inlier_angular_errors_deg
    outlierErrors: seq<real>        // 1dsfm_outlier_angular_errors_deg
  )

  /** The pairs that carry a relative direction. */
  function MeasuredPairs(i2Ui1: map<Pair, Option<Unit3>>): (r: set<Pair>)
    ensures r <= i2Ui1.Keys
    ensures forall k :: k in i2Ui1 ==> (k in r <==> i2Ui1[k].Some?)
  {
    set k | k in i2Ui1 && i2Ui1[k].Some?
  }

  /** The measured pairs that are not inliers. */
  function OutlierPairs(i2Ui1: map<Pair, Option<Unit3>>, inliers: set<Pair>): (r: set<Pair>)
    ensures r !! inliers
    ensures r <= MeasuredPairs(i2Ui1)
    ensures forall k :: k in MeasuredPairs(i2Ui1) ==> (k in r <==> k !in inliers)
  {
    MeasuredPairs(i2Ui1) - inliers
  }

  /** When the inliers are measured pairs, inliers and outliers partition the measured pairs, so the total count
      is the number of measured pairs. */
  lemma PartitionCounts(i2Ui1: map<Pair, Option<Unit3>>, inliers: set<Pair>)
    requires inliers <= MeasuredPairs(i2Ui1)
    ensures inliers + OutlierPairs(i2Ui1, inliers) == MeasuredPairs(i2Ui1)
    ensures |inliers| + |OutlierPairs(i2Ui1, inliers)| == |MeasuredPairs(i2Ui1)|
  {
    var outliers := OutlierPairs(i2Ui1, inliers);
    assert inliers + outliers == MeasuredPairs(i2Ui1);
    assert inliers * outliers == {};
  }

  /** The number of present entries of a list of optional values. */
  function CountSome<T>(s: seq<Option<T>>): (n: nat)
    ensures n <= |s|
  {
    if s == [] then 0
    else CountSome(s[..|s| - 1]) + (if s[|s| - 1].Some? then 1 else 0)
  }

  /** The positions of the present entries. */
  function SomeIndices<T>(s: seq<Option<T>>): set<nat> {
    set i: nat | i < |s| && s[i].Some?
  }

  /** CountSome counts exactly the positions holding a value. */
  lemma {:induction false} CountSomeIsIndexCount<T>(s: seq<Option<T>>)
    ensures CountSome(s) == |SomeIndices(s)|
  {
    if s != [] {
      var n := |s| - 1;
      var prefix := s[..n];
      CountSomeIsIndexCount(prefix);
      if s[n].Some? {
        assert SomeIndices(s) == SomeIndices(prefix) + {n};
      } else {
        assert SomeIndices(s) == SomeIndices(prefix);
      }
    }
  }

  /** Two lists with values at the same positions count the same. */
  lemma {:induction false} CountSomeSamePattern<A, B>(a: seq<Option<A>>, b: seq<Option<B>>)
    requires |a| == |b|
    requires forall i :: 0 <= i < |a| ==> (a[i].Some? <==> b[i].Some?)
    ensures CountSome(a) == CountSome(b)
  {
    if a != [] {
      var n := |a| - 1;
      CountSomeSamePattern(a[..n], b[..n]);
    }
  }

  /** The pairs of `pairs` for which both a measurement and a ground-truth direction exist. */
  function ComparablePairs(pairs: set<Pair>, meas: map<Pair, Option<Unit3>>, gt: map<Pair, Option<Unit3>>)
    : (r: set<Pair>)
    ensures r <= pairs
    ensures forall k :: k in r <==> k in pairs && k in meas && k in gt
  {
    set k | k in pairs && k in meas && k in gt
  }

  /** Some comparable pair has an undefined angle. */
  predicate SomeAngleUndefined(pairs: set<Pair>, meas: map<Pair, Option<Unit3>>, gt: map<Pair, Option<Unit3>>,
                               angle: (Option<Unit3>, Option<Unit3>) -> Option<real>) {
    exists k :: k in pairs && k in meas && k in gt && angle(meas[k], gt[k]).None?
  }

  /** errors holds one angle for each pair of `pairs` present in both dictionaries, listed in the order `order`
      which names each such pair once. */
  ghost predicate AngleList(errors: seq<real>, order: seq<Pair>, pairs: set<Pair>, meas: map<Pair, Option<Unit3>>,
                            gt: map<Pair, Option<Unit3>>, angle: (Option<Unit3>, Option<Unit3>) -> Option<real>) {
    && |errors| == |ComparablePairs(pairs, meas, gt)|
    && |order| == |errors|
    && (forall i, j :: 0 <= i < j < |order| ==> order[i] != order[j])
    && (forall k :: k in order <==> k in ComparablePairs(pairs, meas, gt))
    && forall i :: 0 <= i < |order| ==>
         order[i] in meas && order[i] in gt && angle(meas[order[i]], gt[order[i]]) == Some(errors[i])
  }

  /** One angle for each pair present in both dictionaries, in the iteration order `order` of the pairs; fails when
      any of these angles is undefined. */
  method AngleErrors(pairs: set<Pair>, meas: map<Pair, Option<Unit3>>, gt: map<Pair, Option<Unit3>>,
                     angle: (Option<Unit3>, Option<Unit3>) -> Option<real>)
    returns (r: Result<seq<real>, Error>, ghost order: seq<Pair>)
    ensures r.Failure? <==> SomeAngleUndefined(pairs, meas, gt, angle)
    ensures r.Failure? ==> r.error == UndefinedAngle
    ensures r.Success? ==> AngleList(r.value, order, pairs, meas, gt, angle)
  {
    var errors: seq<real> := [];
    order := [];
    var rest := pairs;
    while rest != {}
      invariant rest <= pairs
      invariant |order| == |errors|
      invariant forall i, j :: 0 <= i < j < |order| ==> order[i] != order[j]
      invariant forall k :: k in order <==> k in ComparablePairs(pairs, meas, gt) && k !in rest
      invariant forall i :: 0 <= i < |order| ==>
        order[i] in meas && order[i] in gt && angle(meas[order[i]], gt[order[i]]) == Some(errors[i])
      invariant !SomeAngleUndefined(pairs - rest, meas, gt, angle)
      decreases rest
    {
      var k :| k in rest;
      if k in meas && k in gt {
        var error := angle(meas[k], gt[k]);
        if error.None? {
          assert k in pairs && k in meas && k in gt && angle(meas[k], gt[k]).None?;
          return Failure(UndefinedAngle), order;
        }
        errors := errors + [error.value];
        order := order + [k];
      }
      rest := rest - {k};
      assert !SomeAngleUndefined(pairs - rest, meas, gt, angle) by {
        forall x | x in pairs - rest && x in meas && x in gt ensures angle(meas[x], gt[x]).Some? {
          if x != k {
            assert x in pairs - (rest + {k});
          }
        }
      }
    }
    assert pairs - rest == pairs;
    DistinctCard(order, ComparablePairs(pairs, meas, gt));
    r := Success(errors);
  }

  /** A duplicate-free list holds as many elements as the set of its elements. */
  lemma {:induction false} DistinctCard(s: seq<Pair>, elems: set<Pair>)
    requires forall i, j :: 0 <= i < j < |s| ==> s[i] != s[j]
    requires forall k :: k in s <==> k in elems
    ensures |s| == |elems|
  {
    if s != [] {
      var n := |s| - 1;
      var prefix := s[..n];
      assert forall k :: k in prefix <==> k in elems - {s[n]} by {
        forall k ensures k in prefix <==> k in elems - {s[n]} {
          if k in prefix {
            var i :| 0 <= i < n && prefix[i] == k;
            assert s[i] == k;
          }
          if k in elems - {s[n]} {
            var i :| 0 <= i < |s| && s[i] == k;
            assert prefix[i] == k;
          }
        }
      }
      DistinctCard(prefix, elems - {s[n]});
    } else {
      assert elems == {};
    }
  }

  /** Some pair has an undefined angle, among the inliers or the outliers. */
  predicate AnyAngleUndefined(inliers: set<Pair>, i2Ui1: map<Pair, Option<Unit3>>, gt: map<Pair, Option<Unit3>>,
                              angle: (Option<Unit3>, Option<Unit3>) -> Option<real>) {
    SomeAngleUndefined(inliers, i2Ui1, gt, angle) || SomeAngleUndefined(OutlierPairs(i2Ui1, inliers), i2Ui1, gt, angle)
  }

  /** Computing the metrics fails: an angle is undefined, or a measured pair has no ground-truth direction. */
  predicate MetricsFail(inliers: set<Pair>, i2Ui1: map<Pair, Option<Unit3>>, gt: map<Pair, Option<Unit3>>,
                        angle: (Option<Unit3>, Option<Unit3>) -> Option<real>) {
    AnyAngleUndefined(inliers, i2Ui1, gt, angle) || exists k :: k in inliers + OutlierPairs(i2Ui1, inliers) && k !in gt
  }

  /** m reports the inliers, the outliers and the estimated translations, with the angle errors of each group. */
  ghost predicate MetricsOf(m: Metrics, inliers: set<Pair>, i2Ui1: map<Pair, Option<Unit3>>, wti: seq<Option<Point3>>,
                            gt: map<Pair, Option<Unit3>>, angle: (Option<Unit3>, Option<Unit3>) -> Option<real>) {
    var outliers := OutlierPairs(i2Ui1, inliers);
    && m.numInliers == |inliers|
    && m.numOutliers == |outliers|
    && m.numTotal == |inliers| + |outliers|
    && m.numTranslationsEstimated == CountSome(wti)
    && (exists order :: AngleList(m.inlierErrors, order, inliers, i2Ui1, gt, angle))
    && (exists order :: AngleList(m.outlierErrors, order, outliers, i2Ui1, gt, angle))
  }

  /** Computes the counts and angle lists of the metrics group. The angles come first: an undefined angle among the
      inliers or the outliers fails the computation. Then every inlier and outlier pair is looked up in the
      ground-truth directions, which fails when one is missing. */
  method ComputeMetrics(inliers: set<Pair>, i2Ui1: map<Pair, Option<Unit3>>, wti: seq<Option<Point3>>,
                        gtPoses: seq<Option<Pose3>>,
                        gtDirections: seq<Option<Pose3>> -> map<Pair, Option<Unit3>>,
                        angle: (Option<Unit3>, Option<Unit3>) -> Option<real>)
    returns (r: Result<Metrics, Error>)
    ensures var gt := gtDirections(gtPoses);
      r.Failure? && r.error == UndefinedAngle <==> AnyAngleUndefined(inliers, i2Ui1, gt, angle)
    ensures var gt := gtDirections(gtPoses);
      r.Failure? && r.error == MissingGroundTruth <==>
        !AnyAngleUndefined(inliers, i2Ui1, gt, angle)
        && exists k :: k in inliers + OutlierPairs(i2Ui1, inliers) && k !in gt
    ensures r.Failure? ==> r.error == UndefinedAngle || r.error == MissingGroundTruth
    ensures r.Failure? <==> MetricsFail(inliers, i2Ui1, gtDirections(gtPoses), angle)
    ensures r.Success? ==> MetricsOf(r.value, inliers, i2Ui1, wti, gtDirections(gtPoses), angle)
  {
    var gt := gtDirections(gtPoses);
    var outliers := MeasuredPairs(i2Ui1) - inliers;
    var inlierErrors, inlierOrder := AngleErrors(inliers, i2Ui1, gt, angle);
    if inlierErrors.Failure? {
      return Failure(inlierErrors.error);
    }
    var outlierErrors, outlierOrder := AngleErrors(outliers, i2Ui1, gt, angle);
    if outlierErrors.Failure? {
      return Failure(outlierErrors.error);
    }
    var found := MeasuredGroundTruth(inliers + outliers, gt);
    if found.Failure? {
      return Failure(found.error);
    }
    r := Success(Metrics(|inliers| + |outliers|, |inliers|, |outliers|, CountSome(wti),
                         inlierErrors.value, outlierErrors.value));
  }

  /** Looks up the ground-truth direction of every pair; a pair without one is a missing key. */
  method MeasuredGroundTruth(pairs: set<Pair>, gt: map<Pair, Option<Unit3>>)
    returns (r: Result<map<Pair, Option<Unit3>>, Error>)
    ensures r.Failure? <==> exists k :: k in pairs && k !in gt
    ensures r.Failure? ==> r.error == MissingGroundTruth
    ensures r.Success? ==> r.value.Keys == pairs && forall k :: k in r.value ==> r.value[k] == gt[k]
  {
    var measured: map<Pair, Option<Unit3>> := map[];
    var rest := pairs;
    while rest != {}
      invariant rest <= pairs
      invariant measured.Keys == pairs - rest
      invariant forall k :: k in measured ==> k in gt && measured[k] == gt[k]
      decreases rest
    {
      var k :| k in rest;
      if k !in gt {
        return Failure(MissingGroundTruth);
      }
      measured := measured[k := gt[k]];
      rest := rest - {k};
    }
    r := Success(measured);
  }
}

/** Conversion of the relative unit-translation measurements into the world frame. */
module Measurements {
  import opened Common

  /** Entry (i1, i2) survives when its direction is present and camera i2 has a rotation.
      The rotation of camera i1 is never looked at. */
  predicate Usable(i2Ui1: map<Pair, Option<Unit3>>, wRi: seq<Option<Rot3>>, k: Pair)
    requires k in i2Ui1 && 0 <= k.1 < |wRi|
  {
    i2Ui1[k].Some? && wRi[k.1].Some?
  }

  /** The usable measurements rotated into the world frame by the rotation of camera i2. */
  function WorldFrame(i2Ui1: map<Pair, Option<Unit3>>, wRi: seq<Option<Rot3>>, geo: Geometry): (w: map<Pair, Unit3>)
    requires forall k :: k in i2Ui1 ==> 0 <= k.1 < |wRi|
    ensures w.Keys <= i2Ui1.Keys
    ensures forall k :: k in i2Ui1 ==> (k in w <==> Usable(i2Ui1, wRi, k))
  {
    map k | k in i2Ui1 && Usable(i2Ui1, wRi, k) :: geo.rotate(wRi[k.1].value, i2Ui1[k].value)
  }

  /** The cameras connected by some usable measurement. */
  function ValidCameras(i2Ui1: map<Pair, Option<Unit3>>, wRi: seq<Option<Rot3>>, geo: Geometry): (r: set<int>)
    requires forall k :: k in i2Ui1 ==> 0 <= k.1 < |wRi|
    ensures forall c :: c in r ==> exists k :: k in i2Ui1 && (c == k.0 || c == k.1)
  {
    Endpoints(WorldFrame(i2Ui1, wRi, geo).Keys)
  }

  /** Keeps the usable measurements, rotated by the rotation of camera i2, and collects the cameras they connect. */
  method ValidMeasurementsInWorldFrame(i2Ui1: map<Pair, Option<Unit3>>, wRi: seq<Option<Rot3>>, geo: Geometry)
    returns (w: map<Pair, Unit3>, validCameras: set<int>)
    requires forall k :: k in i2Ui1 ==> 0 <= k.1 < |wRi|
    ensures forall k :: k in i2Ui1 && Usable(i2Ui1, wRi, k) ==> k in w
    ensures forall k :: k in w ==>
      k in i2Ui1 && Usable(i2Ui1, wRi, k) && w[k] == geo.rotate(wRi[k.1].value, i2Ui1[k].value)
    ensures w == WorldFrame(i2Ui1, wRi, geo)
    ensures validCameras == Endpoints(w.Keys) == ValidCameras(i2Ui1, wRi, geo)
  {
    w := map[];
    validCameras := {};
    var rest := i2Ui1.Keys;
    while rest != {}
      invariant rest <= i2Ui1.Keys
      invariant forall k :: k in i2Ui1 && k !in rest && Usable(i2Ui1, wRi, k) ==> k in w
      invariant forall k :: k in w ==>
        k in i2Ui1 && k !in rest && Usable(i2Ui1, wRi, k) && w[k] == geo.rotate(wRi[k.1].value, i2Ui1[k].value)
      invariant validCameras == Endpoints(w.Keys)
      decreases rest
    {
      var k :| k in rest;
      var wRi2 := wRi[k.1];
      if i2Ui1[k].Some? && wRi2.Some? {
        EndpointsInsert(w.Keys, k);
        w := w[k := geo.rotate(wRi2.value, i2Ui1[k].value)];
        validCameras := validCameras + {k.0, k.1};
      }
      rest := rest - {k};
    }
    assert w.Keys == WorldFrame(i2Ui1, wRi, geo).Keys;
  }

  /** Whether a measurement is kept never depends on the rotation of its first camera i1. */
  lemma FirstRotationIgnored(i2Ui1: map<Pair, Option<Unit3>>, wRi: seq<Option<Rot3>>, geo: Geometry,
                             k: Pair, r: Option<Rot3>)
    requires forall k :: k in i2Ui1 ==> 0 <= k.1 < |wRi|
    requires k in i2Ui1 && 0 <= k.0 < |wRi| && k.0 != k.1
    ensures k in WorldFrame(i2Ui1, wRi, geo) <==> k in WorldFrame(i2Ui1, wRi[k.0 := r], geo)
  {
    assert wRi[k.0 := r][k.1] == wRi[k.1];
  }

  /** A camera is valid exactly when some usable measurement has it as an endpoint. */
  lemma ValidCameraWitness(i2Ui1: map<Pair, Option<Unit3>>, wRi: seq<Option<Rot3>>, geo: Geometry, c: int)
    requires forall k :: k in i2Ui1 ==> 0 <= k.1 < |wRi|
    ensures c in ValidCameras(i2Ui1, wRi, geo) <==>
      exists k :: k in i2Ui1 && i2Ui1[k].Some? && wRi[k.1].Some? && (c == k.0 || c == k.1)
  {
    var w := WorldFrame(i2Ui1, wRi, geo);
    if c in ValidCameras(i2Ui1, wRi, geo) {
      var k :| k in w.Keys && (c == k.0 || c == k.1);
      assert k in i2Ui1 && Usable(i2Ui1, wRi, k);
    }
    if exists k :: k in i2Ui1 && i2Ui1[k].Some? && wRi[k.1].Some? && (c == k.0 || c == k.1) {
      var k :| k in i2Ui1 && i2Ui1[k].Some? && wRi[k.1].Some? && (c == k.0 || c == k.1);
      assert k in w;
    }
  }
}

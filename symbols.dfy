/** Solver symbols and the conversion of direction dictionaries into the solver's binary measurements.

    Cameras are the symbols C(i) and landmarks the symbols L(track_id). A camera pair (i1, i2) becomes the
    measurement between C(i2) and C(i1) (the order flips), and a landmark entry (track_id, cam_id) becomes the
    measurement between C(cam_id) and L(track_id). */
module Symbols {
  import opened Common

  /** A GTSAM key built by symbol_shorthand: A(i) for a camera, B(j) for a landmark. */
  datatype Sym = Cam(index: int) | Land(index: int)

  /** The (key1, key2) pair that identifies a binary measurement. */
  datatype SymPair = SymPair(key1: Sym, key2: Sym)

  /** A direction measurement between two symbols (BinaryMeasurementUnit3; the noise model is not modelled). */
  datatype BinaryMeasurement = BinaryMeasurement(key1: Sym, key2: Sym, direction: Unit3) {
    function Key(): SymPair { SymPair(key1, key2) }
  }

  /** Reads a symbol pair back as a camera-pair dictionary key, undoing the index flip. */
  function CameraPairOf(s: SymPair): Option<Pair> {
    if s.key1.Cam? && s.key2.Cam? then Some((s.key2.index, s.key1.index)) else None
  }

  /** Reads a symbol pair back as a (track_id, cam_id) dictionary key. */
  function LandmarkPairOf(s: SymPair): Option<Pair> {
    if s.key1.Cam? && s.key2.Land? then Some((s.key2.index, s.key1.index)) else None
  }

  /** The symbols of camera pair (i1, i2): (C(i2), C(i1)). */
  function CameraPairKey(k: Pair): (s: SymPair)
    ensures CameraPairOf(s) == Some(k)
    ensures LandmarkPairOf(s) == None
  {
    SymPair(Cam(k.1), Cam(k.0))
  }

  /** The symbols of landmark entry (track_id, cam_id): (C(cam_id), L(track_id)). */
  function LandmarkKey(k: Pair): (s: SymPair)
    ensures LandmarkPairOf(s) == Some(k)
    ensures CameraPairOf(s) == None
  {
    SymPair(Cam(k.1), Land(k.0))
  }

  /** Distinct dictionary keys never share a symbol pair, within or across the two dictionaries. */
  lemma KeysNeverCollide(a: Pair, b: Pair)
    ensures CameraPairKey(a) == CameraPairKey(b) ==> a == b
    ensures LandmarkKey(a) == LandmarkKey(b) ==> a == b
    ensures CameraPairKey(a) != LandmarkKey(b)
  {
    if CameraPairKey(a) == CameraPairKey(b) {
      assert Some(a) == CameraPairOf(CameraPairKey(b)) == Some(b);
    }
    if LandmarkKey(a) == LandmarkKey(b) {
      assert Some(a) == LandmarkPairOf(LandmarkKey(b)) == Some(b);
    }
  }

  function CameraMeasurement(k: Pair, d: Unit3): BinaryMeasurement {
    BinaryMeasurement(Cam(k.1), Cam(k.0), d)
  }

  function LandmarkMeasurement(k: Pair, d: Unit3): BinaryMeasurement {
    BinaryMeasurement(Cam(k.1), Land(k.0), d)
  }

  /** The dictionary key a measurement came from: its two symbol indices, flipped back. */
  function EntryPair(m: BinaryMeasurement): Pair {
    (m.key2.index, m.key1.index)
  }

  /** m is the measurement of some entry of the camera-pair dictionary. */
  ghost predicate FromCameraEntry(m: BinaryMeasurement, cams: map<Pair, Unit3>) {
    m.key1.Cam? && m.key2.Cam? && EntryPair(m) in cams && m.direction == cams[EntryPair(m)]
  }

  /** m is the measurement of some entry of the landmark dictionary. */
  ghost predicate FromLandmarkEntry(m: BinaryMeasurement, tracks: map<Pair, Unit3>) {
    m.key1.Cam? && m.key2.Land? && EntryPair(m) in tracks && m.direction == tracks[EntryPair(m)]
  }

  /** No two measurements of the list have the same symbol pair. */
  ghost predicate DistinctKeys(ms: seq<BinaryMeasurement>) {
    forall i, j :: 0 <= i < j < |ms| ==> ms[i].Key() != ms[j].Key()
  }

  /** The symbol pairs of a measurement list. */
  function KeySet(ms: seq<BinaryMeasurement>): set<SymPair> {
    set i | 0 <= i < |ms| :: ms[i].Key()
  }

  /** ms holds exactly one measurement for each entry of `done`, each from its entry of cams. */
  ghost predicate CameraListOf(ms: seq<BinaryMeasurement>, done: set<Pair>, cams: map<Pair, Unit3>) {
    && done <= cams.Keys
    && |ms| == |done|
    && DistinctKeys(ms)
    && (forall i :: 0 <= i < |ms| ==> FromCameraEntry(ms[i], cams) && EntryPair(ms[i]) in done)
    && (forall k :: k in done ==> CameraMeasurement(k, cams[k]) in ms)
  }

  /** Appending the measurement of one more entry keeps the list exact. */
  lemma CameraStep(ms: seq<BinaryMeasurement>, done: set<Pair>, cams: map<Pair, Unit3>, k: Pair)
    requires CameraListOf(ms, done, cams)
    requires k in cams && k !in done
    ensures CameraListOf(ms + [CameraMeasurement(k, cams[k])], done + {k}, cams)
  {
    var m := CameraMeasurement(k, cams[k]);
    var next := ms + [m];
    forall i, j | 0 <= i < j < |next| ensures next[i].Key() != next[j].Key() {
      if j == |ms| {
        assert EntryPair(ms[i]) != k;
      } else {
        assert next[i] == ms[i] && next[j] == ms[j];
      }
    }
    forall i | 0 <= i < |next| ensures FromCameraEntry(next[i], cams) && EntryPair(next[i]) in done + {k} {
      if i < |ms| {
        assert next[i] == ms[i];
      }
    }
    forall x | x in done + {k} ensures CameraMeasurement(x, cams[x]) in next {
      if x != k {
        assert CameraMeasurement(x, cams[x]) in ms;
      } else {
        assert next[|ms|] == m;
      }
    }
  }

  /** A list built from every entry has the entry count and no key twice. */
  lemma CameraListComplete(ms: seq<BinaryMeasurement>, cams: map<Pair, Unit3>)
    requires CameraListOf(ms, cams.Keys, cams)
    ensures |ms| == |cams|
    ensures DistinctKeys(ms)
    ensures forall i :: 0 <= i < |ms| ==> FromCameraEntry(ms[i], cams)
    ensures forall k :: k in cams ==> CameraMeasurement(k, cams[k]) in ms
  {
  }

  /** One measurement per camera-pair entry, in some iteration order of the dictionary. */
  method CameraMeasurements(cams: map<Pair, Unit3>) returns (ms: seq<BinaryMeasurement>)
    ensures |ms| == |cams|
    ensures DistinctKeys(ms)
    ensures forall i :: 0 <= i < |ms| ==> FromCameraEntry(ms[i], cams)
    ensures forall k :: k in cams ==> CameraMeasurement(k, cams[k]) in ms
  {
    ms := [];
    var done: set<Pair> := {};
    while done != cams.Keys
      invariant CameraListOf(ms, done, cams)
      decreases cams.Keys - done
    {
      assert !(cams.Keys <= done);
      var k :| k in cams.Keys && k !in done;
      CameraStep(ms, done, cams, k);
      ms := ms + [CameraMeasurement(k, cams[k])];
      done := done + {k};
    }
    CameraListComplete(ms, cams);
  }

  /** ms holds exactly one measurement for each entry of `done`, each from its entry of tracks. */
  ghost predicate LandmarkListOf(ms: seq<BinaryMeasurement>, done: set<Pair>, tracks: map<Pair, Unit3>) {
    && done <= tracks.Keys
    && |ms| == |done|
    && DistinctKeys(ms)
    && (forall i :: 0 <= i < |ms| ==> FromLandmarkEntry(ms[i], tracks) && EntryPair(ms[i]) in done)
    && (forall k :: k in done ==> LandmarkMeasurement(k, tracks[k]) in ms)
  }

  /** Appending the measurement of one more entry keeps the list exact. */
  lemma LandmarkStep(ms: seq<BinaryMeasurement>, done: set<Pair>, tracks: map<Pair, Unit3>, k: Pair)
    requires LandmarkListOf(ms, done, tracks)
    requires k in tracks && k !in done
    ensures LandmarkListOf(ms + [LandmarkMeasurement(k, tracks[k])], done + {k}, tracks)
  {
    var m := LandmarkMeasurement(k, tracks[k]);
    var next := ms + [m];
    forall i, j | 0 <= i < j < |next| ensures next[i].Key() != next[j].Key() {
      if j == |ms| {
        assert EntryPair(ms[i]) != k;
      } else {
        assert next[i] == ms[i] && next[j] == ms[j];
      }
    }
    forall i | 0 <= i < |next| ensures FromLandmarkEntry(next[i], tracks) && EntryPair(next[i]) in done + {k} {
      if i < |ms| {
        assert next[i] == ms[i];
      }
    }
    forall x | x in done + {k} ensures LandmarkMeasurement(x, tracks[x]) in next {
      if x != k {
        assert LandmarkMeasurement(x, tracks[x]) in ms;
      } else {
        assert next[|ms|] == m;
      }
    }
  }

  /** A list built from every entry has the entry count and no key twice. */
  lemma LandmarkListComplete(ms: seq<BinaryMeasurement>, tracks: map<Pair, Unit3>)
    requires LandmarkListOf(ms, tracks.Keys, tracks)
    ensures |ms| == |tracks|
    ensures DistinctKeys(ms)
    ensures forall i :: 0 <= i < |ms| ==> FromLandmarkEntry(ms[i], tracks)
    ensures forall k :: k in tracks ==> LandmarkMeasurement(k, tracks[k]) in ms
  {
  }

  /** One measurement per landmark entry, in some iteration order of the dictionary. */
  method LandmarkMeasurements(tracks: map<Pair, Unit3>) returns (ms: seq<BinaryMeasurement>)
    ensures |ms| == |tracks|
    ensures DistinctKeys(ms)
    ensures forall i :: 0 <= i < |ms| ==> FromLandmarkEntry(ms[i], tracks)
    ensures forall k :: k in tracks ==> LandmarkMeasurement(k, tracks[k]) in ms
  {
    ms := [];
    var done: set<Pair> := {};
    while done != tracks.Keys
      invariant LandmarkListOf(ms, done, tracks)
      decreases tracks.Keys - done
    {
      assert !(tracks.Keys <= done);
      var k :| k in tracks.Keys && k !in done;
      LandmarkStep(ms, done, tracks, k);
      ms := ms + [LandmarkMeasurement(k, tracks[k])];
      done := done + {k};
    }
    LandmarkListComplete(ms, tracks);
  }

  /** ms holds exactly the measurements of both dictionaries, each once, with distinct symbol pairs. */
  ghost predicate ExactMeasurements(ms: seq<BinaryMeasurement>, cams: map<Pair, Unit3>, tracks: map<Pair, Unit3>) {
    && |ms| == |cams| + |tracks|
    && DistinctKeys(ms)
    && (forall i :: 0 <= i < |ms| ==> FromCameraEntry(ms[i], cams) || FromLandmarkEntry(ms[i], tracks))
    && (forall k :: k in cams ==> CameraMeasurement(k, cams[k]) in ms)
    && (forall k :: k in tracks ==> LandmarkMeasurement(k, tracks[k]) in ms)
  }

  /** Builds the solver's measurement list: the camera-pair measurements followed by the landmark measurements.
      Dictionary iteration order is not modelled, so the order within each part is left open. */
  method BinaryMeasurementsFromDict(cams: map<Pair, Unit3>, tracks: map<Pair, Unit3>)
    returns (ms: seq<BinaryMeasurement>)
    ensures ExactMeasurements(ms, cams, tracks)
  {
    var camPart := CameraMeasurements(cams);
    var landPart := LandmarkMeasurements(tracks);
    ms := camPart + landPart;
    forall i, j | 0 <= i < j < |ms| ensures ms[i].Key() != ms[j].Key() {
      if j >= |camPart| && i < |camPart| {
        assert FromCameraEntry(ms[i], cams) && FromLandmarkEntry(ms[j], tracks);
        assert ms[i].Key().key2.Cam? && ms[j].Key().key2.Land?;
      }
    }
  }

  /** Every dictionary entry's symbol pair occurs in a list built from the two dictionaries, and nothing else. */
  lemma {:induction false} KeySetOfMeasurements(ms: seq<BinaryMeasurement>, cams: map<Pair, Unit3>,
                                                tracks: map<Pair, Unit3>)
    requires forall i :: 0 <= i < |ms| ==> FromCameraEntry(ms[i], cams) || FromLandmarkEntry(ms[i], tracks)
    requires forall k :: k in cams ==> CameraMeasurement(k, cams[k]) in ms
    requires forall k :: k in tracks ==> LandmarkMeasurement(k, tracks[k]) in ms
    ensures KeySet(ms) == (set k | k in cams :: CameraPairKey(k)) + (set k | k in tracks :: LandmarkKey(k))
  {
    var lhs := KeySet(ms);
    var rhs := (set k | k in cams :: CameraPairKey(k)) + (set k | k in tracks :: LandmarkKey(k));
    forall s | s in lhs ensures s in rhs {
      var i :| 0 <= i < |ms| && ms[i].Key() == s;
      var k := EntryPair(ms[i]);
      if FromCameraEntry(ms[i], cams) {
        assert s == CameraPairKey(k);
      } else {
        assert s == LandmarkKey(k);
      }
    }
    forall s | s in rhs ensures s in lhs {
      if k :| k in cams && s == CameraPairKey(k) {
        var m := CameraMeasurement(k, cams[k]);
        var i :| 0 <= i < |ms| && ms[i] == m;
        assert ms[i].Key() == s;
      } else {
        var k :| k in tracks && s == LandmarkKey(k);
        var m := LandmarkMeasurement(k, tracks[k]);
        var i :| 0 <= i < |ms| && ms[i] == m;
        assert ms[i].Key() == s;
      }
    }
  }
}

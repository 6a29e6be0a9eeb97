/** Selection of 2-D feature tracks for landmark-augmented averaging, and the camera-to-landmark directions
    derived from the selected tracks. */
module Tracks {
  import opened Common

  /** One observation of a track: camera index i and its pixel uv. */
  datatype Measurement2d = Measurement2d(i: int, uv: Point2)

  /** A 2-D track (SfmTrack2d): the observations of one landmark. */
  datatype Track2d = Track2d(measurements: seq<Measurement2d>) {
    function NumberMeasurements(): nat { |measurements| }
  }

  // ---------------------------------------------------------------- restriction to cameras

  /** The observations on cameras of `cams`, in their original order. */
  function KeepCameras(ms: seq<Measurement2d>, cams: set<int>): (r: seq<Measurement2d>)
    ensures |r| <= |ms|
    ensures forall m :: m in r <==> m in ms && m.i in cams
  {
    if ms == [] then []
    else if ms[0].i in cams then [ms[0]] + KeepCameras(ms[1..], cams)
    else KeepCameras(ms[1..], cams)
  }

  /** Restricting observations to cameras that include all of theirs keeps every observation. */
  lemma {:induction false} KeepAllCameras(ms: seq<Measurement2d>, cams: set<int>)
    requires forall m :: m in ms ==> m.i in cams
    ensures KeepCameras(ms, cams) == ms
  {
    if ms != [] {
      assert forall m :: m in ms[1..] ==> m in ms;
      KeepAllCameras(ms[1..], cams);
    }
  }

  /** SfmTrack2d.select_for_cameras: the same track restricted to the given cameras. */
  function SelectForCameras(t: Track2d, cams: set<int>): (r: Track2d)
    ensures forall m :: m in r.measurements <==> m in t.measurements && m.i in cams
    ensures r.NumberMeasurements() <= t.NumberMeasurements()
  {
    Track2d(KeepCameras(t.measurements, cams))
  }

  /** The cameras of `valid` whose intrinsics are known. */
  function CamerasWithIntrinsics(valid: set<int>, intrinsics: seq<Option<Calibration>>): (r: set<int>)
    requires forall c :: c in valid ==> 0 <= c < |intrinsics|
    ensures r <= valid
    ensures forall c :: c in valid ==> (c in r <==> intrinsics[c].Some?)
  {
    set c | c in valid && intrinsics[c].Some?
  }

  /** A track every observation of which lies on a camera of `cams`, with enough observations. */
  ghost predicate Usable(t: Track2d, cams: set<int>) {
    t.NumberMeasurements() >= MIN_TRACK_LENGTH && forall m :: m in t.measurements ==> m.i in cams
  }

  /** The positions of the tracks that keep enough observations on `cams`, in increasing order. */
  function KeptIndices(tracks: seq<Track2d>, cams: set<int>): (idx: seq<nat>)
    ensures forall j :: 0 <= j < |idx| ==> idx[j] < |tracks|
    ensures forall a, b :: 0 <= a < b < |idx| ==> idx[a] < idx[b]
    ensures forall i :: 0 <= i < |tracks| ==>
      (i in idx <==> SelectForCameras(tracks[i], cams).NumberMeasurements() >= MIN_TRACK_LENGTH)
  {
    if tracks == [] then []
    else
      var n := |tracks| - 1;
      var p := KeptIndices(tracks[..n], cams);
      assert forall i :: 0 <= i < n ==> tracks[..n][i] == tracks[i];
      if SelectForCameras(tracks[n], cams).NumberMeasurements() < MIN_TRACK_LENGTH then p else p + [n]
  }

  /** The tracks restricted to `cams`, dropping those left with too few observations, in input order: the j-th
      result is the restriction of the track at the j-th kept position. */
  function RestrictedTracks(tracks: seq<Track2d>, cams: set<int>): (r: seq<Track2d>)
    ensures |r| == |KeptIndices(tracks, cams)|
    ensures forall j :: 0 <= j < |r| ==> r[j] == SelectForCameras(tracks[KeptIndices(tracks, cams)[j]], cams)
  {
    if tracks == [] then []
    else
      var n := |tracks| - 1;
      var p := RestrictedTracks(tracks[..n], cams);
      var t := SelectForCameras(tracks[n], cams);
      assert forall j :: 0 <= j < |p| ==> p[j] == SelectForCameras(tracks[KeptIndices(tracks[..n], cams)[j]], cams) by {
        forall j | 0 <= j < |p| ensures p[j] == SelectForCameras(tracks[KeptIndices(tracks[..n], cams)[j]], cams) {
          assert tracks[..n][KeptIndices(tracks[..n], cams)[j]] == tracks[KeptIndices(tracks[..n], cams)[j]];
        }
      }
      if t.NumberMeasurements() < MIN_TRACK_LENGTH then p else p + [t]
  }

  /** Every restricted track is usable on `cams`, and the restriction of every input track that keeps enough
      observations is among them. */
  lemma RestrictedTracksUsable(tracks: seq<Track2d>, cams: set<int>)
    ensures |RestrictedTracks(tracks, cams)| <= |tracks|
    ensures forall j :: 0 <= j < |RestrictedTracks(tracks, cams)| ==> Usable(RestrictedTracks(tracks, cams)[j], cams)
    ensures forall t :: t in tracks && SelectForCameras(t, cams).NumberMeasurements() >= MIN_TRACK_LENGTH
                        ==> SelectForCameras(t, cams) in RestrictedTracks(tracks, cams)
  {
    var r, idx := RestrictedTracks(tracks, cams), KeptIndices(tracks, cams);
    KeptIndicesBound(idx, |tracks|);
    forall t | t in tracks && SelectForCameras(t, cams).NumberMeasurements() >= MIN_TRACK_LENGTH
      ensures SelectForCameras(t, cams) in r
    {
      var i :| 0 <= i < |tracks| && tracks[i] == t;
      var j :| 0 <= j < |idx| && idx[j] == i;
      assert r[j] == SelectForCameras(t, cams);
    }
  }

  /** A strictly increasing sequence of indices below n has at most n elements. */
  lemma {:induction false} KeptIndicesBound(idx: seq<nat>, n: nat)
    requires forall j :: 0 <= j < |idx| ==> idx[j] < n
    requires forall a, b :: 0 <= a < b < |idx| ==> idx[a] < idx[b]
    ensures |idx| <= n
    decreases n
  {
    if idx != [] {
      var last := idx[|idx| - 1];
      KeptIndicesBound(idx[..|idx| - 1], last);
    }
  }

  // ---------------------------------------------------------------- stable sort, longest first

  /** Observation counts never increase along the sequence. */
  ghost predicate NonIncreasing(s: seq<Track2d>) {
    forall i, j :: 0 <= i < j < |s| ==> s[i].NumberMeasurements() >= s[j].NumberMeasurements()
  }

  /** The tracks with exactly n observations, in their order in s. */
  function WithLength(s: seq<Track2d>, n: nat): seq<Track2d> {
    if s == [] then []
    else if s[0].NumberMeasurements() == n then [s[0]] + WithLength(s[1..], n)
    else WithLength(s[1..], n)
  }

  /** Inserts t in front of the first track that is not longer than t. */
  function InsertByLength(t: Track2d, s: seq<Track2d>): (r: seq<Track2d>)
    ensures |r| == |s| + 1 && t in r
  {
    if s == [] then [t]
    else if s[0].NumberMeasurements() <= t.NumberMeasurements() then [t] + s
    else [s[0]] + InsertByLength(t, s[1..])
  }

  /** Python's sorted(s, key=number_measurements, reverse=True): longest first, ties in input order. */
  function SortByLength(s: seq<Track2d>): (r: seq<Track2d>)
    ensures |r| == |s|
  {
    if s == [] then [] else InsertByLength(s[0], SortByLength(s[1..]))
  }

  /** Insertion adds t and keeps everything else. */
  lemma {:induction false} InsertByLengthPermutes(t: Track2d, s: seq<Track2d>)
    ensures multiset(InsertByLength(t, s)) == multiset(s) + multiset{t}
  {
    if s != [] && s[0].NumberMeasurements() > t.NumberMeasurements() {
      InsertByLengthPermutes(t, s[1..]);
      assert s == [s[0]] + s[1..];
    }
  }

  /** Insertion into a non-increasing sequence keeps it non-increasing. */
  lemma {:induction false} InsertByLengthSorted(t: Track2d, s: seq<Track2d>)
    requires NonIncreasing(s)
    ensures NonIncreasing(InsertByLength(t, s))
  {
    if s == [] {
    } else if s[0].NumberMeasurements() <= t.NumberMeasurements() {
      HeadBoundsSorted(s);
      ConsSorted(t, s);
    } else {
      HeadBoundsSorted(s);
      InsertByLengthSorted(t, s[1..]);
      InsertByLengthBounded(t, s[1..], s[0].NumberMeasurements());
      ConsSorted(s[0], InsertByLength(t, s[1..]));
    }
  }

  /** The tail of a non-increasing sequence is non-increasing and bounded by its head. */
  lemma HeadBoundsSorted(s: seq<Track2d>)
    requires NonIncreasing(s) && s != []
    ensures NonIncreasing(s[1..])
    ensures forall x :: x in s ==> x.NumberMeasurements() <= s[0].NumberMeasurements()
  {
    var tail := s[1..];
    forall i, j | 0 <= i < j < |tail| ensures tail[i].NumberMeasurements() >= tail[j].NumberMeasurements() {
      assert tail[i] == s[i + 1] && tail[j] == s[j + 1];
    }
    forall x | x in s ensures x.NumberMeasurements() <= s[0].NumberMeasurements() {
      var j :| 0 <= j < |s| && s[j] == x;
    }
  }

  /** Putting a track no shorter than any of s in front of a non-increasing s keeps it non-increasing. */
  lemma ConsSorted(x: Track2d, s: seq<Track2d>)
    requires NonIncreasing(s)
    requires forall y :: y in s ==> y.NumberMeasurements() <= x.NumberMeasurements()
    ensures NonIncreasing([x] + s)
  {
    var r := [x] + s;
    forall i, j | 0 <= i < j < |r| ensures r[i].NumberMeasurements() >= r[j].NumberMeasurements() {
      assert r[j] == s[j - 1];
      if i > 0 { assert r[i] == s[i - 1]; }
    }
  }

  /** A common bound on the lengths of t and of s bounds every length after insertion. */
  lemma InsertByLengthBounded(t: Track2d, s: seq<Track2d>, bound: nat)
    requires t.NumberMeasurements() <= bound
    requires forall x :: x in s ==> x.NumberMeasurements() <= bound
    ensures forall x :: x in InsertByLength(t, s) ==> x.NumberMeasurements() <= bound
  {
    InsertByLengthPermutes(t, s);
    forall x | x in InsertByLength(t, s) ensures x.NumberMeasurements() <= bound {
      assert x in multiset(InsertByLength(t, s));
      assert x == t || x in multiset(s);
    }
  }

  /** Insertion places t before every track of its own length: the other length classes are untouched. */
  lemma {:induction false} InsertByLengthClasses(t: Track2d, s: seq<Track2d>, n: nat)
    ensures WithLength(InsertByLength(t, s), n) ==
            if t.NumberMeasurements() == n then [t] + WithLength(s, n) else WithLength(s, n)
  {
    if s == [] {
    } else if s[0].NumberMeasurements() <= t.NumberMeasurements() {
      assert ([t] + s)[1..] == s;
    } else {
      InsertByLengthClasses(t, s[1..], n);
      assert ([s[0]] + InsertByLength(t, s[1..]))[1..] == InsertByLength(t, s[1..]);
    }
  }

  /** The sort is a permutation of its input. */
  lemma {:induction false} SortByLengthPermutes(s: seq<Track2d>)
    ensures multiset(SortByLength(s)) == multiset(s)
  {
    if s != [] {
      SortByLengthPermutes(s[1..]);
      InsertByLengthPermutes(s[0], SortByLength(s[1..]));
      assert s == [s[0]] + s[1..];
    }
  }

  /** The sort puts longer tracks first. */
  lemma {:induction false} SortByLengthSorted(s: seq<Track2d>)
    ensures NonIncreasing(SortByLength(s))
  {
    if s != [] {
      SortByLengthSorted(s[1..]);
      InsertByLengthSorted(s[0], SortByLength(s[1..]));
    }
  }

  /** The sort is stable: the tracks of each length keep their input order. */
  lemma {:induction false} SortByLengthStable(s: seq<Track2d>, n: nat)
    ensures WithLength(SortByLength(s), n) == WithLength(s, n)
  {
    if s != [] {
      SortByLengthStable(s[1..], n);
      InsertByLengthClasses(s[0], SortByLength(s[1..]), n);
    }
  }

  /** A sorted sequence is determined by the order of each class of equal length: the sort is the only
      non-increasing arrangement that keeps ties in input order. */
  lemma {:induction false} SortIsUnique(s: seq<Track2d>, r: seq<Track2d>)
    requires NonIncreasing(r)
    requires forall n: nat :: WithLength(r, n) == WithLength(s, n)
    ensures r == SortByLength(s)
  {
    SortByLengthSorted(s);
    forall n: nat ensures WithLength(r, n) == WithLength(SortByLength(s), n) {
      SortByLengthStable(s, n);
    }
    SameClassesSameSorted(r, SortByLength(s));
  }

  lemma {:induction false} SameClassesSameSorted(a: seq<Track2d>, b: seq<Track2d>)
    requires NonIncreasing(a) && NonIncreasing(b)
    requires forall n: nat :: WithLength(a, n) == WithLength(b, n)
    ensures a == b
    decreases |a| + |b|
  {
    if a != [] {
      WithLengthOfHead(a);
    }
    if b != [] {
      WithLengthOfHead(b);
    }
    if a != [] && b != [] {
      var na, nb := a[0].NumberMeasurements(), b[0].NumberMeasurements();
      if na < nb {
        WithLengthBelowHead(a, nb);
      } else if nb < na {
        WithLengthBelowHead(b, na);
      } else {
        assert a[0] == WithLength(a, na)[0] == WithLength(b, na)[0] == b[0];
        forall n: nat ensures WithLength(a[1..], n) == WithLength(b[1..], n) {
          assert WithLength(a, n) == WithLength(b, n);
          if n == na {
            assert WithLength(a[1..], n) == ([a[0]] + WithLength(a[1..], n))[1..];
            assert WithLength(b[1..], n) == ([b[0]] + WithLength(b[1..], n))[1..];
          }
        }
        assert NonIncreasing(a[1..]) && NonIncreasing(b[1..]);
        SameClassesSameSorted(a[1..], b[1..]);
        assert a == [a[0]] + a[1..] && b == [b[0]] + b[1..];
      }
    }
  }

  /** The class of the first track's length starts with that track. */
  lemma WithLengthOfHead(s: seq<Track2d>)
    requires s != []
    ensures WithLength(s, s[0].NumberMeasurements()) ==
            [s[0]] + WithLength(s[1..], s[0].NumberMeasurements())
  {
  }

  /** In a non-increasing sequence no track is longer than the first one. */
  lemma {:induction false} WithLengthBelowHead(s: seq<Track2d>, n: nat)
    requires NonIncreasing(s)
    requires s != [] && s[0].NumberMeasurements() < n
    ensures WithLength(s, n) == []
    decreases |s|
  {
    if |s| > 1 {
      assert NonIncreasing(s[1..]);
      WithLengthBelowHead(s[1..], n);
    }
  }

  // ---------------------------------------------------------------- truncation

  /** Python's int() on a float: truncation toward zero. */
  function TruncateToInt(x: real): (r: int)
    ensures x >= 0.0 ==> r as real <= x < r as real + 1.0
    ensures x < 0.0 ==> r as real - 1.0 < x <= r as real
  {
    if x >= 0.0 then x.Floor else -((-x).Floor)
  }

  /** Python's s[:stop]: a negative stop counts from the end. */
  function PrefixSlice<T>(s: seq<T>, stop: int): (r: seq<T>)
    ensures r <= s
    ensures stop >= 0 ==> |r| == if stop < |s| then stop else |s|
    ensures stop < 0 ==> |r| == if |s| + stop > 0 then |s| + stop else 0
  {
    if stop >= 0 then (if stop < |s| then s[..stop] else s)
    else if |s| + stop > 0 then s[..|s| + stop] else []
  }

  /** int(len(valid_cameras) * tracks_to_cameras_ratio). */
  function MaxTracks(numValidCameras: nat, ratio: real): (r: int)
    ensures ratio >= 0.0 ==> 0 <= r && r as real <= numValidCameras as real * ratio < r as real + 1.0
  {
    TruncateToInt(numValidCameras as real * ratio)
  }

  /** The tracks used to augment the measurement graph: every track restricted to valid cameras with known
      intrinsics, those left with fewer than three observations dropped, sorted longest first (ties in input
      order) and cut to int(len(valid_cameras) * ratio). */
  function Selection(tracks: seq<Track2d>, validCameras: set<int>, intrinsics: seq<Option<Calibration>>,
                     ratio: real): (selected: seq<Track2d>)
    requires forall c :: c in validCameras ==> 0 <= c < |intrinsics|
    ensures var cap, n := MaxTracks(|validCameras|, ratio),
                          |RestrictedTracks(tracks, CamerasWithIntrinsics(validCameras, intrinsics))|;
            if cap >= 0 then |selected| == (if cap < n then cap else n)
            else |selected| == (if n + cap > 0 then n + cap else 0)
    ensures selected <= SortByLength(RestrictedTracks(tracks, CamerasWithIntrinsics(validCameras, intrinsics)))
    ensures NonIncreasing(selected)
    ensures forall j :: 0 <= j < |selected| ==>
      selected[j].NumberMeasurements() >= MIN_TRACK_LENGTH
      && forall m :: m in selected[j].measurements ==> m.i in validCameras && intrinsics[m.i].Some?
  {
    var cams := CamerasWithIntrinsics(validCameras, intrinsics);
    var filtered := RestrictedTracks(tracks, cams);
    var sorted := SortByLength(filtered);
    SortByLengthPermutes(filtered);
    SortByLengthSorted(filtered);
    SelectionProperties(filtered, sorted, MaxTracks(|validCameras|, ratio), cams);
    PrefixSlice(sorted, MaxTracks(|validCameras|, ratio))
  }

  lemma SelectionProperties(filtered: seq<Track2d>, sorted: seq<Track2d>, stop: int, cams: set<int>)
    requires multiset(sorted) == multiset(filtered) && NonIncreasing(sorted)
    requires forall j :: 0 <= j < |filtered| ==> Usable(filtered[j], cams)
    ensures NonIncreasing(PrefixSlice(sorted, stop))
    ensures forall j :: 0 <= j < |PrefixSlice(sorted, stop)| ==> Usable(PrefixSlice(sorted, stop)[j], cams)
  {
    var selected := PrefixSlice(sorted, stop);
    forall a, b | 0 <= a < b < |selected|
      ensures selected[a].NumberMeasurements() >= selected[b].NumberMeasurements()
    {
      assert selected[a] == sorted[a] && selected[b] == sorted[b];
    }
    forall i | 0 <= i < |selected| ensures Usable(selected[i], cams) {
      assert selected[i] in multiset(sorted);
      var j :| 0 <= j < |filtered| && filtered[j] == selected[i];
    }
  }

  /** The restricted tracks the cap leaves out: the sorted tracks after the selected prefix. */
  function Dropped(tracks: seq<Track2d>, validCameras: set<int>, intrinsics: seq<Option<Calibration>>,
                   ratio: real): seq<Track2d>
    requires forall c :: c in validCameras ==> 0 <= c < |intrinsics|
  {
    var sorted := SortByLength(RestrictedTracks(tracks, CamerasWithIntrinsics(validCameras, intrinsics)));
    sorted[|Selection(tracks, validCameras, intrinsics, ratio)|..]
  }

  /** The selected and the dropped tracks together are the restricted tracks. */
  lemma SelectionPartition(tracks: seq<Track2d>, validCameras: set<int>, intrinsics: seq<Option<Calibration>>,
                           ratio: real)
    requires forall c :: c in validCameras ==> 0 <= c < |intrinsics|
    ensures multiset(Selection(tracks, validCameras, intrinsics, ratio))
            + multiset(Dropped(tracks, validCameras, intrinsics, ratio))
            == multiset(RestrictedTracks(tracks, CamerasWithIntrinsics(validCameras, intrinsics)))
  {
    var filtered := RestrictedTracks(tracks, CamerasWithIntrinsics(validCameras, intrinsics));
    var selected := Selection(tracks, validCameras, intrinsics, ratio);
    var dropped := Dropped(tracks, validCameras, intrinsics, ratio);
    assert SortByLength(filtered) == selected + dropped;
    SortByLengthPermutes(filtered);
  }

  /** The cap keeps the longest tracks: no dropped track is longer than a selected one. */
  lemma SelectionKeepsLongest(tracks: seq<Track2d>, validCameras: set<int>, intrinsics: seq<Option<Calibration>>,
                              ratio: real)
    requires forall c :: c in validCameras ==> 0 <= c < |intrinsics|
    ensures forall a, b :: a in Selection(tracks, validCameras, intrinsics, ratio)
                           && b in Dropped(tracks, validCameras, intrinsics, ratio)
                           ==> a.NumberMeasurements() >= b.NumberMeasurements()
  {
    var filtered := RestrictedTracks(tracks, CamerasWithIntrinsics(validCameras, intrinsics));
    var selected := Selection(tracks, validCameras, intrinsics, ratio);
    var sorted := SortByLength(filtered);
    assert sorted == selected + Dropped(tracks, validCameras, intrinsics, ratio);
    SortByLengthSorted(filtered);
    SplitSorted(sorted, |selected|);
    assert sorted[..|selected|] == selected;
  }

  /** Ties are cut in input order: the selected tracks of each length are the first ones of that length among
      the restricted tracks. */
  lemma SelectionStable(tracks: seq<Track2d>, validCameras: set<int>, intrinsics: seq<Option<Calibration>>,
                        ratio: real, n: nat)
    requires forall c :: c in validCameras ==> 0 <= c < |intrinsics|
    ensures WithLength(Selection(tracks, validCameras, intrinsics, ratio), n)
            <= WithLength(RestrictedTracks(tracks, CamerasWithIntrinsics(validCameras, intrinsics)), n)
  {
    var filtered := RestrictedTracks(tracks, CamerasWithIntrinsics(validCameras, intrinsics));
    var selected := Selection(tracks, validCameras, intrinsics, ratio);
    WithLengthPrefix(selected, SortByLength(filtered), n);
    SortByLengthStable(filtered, n);
  }

  /** Cutting a non-increasing sequence at k: nothing after the cut is longer than anything before it. */
  lemma SplitSorted(sorted: seq<Track2d>, k: nat)
    requires NonIncreasing(sorted) && k <= |sorted|
    ensures forall a, b :: a in sorted[..k] && b in sorted[k..] ==> a.NumberMeasurements() >= b.NumberMeasurements()
  {
    forall a, b | a in sorted[..k] && b in sorted[k..] ensures a.NumberMeasurements() >= b.NumberMeasurements() {
      var i :| 0 <= i < k && sorted[..k][i] == a;
      var j :| 0 <= j < |sorted| - k && sorted[k..][j] == b;
      assert sorted[i] == a && sorted[k + j] == b;
    }
  }

  /** The tracks of one length in a prefix are a prefix of those in the whole sequence. */
  lemma {:induction false} WithLengthPrefix(p: seq<Track2d>, s: seq<Track2d>, n: nat)
    requires p <= s
    ensures WithLength(p, n) <= WithLength(s, n)
  {
    if p != [] {
      assert p[1..] <= s[1..];
      WithLengthPrefix(p[1..], s[1..], n);
    }
  }

  /** A lone track that lies entirely on valid cameras with intrinsics, with enough observations, is selected
      unchanged whenever the cap admits at least one track. */
  lemma SingleTrackSelected(t: Track2d, validCameras: set<int>, intrinsics: seq<Option<Calibration>>, ratio: real)
    requires forall c :: c in validCameras ==> 0 <= c < |intrinsics|
    requires forall m :: m in t.measurements ==> m.i in CamerasWithIntrinsics(validCameras, intrinsics)
    requires t.NumberMeasurements() >= MIN_TRACK_LENGTH
    requires MaxTracks(|validCameras|, ratio) >= 1
    ensures Selection([t], validCameras, intrinsics, ratio) == [t]
  {
    var cams := CamerasWithIntrinsics(validCameras, intrinsics);
    SingleTrackRestricted(t, cams);
    assert SortByLength([t]) == InsertByLength(t, SortByLength([])) == [t];
    assert PrefixSlice([t], MaxTracks(|validCameras|, ratio)) == [t];
  }

  lemma SingleTrackRestricted(t: Track2d, cams: set<int>)
    requires forall m :: m in t.measurements ==> m.i in cams
    requires t.NumberMeasurements() >= MIN_TRACK_LENGTH
    ensures RestrictedTracks([t], cams) == [t]
  {
    KeepAllCameras(t.measurements, cams);
    assert SelectForCameras(t, cams) == t;
    assert [t][..0] == [];
  }

  /** Builds the restricted list track by track, then sorts and truncates it. */
  method SelectTracksForAveraging(tracks: seq<Track2d>, validCameras: set<int>,
                                  intrinsics: seq<Option<Calibration>>, ratio: real)
    returns (selected: seq<Track2d>)
    requires forall c :: c in validCameras ==> 0 <= c < |intrinsics|
    ensures selected == Selection(tracks, validCameras, intrinsics, ratio)
  {
    var maxTracks := TruncateToInt(|validCameras| as real * ratio);
    var filtered: seq<Track2d> := [];
    var cams := set c | c in validCameras && intrinsics[c].Some?;
    assert cams == CamerasWithIntrinsics(validCameras, intrinsics);
    var j := 0;
    while j < |tracks|
      invariant 0 <= j <= |tracks|
      invariant filtered == RestrictedTracks(tracks[..j], cams)
    {
      var restricted := SelectForCameras(tracks[j], cams);
      assert tracks[..j + 1][..j] == tracks[..j];
      if restricted.NumberMeasurements() >= MIN_TRACK_LENGTH {
        filtered := filtered + [restricted];
      }
      j := j + 1;
    }
    assert tracks[..j] == tracks;
    selected := PrefixSlice(SortByLength(filtered), maxTracks);
  }

  // ---------------------------------------------------------------- camera-to-landmark directions

  /** The last observation of camera c in ms: the one whose direction a dictionary keyed by camera keeps. */
  function LastObservation(ms: seq<Measurement2d>, c: int): (r: Option<Measurement2d>)
    ensures r.Some? ==> r.value in ms && r.value.i == c
    ensures r.None? ==> forall m :: m in ms ==> m.i != c
  {
    if ms == [] then None
    else if ms[|ms| - 1].i == c then Some(ms[|ms| - 1])
    else
      assert forall m :: m in ms ==> m in ms[..|ms| - 1] || m == ms[|ms| - 1];
      LastObservation(ms[..|ms| - 1], c)
  }

  /** With the cameras of a track distinct, each observation is the last one of its camera. */
  lemma {:induction false} LastObservationOfDistinct(ms: seq<Measurement2d>, j: nat)
    requires j < |ms|
    requires forall a, b :: 0 <= a < b < |ms| ==> ms[a].i != ms[b].i
    ensures LastObservation(ms, ms[j].i) == Some(ms[j])
  {
    if j < |ms| - 1 {
      assert ms[..|ms| - 1][j] == ms[j];
      LastObservationOfDistinct(ms[..|ms| - 1], j);
    }
  }

  /** Every camera index seen by a track is a valid index of both per-camera lists. */
  ghost predicate IndicesInRange(tracks: seq<Track2d>, n: nat) {
    forall j, m :: 0 <= j < |tracks| && m in tracks[j].measurements ==> 0 <= m.i < n
  }

  /** The camera of m has intrinsics and a rotation. */
  predicate Calibrated(m: Measurement2d, intrinsics: seq<Option<Calibration>>, wRi: seq<Option<Rot3>>)
    requires 0 <= m.i < |intrinsics| && 0 <= m.i < |wRi|
  {
    intrinsics[m.i].Some? && wRi[m.i].Some?
  }

  ghost predicate AllCalibrated(tracks: seq<Track2d>, intrinsics: seq<Option<Calibration>>, wRi: seq<Option<Rot3>>)
    requires IndicesInRange(tracks, |intrinsics|) && IndicesInRange(tracks, |wRi|)
  {
    forall j, m :: 0 <= j < |tracks| && m in tracks[j].measurements ==> Calibrated(m, intrinsics, wRi)
  }

  /** The world-frame unit direction from the camera of m towards the landmark. */
  function RayDirection(m: Measurement2d, intrinsics: seq<Option<Calibration>>, wRi: seq<Option<Rot3>>,
                        geo: Geometry): Unit3
    requires 0 <= m.i < |intrinsics| && 0 <= m.i < |wRi| && Calibrated(m, intrinsics, wRi)
  {
    geo.rotate(wRi[m.i].value, geo.backProject(intrinsics[m.i].value, m.uv))
  }

  /** The directions LandmarkDirections builds for fully calibrated tracks: for each track position and each
      camera observing that track, the ray of the camera's last observation. */
  ghost function ExpectedDirections(tracks: seq<Track2d>, intrinsics: seq<Option<Calibration>>,
                                    wRi: seq<Option<Rot3>>, geo: Geometry): (r: map<Pair, Unit3>)
    requires IndicesInRange(tracks, |intrinsics|) && IndicesInRange(tracks, |wRi|)
    requires AllCalibrated(tracks, intrinsics, wRi)
    ensures forall k :: k in r <==> 0 <= k.0 < |tracks| && LastObservation(tracks[k.0].measurements, k.1).Some?
    ensures forall k :: k in r ==>
      r[k] == RayDirection(LastObservation(tracks[k.0].measurements, k.1).value, intrinsics, wRi, geo)
  {
    var keys := set j, m | 0 <= j < |tracks| && m in tracks[j].measurements :: (j, m.i);
    assert forall k: Pair :: k in keys <==>
      0 <= k.0 < |tracks| && LastObservation(tracks[k.0].measurements, k.1).Some?
    by {
      forall k: Pair | 0 <= k.0 < |tracks| && LastObservation(tracks[k.0].measurements, k.1).Some? ensures k in keys {
        var m := LastObservation(tracks[k.0].measurements, k.1).value;
        assert (k.0, m.i) in keys;
      }
    }
    map k | k in keys :: RayDirection(LastObservation(tracks[k.0].measurements, k.1).value, intrinsics, wRi, geo)
  }

  /** out extends dirs with one direction per camera observing p, taken from that camera's last observation in p,
      and every camera observing p has intrinsics and a rotation. */
  ghost predicate DirectionsOf(t: int, p: seq<Measurement2d>, intrinsics: seq<Option<Calibration>>,
                               wRi: seq<Option<Rot3>>, geo: Geometry, dirs: map<Pair, Unit3>, out: map<Pair, Unit3>)
    requires forall m :: m in p ==> 0 <= m.i < |intrinsics| && 0 <= m.i < |wRi|
  {
    && (forall m :: m in p ==> Calibrated(m, intrinsics, wRi))
    && (forall k :: k in out <==> k in dirs || (k.0 == t && LastObservation(p, k.1).Some?))
    && (forall k :: k in dirs ==> k in out && out[k] == dirs[k])
    && (forall k :: k in out && k.0 == t ==>
          LastObservation(p, k.1).Some?
          && out[k] == RayDirection(LastObservation(p, k.1).value, intrinsics, wRi, geo))
  }

  /** Recording the ray of one more calibrated observation extends the directions to the longer prefix. */
  lemma DirectionStep(t: int, p: seq<Measurement2d>, m: Measurement2d, intrinsics: seq<Option<Calibration>>,
                      wRi: seq<Option<Rot3>>, geo: Geometry, dirs: map<Pair, Unit3>, out: map<Pair, Unit3>)
    requires forall y :: y in p ==> 0 <= y.i < |intrinsics| && 0 <= y.i < |wRi|
    requires 0 <= m.i < |intrinsics| && 0 <= m.i < |wRi| && Calibrated(m, intrinsics, wRi)
    requires forall k :: k in dirs ==> k.0 != t
    requires DirectionsOf(t, p, intrinsics, wRi, geo, dirs, out)
    ensures forall y :: y in p + [m] ==> 0 <= y.i < |intrinsics| && 0 <= y.i < |wRi|
    ensures DirectionsOf(t, p + [m], intrinsics, wRi, geo, dirs, out[(t, m.i) := RayDirection(m, intrinsics, wRi, geo)])
  {
    var q := p + [m];
    assert q[..|q| - 1] == p;
    assert forall y :: y in q ==> y in p || y == m;
  }

  /** Adds the directions of track t, observed by ms, to dirs; fails at the first observation whose camera lacks
      intrinsics or rotation. */
  method AddTrackDirections(t: int, ms: seq<Measurement2d>, intrinsics: seq<Option<Calibration>>,
                            wRi: seq<Option<Rot3>>, geo: Geometry, dirs: map<Pair, Unit3>)
    returns (r: Result<map<Pair, Unit3>, Error>)
    requires forall m :: m in ms ==> 0 <= m.i < |intrinsics| && 0 <= m.i < |wRi|
    requires forall k :: k in dirs ==> k.0 != t
    ensures r.Success? <==> forall m :: m in ms ==> Calibrated(m, intrinsics, wRi)
    ensures r.Failure? ==> r.error == MissingCalibrationOrRotation
    ensures r.Success? ==> forall k :: k in r.value <==>
      k in dirs || (k.0 == t && LastObservation(ms, k.1).Some?)
    ensures r.Success? ==> forall k :: k in dirs ==> r.value[k] == dirs[k]
    ensures r.Success? ==> forall k :: k in r.value && k.0 == t ==>
      LastObservation(ms, k.1).Some?
      && r.value[k] == RayDirection(LastObservation(ms, k.1).value, intrinsics, wRi, geo)
  {
    var out := dirs;
    var x := 0;
    while x < |ms|
      invariant 0 <= x <= |ms|
      invariant DirectionsOf(t, ms[..x], intrinsics, wRi, geo, dirs, out)
    {
      var m := ms[x];
      if intrinsics[m.i].None? || wRi[m.i].None? {
        assert !Calibrated(m, intrinsics, wRi);
        return Failure(MissingCalibrationOrRotation);
      }
      DirectionStep(t, ms[..x], m, intrinsics, wRi, geo, dirs, out);
      assert ms[..x + 1] == ms[..x] + [m];
      out := out[(t, m.i) := RayDirection(m, intrinsics, wRi, geo)];
      x := x + 1;
    }
    assert ms[..x] == ms;
    r := Success(out);
  }

  /** Directions keyed by (track position, camera): one key per camera observing each selected track, holding the
      ray of that camera's last observation; fails when any observed camera lacks intrinsics or rotation. */
  method LandmarkDirections(tracks: seq<Track2d>, intrinsics: seq<Option<Calibration>>,
                            wRi: seq<Option<Rot3>>, geo: Geometry)
    returns (r: Result<map<Pair, Unit3>, Error>)
    requires IndicesInRange(tracks, |intrinsics|) && IndicesInRange(tracks, |wRi|)
    ensures r.Success? <==> AllCalibrated(tracks, intrinsics, wRi)
    ensures r.Failure? ==> r.error == MissingCalibrationOrRotation
    ensures r.Success? ==> forall k :: k in r.value <==>
      0 <= k.0 < |tracks| && LastObservation(tracks[k.0].measurements, k.1).Some?
    ensures r.Success? ==> forall k :: k in r.value ==>
      0 <= k.0 < |tracks| && LastObservation(tracks[k.0].measurements, k.1).Some?
      && r.value[k] == RayDirection(LastObservation(tracks[k.0].measurements, k.1).value, intrinsics, wRi, geo)
    ensures r.Success? ==> r.value == ExpectedDirections(tracks, intrinsics, wRi, geo)
  {
    var dirs: map<Pair, Unit3> := map[];
    var t := 0;
    while t < |tracks|
      invariant 0 <= t <= |tracks|
      invariant forall j, m :: 0 <= j < t && m in tracks[j].measurements ==> Calibrated(m, intrinsics, wRi)
      invariant forall k :: k in dirs <==>
        0 <= k.0 < t && LastObservation(tracks[k.0].measurements, k.1).Some?
      invariant forall k :: k in dirs ==>
        0 <= k.0 < t && LastObservation(tracks[k.0].measurements, k.1).Some?
        && dirs[k] == RayDirection(LastObservation(tracks[k.0].measurements, k.1).value, intrinsics, wRi, geo)
    {
      var added := AddTrackDirections(t, tracks[t].measurements, intrinsics, wRi, geo, dirs);
      if added.Failure? {
        var m :| m in tracks[t].measurements && !Calibrated(m, intrinsics, wRi);
        return Failure(added.error);
      }
      dirs := added.value;
      t := t + 1;
    }
    assert dirs.Keys == ExpectedDirections(tracks, intrinsics, wRi, geo).Keys;
    r := Success(dirs);
  }
}

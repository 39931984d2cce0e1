/** The two ways the detector scripts decide that a face is a known person,
    given what face_recognition reports for it against the known encodings:
    `matches[argmin(distances)]` (face_detector_real.py and
    face_detector_yolov8_gpu.py) and `distances[argmin] < 0.6`
    (face_detector_hybrid.py and face_detector.py). The library calls
    themselves are not modelled: their results are inputs. */
module FaceMatch {
  import opened Common
  import opened Geometry

  /** The tolerance every script passes to compare_faces and the threshold
      the strict variants compare against. */
  const Tolerance: real := 0.6

  /** What face_recognition.compare_faces returns with tolerance 0.6: one
      flag per known encoding, set when its distance is at most 0.6. */
  predicate LibraryFlags(matches: seq<bool>, distances: seq<real>)
  {
    |matches| == |distances| && forall i :: 0 <= i < |distances| ==> matches[i] == (distances[i] <= Tolerance)
  }

  /** compare_faces and face_distance for one face encoding, one entry per
      known encoding. */
  datatype Comparison = Comparison(matches: seq<bool>, distances: seq<real>)

  /** The library answers one entry per known encoding, and the names list
      runs parallel to the encodings list. */
  predicate Aligned(knownNames: seq<string>, c: Comparison)
  {
    |c.matches| == |knownNames| && |c.distances| == |knownNames|
  }

  /** `best = argmin(distances); if matches[best]`: the index of the chosen
      known encoding, or None. */
  function FlaggedBest(matches: seq<bool>, distances: seq<real>): (r: Option<nat>)
    requires |matches| == |distances|
    ensures r.Some? ==> r.value < |distances| && matches[r.value]
    ensures r.Some? ==> forall j :: 0 <= j < |distances| ==> distances[r.value] <= distances[j]
    ensures r.Some? ==> forall j :: 0 <= j < r.value ==> distances[r.value] < distances[j]
    ensures |distances| > 0 && matches[FirstArgMin(distances)] ==> r == Some(FirstArgMin(distances))
    ensures (forall i :: 0 <= i < |matches| ==> !matches[i]) ==> r.None?
  {
    if |distances| > 0 && matches[FirstArgMin(distances)] then Some(FirstArgMin(distances)) else None
  }

  /** `best = argmin(distances); if distances[best] < 0.6`: the index of the
      chosen known encoding, or None. */
  function BestBelow(distances: seq<real>): (r: Option<nat>)
    ensures r.Some? ==> r.value < |distances| && distances[r.value] < Tolerance
    ensures r.Some? ==> forall j :: 0 <= j < |distances| ==> distances[r.value] <= distances[j]
    ensures r.Some? ==> forall j :: 0 <= j < r.value ==> distances[r.value] < distances[j]
    ensures r.None? <==> forall j :: 0 <= j < |distances| ==> distances[j] >= Tolerance
  {
    if |distances| > 0 && distances[FirstArgMin(distances)] < Tolerance then Some(FirstArgMin(distances)) else None
  }

  /** With compare_faces' own flags, the two variants choose the same known
      encoding except when the smallest distance is exactly 0.6: there the
      flag variant recognises the face and the strict one does not. */
  lemma VariantsDisagreeOnlyAtTolerance(matches: seq<bool>, distances: seq<real>)
    requires LibraryFlags(matches, distances)
    ensures FlaggedBest(matches, distances) != BestBelow(distances)
        <==> |distances| > 0 && distances[FirstArgMin(distances)] == Tolerance
    ensures FlaggedBest(matches, distances) != BestBelow(distances)
        ==> FlaggedBest(matches, distances).Some? && BestBelow(distances).None?
  {
  }

  /** A concrete face at distance exactly 0.6 from the only known encoding. */
  lemma BoundaryFace()
    ensures FlaggedBest([true], [0.6]) == Some(0) && BestBelow([0.6]) == None
  {
    assert FirstArgMin([0.6]) == 0;
  }
}

/** scripts/face_detector_yolov8_gpu.py: the person boxes YOLO reports,
    filtered by confidence and clamped to the frame; match_face on each
    crop; the status, throttle key and alert payload of a detection; and
    load_whitelist, which rebuilds the parallel encoding and name lists
    from the backend. YOLO, face_recognition, OpenCV and HTTP results are
    inputs. The throttle is Cooldown.Throttle with a 10 s cooldown. */
module DetectorYolo {
  import opened Common
  import opened Json
  import opened Geometry
  import opened FaceMatch
  import opened Enrolment
  import opened AlertStore
  import opened Backend

  /** self.alert_cooldown */
  const AlertCooldown: real := 10.0
  /** Boxes below this YOLO confidence are skipped. */
  const MinDetectionConf: real := 0.5

  // ---------------------------------------------------------------------
  // match_face

  /** What happens to one face crop inside match_face's try block: an
      exception (an empty crop, say), no face found, or the library's
      comparison of the first face found. */
  datatype Crop = Raised | NoFace | Face(c: Comparison)

  /** match_face: (name, confidence), or (None, 0.0) when face_recognition
      is missing, nothing is enrolled, the crop raised or held no face, or
      compare_faces does not flag the nearest known face. */
  function MatchFace(available: bool, knownNames: seq<string>, crop: Crop): (r: (Option<string>, real))
    requires crop.Face? ==> Aligned(knownNames, crop.c)
    ensures !available || knownNames == [] || !crop.Face? ==> r == (None, 0.0)
    ensures r.0.None? ==> r.1 == 0.0
    ensures r.0.Some? ==> crop.Face? && exists i :: (0 <= i < |knownNames| && r.0.value == knownNames[i]
              && crop.c.matches[i] && r.1 == 1.0 - crop.c.distances[i]
              && (forall j :: 0 <= j < |knownNames| ==> crop.c.distances[i] <= crop.c.distances[j])
              && forall j :: 0 <= j < i ==> crop.c.distances[i] < crop.c.distances[j])
    ensures (available && crop.Face? && knownNames != [] && crop.c.matches[FirstArgMin(crop.c.distances)])
              ==> r == (Some(knownNames[FirstArgMin(crop.c.distances)]), 1.0 - crop.c.distances[FirstArgMin(crop.c.distances)])
  {
    if !available || knownNames == [] then (None, 0.0)
    else
      match crop
      case Raised => (None, 0.0)
      case NoFace => (None, 0.0)
      case Face(c) =>
        match FlaggedBest(c.matches, c.distances)
        case None => (None, 0.0)
        case Some(i) => (Some(knownNames[i]), 1.0 - c.distances[i])
  }

  /** With compare_faces' own flags a recognised face reports a confidence
      of at least 0.4, since its distance is at most 0.6. */
  lemma MatchedConfidence(available: bool, knownNames: seq<string>, crop: Crop)
    requires crop.Face? ==> Aligned(knownNames, crop.c) && LibraryFlags(crop.c.matches, crop.c.distances)
    ensures MatchFace(available, knownNames, crop).0.Some? ==> MatchFace(available, knownNames, crop).1 >= 1.0 - Tolerance
  {
  }

  // ---------------------------------------------------------------------
  // detect_faces_yolo

  /** One box of a YOLO result: corners as floats and the confidence. */
  datatype RawBox = RawBox(x1: real, y1: real, x2: real, y2: real, conf: real)

  /** The integer box kept in a detection. */
  datatype Box = Box(x1: int, y1: int, x2: int, y2: int)

  function Max(a: int, b: int): int { if a >= b then a else b }
  function Min(a: int, b: int): int { if a <= b then a else b }

  /** `map(int, xyxy)` then max(0, ·) on the top-left corner and min(w, ·) /
      min(h, ·) on the bottom-right one. */
  function Clamp(b: RawBox, w: int, h: int): (r: Box)
    ensures r.x1 >= 0 && r.y1 >= 0 && r.x2 <= w && r.y2 <= h
    ensures Trunc(b.x1) >= 0 ==> r.x1 == Trunc(b.x1)
    ensures Trunc(b.y1) >= 0 ==> r.y1 == Trunc(b.y1)
    ensures Trunc(b.x2) <= w ==> r.x2 == Trunc(b.x2)
    ensures Trunc(b.y2) <= h ==> r.y2 == Trunc(b.y2)
  {
    Box(Max(0, Trunc(b.x1)), Max(0, Trunc(b.y1)), Min(w, Trunc(b.x2)), Min(h, Trunc(b.y2)))
  }

  /** A box that overlaps the frame keeps its corners in order. */
  lemma ClampKeepsOrder(b: RawBox, w: int, h: int)
    requires w >= 0 && Trunc(b.x1) <= Trunc(b.x2) && Trunc(b.x1) <= w && Trunc(b.x2) >= 0
    ensures Clamp(b, w, h).x1 <= Clamp(b, w, h).x2
  {
  }

  /** Only one side of each corner is clamped: a box starting right of the
      frame comes out with x1 > x2. */
  lemma ClampMayInvert()
    ensures Clamp(RawBox(50.0, 0.0, 60.0, 10.0, 0.9), 40, 40) == Box(50, 0, 40, 10)
  {
  }

  /** A YOLO box together with what match_face meets in its crop. */
  datatype Candidate = Candidate(box: RawBox, crop: Crop)

  /** One entry of the detections list. */
  datatype Detection = Detection(bbox: Box, name: Option<string>, confidence: real, detectionConf: real)

  predicate CropsAligned(knownNames: seq<string>, cands: seq<Candidate>)
  {
    forall k :: 0 <= k < |cands| && cands[k].crop.Face? ==> Aligned(knownNames, cands[k].crop.c)
  }

  /** The candidates confident enough to keep, in order. */
  function Kept(cands: seq<Candidate>): (r: seq<Candidate>)
    ensures |r| <= |cands|
    ensures forall c :: c in r <==> c in cands && c.box.conf >= MinDetectionConf
  {
    if cands == [] then []
    else
      var init := Kept(cands[..|cands| - 1]);
      var last := cands[|cands| - 1];
      assert cands == cands[..|cands| - 1] + [last];
      if last.box.conf < MinDetectionConf then init else init + [last]
  }

  /** The detection made from a kept candidate. */
  function DetectionOf(c: Candidate, w: int, h: int, available: bool, knownNames: seq<string>): (d: Detection)
    requires c.crop.Face? ==> Aligned(knownNames, c.crop.c)
    ensures d.bbox == Clamp(c.box, w, h) && d.detectionConf == c.box.conf
  {
    var m := MatchFace(available, knownNames, c.crop);
    Detection(Clamp(c.box, w, h), m.0, m.1, c.box.conf)
  }

  /** detect_faces_yolo: one detection per box with conf >= 0.5, in order,
      each inside the frame on its clamped sides. */
  method DetectFacesYolo(cands: seq<Candidate>, w: int, h: int, available: bool, knownNames: seq<string>)
    returns (dets: seq<Detection>)
    requires CropsAligned(knownNames, cands)
    ensures |dets| == |Kept(cands)|
    ensures forall i :: 0 <= i < |dets| ==> (Kept(cands)[i] in cands
                        && dets[i] == DetectionOf(Kept(cands)[i], w, h, available, knownNames))
    ensures forall i :: 0 <= i < |dets| ==> dets[i].detectionConf >= MinDetectionConf
    ensures forall i :: 0 <= i < |dets| ==> dets[i].bbox.x1 >= 0 && dets[i].bbox.y1 >= 0 && dets[i].bbox.x2 <= w && dets[i].bbox.y2 <= h
  {
    dets := [];
    ghost var kept: seq<Candidate> := [];
    var i := 0;
    while i < |cands|
      invariant 0 <= i <= |cands|
      invariant kept == Kept(cands[..i]) && CropsAligned(knownNames, kept)
      invariant dets == DetectionsOf(kept, w, h, available, knownNames)
    {
      KeptSnoc(cands, i);
      var c := cands[i];
      if c.box.conf >= MinDetectionConf {
        DetectionsSnoc(kept, c, w, h, available, knownNames);
        dets := dets + [DetectionOf(c, w, h, available, knownNames)];
        kept := kept + [c];
      }
      i := i + 1;
    }
    assert cands[..|cands|] == cands;
  }

  /** The detections made from a list of kept candidates, in order. */
  function DetectionsOf(ks: seq<Candidate>, w: int, h: int, available: bool, knownNames: seq<string>): (r: seq<Detection>)
    requires CropsAligned(knownNames, ks)
    ensures |r| == |ks| && forall m :: 0 <= m < |ks| ==> r[m] == DetectionOf(ks[m], w, h, available, knownNames)
  {
    seq(|ks|, m requires 0 <= m < |ks| => DetectionOf(ks[m], w, h, available, knownNames))
  }

  lemma DetectionsSnoc(ks: seq<Candidate>, c: Candidate, w: int, h: int, available: bool, knownNames: seq<string>)
    requires CropsAligned(knownNames, ks) && (c.crop.Face? ==> Aligned(knownNames, c.crop.c))
    ensures CropsAligned(knownNames, ks + [c])
    ensures DetectionsOf(ks + [c], w, h, available, knownNames)
         == DetectionsOf(ks, w, h, available, knownNames) + [DetectionOf(c, w, h, available, knownNames)]
  {
    assert (ks + [c])[|ks|] == c;
  }

  lemma KeptSnoc(cands: seq<Candidate>, i: int)
    requires 0 <= i < |cands|
    ensures Kept(cands[..i + 1]) == Kept(cands[..i]) + if cands[i].box.conf >= MinDetectionConf then [cands[i]] else []
  {
    assert cands[..i + 1][..i] == cands[..i];
  }

  // ---------------------------------------------------------------------
  // The alert step of run

  /** A name counts only when truthy: None and "" are no name. */
  predicate Named(name: Option<string>)
  {
    name.Some? && name.value != ""
  }

  /** `"friendly" if name else "unknown"` */
  function StatusOf(name: Option<string>): (s: string)
    ensures s == "friendly" <==> Named(name)
    ensures s == "unknown" <==> !Named(name)
  {
    if Named(name) then "friendly" else "unknown"
  }

  /** `name if name else "unknown"`: the throttle key. */
  function Identifier(name: Option<string>): (k: string)
    ensures Named(name) ==> k == name.value
    ensures !Named(name) ==> k == "unknown"
  {
    if Named(name) then name.value else "unknown"
  }

  /** post_alert's alert_data. */
  function AlertPayload(name: Option<string>, status: string, confidence: real, now: real): (p: map<string, Json>)
    ensures p.Keys == {"label", "status", "identity", "confidence", "timestamp", "angle", "distance"}
    ensures p["distance"] == JNull
  {
    map["label" := JStr("person"),
        "status" := JStr(status),
        "identity" := JStr(if Named(name) then name.value else "Unknown Person"),
        "confidence" := JNum(confidence),
        "timestamp" := JNum(now),
        "angle" := JNum(0.0),
        "distance" := JNull]
  }

  /** What create_alert stores for such an alert sent with its snapshot:
      the status as given, identity "Unknown Person" (never NULL) unless the
      name is truthy, the confidence as given, angle 0 and no distance. */
  lemma AlertPayloadStored(name: Option<string>, status: string, confidence: real, now: real, id: string, insertedAt: real, nowMs: nat)
    ensures ColumnsTyped(AlertPayload(name, status, confidence, now))
    ensures NewRow(ToAlertData(Stamped(AlertPayload(name, status, confidence, now), id, true)), insertedAt, nowMs)
         == Ok(Alert(id, now, status, Some(if Named(name) then name.value else "Unknown Person"),
                     Some(confidence), Some(0.0), None, Some("static/snapshots/" + id + ".jpg"),
                     false, JObj(map[])))
  {
    var p := AlertPayload(name, status, confidence, now);
    var s := Stamped(p, id, true);
    assert "meta" !in s;
    assert s["identity"] == p["identity"] && s["confidence"] == p["confidence"];
    assert s["angle"] == p["angle"] && s["distance"] == p["distance"];
  }

  /** The alert run posts for a detection is stored friendly exactly when
      the match gave a non-empty name, with the match confidence. */
  lemma DetectionAlertStored(d: Detection, now: real, id: string, insertedAt: real, nowMs: nat)
    ensures NewRow(ToAlertData(Stamped(AlertPayload(d.name, StatusOf(d.name), d.confidence, now), id, true)), insertedAt, nowMs)
         == Ok(Alert(id, now, if Named(d.name) then "friendly" else "unknown",
                     Some(if Named(d.name) then d.name.value else "Unknown Person"),
                     Some(d.confidence), Some(0.0), None, Some("static/snapshots/" + id + ".jpg"),
                     false, JObj(map[])))
  {
    AlertPayloadStored(d.name, StatusOf(d.name), d.confidence, now, id, insertedAt, nowMs);
  }

  // ---------------------------------------------------------------------
  // load_whitelist

  /** A whitelist entry as load_whitelist reads it: its 'name' (None when
      the key is missing, which raises KeyError) and, for each sample
      image, the first encoding found in it. A missing or empty
      sample_images list is an empty list here. */
  datatype Entry = Entry(name: Option<string>, images: seq<Option<Encoding>>)

  /** The GET /whitelist call: an exception (network, JSON), or a status
      code and the 'whitelist' list of the body. */
  datatype WhitelistFetch = FetchRaised | Response(status: int, entries: seq<Entry>)

  /** The index of the first entry without a name, or the length. */
  function FirstNameless(es: seq<Entry>): (k: nat)
    ensures k <= |es|
    ensures forall j :: 0 <= j < k ==> es[j].name.Some?
    ensures k < |es| ==> es[k].name.None?
  {
    if es == [] || es[0].name.None? then 0 else 1 + FirstNameless(es[1..])
  }

  lemma {:induction false} FirstNamelessAt(es: seq<Entry>, i: nat)
    requires i <= |es| && forall j :: 0 <= j < i ==> es[j].name.Some?
    requires i < |es| ==> es[i].name.None?
    ensures FirstNameless(es) == i
  {
    if i > 0 {
      FirstNamelessAt(es[1..], i - 1);
    }
  }

  /** Each named entry with the encodings its images gave. */
  function People(es: seq<Entry>): (r: seq<(string, seq<Encoding>)>)
    requires forall j :: 0 <= j < |es| ==> es[j].name.Some?
    ensures |r| == |es|
    ensures forall j :: 0 <= j < |es| ==> r[j] == (es[j].name.value, Found(es[j].images))
  {
    seq(|es|, j requires 0 <= j < |es| => (es[j].name.value, Found(es[j].images)))
  }

  /** The inner loop over one entry's images: `encodings_for_person`. */
  method PersonEncodings(images: seq<Option<Encoding>>) returns (encs: seq<Encoding>)
    ensures encs == Found(images)
  {
    encs := [];
    var i := 0;
    while i < |images|
      invariant 0 <= i <= |images|
      invariant encs == Found(images[..i])
    {
      assert images[..i + 1][..i] == images[..i];
      if images[i].Some? {
        encs := encs + [images[i].value];
      }
      i := i + 1;
    }
    assert images[..|images|] == images;
  }

  /** The detector's known_face_encodings and known_face_names. */
  class Whitelist {
    var encodings: seq<Encoding>
    var names: seq<string>

    /** The i-th name owns the i-th encoding. */
    ghost predicate Valid()
      reads this
    {
      |encodings| == |names|
    }

    constructor ()
      ensures Valid() && encodings == [] && names == []
    {
      encodings := [];
      names := [];
    }

    /** load_whitelist. Without face_recognition, or with an empty list from
        the backend, it answers True and keeps what was loaded before; a
        failed call or a non-200 answer gives False and keeps it too.
        Otherwise both lists are rebuilt from the entries in order, each
        person contributing one name copy per encoding found; an entry
        without a name stops the rebuild half-way with False. */
    method Load(available: bool, fetch: WhitelistFetch) returns (ok: bool)
      requires Valid()
      modifies this
      ensures Valid()
      ensures !available ==> ok && encodings == old(encodings) && names == old(names)
      ensures available && !(fetch.Response? && fetch.status == 200) ==>
                !ok && encodings == old(encodings) && names == old(names)
      ensures available && fetch.Response? && fetch.status == 200 && fetch.entries == [] ==>
                ok && encodings == old(encodings) && names == old(names)
      ensures available && fetch.Response? && fetch.status == 200 && fetch.entries != [] ==>
                var k := FirstNameless(fetch.entries);
                && ok == (k == |fetch.entries|)
                && names == Names(Flat(People(fetch.entries[..k])))
                && encodings == Encodings(Flat(People(fetch.entries[..k])))
    {
      if !available {
        return true;
      }
      if fetch.FetchRaised? || fetch.status != 200 {
        return false;
      }
      var entries := fetch.entries;
      if entries == [] {
        return true;
      }
      var n, e;
      ok, n, e := Rebuild(entries);
      names, encodings := n, e;
    }
  }

  /** One more person: the lists for the first i + 1 entries. */
  lemma PeopleSnoc(es: seq<Entry>, i: int)
    requires 0 <= i < |es| && forall j :: 0 <= j <= i ==> es[j].name.Some?
    ensures People(es[..i + 1]) == People(es[..i]) + [(es[i].name.value, Found(es[i].images))]
  {
  }

  /** One more named entry appends its encodings, and as many copies of
      its name, to the two lists. */
  lemma RebuildStep(es: seq<Entry>, i: int)
    requires 0 <= i < |es| && forall j :: 0 <= j <= i ==> es[j].name.Some?
    ensures Names(Flat(People(es[..i + 1])))
         == Names(Flat(People(es[..i]))) + seq(|Found(es[i].images)|, _ => es[i].name.value)
    ensures Encodings(Flat(People(es[..i + 1]))) == Encodings(Flat(People(es[..i]))) + Found(es[i].images)
  {
    PeopleSnoc(es, i);
    FlatSnoc(People(es[..i]), es[i].name.value, Found(es[i].images));
  }

  /** The rebuilding loop of load_whitelist over a non-empty entry list. */
  method Rebuild(entries: seq<Entry>) returns (ok: bool, names: seq<string>, encodings: seq<Encoding>)
    ensures var k := FirstNameless(entries);
            && ok == (k == |entries|)
            && names == Names(Flat(People(entries[..k])))
            && encodings == Encodings(Flat(People(entries[..k])))
  {
    encodings := [];
    names := [];
    assert entries[..0] == [];
    var i := 0;
    while i < |entries|
      invariant 0 <= i <= |entries|
      invariant forall j :: 0 <= j < i ==> entries[j].name.Some?
      invariant names == Names(Flat(People(entries[..i])))
      invariant encodings == Encodings(Flat(People(entries[..i])))
    {
      if entries[i].name.None? {
        FirstNamelessAt(entries, i);
        return false, names, encodings;
      }
      var name := entries[i].name.value;
      var found := PersonEncodings(entries[i].images);
      RebuildStep(entries, i);
      encodings := encodings + found;
      names := names + seq(|found|, _ => name);
      i := i + 1;
    }
    FirstNamelessAt(entries, |entries|);
    assert entries[..|entries|] == entries;
    ok := true;
  }
}

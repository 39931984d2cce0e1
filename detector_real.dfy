/** scripts/face_detector_real.py: naming the faces of a frame from
    face_recognition's answers, rescaling their locations from the half-size
    detection frame, the detections posted with the frame, the alert payload
    and the per-name throttle (Cooldown.Throttle with a 5 s cooldown).
    Camera, drawing, encoding of images and HTTP are not modelled: the
    library results and json.dumps / json.loads are inputs. */
module DetectorReal {
  import opened Common
  import opened Json
  import opened Geometry
  import opened FaceMatch
  import opened AlertStore
  import opened Backend
  import Cooldown

  /** self.alert_cooldown */
  const AlertCooldown: real := 5.0
  /** The name of every face that is not recognised, and its throttle key. */
  const UnknownName: string := "Unknown"
  /** The confidence every alert reports. */
  const AlertConfidence: real := 0.85

  /** The name detect_faces gives one face: the known name at the smallest
      distance when compare_faces flags that one, "Unknown" otherwise. */
  function Identify(knownNames: seq<string>, c: Comparison): (name: string)
    requires Aligned(knownNames, c)
    ensures knownNames == [] ==> name == UnknownName
    ensures (forall i :: 0 <= i < |c.matches| ==> !c.matches[i]) ==> name == UnknownName
    ensures knownNames != [] && c.matches[FirstArgMin(c.distances)] ==> name == knownNames[FirstArgMin(c.distances)]
    ensures name == UnknownName
         || exists i :: (0 <= i < |knownNames| && name == knownNames[i] && c.matches[i]
                         && (forall j :: 0 <= j < |knownNames| ==> c.distances[i] <= c.distances[j])
                         && forall j :: 0 <= j < i ==> c.distances[i] < c.distances[j])
  {
    if knownNames == [] then UnknownName
    else
      match FlaggedBest(c.matches, c.distances)
      case None => UnknownName
      case Some(i) => knownNames[i]
  }

  /** detect_faces: the locations doubled, in order, and one name per face
      encoding. */
  method DetectFaces(halfLocations: seq<Location>, knownNames: seq<string>, comparisons: seq<Comparison>)
    returns (locations: seq<Location>, names: seq<string>)
    requires forall k :: 0 <= k < |comparisons| ==> Aligned(knownNames, comparisons[k])
    ensures |locations| == |halfLocations|
    ensures forall i :: 0 <= i < |halfLocations| ==> locations[i] == Scale2(halfLocations[i])
    ensures |names| == |comparisons|
    ensures forall k :: 0 <= k < |comparisons| ==> names[k] == Identify(knownNames, comparisons[k])
  {
    locations := ScaleAll(halfLocations);
    forall i | 0 <= i < |halfLocations|
      ensures locations[i] == Scale2(halfLocations[i])
    {
      ScaleAllAt(halfLocations, i);
    }
    names := [];
    var k := 0;
    while k < |comparisons|
      invariant 0 <= k <= |comparisons|
      invariant |names| == k
      invariant forall m :: 0 <= m < k ==> names[m] == Identify(knownNames, comparisons[m])
    {
      names := names + [Identify(knownNames, comparisons[k])];
      k := k + 1;
    }
  }

  /** One entry of the posted detections list. */
  datatype Detection = Detection(bbox: BBox, name: string, status: string)

  /** 'friendly' for a named face, 'unknown' for "Unknown". */
  function StatusOf(name: string): (s: string)
    ensures s == "friendly" <==> name != UnknownName
    ensures s == "unknown" <==> name == UnknownName
  {
    if name != UnknownName then "friendly" else "unknown"
  }

  /** post_frame_with_detections' loop over zip(face_locations, face_names). */
  method BuildDetections(locations: seq<Location>, names: seq<string>) returns (dets: seq<Detection>)
    ensures |dets| == if |locations| < |names| then |locations| else |names|
    ensures forall i :: 0 <= i < |dets| ==> FromBox(dets[i].bbox) == locations[i]
    ensures forall i :: 0 <= i < |dets| ==> dets[i].name == names[i]
    ensures forall i :: 0 <= i < |dets| ==> (dets[i].status == "friendly" <==> names[i] != UnknownName)
    ensures forall i :: 0 <= i < |dets| ==> (dets[i].status == "unknown" <==> names[i] == UnknownName)
  {
    dets := [];
    var i := 0;
    while i < |locations| && i < |names|
      invariant 0 <= i <= |locations| && i <= |names|
      invariant |dets| == i
      invariant forall m :: 0 <= m < i ==> dets[m] == Detection(ToBox(locations[m]), names[m], StatusOf(names[m]))
    {
      BoxRoundTrip(locations[i], ToBox(locations[i]));
      dets := dets + [Detection(ToBox(locations[i]), names[i], StatusOf(names[i]))];
      i := i + 1;
    }
  }

  function BoxJson(b: BBox): Json
  {
    JObj(map["x" := JNum(b.x as real), "y" := JNum(b.y as real),
             "width" := JNum(b.width as real), "height" := JNum(b.height as real)])
  }

  function DetectionJson(d: Detection): Json
  {
    JObj(map["bbox" := BoxJson(d.bbox), "name" := JStr(d.name), "status" := JStr(d.status)])
  }

  /** The detections list as json.dumps receives it. */
  function DetectionsJson(dets: seq<Detection>): (r: Json)
    ensures r.JArr? && |r.items| == |dets|
    ensures forall i :: 0 <= i < |dets| ==> r.items[i] == DetectionJson(dets[i])
  {
    if dets == [] then JArr([])
    else JArr(DetectionsJson(dets[..|dets| - 1]).items + [DetectionJson(dets[|dets| - 1])])
  }

  /** The form fields post_frame_with_detections sends with the frame, as
      written: the list goes under 'detections'. */
  function FrameForm(dets: seq<Detection>, encode: Json -> string): (form: map<string, string>)
    ensures form.Keys == {"detections"}
  {
    map["detections" := encode(DetectionsJson(dets))]
  }

  /** The same form with the list under the field upload_frame reads. */
  function FrameFormFixed(dets: seq<Detection>, encode: Json -> string): (form: map<string, string>)
    ensures form.Keys == {"bounding_boxes"}
  {
    map["bounding_boxes" := encode(DetectionsJson(dets))]
  }

  /** As written, the backend never sees the detections: upload_frame finds
      no bounding_boxes field, stores [] and get_frame_data reports 0
      faces, however many were detected. */
  lemma FrameDetectionsLost(dets: seq<Detection>, encode: Json -> string, decode: string -> Option<Json>, frame: seq<bv8>)
    requires frame != []
    ensures ParsedBoxes(FormField(FrameForm(dets, encode), "bounding_boxes"), decode) == JArr([])
    ensures FrameView(frame, ParsedBoxes(FormField(FrameForm(dets, encode), "bounding_boxes"), decode))
         == Ok(FrameData(Some(frame), JArr([]), 0))
  {
  }

  /** Under the field upload_frame reads, every detection reaches the live
      view: get_frame_data reports them all and their number. */
  lemma FrameDetectionsDelivered(dets: seq<Detection>, encode: Json -> string, decode: string -> Option<Json>, frame: seq<bv8>)
    requires frame != []
    requires encode(DetectionsJson(dets)) != "" && decode(encode(DetectionsJson(dets))) == Some(DetectionsJson(dets))
    ensures FrameView(frame, ParsedBoxes(FormField(FrameFormFixed(dets, encode), "bounding_boxes"), decode))
         == Ok(FrameData(Some(frame), DetectionsJson(dets), |dets|))
  {
    UploadThenRead(frame, encode(DetectionsJson(dets)), decode, DetectionsJson(dets).items);
  }

  /** post_alert's alert_data for one face. */
  function AlertPayload(loc: Location, name: string, now: real): (p: map<string, Json>)
    ensures p.Keys == {"label", "status", "identity", "confidence", "bbox", "timestamp"}
  {
    map["label" := JStr("person"),
        "status" := JStr(StatusOf(name)),
        "identity" := if name != UnknownName then JStr(name) else JNull,
        "confidence" := JNum(AlertConfidence),
        "bbox" := BoxJson(ToBox(loc)),
        "timestamp" := JNum(now)]
  }

  /** What create_alert stores for such a payload sent with its snapshot:
      status friendly iff the face was named, identity NULL for "Unknown",
      confidence 0.85 whatever the match distance, no angle or distance,
      the detector's timestamp, and the box nowhere (no column holds it). */
  lemma AlertPayloadStored(loc: Location, name: string, now: real, id: string, insertedAt: real, nowMs: nat)
    ensures ColumnsTyped(AlertPayload(loc, name, now))
    ensures NewRow(ToAlertData(Stamped(AlertPayload(loc, name, now), id, true)), insertedAt, nowMs)
         == Ok(Alert(id, now, StatusOf(name), if name != UnknownName then Some(name) else None,
                     Some(AlertConfidence), None, None, Some("static/snapshots/" + id + ".jpg"),
                     false, JObj(map[])))
  {
    var p := AlertPayload(loc, name, now);
    var s := Stamped(p, id, true);
    assert "angle" !in s && "distance" !in s && "meta" !in s;
    assert s["identity"] == p["identity"] && s["confidence"] == p["confidence"];
  }

  /** Every unrecognised face is throttled under the one key "Unknown": of
      several strangers seen at the same instant at most one is alerted. */
  lemma StrangersShareOneAlert(last: map<string, real>, calls: seq<Cooldown.Call>, now: real, i: int, j: int)
    requires forall k :: 0 <= k < |calls| ==> calls[k] == Cooldown.Call(UnknownName, now)
    requires 0 <= i < j < |calls|
    ensures !(Cooldown.ReplaySent(last, calls, AlertCooldown)[i] && Cooldown.ReplaySent(last, calls, AlertCooldown)[j])
  {
    if Cooldown.ReplaySent(last, calls, AlertCooldown)[i] && Cooldown.ReplaySent(last, calls, AlertCooldown)[j] {
      Cooldown.AlertsForSameKeyAreSeparated(last, calls, AlertCooldown, i, j);
    }
  }
}

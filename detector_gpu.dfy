/** scripts/face_detector_gpu.py: the box records post_frame_with_boxes sends
    with each frame, the hog fallback when dlib has no CUDA, and one pass of
    main's loop: the frame post every N frames, the single global alert gate
    and its payload, and the bounded fps_history. face_recognition, OpenCV,
    HTTP and the clock are inputs. */
module DetectorGpu {
  import opened Common
  import opened Json
  import opened Geometry
  import opened AlertStore
  import opened Backend

  /** fps_history keeps at most this many readings. */
  const FpsWindow: nat := 30
  /** The confidence every alert reports. */
  const AlertConfidence: real := 0.85

  // ---------------------------------------------------------------------
  // post_frame_with_boxes

  function IntJson(x: int): Json
  {
    JNum(x as real)
  }

  /** The record sent for one (top, right, bottom, left) location: the four
      sides and width = right - left, height = bottom - top. */
  function BoxRecord(l: Location): Json
  {
    JObj(map["top" := IntJson(l.top), "right" := IntJson(l.right), "bottom" := IntJson(l.bottom),
             "left" := IntJson(l.left), "width" := IntJson(l.right - l.left), "height" := IntJson(l.bottom - l.top)])
  }

  /** The location a record describes, when its four sides are integers. */
  function LocationOf(rec: Json): Option<Location>
  {
    if rec.JObj? && "top" in rec.fields && "right" in rec.fields && "bottom" in rec.fields && "left" in rec.fields
       && rec.fields["top"].JNum? && rec.fields["right"].JNum? && rec.fields["bottom"].JNum? && rec.fields["left"].JNum?
       && rec.fields["top"].n.Floor as real == rec.fields["top"].n
       && rec.fields["right"].n.Floor as real == rec.fields["right"].n
       && rec.fields["bottom"].n.Floor as real == rec.fields["bottom"].n
       && rec.fields["left"].n.Floor as real == rec.fields["left"].n
    then Some(Location(rec.fields["top"].n.Floor, rec.fields["right"].n.Floor, rec.fields["bottom"].n.Floor, rec.fields["left"].n.Floor))
    else None
  }

  /** A record gives back its location, and its width and height agree
      with its sides. */
  lemma BoxRecordRoundTrip(l: Location)
    ensures LocationOf(BoxRecord(l)) == Some(l)
    ensures BoxRecord(l).fields["width"] == IntJson(l.right - l.left)
    ensures BoxRecord(l).fields["height"] == IntJson(l.bottom - l.top)
  {
    var m := BoxRecord(l).fields;
    assert m["top"] == JNum(l.top as real) && m["right"] == JNum(l.right as real);
    assert m["bottom"] == JNum(l.bottom as real) && m["left"] == JNum(l.left as real);
  }

  /** The boxes_data loop: one record per location, in order. */
  method BoxesData(boxes: seq<Location>) returns (data: seq<Json>)
    ensures |data| == |boxes|
    ensures forall i :: 0 <= i < |boxes| ==> LocationOf(data[i]) == Some(boxes[i])
    ensures forall i :: 0 <= i < |boxes| ==> data[i] == BoxRecord(boxes[i])
  {
    data := [];
    var i := 0;
    while i < |boxes|
      invariant 0 <= i <= |boxes|
      invariant |data| == i
      invariant forall m :: 0 <= m < i ==> data[m] == BoxRecord(boxes[m])
      invariant forall m :: 0 <= m < i ==> LocationOf(data[m]) == Some(boxes[m])
    {
      BoxRecordRoundTrip(boxes[i]);
      data := data + [BoxRecord(boxes[i])];
      i := i + 1;
    }
  }

  /** The records as a list value. */
  function Records(boxes: seq<Location>): (r: seq<Json>)
    ensures |r| == |boxes| && forall i :: 0 <= i < |boxes| ==> r[i] == BoxRecord(boxes[i])
  {
    seq(|boxes|, i requires 0 <= i < |boxes| => BoxRecord(boxes[i]))
  }

  /** The form fields sent with the frame. */
  function FrameForm(boxes: seq<Location>, encode: Json -> string): (form: map<string, string>)
    ensures form.Keys == {"bounding_boxes", "face_count"}
  {
    map["bounding_boxes" := encode(JArr(Records(boxes))), "face_count" := Decimal(|boxes|)]
  }

  /** Unlike the other detectors, this one uses the field upload_frame
      reads: the live view gets every record and counts exactly the
      locations sent, which is also the number face_count carries. */
  lemma FrameBoxesDelivered(boxes: seq<Location>, encode: Json -> string, decode: string -> Option<Json>, frame: seq<bv8>)
    requires frame != []
    requires encode(JArr(Records(boxes))) != "" && decode(encode(JArr(Records(boxes)))) == Some(JArr(Records(boxes)))
    ensures FrameView(frame, ParsedBoxes(FormField(FrameForm(boxes, encode), "bounding_boxes"), decode))
         == Ok(FrameData(Some(frame), JArr(Records(boxes)), |boxes|))
    ensures ParseDecimal(FrameForm(boxes, encode)["face_count"]) == |boxes|
  {
    UploadThenRead(frame, encode(JArr(Records(boxes))), decode, Records(boxes));
    DecimalRoundTrip(|boxes|);
  }

  // ---------------------------------------------------------------------
  // main

  /** The detection model used: cnn is kept only when dlib has CUDA. */
  function ChooseModel(requested: string, hasGpu: bool): (model: string)
    requires requested == "hog" || requested == "cnn"
    ensures model == "cnn" <==> requested == "cnn" && hasGpu
    ensures model == "hog" || model == "cnn"
  {
    if !hasGpu && requested == "cnn" then "hog" else requested
  }

  /** The {top, right, bottom, left} dicts listed in an alert. */
  function Corners(locs: seq<Location>): (r: seq<Json>)
    ensures |r| == |locs|
    ensures forall i :: 0 <= i < |locs| ==> r[i] == JObj(map["top" := IntJson(locs[i].top), "right" := IntJson(locs[i].right),
                                                             "bottom" := IntJson(locs[i].bottom), "left" := IntJson(locs[i].left)])
  {
    seq(|locs|, i requires 0 <= i < |locs| =>
      JObj(map["top" := IntJson(locs[i].top), "right" := IntJson(locs[i].right),
               "bottom" := IntJson(locs[i].bottom), "left" := IntJson(locs[i].left)]))
  }

  /** The alert payload for the faces of one frame. */
  function AlertPayload(locs: seq<Location>, now: real): (p: map<string, Json>)
    ensures p.Keys == {"label", "status", "identity", "confidence", "distance", "angle", "timestamp", "face_count", "bounding_boxes"}
    ensures |locs| > 0 ==> p["status"] == JStr("unknown")
    ensures p["face_count"] == IntJson(|locs|) && p["bounding_boxes"] == JArr(Corners(locs))
  {
    map["label" := JStr("person"),
        "status" := if |locs| > 0 then JStr("unknown") else JNull,
        "identity" := JNull,
        "confidence" := JNum(AlertConfidence),
        "distance" := JNull,
        "angle" := JNum(0.0),
        "timestamp" := JNum(now),
        "face_count" := IntJson(|locs|),
        "bounding_boxes" := JArr(Corners(locs))]
  }

  /** What create_alert stores for it: an "unknown" alert with no identity,
      confidence 0.85, angle 0 and no distance, whoever is in the frame; the
      face count and boxes have no column. */
  lemma AlertPayloadStored(locs: seq<Location>, now: real, id: string, insertedAt: real, nowMs: nat)
    requires |locs| > 0
    ensures ColumnsTyped(AlertPayload(locs, now))
    ensures NewRow(ToAlertData(Stamped(AlertPayload(locs, now), id, true)), insertedAt, nowMs)
         == Ok(Alert(id, now, "unknown", None, Some(AlertConfidence), Some(0.0), None,
                     Some("static/snapshots/" + id + ".jpg"), false, JObj(map[])))
  {
    var p := AlertPayload(locs, now);
    var s := Stamped(p, id, true);
    assert "meta" !in s;
    assert s["identity"] == JNull && s["status"] == JStr("unknown");
    assert s["angle"] == p["angle"] && s["distance"] == p["distance"] && s["confidence"] == p["confidence"];
  }

  /** `fps_history.append(x)` then `pop(0)` when over the window. */
  function Pushed(history: seq<real>, x: real): (r: seq<real>)
    requires |history| <= FpsWindow
    ensures 0 < |r| <= FpsWindow && r[|r| - 1] == x
    ensures |history| < FpsWindow ==> r == history + [x]
    ensures |history| == FpsWindow ==> r == history[1..] + [x]
  {
    var h := history + [x];
    if |h| > FpsWindow then h[1..] else h
  }

  /** The last min(n, 30) readings of a run. */
  function Newest(all: seq<real>): (r: seq<real>)
    ensures |r| <= FpsWindow
  {
    if |all| <= FpsWindow then all else all[|all| - FpsWindow..]
  }

  /** The window holds the newest readings, oldest first: pushing a reading
      onto the window of a run gives the window of the longer run. */
  lemma PushedKeepsNewest(all: seq<real>, x: real)
    ensures Pushed(Newest(all), x) == Newest(all + [x])
  {
    if |all| >= FpsWindow {
      assert Newest(all)[1..] + [x] == (all + [x])[|all + [x]| - FpsWindow..];
    }
  }

  /** A request sent to the backend: a frame with its boxes, or an alert
      for the faces of a frame at a clock reading (its body is
      AlertPayload). */
  datatype Post = FramePost(boxes: seq<Location>) | AlertPost(locs: seq<Location>, now: real)

  /** The loop variables of main. */
  class GpuLoop {
    var frameCount: nat
    var lastAlertTime: real
    var fpsHistory: seq<real>
    /** --post-frame-every */
    const postFrameEvery: int
    /** --alert-interval */
    const alertInterval: real
    /** Every request sent, oldest first. */
    var posted: seq<Post>
    /** The clock readings of the alerts sent, oldest first. */
    ghost var alertTimes: seq<real>

    /** The history is bounded, last_alert_time is the time of the latest
        alert (0.0 before any), and any two successive alerts are more than
        alert_interval apart. */
    ghost predicate Valid()
      reads this
    {
      && |fpsHistory| <= FpsWindow
      && (alertTimes == [] ==> lastAlertTime == 0.0)
      && (alertTimes != [] ==> lastAlertTime == alertTimes[|alertTimes| - 1])
      && forall i :: 0 < i < |alertTimes| ==> alertTimes[i] - alertTimes[i - 1] > alertInterval
    }

    constructor (postFrameEvery: int, alertInterval: real)
      ensures Valid()
      ensures this.postFrameEvery == postFrameEvery && this.alertInterval == alertInterval
      ensures frameCount == 0 && lastAlertTime == 0.0 && fpsHistory == [] && posted == [] && alertTimes == []
    {
      this.postFrameEvery := postFrameEvery;
      this.alertInterval := alertInterval;
      frameCount := 0;
      lastAlertTime := 0.0;
      fpsHistory := [];
      posted := [];
      alertTimes := [];
    }

    /** The alert gate: a face, and more than alert_interval seconds since
        the last alert; last_alert_time is refreshed whatever the post gives. */
    method MaybeAlert(locs: seq<Location>, now: real)
      requires Valid()
      modifies this
      ensures Valid()
      ensures |locs| > 0 && now - old(lastAlertTime) > alertInterval ==>
                posted == old(posted) + [AlertPost(locs, now)] && alertTimes == old(alertTimes) + [now] && lastAlertTime == now
      ensures !(|locs| > 0 && now - old(lastAlertTime) > alertInterval) ==>
                posted == old(posted) && alertTimes == old(alertTimes) && lastAlertTime == old(lastAlertTime)
      ensures frameCount == old(frameCount) && fpsHistory == old(fpsHistory)
    {
      if |locs| > 0 && now - lastAlertTime > alertInterval {
        posted := posted + [AlertPost(locs, now)];
        alertTimes := alertTimes + [now];
        lastAlertTime := now;
      }
    }

    /** One frame read: count it, post it with its boxes every
        post_frame_every frames, run the alert gate, and record the FPS. */
    method Step(locs: seq<Location>, now: real, fps: real)
      requires Valid()
      modifies this
      ensures Valid()
      ensures frameCount == old(frameCount) + 1
      ensures |locs| > 0 && now - old(lastAlertTime) > alertInterval ==>
                posted == old(posted) + FramePosts(frameCount, locs) + [AlertPost(locs, now)]
                && alertTimes == old(alertTimes) + [now] && lastAlertTime == now
      ensures !(|locs| > 0 && now - old(lastAlertTime) > alertInterval) ==>
                posted == old(posted) + FramePosts(frameCount, locs)
                && alertTimes == old(alertTimes) && lastAlertTime == old(lastAlertTime)
      ensures fpsHistory == Pushed(old(fpsHistory), fps)
    {
      frameCount := frameCount + 1;
      if postFrameEvery > 0 && frameCount % postFrameEvery == 0 {
        posted := posted + [FramePost(locs)];
      }
      MaybeAlert(locs, now);
      fpsHistory := fpsHistory + [fps];
      if |fpsHistory| > FpsWindow {
        fpsHistory := fpsHistory[1..];
      }
    }

    /** The frame post of frame number `count`: sent iff post_frame_every
        is positive and divides the count. */
    function FramePosts(count: nat, locs: seq<Location>): (r: seq<Post>)
      ensures r == [FramePost(locs)] <==> postFrameEvery > 0 && count % postFrameEvery == 0
      ensures r == [] <==> !(postFrameEvery > 0 && count % postFrameEvery == 0)
    {
      if postFrameEvery > 0 && count % postFrameEvery == 0 then [FramePost(locs)] else []
    }
  }
}

/** scripts/face_detector_hybrid.py: the whitelist read from a local
    {name: [encoding, ...]} pickle, the strict `< 0.6` decision on each
    face, the per-identifier throttle (10 s) and what the detector sends to
    the backend for one frame. The camera, drawing, face_recognition and
    HTTP are not modelled: the pickle's contents, the face distances and
    the clock are inputs, and the requests sent are recorded in order. */
module DetectorHybrid {
  import opened Common
  import opened Json
  import opened FaceMatch
  import opened Enrolment
  import opened AlertStore
  import opened Backend
  import DetectorYolo
  import Cooldown

  /** self.alert_cooldown */
  const AlertCooldown: real := 10.0

  /** load_whitelist: nothing when the file is missing; otherwise every
      person's encodings in dict order, the name repeated once per
      encoding. */
  method LoadWhitelist(fileExists: bool, enc: seq<(string, seq<Encoding>)>) returns (names: seq<string>, encs: seq<Encoding>)
    ensures !fileExists ==> names == [] && encs == []
    ensures fileExists ==> names == Names(Flat(enc)) && encs == Encodings(Flat(enc))
  {
    if !fileExists {
      return [], [];
    }
    names, encs := [], [];
    assert enc[..0] == [];
    var p := 0;
    while p < |enc|
      invariant 0 <= p <= |enc|
      invariant names == Names(Flat(enc[..p])) && encs == Encodings(Flat(enc[..p]))
    {
      var (n, arr) := enc[p];
      names, encs := AppendPerson(names, encs, n, arr);
      assert enc[..p + 1] == enc[..p] + [(n, arr)];
      FlatSnoc(enc[..p], n, arr);
      p := p + 1;
    }
    assert enc[..p] == enc;
  }

  /** The inner loop of load_whitelist: one append to each list per
      encoding of the person, the name repeated alongside. */
  method AppendPerson(names0: seq<string>, encs0: seq<Encoding>, n: string, arr: seq<Encoding>) returns (names: seq<string>, encs: seq<Encoding>)
    ensures names == names0 + seq(|arr|, _ => n)
    ensures encs == encs0 + arr
  {
    names, encs := names0, encs0;
    var k := 0;
    while k < |arr|
      invariant 0 <= k <= |arr|
      invariant names == names0 + seq(k, _ => n)
      invariant encs == encs0 + arr[..k]
    {
      names := names + [n];
      encs := encs + [arr[k]];
      k := k + 1;
    }
    assert arr[..k] == arr;
  }

  /** The loaded lists are parallel, hold exactly one entry per encoding in
      the file, and pair each encoding with the name it was filed under. */
  lemma LoadedWhitelistSound(enc: seq<(string, seq<Encoding>)>, k: int)
    requires 0 <= k < |Names(Flat(enc))|
    ensures |Names(Flat(enc))| == |Encodings(Flat(enc))| == TotalEncodings(enc)
    ensures exists p :: 0 <= p < |enc| && Names(Flat(enc))[k] == enc[p].0 && Encodings(Flat(enc))[k] in enc[p].1
  {
    FlatLength(enc);
    FlatOwner(enc, k);
  }

  /** What the loop body decides for one face before alerting. */
  datatype Verdict = Verdict(name: Option<string>, status: string, distance: real, identifier: string)

  /** One face against the whitelist: recognised as the nearest known
      encoding when its distance is below MATCH_THRESHOLD (0.6), with that
      distance; otherwise no name, status "unknown", distance 1.0 and the
      shared identifier "unknown". */
  function ClassifyFace(knownNames: seq<string>, dists: seq<real>): (v: Verdict)
    requires |dists| == |knownNames|
    ensures v.status == "friendly" <==> exists i :: 0 <= i < |dists| && dists[i] < Tolerance
    ensures v.status == "friendly" || v.status == "unknown"
    ensures v.status == "friendly" ==> (v.name.Some? && v.identifier == v.name.value
              && exists i :: (0 <= i < |dists| && v.name.value == knownNames[i] && v.distance == dists[i]
                              && (forall j :: 0 <= j < |dists| ==> dists[i] <= dists[j])
                              && forall j :: 0 <= j < i ==> dists[i] < dists[j]))
    ensures v.status == "unknown" ==> v.name == None && v.distance == 1.0 && v.identifier == "unknown"
  {
    if knownNames == [] then Verdict(None, "unknown", 1.0, "unknown")
    else
      match BestBelow(dists)
      case Some(i) => Verdict(Some(knownNames[i]), "friendly", dists[i], knownNames[i])
      case None => Verdict(None, "unknown", 1.0, "unknown")
  }

  /** `confidence = 1.0 - distance` */
  function Confidence(v: Verdict): real
  {
    1.0 - v.distance
  }

  /** The alert post_alert sends for a face, at clock reading `now`. */
  function FacePayload(v: Verdict, now: real): map<string, Json>
  {
    DetectorYolo.AlertPayload(v.name, v.status, Confidence(v), now)
  }

  /** The alert stored for a face: recognised faces under their name with
      confidence above 0.4, every other face as "unknown" / "Unknown
      Person" with confidence 0. */
  lemma FaceAlertStored(knownNames: seq<string>, dists: seq<real>, now: real, id: string, insertedAt: real, nowMs: nat)
    requires |dists| == |knownNames|
    ensures var v := ClassifyFace(knownNames, dists);
            NewRow(ToAlertData(Stamped(FacePayload(v, now), id, true)), insertedAt, nowMs)
              == Ok(Alert(id, now, v.status,
                          Some(if v.status == "friendly" && v.name.value != "" then v.name.value else "Unknown Person"),
                          Some(Confidence(v)), Some(0.0), None, Some("static/snapshots/" + id + ".jpg"),
                          false, JObj(map[])))
    ensures var v := ClassifyFace(knownNames, dists);
            v.status == "friendly" ==> Confidence(v) > 1.0 - Tolerance
    ensures var v := ClassifyFace(knownNames, dists);
            v.status == "unknown" ==> Confidence(v) == 0.0
  {
    var v := ClassifyFace(knownNames, dists);
    DetectorYolo.AlertPayloadStored(v.name, v.status, Confidence(v), now, id, insertedAt, nowMs);
  }

  /** A request the detector sends to the backend: a frame, or the alert
      post_alert makes for a verdict at a clock reading (its body is
      FacePayload). */
  datatype Post = FramePost(frameCount: nat) | AlertPost(v: Verdict, now: real)

  /** The verdicts on one frame's faces, in order. */
  function Verdicts(knownNames: seq<string>, faces: seq<seq<real>>): (r: seq<Verdict>)
    requires forall k :: 0 <= k < |faces| ==> |faces[k]| == |knownNames|
    ensures |r| == |faces|
    ensures forall k :: 0 <= k < |faces| ==> r[k] == ClassifyFace(knownNames, faces[k])
  {
    seq(|faces|, k requires 0 <= k < |faces| => ClassifyFace(knownNames, faces[k]))
  }

  /** The throttle calls of one frame: one per face, at its clock reading. */
  function CallsOf(vs: seq<Verdict>, clock: seq<real>): (r: seq<Cooldown.Call>)
    requires |clock| == |vs|
    ensures |r| == |vs|
    ensures forall k :: 0 <= k < |vs| ==> r[k] == Cooldown.Call(vs[k].identifier, clock[k])
  {
    seq(|vs|, k requires 0 <= k < |vs| => Cooldown.Call(vs[k].identifier, clock[k]))
  }

  /** The alerts whose throttle answer was yes, in order. */
  function SentPosts(sent: seq<bool>, vs: seq<Verdict>, clock: seq<real>): (r: seq<Post>)
    requires |sent| == |vs| == |clock|
    ensures |r| <= |sent|
  {
    if sent == [] then []
    else
      var n := |sent| - 1;
      var init := SentPosts(sent[..n], vs[..n], clock[..n]);
      if sent[n] then init + [AlertPost(vs[n], clock[n])] else init
  }

  /** An alert is posted exactly for the faces whose throttle answer was
      yes. */
  lemma {:induction false} SentPostsMembers(sent: seq<bool>, vs: seq<Verdict>, clock: seq<real>)
    requires |sent| == |vs| == |clock|
    ensures forall x :: x in SentPosts(sent, vs, clock) <==> exists k :: 0 <= k < |sent| && sent[k] && x == AlertPost(vs[k], clock[k])
  {
    if sent != [] {
      var n := |sent| - 1;
      SentPostsMembers(sent[..n], vs[..n], clock[..n]);
      assert forall k :: 0 <= k < n ==> sent[..n][k] == sent[k] && vs[..n][k] == vs[k] && clock[..n][k] == clock[k];
    }
  }

  lemma SentPostsSnoc(sent: seq<bool>, vs: seq<Verdict>, clock: seq<real>, i: int)
    requires |sent| == |vs| == |clock| && 0 <= i < |sent|
    ensures SentPosts(sent[..i + 1], vs[..i + 1], clock[..i + 1])
         == SentPosts(sent[..i], vs[..i], clock[..i]) + (if sent[i] then [AlertPost(vs[i], clock[i])] else [])
  {
    assert sent[..i + 1][..i] == sent[..i];
    assert vs[..i + 1][..i] == vs[..i];
    assert clock[..i + 1][..i] == clock[..i];
  }

  /** The i-th face of a frame moves the throttle dict by one step and adds
      its alert to the posts exactly when the throttle lets it through. */
  lemma FaceStep(last: map<string, real>, vs: seq<Verdict>, clock: seq<real>, i: int)
    requires |clock| == |vs| && 0 <= i < |vs|
    ensures Cooldown.ReplayMap(last, CallsOf(vs, clock)[..i + 1], AlertCooldown)
         == Cooldown.Step(Cooldown.ReplayMap(last, CallsOf(vs, clock)[..i], AlertCooldown), Cooldown.Call(vs[i].identifier, clock[i]), AlertCooldown)
    ensures SentPosts(Cooldown.ReplaySent(last, CallsOf(vs, clock), AlertCooldown)[..i + 1], vs[..i + 1], clock[..i + 1])
         == SentPosts(Cooldown.ReplaySent(last, CallsOf(vs, clock), AlertCooldown)[..i], vs[..i], clock[..i])
            + (if Cooldown.Decide(Cooldown.ReplayMap(last, CallsOf(vs, clock)[..i], AlertCooldown), vs[i].identifier, clock[i], AlertCooldown)
               then [AlertPost(vs[i], clock[i])] else [])
  {
    var calls := CallsOf(vs, clock);
    Cooldown.ReplaySnoc(last, calls, AlertCooldown, i);
    Cooldown.ReplaySentAt(last, calls, AlertCooldown, i);
    SentPostsSnoc(Cooldown.ReplaySent(last, calls, AlertCooldown), vs, clock, i);
  }

  /** The HybridDetector object between frames. */
  class HybridDetector {
    var knownNames: seq<string>
    var knownEncs: seq<Encoding>
    /** last_alert_time: identifier -> time of the last alert let through. */
    var lastAlertTime: map<string, real>
    var frameCount: nat
    /** check_backend's answer, fixed at start-up. */
    const backendAvailable: bool
    /** Every request sent, oldest first. */
    var posted: seq<Post>

    ghost predicate Valid()
      reads this
    {
      |knownNames| == |knownEncs|
    }

    /** __init__: the backend counts as available only when GET /health
        answers 200, then the whitelist is loaded. */
    constructor (health: Option<int>, fileExists: bool, enc: seq<(string, seq<Encoding>)>)
      ensures Valid()
      ensures backendAvailable <==> health == Some(200)
      ensures fileExists ==> knownNames == Names(Flat(enc)) && knownEncs == Encodings(Flat(enc))
      ensures !fileExists ==> knownNames == [] && knownEncs == []
      ensures lastAlertTime == map[] && frameCount == 0 && posted == []
    {
      backendAvailable := health == Some(200);
      lastAlertTime := map[];
      frameCount := 0;
      posted := [];
      var n, e := LoadWhitelist(fileExists, enc);
      knownNames, knownEncs := n, e;
    }

    /** The 'r' key: reload the whitelist, nothing else. */
    method Reload(fileExists: bool, enc: seq<(string, seq<Encoding>)>)
      modifies this
      ensures Valid()
      ensures fileExists ==> knownNames == Names(Flat(enc)) && knownEncs == Encodings(Flat(enc))
      ensures !fileExists ==> knownNames == [] && knownEncs == []
      ensures lastAlertTime == old(lastAlertTime) && frameCount == old(frameCount) && posted == old(posted)
    {
      var n, e := LoadWhitelist(fileExists, enc);
      knownNames, knownEncs := n, e;
    }

    /** One face: should_send_alert on its identifier, then post_alert,
        which sends nothing while the backend is unavailable. */
    method HandleFace(v: Verdict, now: real)
      modifies this
      ensures lastAlertTime == Cooldown.Step(old(lastAlertTime), Cooldown.Call(v.identifier, now), AlertCooldown)
      ensures posted == old(posted)
                + if backendAvailable && Cooldown.Decide(old(lastAlertTime), v.identifier, now, AlertCooldown)
                  then [AlertPost(v, now)] else []
      ensures knownNames == old(knownNames) && knownEncs == old(knownEncs) && frameCount == old(frameCount)
    {
      var send := false;
      if v.identifier !in lastAlertTime {
        lastAlertTime := lastAlertTime[v.identifier := now];
        send := true;
      } else if now - lastAlertTime[v.identifier] >= AlertCooldown {
        lastAlertTime := lastAlertTime[v.identifier := now];
        send := true;
      }
      if send && backendAvailable {
        posted := posted + [AlertPost(v, now)];
      }
    }

    /** The faces of one frame in order: should_send_alert and post_alert
        for each. */
    method HandleFaces(vs: seq<Verdict>, clock: seq<real>)
      requires |clock| == |vs|
      modifies this
      ensures lastAlertTime == Cooldown.ReplayMap(old(lastAlertTime), CallsOf(vs, clock), AlertCooldown)
      ensures !backendAvailable ==> posted == old(posted)
      ensures backendAvailable ==> (posted == old(posted)
                + SentPosts(Cooldown.ReplaySent(old(lastAlertTime), CallsOf(vs, clock), AlertCooldown), vs, clock))
      ensures knownNames == old(knownNames) && knownEncs == old(knownEncs) && frameCount == old(frameCount)
    {
      ghost var m0, p0 := lastAlertTime, posted;
      ghost var sent := Cooldown.ReplaySent(m0, CallsOf(vs, clock), AlertCooldown);
      var i := 0;
      assert CallsOf(vs, clock)[..0] == [];
      while i < |vs|
        invariant 0 <= i <= |vs|
        invariant knownNames == old(knownNames) && knownEncs == old(knownEncs) && frameCount == old(frameCount)
        invariant lastAlertTime == Cooldown.ReplayMap(m0, CallsOf(vs, clock)[..i], AlertCooldown)
        invariant posted == p0 + if backendAvailable then SentPosts(sent[..i], vs[..i], clock[..i]) else []
      {
        ghost var ps := posted;
        FaceStep(m0, vs, clock, i);
        HandleFace(vs[i], clock[i]);
        if backendAvailable {
          AppendAssoc(p0, SentPosts(sent[..i], vs[..i], clock[..i]), posted[|ps|..]);
        }
        i := i + 1;
      }
      assert CallsOf(vs, clock)[..i] == CallsOf(vs, clock) && sent[..i] == sent && vs[..i] == vs && clock[..i] == clock;
    }

    /** One pass of run's loop: count the frame, classify and throttle each
        face in order, then post the frame on every even count. While the
        backend is unavailable nothing is sent at all. */
    method ProcessFrame(faces: seq<seq<real>>, clock: seq<real>)
      requires Valid()
      requires |clock| == |faces| && forall k :: 0 <= k < |faces| ==> |faces[k]| == |knownNames|
      modifies this
      ensures knownNames == old(knownNames) && knownEncs == old(knownEncs) && Valid()
      ensures frameCount == old(frameCount) + 1
      ensures lastAlertTime == Cooldown.ReplayMap(old(lastAlertTime), CallsOf(Verdicts(knownNames, faces), clock), AlertCooldown)
      ensures !backendAvailable ==> posted == old(posted)
      ensures backendAvailable ==> (posted == old(posted)
                + SentPosts(Cooldown.ReplaySent(old(lastAlertTime), CallsOf(Verdicts(knownNames, faces), clock), AlertCooldown),
                            Verdicts(knownNames, faces), clock)
                + (if frameCount % 2 == 0 then [FramePost(frameCount)] else []))
    {
      frameCount := frameCount + 1;
      var vs := Verdicts(knownNames, faces);
      HandleFaces(vs, clock);
      if frameCount % 2 == 0 && backendAvailable {
        posted := posted + [FramePost(frameCount)];
      }
    }
  }
}

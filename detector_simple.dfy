/** scripts/face_detector.py (SimpleFaceDetector): the whitelist fetched from
    the backend and rebuilt as a list of {name, encoding} records, the strict
    `< 0.6` naming of each face, the rescaled locations and bbox dicts of
    detect_faces, and the 'm' key's detection-mode toggle. HTTP, image
    decoding and face_recognition are inputs. */
module DetectorSimple {
  import opened Common
  import opened Json
  import opened Geometry
  import opened FaceMatch
  import opened Enrolment
  import opened AlertStore
  import opened Backend
  import DetectorReal

  /** The name and status of a face no known face matches. */
  const UnknownName: string := "Unknown"

  /** One entry of self.known_faces: whatever `person.get('name')` gave,
      and one face encoding of that person. */
  datatype KnownFace = KnownFace(name: Json, encoding: Encoding)

  // ---------------------------------------------------------------------
  // load_whitelist

  /** GET /whitelist: an exception, or the status code and the 'whitelist'
      list of the body, each person a JSON object. */
  datatype WhitelistFetch = FetchRaised | Response(status: int, persons: seq<map<string, Json>>)

  /** `person.get(key, [])` iterated as a list of image paths. */
  function ImagesUnder(person: map<string, Json>, key: string): (r: seq<Json>)
    ensures key !in person ==> r == []
  {
    var v := GetOr(person, key, JArr([]));
    if v.JArr? then v.items else []
  }

  /** What `encodeImage` gives for each image path, in order. `encodeImage`
      is the download, decoding and face_encodings for one path: None when
      any of it failed or no face was found. */
  function Outcomes(images: seq<Json>, encodeImage: Json -> Option<Encoding>): (r: seq<Option<Encoding>>)
    ensures |r| == |images| && forall i :: 0 <= i < |images| ==> r[i] == encodeImage(images[i])
  {
    seq(|images|, i requires 0 <= i < |images| => encodeImage(images[i]))
  }

  /** One record per encoding, all under the same name. */
  function Tag(name: Json, encs: seq<Encoding>): (r: seq<KnownFace>)
    ensures |r| == |encs| && forall i :: 0 <= i < |encs| ==> r[i] == KnownFace(name, encs[i])
  {
    seq(|encs|, i requires 0 <= i < |encs| => KnownFace(name, encs[i]))
  }

  /** One person's records: the name with each encoding its images gave,
      in image order. */
  function PersonFaces(person: map<string, Json>, key: string, encodeImage: Json -> Option<Encoding>): (r: seq<KnownFace>)
    ensures |r| <= |ImagesUnder(person, key)|
    ensures forall f :: f in r ==> f.name == GetOr(person, "name", JNull)
  {
    Tag(GetOr(person, "name", JNull), Found(Outcomes(ImagesUnder(person, key), encodeImage)))
  }

  /** The inner loop of load_whitelist for one person: each image is
      downloaded and encoded in turn, and every face found is recorded
      under the person's name. */
  method EncodePerson(person: map<string, Json>, key: string, encodeImage: Json -> Option<Encoding>) returns (faces: seq<KnownFace>)
    ensures faces == PersonFaces(person, key, encodeImage)
  {
    var name := GetOr(person, "name", JNull);
    var images := ImagesUnder(person, key);
    ghost var outcomes := Outcomes(images, encodeImage);
    ghost var found: seq<Encoding> := [];
    faces := [];
    var k := 0;
    while k < |images|
      invariant 0 <= k <= |images|
      invariant found == Found(outcomes[..k]) && faces == Tag(name, found)
    {
      assert outcomes[..k + 1][..k] == outcomes[..k];
      var e := encodeImage(images[k]);
      if e.Some? {
        TagSnoc(name, found, e.value);
        found := found + [e.value];
        faces := faces + [KnownFace(name, e.value)];
      }
      k := k + 1;
    }
    assert outcomes[..k] == outcomes;
  }

  lemma TagSnoc(name: Json, encs: seq<Encoding>, e: Encoding)
    ensures Tag(name, encs + [e]) == Tag(name, encs) + [KnownFace(name, e)]
  {
    assert Tag(name, encs + [e])[|encs|] == KnownFace(name, e);
  }

  /** The records of every person, person after person. */
  function AllFaces(persons: seq<map<string, Json>>, key: string, encodeImage: Json -> Option<Encoding>): seq<KnownFace>
  {
    if persons == [] then []
    else AllFaces(persons[..|persons| - 1], key, encodeImage) + PersonFaces(persons[|persons| - 1], key, encodeImage)
  }

  /** A whitelist row as GET /whitelist serialises it: id, name,
      sample_images (decoded back to a list), enc_count and created_at. */
  function PersonRecord(p: Person): (r: map<string, Json>)
    ensures r.Keys == {"id", "name", "sample_images", "enc_count", "created_at"}
  {
    map["id" := JNum(p.id as real),
        "name" := JStr(p.name),
        "sample_images" := JArr(seq(|p.sampleImages|, i requires 0 <= i < |p.sampleImages| => JStr(p.sampleImages[i]))),
        "enc_count" := JNum(p.encCount as real),
        "created_at" := JNum(p.createdAt)]
  }

  function Records(rows: seq<Person>): (r: seq<map<string, Json>>)
    ensures |r| == |rows| && forall i :: 0 <= i < |rows| ==> r[i] == PersonRecord(rows[i])
  {
    seq(|rows|, i requires 0 <= i < |rows| => PersonRecord(rows[i]))
  }

  /** As written, the images are read under 'images', a key no whitelist
      row has: whatever the backend stores, the reload yields no known
      face at all. */
  lemma {:induction false} WhitelistNeverLoaded(rows: seq<Person>, encodeImage: Json -> Option<Encoding>)
    ensures AllFaces(Records(rows), "images", encodeImage) == []
  {
    if rows != [] {
      var init, recs := rows[..|rows| - 1], Records(rows);
      assert recs[..|rows| - 1] == Records(init);
      WhitelistNeverLoaded(init, encodeImage);
      var last := recs[|rows| - 1];
      assert last == PersonRecord(rows[|rows| - 1]);
      assert ImagesUnder(last, "images") == [];
      assert Outcomes([], encodeImage) == [];
      assert PersonFaces(last, "images", encodeImage) == [];
    }
  }

  /** The encodings one row's sample images give. */
  function RowEncodings(p: Person, encodeImage: Json -> Option<Encoding>): seq<Encoding>
  {
    Found(seq(|p.sampleImages|, i requires 0 <= i < |p.sampleImages| => encodeImage(JStr(p.sampleImages[i]))))
  }

  /** Every row as (name, encodings of its sample images). */
  function RowPeople(rows: seq<Person>, encodeImage: Json -> Option<Encoding>): (r: seq<(string, seq<Encoding>)>)
    ensures |r| == |rows| && forall i :: 0 <= i < |rows| ==> r[i] == (rows[i].name, RowEncodings(rows[i], encodeImage))
  {
    seq(|rows|, i requires 0 <= i < |rows| => (rows[i].name, RowEncodings(rows[i], encodeImage)))
  }

  /** (name, encoding) pairs as known_faces records. */
  function AsKnown(pairs: seq<(string, Encoding)>): (r: seq<KnownFace>)
    ensures |r| == |pairs| && forall i :: 0 <= i < |pairs| ==> r[i] == KnownFace(JStr(pairs[i].0), pairs[i].1)
  {
    seq(|pairs|, i requires 0 <= i < |pairs| => KnownFace(JStr(pairs[i].0), pairs[i].1))
  }

  lemma AsKnownAppend(a: seq<(string, Encoding)>, b: seq<(string, Encoding)>)
    ensures AsKnown(a + b) == AsKnown(a) + AsKnown(b)
  {
    assert forall i :: |a| <= i < |a| + |b| ==> (a + b)[i] == b[i - |a|];
  }

  /** One row read under 'sample_images': its name with every encoding its
      images gave. */
  lemma RowFaces(p: Person, encodeImage: Json -> Option<Encoding>)
    ensures PersonFaces(PersonRecord(p), "sample_images", encodeImage) == AsKnown(Owned(p.name, RowEncodings(p, encodeImage)))
  {
    var images := ImagesUnder(PersonRecord(p), "sample_images");
    assert Outcomes(images, encodeImage)
        == seq(|p.sampleImages|, i requires 0 <= i < |p.sampleImages| => encodeImage(JStr(p.sampleImages[i])));
  }

  /** Read under 'sample_images', the reload yields, row after row in the
      backend's name order, one record per encoding found in that row's
      images, under the row's name. */
  lemma {:induction false} CorrectedWhitelistLoads(rows: seq<Person>, encodeImage: Json -> Option<Encoding>)
    ensures AllFaces(Records(rows), "sample_images", encodeImage) == AsKnown(Flat(RowPeople(rows, encodeImage)))
  {
    if rows != [] {
      var n := |rows| - 1;
      var init := rows[..n];
      var people := RowPeople(rows, encodeImage);
      assert Records(rows)[..n] == Records(init);
      assert people[..n] == RowPeople(init, encodeImage);
      CorrectedWhitelistLoads(init, encodeImage);
      RowFaces(rows[n], encodeImage);
      assert Flat(people) == Flat(people[..n]) + Owned(rows[n].name, RowEncodings(rows[n], encodeImage));
      AsKnownAppend(Flat(RowPeople(init, encodeImage)), Owned(rows[n].name, RowEncodings(rows[n], encodeImage)));
    }
  }

  // ---------------------------------------------------------------------
  // detect_faces

  /** One entry of the detections list. */
  datatype Detection = Detection(bbox: BBox, name: Json, status: string)

  /** The name and status detect_faces gives a face with these distances to
      the known faces: the name at the smallest distance when that is below
      0.6, "Unknown" otherwise. */
  function Identify(knownFaces: seq<KnownFace>, dists: seq<real>): (r: (Json, string))
    requires |dists| == |knownFaces|
    ensures r.1 == "friendly" <==> exists i :: 0 <= i < |dists| && dists[i] < Tolerance
    ensures r.1 == "friendly" || r.1 == "unknown"
    ensures r.1 == "friendly" ==> exists i :: (0 <= i < |dists| && r.0 == knownFaces[i].name && dists[i] < Tolerance
                                               && (forall j :: 0 <= j < |dists| ==> dists[i] <= dists[j])
                                               && forall j :: 0 <= j < i ==> dists[i] < dists[j])
    ensures r.1 == "unknown" ==> r.0 == JStr(UnknownName)
  {
    if knownFaces == [] || |dists| == 0 then (JStr(UnknownName), "unknown")
    else
      match BestBelow(dists)
      case Some(i) => (knownFaces[i].name, "friendly")
      case None => (JStr(UnknownName), "unknown")
  }

  /** The 'm' key: hog becomes cnn, anything else hog. */
  function Toggled(mode: string): (r: string)
    ensures r == "hog" || r == "cnn"
    ensures r != mode || (mode != "hog" && mode != "cnn")
  {
    if mode == "hog" then "cnn" else "hog"
  }

  /** On the two modes the command line allows, toggling twice changes
      nothing. */
  lemma ToggleTwice(mode: string)
    requires mode == "hog" || mode == "cnn"
    ensures Toggled(Toggled(mode)) == mode
  {
  }

  // ---------------------------------------------------------------------
  // post_frame

  /** The detections list as json.dumps receives it; the bbox dict is the
      one face_detector_real.py builds. */
  function DetectionsJson(dets: seq<Detection>): (r: Json)
    ensures r.JArr? && |r.items| == |dets|
    ensures forall i :: 0 <= i < |dets| ==>
              r.items[i] == JObj(map["bbox" := DetectorReal.BoxJson(dets[i].bbox), "name" := dets[i].name,
                                     "status" := JStr(dets[i].status)])
  {
    if dets == [] then JArr([])
    else
      var d := dets[|dets| - 1];
      JArr(DetectionsJson(dets[..|dets| - 1]).items
           + [JObj(map["bbox" := DetectorReal.BoxJson(d.bbox), "name" := d.name, "status" := JStr(d.status)])])
  }

  /** post_frame sends the detections under 'detections', which
      upload_frame does not read: the backend stores no boxes for a frame
      from this detector either. */
  lemma PostedDetectionsLost(dets: seq<Detection>, encode: Json -> string, decode: string -> Option<Json>, frame: seq<bv8>)
    requires frame != []
    ensures FrameView(frame, ParsedBoxes(FormField(map["detections" := encode(DetectionsJson(dets))], "bounding_boxes"), decode))
         == Ok(FrameData(Some(frame), JArr([]), 0))
  {
  }

  /** Sent under 'bounding_boxes', the same list reaches GET /frame_data
      whole, with face_count its length. */
  lemma PostedDetectionsDelivered(dets: seq<Detection>, encode: Json -> string, decode: string -> Option<Json>, frame: seq<bv8>)
    requires frame != []
    requires encode(DetectionsJson(dets)) != "" && decode(encode(DetectionsJson(dets))) == Some(DetectionsJson(dets))
    ensures FrameView(frame, ParsedBoxes(FormField(map["bounding_boxes" := encode(DetectionsJson(dets))], "bounding_boxes"), decode))
         == Ok(FrameData(Some(frame), DetectionsJson(dets), |dets|))
  {
    UploadThenRead(frame, encode(DetectionsJson(dets)), decode, DetectionsJson(dets).items);
  }

  class SimpleDetector {
    /** self.known_faces */
    var knownFaces: seq<KnownFace>
    /** self.mode: "hog" or "cnn" */
    var mode: string

    constructor (mode: string)
      ensures this.mode == mode && knownFaces == []
    {
      this.mode := mode;
      knownFaces := [];
    }

    /** load_whitelist, reading each person's images under `key` ("images"
        as written): on a 200 answer known_faces is replaced by the records
        of every person in order; a failed call or another status leaves it
        as it was. */
    method LoadWhitelist(fetch: WhitelistFetch, key: string, encodeImage: Json -> Option<Encoding>)
      modifies this
      ensures fetch.Response? && fetch.status == 200 ==> knownFaces == AllFaces(fetch.persons, key, encodeImage)
      ensures !(fetch.Response? && fetch.status == 200) ==> knownFaces == old(knownFaces)
      ensures mode == old(mode)
    {
      if fetch.FetchRaised? || fetch.status != 200 {
        return;
      }
      var persons := fetch.persons;
      knownFaces := [];
      var p := 0;
      while p < |persons|
        invariant 0 <= p <= |persons| && mode == old(mode)
        invariant knownFaces == AllFaces(persons[..p], key, encodeImage)
      {
        assert persons[..p + 1][..p] == persons[..p];
        var faces := EncodePerson(persons[p], key, encodeImage);
        knownFaces := knownFaces + faces;
        p := p + 1;
      }
      assert persons[..p] == persons;
    }

    /** detect_faces: every location doubled, in order, and one detection
        per (location, encoding) pair with the bbox of the doubled location
        and the name and status Identify gives. */
    method DetectFaces(halfLocations: seq<Location>, dists: seq<seq<real>>) returns (locations: seq<Location>, dets: seq<Detection>)
      requires forall k :: 0 <= k < |dists| ==> |dists[k]| == |knownFaces|
      ensures |locations| == |halfLocations|
      ensures forall i :: 0 <= i < |halfLocations| ==> locations[i] == Scale2(halfLocations[i])
      ensures |dets| == if |locations| < |dists| then |locations| else |dists|
      ensures forall i :: 0 <= i < |dets| ==> FromBox(dets[i].bbox) == locations[i]
      ensures forall i :: 0 <= i < |dets| ==> (dets[i].name, dets[i].status) == Identify(knownFaces, dists[i])
    {
      locations := ScaleAll(halfLocations);
      forall i | 0 <= i < |halfLocations|
        ensures locations[i] == Scale2(halfLocations[i])
      {
        ScaleAllAt(halfLocations, i);
      }
      dets := [];
      var i := 0;
      while i < |locations| && i < |dists|
        invariant 0 <= i <= |locations| && i <= |dists|
        invariant |dets| == i
        invariant forall m :: 0 <= m < i ==> FromBox(dets[m].bbox) == locations[m]
        invariant forall m :: 0 <= m < i ==> (dets[m].name, dets[m].status) == Identify(knownFaces, dists[m])
      {
        var (name, status) := Identify(knownFaces, dists[i]);
        BoxRoundTrip(locations[i], ToBox(locations[i]));
        dets := dets + [Detection(ToBox(locations[i]), name, status)];
        i := i + 1;
      }
    }

    /** The 'm' key. */
    method ToggleMode()
      modifies this
      ensures mode == Toggled(old(mode)) && knownFaces == old(knownFaces)
    {
      mode := if mode == "hog" then "cnn" else "hog";
    }
  }
}

/** The request handlers of backend/main.py as sequential state transitions.
    The state is the store, the list of registered stream clients with one
    event queue each, and the single latest-frame slot. HTTP routing,
    multipart parsing, the asyncio scheduling around the queues, file
    writes and JSON text (de)serialisation stay outside: json.loads is the
    parameter `decode` (None for JSONDecodeError), and queued events are the
    dicts before json.dumps. */
module Backend {
  import opened Common
  import opened Json
  import opened AlertStore

  /** One asyncio.Queue registered in sse_clients, by identity. */
  type ClientId = nat

  predicate Distinct(s: seq<ClientId>)
  {
    forall i, j :: 0 <= i < j < |s| ==> s[i] != s[j]
  }

  // ---------------------------------------------------------------------
  // The client list

  /** The list with every element of `gone` taken out, order kept. */
  function Without(s: seq<ClientId>, gone: set<ClientId>): (r: seq<ClientId>)
    ensures |r| <= |s|
    ensures forall x :: x in r <==> x in s && x !in gone
  {
    if s == [] then [] else (if s[0] in gone then [] else [s[0]]) + Without(s[1..], gone)
  }

  /** The elements of the list that are in `keep`, order kept. */
  function Only(s: seq<ClientId>, keep: set<ClientId>): (r: seq<ClientId>)
    ensures |r| <= |s|
  {
    if s == [] then [] else Only(s[..|s| - 1], keep) + (if s[|s| - 1] in keep then [s[|s| - 1]] else [])
  }

  /** Python's list.remove: drop the first occurrence; None is ValueError. */
  function Remove(s: seq<ClientId>, x: ClientId): Option<seq<ClientId>>
  {
    if s == [] then None
    else if s[0] == x then Some(s[1..])
    else
      match Remove(s[1..], x)
      case None => None
      case Some(t) => Some([s[0]] + t)
  }

  /** Exactly the clients not in `gone` remain, without repeats when the
      list had none. */
  lemma {:induction false} WithoutEffect(s: seq<ClientId>, gone: set<ClientId>)
    ensures forall x :: x in Without(s, gone) <==> x in s && x !in gone
    ensures Distinct(s) ==> Distinct(Without(s, gone))
  {
    if s != [] {
      WithoutEffect(s[1..], gone);
    }
  }

  /** Removal keeps order: filtering a concatenation filters each part. */
  lemma {:induction false} WithoutAppend(s: seq<ClientId>, t: seq<ClientId>, gone: set<ClientId>)
    ensures Without(s + t, gone) == Without(s, gone) + Without(t, gone)
  {
    if s != [] {
      WithoutAppend(s[1..], t, gone);
      assert (s + t)[1..] == s[1..] + t;
    } else {
      assert s + t == t;
    }
  }

  lemma {:induction false} OnlyMembers(s: seq<ClientId>, keep: set<ClientId>)
    ensures forall x :: x in Only(s, keep) <==> x in s && x in keep
    ensures Distinct(s) ==> Distinct(Only(s, keep))
  {
    if s != [] {
      OnlyMembers(s[..|s| - 1], keep);
      assert s == s[..|s| - 1] + [s[|s| - 1]];
    }
  }

  /** On a list without repeats, list.remove(x) is removal of x when x is
      there and ValueError otherwise. */
  lemma {:induction false} RemoveIsWithout(s: seq<ClientId>, x: ClientId)
    requires Distinct(s)
    ensures x in s ==> Remove(s, x) == Some(Without(s, {x}))
    ensures x !in s ==> Remove(s, x) == None
  {
    if s != [] {
      assert Distinct(s[1..]);
      RemoveIsWithout(s[1..], x);
      if s[0] == x {
        assert x !in s[1..];
        WithoutUnaffected(s[1..], {x});
        assert Without(s, {x}) == Without(s[1..], {x});
      }
    }
  }

  /** Removing elements that are not there changes nothing. */
  lemma {:induction false} WithoutUnaffected(s: seq<ClientId>, gone: set<ClientId>)
    requires forall x :: x in s ==> x !in gone
    ensures Without(s, gone) == s
  {
    if s != [] {
      WithoutUnaffected(s[1..], gone);
    }
  }

  /** Removing in two rounds is removing the union. */
  lemma {:induction false} WithoutTwice(s: seq<ClientId>, a: set<ClientId>, b: set<ClientId>)
    ensures Without(Without(s, a), b) == Without(s, a + b)
  {
    if s != [] {
      WithoutTwice(s[1..], a, b);
      if s[0] in a {
        assert Without(s, a) == Without(s[1..], a);
      } else {
        assert Without(s, a) == [s[0]] + Without(s[1..], a);
        assert Without(s, a)[1..] == Without(s[1..], a);
      }
    }
  }

  /** One more list.remove in the removal loop: the j-th failed queue is
      still listed, and removing it extends the set of removed queues. */
  lemma RemoveStep(clients: seq<ClientId>, disconnected: seq<ClientId>, j: int)
    requires Distinct(clients) && Distinct(disconnected) && forall c :: c in disconnected ==> c in clients
    requires 0 <= j < |disconnected|
    ensures Remove(Without(clients, Elems(disconnected[..j])), disconnected[j]).Some?
    ensures Remove(Without(clients, Elems(disconnected[..j])), disconnected[j]).value == Without(clients, Elems(disconnected[..j + 1]))
  {
    var d, pre, post := disconnected[j], disconnected[..j], disconnected[..j + 1];
    var gone := Elems(pre);
    WithoutEffect(clients, gone);
    assert d in disconnected && d !in pre;
    var w := Without(clients, gone);
    assert d in w;
    RemoveIsWithout(w, d);
    WithoutTwice(clients, gone, {d});
    assert post == pre + [d];
    ElemsSnoc(pre, d);
  }

  lemma ElemsSnoc(s: seq<ClientId>, d: ClientId)
    ensures Elems(s + [d]) == Elems(s) + {d}
  {
    forall x
      ensures x in Elems(s + [d]) <==> x in Elems(s) + {d}
    {
      assert x in s + [d] <==> x in s || x == d;
    }
  }

  /** Only membership among the list's own elements matters. */
  lemma {:induction false} WithoutSameOnList(s: seq<ClientId>, a: set<ClientId>, b: set<ClientId>)
    requires forall x :: x in s ==> (x in a <==> x in b)
    ensures Without(s, a) == Without(s, b)
  {
    if s != [] {
      WithoutSameOnList(s[1..], a, b);
    }
  }

  /** The elements of a list as a set. */
  function Elems(s: seq<ClientId>): (r: set<ClientId>)
    ensures forall x :: x in r <==> x in s
  {
    set x | x in s
  }

  /** The queues after one put round: every registered client outside
      `failing` got the event at the back; every other queue is as it was. */
  function Delivered(queues: map<ClientId, seq<Json>>, clients: seq<ClientId>, failing: set<ClientId>, event: Json): (r: map<ClientId, seq<Json>>)
    ensures r.Keys == queues.Keys
  {
    map c | c in queues :: if c in clients && c !in failing then queues[c] + [event] else queues[c]
  }

  /** One more client in the put round changes at most its own queue. */
  lemma DeliveredStep(queues: map<ClientId, seq<Json>>, cs: seq<ClientId>, c: ClientId, failing: set<ClientId>, event: Json)
    requires c !in cs && c in queues
    ensures c in failing ==> Delivered(queues, cs + [c], failing, event) == Delivered(queues, cs, failing, event)
    ensures c !in failing ==> Delivered(queues, cs + [c], failing, event) == Delivered(queues, cs, failing, event)[c := queues[c] + [event]]
  {
  }

  // ---------------------------------------------------------------------
  // Pure parts of the handlers

  /** verify_api_key: 401 unless the X-API-KEY header equals the key. */
  function VerifyApiKey(apiKey: string, header: Option<string>): (r: Result<string, nat>)
    ensures r.Ok? <==> header == Some(apiKey)
    ensures r.Ok? ==> r.value == apiKey
    ensures r.Err? ==> r.error == 401
  {
    if header != Some(apiKey) then Err(401) else Ok(header.value)
  }

  /** A form field of a multipart request as FastAPI hands it to a
      handler: None when the request has no field of that name. */
  function FormField(form: map<string, string>, key: string): (r: Option<string>)
    ensures r.Some? <==> key in form
    ensures r.Some? ==> r.value == form[key]
  {
    if key in form then Some(form[key]) else None
  }

  /** The boxes upload_frame stores: an absent or empty field and text that
      json.loads rejects give []; anything json.loads accepts is kept as is. */
  function ParsedBoxes(field: Option<string>, decode: string -> Option<Json>): Json
  {
    if field.Some? && field.value != "" && decode(field.value).Some? then decode(field.value).value
    else JArr([])
  }

  /** upload_frame's reply after storing: face_count is len(boxes) when the
      boxes are truthy and 0 otherwise; a truthy value without a length
      raises inside the try, which answers 500. */
  function UploadReply(frame: seq<bv8>, boxes: Json): (r: Result<Json, nat>)
    ensures r.Err? <==> Truthy(boxes) && Len(boxes).None?
    ensures r.Err? ==> r.error == 500
    ensures boxes.JArr? ==> r == Ok(JObj(map["status" := JStr("ok"), "size" := JNum(|frame| as real),
                                             "face_count" := JNum(|boxes.items| as real), "bounding_boxes" := boxes]))
  {
    if !Truthy(boxes) then
      Ok(JObj(map["status" := JStr("ok"), "size" := JNum(|frame| as real), "face_count" := JNum(0.0), "bounding_boxes" := boxes]))
    else
      match Len(boxes)
      case None => Err(500)
      case Some(n) => Ok(JObj(map["status" := JStr("ok"), "size" := JNum(|frame| as real), "face_count" := JNum(n as real), "bounding_boxes" := boxes]))
  }

  /** What get_frame_data reports: the frame (its base64 data URL is not
      modelled), the stored boxes and their count. */
  datatype FrameData = FrameData(frame: Option<seq<bv8>>, boxes: Json, faceCount: nat)

  /** get_frame_data on a slot: an empty slot (None or b"") reports no frame,
      no boxes and 0; otherwise len of the stored boxes, and 500 when they
      have no length. */
  function FrameView(frame: seq<bv8>, boxes: Json): (r: Result<FrameData, nat>)
    ensures frame == [] ==> r == Ok(FrameData(None, JArr([]), 0))
    ensures frame != [] && boxes.JArr? ==> r == Ok(FrameData(Some(frame), boxes, |boxes.items|))
    ensures r.Err? <==> frame != [] && Len(boxes).None?
  {
    if frame == [] then Ok(FrameData(None, JArr([]), 0))
    else
      match Len(boxes)
      case None => Err(500)
      case Some(n) => Ok(FrameData(Some(frame), boxes, n))
  }

  /** A frame uploaded with a well-formed box list reads back with the same
      box count, unless the frame bytes are empty: an empty frame is falsy,
      so get_frame_data then reports no frame and 0 faces. */
  lemma UploadThenRead(frame: seq<bv8>, field: string, decode: string -> Option<Json>, xs: seq<Json>)
    requires field != "" && decode(field) == Some(JArr(xs))
    ensures UploadReply(frame, ParsedBoxes(Some(field), decode)).Ok?
    ensures frame != [] ==> FrameView(frame, ParsedBoxes(Some(field), decode)) == Ok(FrameData(Some(frame), JArr(xs), |xs|))
    ensures frame == [] ==> FrameView(frame, ParsedBoxes(Some(field), decode)).value.faceCount == 0
  {
  }

  /** A text column of the payload: absent, null or a string. */
  predicate TextColumn(fields: map<string, Json>, key: string)
  {
    key !in fields || fields[key].JNull? || fields[key].JStr?
  }

  /** A REAL column of the payload: absent, null, a number or a bool. */
  predicate NumColumn(fields: map<string, Json>, key: string)
  {
    key !in fields || fields[key].JNull? || FormatsAsFloat(fields[key])
  }

  /** Column values of the types SQLite stores as given. */
  predicate ColumnsTyped(fields: map<string, Json>)
  {
    && NumColumn(fields, "timestamp") && TextColumn(fields, "status") && TextColumn(fields, "identity")
    && NumColumn(fields, "confidence") && NumColumn(fields, "angle") && NumColumn(fields, "distance")
    && TextColumn(fields, "snapshot_path")
  }

  function TextOf(fields: map<string, Json>, key: string): Option<string>
  {
    if key in fields && fields[key].JStr? then Some(fields[key].s) else None
  }

  function NumOf(fields: map<string, Json>, key: string): Option<real>
  {
    if key in fields && FormatsAsFloat(fields[key]) then Some(NumValue(fields[key])) else None
  }

  /** The dict create_alert hands to insert_alert, read column by column. */
  function ToAlertData(fields: map<string, Json>): AlertData
  {
    AlertData(
      TextOf(fields, "id"),
      if "timestamp" !in fields then Absent
      else if FormatsAsFloat(fields["timestamp"]) then Present(NumValue(fields["timestamp"])) else Null,
      if "status" !in fields then Absent
      else if fields["status"].JStr? then Present(fields["status"].s) else Null,
      TextOf(fields, "identity"), NumOf(fields, "confidence"), NumOf(fields, "angle"), NumOf(fields, "distance"),
      TextOf(fields, "snapshot_path"),
      if "meta" in fields then Some(fields["meta"]) else None)
  }

  /** The id create_alert assigns: alert_<milliseconds>. */
  function AlertId(nowMs: nat): (id: string)
    ensures StartsWith(id, "alert_")
    ensures ParseDecimal(id[6..]) == nowMs
  {
    DecimalRoundTrip(nowMs);
    assert ("alert_" + Decimal(nowMs))[6..] == Decimal(nowMs);
    "alert_" + Decimal(nowMs)
  }

  /** The payload dict after create_alert has set the id and, when a
      snapshot came with it, the snapshot path. */
  function Stamped(fields: map<string, Json>, id: string, hasSnapshot: bool): (r: map<string, Json>)
    ensures "id" in r && r["id"] == JStr(id)
    ensures hasSnapshot ==> "snapshot_path" in r && r["snapshot_path"] == JStr("static/snapshots/" + id + ".jpg")
    ensures !hasSnapshot ==> ("snapshot_path" in r <==> "snapshot_path" in fields)
    ensures !hasSnapshot && "snapshot_path" in fields ==> r["snapshot_path"] == fields["snapshot_path"]
    ensures forall k :: k in fields && k != "id" && k != "snapshot_path" ==> k in r && r[k] == fields[k]
  {
    var withId := fields["id" := JStr(id)];
    if hasSnapshot then withId["snapshot_path" := JStr("static/snapshots/" + id + ".jpg")] else withId
  }

  /** Stamping keeps the column types create_alert needs. */
  lemma StampedTyped(fields: map<string, Json>, id: string, hasSnapshot: bool)
    requires ColumnsTyped(fields)
    ensures ColumnsTyped(Stamped(fields, id, hasSnapshot))
    ensures ToAlertData(Stamped(fields, id, hasSnapshot)).id == Some(id)
  {
  }

  // ---------------------------------------------------------------------
  // The server state

  class Server {
    /** API_KEY from the environment. */
    const apiKey: string
    /** The store. */
    const db: Database
    /** sse_clients, in registration order. */
    var clients: seq<ClientId>
    /** The queue of each client ever registered, by identity. */
    var queues: map<ClientId, seq<Json>>
    /** Identity of the next queue to be created. */
    var nextClient: ClientId
    /** latest_frame; None and b"" are both the empty slot. */
    var latestFrame: seq<bv8>
    /** latest_bounding_boxes. */
    var latestBoxes: Json

    ghost predicate Valid()
      reads this, db
    {
      && db.Valid()
      && Distinct(clients)
      && (forall c :: c in clients ==> c in queues)
      && (forall c :: c in queues ==> c < nextClient)
    }

    /** Start-up: an empty store, no clients, latest_frame None, boxes []. */
    constructor (apiKey: string)
      ensures Valid() && fresh(db)
      ensures this.apiKey == apiKey
      ensures db.alerts == [] && db.whitelist == []
      ensures clients == [] && queues == map[] && latestFrame == [] && latestBoxes == JArr([])
    {
      this.apiKey := apiKey;
      db := new Database();
      clients := [];
      queues := map[];
      nextClient := 0;
      latestFrame := [];
      latestBoxes := JArr([]);
    }

    /** broadcast_sse_event: put {"type": event_type, **data} on every
        registered queue; the queues whose put failed (`failing`, decided
        by the environment) are then removed from sse_clients one by one,
        the others keeping their order. */
    method Broadcast(eventType: string, data: map<string, Json>, failing: set<ClientId>)
      requires Valid()
      modifies this
      ensures Valid()
      ensures latestFrame == old(latestFrame) && latestBoxes == old(latestBoxes) && nextClient == old(nextClient)
      ensures clients == Without(old(clients), failing)
      ensures queues == Delivered(old(queues), old(clients), failing, JObj(Tagged(eventType, data)))
    {
      var event := JObj(Tagged(eventType, data));
      var disconnected := PutAll(event, failing);
      OnlyMembers(clients, failing);
      RemoveAll(disconnected);
      WithoutSameOnList(old(clients), Elems(disconnected), failing);
    }

    /** The put loop of broadcast_sse_event; returns the failed queues in
        list order. */
    method PutAll(event: Json, failing: set<ClientId>) returns (disconnected: seq<ClientId>)
      requires Valid()
      modifies this
      ensures Valid()
      ensures clients == old(clients) && nextClient == old(nextClient)
      ensures latestFrame == old(latestFrame) && latestBoxes == old(latestBoxes)
      ensures disconnected == Only(clients, failing)
      ensures queues == Delivered(old(queues), clients, failing, event)
    {
      var cs, qs := clients, queues;
      disconnected := [];
      var i := 0;
      while i < |cs|
        invariant 0 <= i <= |cs|
        invariant disconnected == Only(cs[..i], failing)
        invariant qs == Delivered(queues, cs[..i], failing, event)
        modifies {}
      {
        var c := cs[i];
        assert cs[..i + 1] == cs[..i] + [c];
        assert c !in cs[..i];
        DeliveredStep(queues, cs[..i], c, failing, event);
        assert cs[..i + 1][..i] == cs[..i];
        if c in failing {
          disconnected := disconnected + [c];
        } else {
          qs := qs[c := qs[c] + [event]];
        }
        i := i + 1;
      }
      assert cs[..|cs|] == cs;
      queues := qs;
    }

    /** The removal loop: sse_clients.remove(queue) for each failed queue. */
    method RemoveAll(disconnected: seq<ClientId>)
      requires Valid()
      requires Distinct(disconnected) && forall c :: c in disconnected ==> c in clients
      modifies this
      ensures Valid()
      ensures clients == Without(old(clients), Elems(disconnected))
      ensures queues == old(queues) && nextClient == old(nextClient)
      ensures latestFrame == old(latestFrame) && latestBoxes == old(latestBoxes)
    {
      var cs := clients;
      var j := 0;
      WithoutUnaffected(cs, {});
      assert Elems(disconnected[..0]) == {};
      while j < |disconnected|
        invariant 0 <= j <= |disconnected|
        invariant cs == Without(clients, Elems(disconnected[..j]))
        modifies {}
      {
        RemoveStep(clients, disconnected, j);
        cs := Remove(cs, disconnected[j]).value;
        j := j + 1;
      }
      assert disconnected[..|disconnected|] == disconnected;
      WithoutEffect(clients, Elems(disconnected));
      clients := cs;
    }

    /** upload_frame: 401 on a bad key and nothing changes; otherwise the
        frame and the parsed boxes replace the slot together, and the reply
        reports their count (500 after the update when it has none). */
    method UploadFrame(header: Option<string>, frame: seq<bv8>, boundingBoxes: Option<string>, decode: string -> Option<Json>)
      returns (r: Result<Json, nat>)
      requires Valid()
      modifies this
      ensures Valid()
      ensures clients == old(clients) && queues == old(queues) && nextClient == old(nextClient)
      ensures header != Some(apiKey) ==> r == Err(401) && latestFrame == old(latestFrame) && latestBoxes == old(latestBoxes)
      ensures header == Some(apiKey) ==>
        && latestFrame == frame
        && latestBoxes == ParsedBoxes(boundingBoxes, decode)
        && r == UploadReply(frame, latestBoxes)
    {
      var auth := VerifyApiKey(apiKey, header);
      if auth.Err? {
        return Err(auth.error);
      }
      var boxes: Json := JArr([]);
      if boundingBoxes.Some? && boundingBoxes.value != "" {
        var parsed := decode(boundingBoxes.value);
        if parsed.Some? {
          boxes := parsed.value;
        }
      }
      latestFrame := frame;
      latestBoxes := boxes;
      r := UploadReply(frame, boxes);
    }

    /** get_frame_data: a read of the slot. */
    method GetFrameData() returns (r: Result<FrameData, nat>)
      requires Valid()
      ensures latestFrame == [] ==> r == Ok(FrameData(None, JArr([]), 0))
      ensures latestFrame != [] ==> r == FrameView(latestFrame, latestBoxes)
    {
      r := FrameView(latestFrame, latestBoxes);
    }

    /** create_alert: 401 on a bad key, 400 when the payload is not JSON,
        500 when it is not an object or the insert fails (no broadcast then);
        otherwise the stamped payload is stored and broadcast as an "alert"
        event, and the new id is returned. */
    method CreateAlert(header: Option<string>, payload: string, hasSnapshot: bool, decode: string -> Option<Json>,
                       now: real, nowMs: nat, failing: set<ClientId>)
      returns (r: Result<string, nat>)
      requires Valid()
      requires decode(payload).Some? && decode(payload).value.JObj? ==> ColumnsTyped(decode(payload).value.fields)
      modifies this, db
      ensures Valid()
      ensures latestFrame == old(latestFrame) && latestBoxes == old(latestBoxes)
      ensures header != Some(apiKey) ==> r == Err(401)
      ensures header == Some(apiKey) && decode(payload).None? ==> r == Err(400)
      ensures header == Some(apiKey) && decode(payload).Some? && !decode(payload).value.JObj? ==> r == Err(500)
      ensures r.Err? ==> db.alerts == old(db.alerts) && clients == old(clients) && queues == old(queues)
      ensures r.Ok? ==>
        && header == Some(apiKey) && decode(payload).Some? && decode(payload).value.JObj?
        && var fields := Stamped(decode(payload).value.fields, AlertId(nowMs), hasSnapshot);
        && r.value == AlertId(nowMs)
        && NewRow(ToAlertData(fields), now, nowMs).Ok?
        && db.alerts == old(db.alerts) + [NewRow(ToAlertData(fields), now, nowMs).value]
        && clients == Without(old(clients), failing)
        && queues == Delivered(old(queues), old(clients), failing, JObj(Tagged("alert", map["alert" := JObj(fields)])))
      ensures db.whitelist == old(db.whitelist)
    {
      var auth := VerifyApiKey(apiKey, header);
      if auth.Err? {
        return Err(auth.error);
      }
      var decoded := decode(payload);
      if decoded.None? {
        return Err(400);
      }
      if !decoded.value.JObj? {
        return Err(500);
      }
      var id := AlertId(nowMs);
      var fields := Stamped(decoded.value.fields, id, hasSnapshot);
      StampedTyped(decoded.value.fields, id, hasSnapshot);
      var inserted := db.InsertAlert(ToAlertData(fields), now, nowMs);
      if inserted.Err? {
        return Err(500);
      }
      Broadcast("alert", map["alert" := JObj(fields)], failing);
      r := Ok(id);
    }

    /** acknowledge_alert: 404 and no broadcast when no row has the id;
        otherwise one "ack" event carrying the id. */
    method AcknowledgeAlert(alertId: string, failing: set<ClientId>) returns (r: Result<Json, nat>)
      requires Valid()
      modifies this, db
      ensures Valid()
      ensures latestFrame == old(latestFrame) && latestBoxes == old(latestBoxes)
      ensures db.alerts == AckRows(old(db.alerts), alertId) && db.whitelist == old(db.whitelist)
      ensures !HasId(old(db.alerts), alertId) ==> r == Err(404) && clients == old(clients) && queues == old(queues)
      ensures HasId(old(db.alerts), alertId) ==>
        && r == Ok(JObj(map["status" := JStr("acknowledged"), "alert_id" := JStr(alertId)]))
        && clients == Without(old(clients), failing)
        && queues == Delivered(old(queues), old(clients), failing, JObj(Tagged("ack", map["alert_id" := JStr(alertId)])))
    {
      var found := db.AcknowledgeAlert(alertId);
      if !found {
        return Err(404);
      }
      Broadcast("ack", map["alert_id" := JStr(alertId)], failing);
      r := Ok(JObj(map["status" := JStr("acknowledged"), "alert_id" := JStr(alertId)]));
    }

    /** acknowledge_alert_alt (/ack/{id}): the same handler. */
    method AcknowledgeAlertAlt(alertId: string, failing: set<ClientId>) returns (r: Result<Json, nat>)
      requires Valid()
      modifies this, db
      ensures Valid()
      ensures latestFrame == old(latestFrame) && latestBoxes == old(latestBoxes)
      ensures db.alerts == AckRows(old(db.alerts), alertId) && db.whitelist == old(db.whitelist)
      ensures !HasId(old(db.alerts), alertId) ==> r == Err(404) && clients == old(clients) && queues == old(queues)
      ensures HasId(old(db.alerts), alertId) ==>
        && r == Ok(JObj(map["status" := JStr("acknowledged"), "alert_id" := JStr(alertId)]))
        && clients == Without(old(clients), failing)
        && queues == Delivered(old(queues), old(clients), failing, JObj(Tagged("ack", map["alert_id" := JStr(alertId)])))
    {
      r := AcknowledgeAlert(alertId, failing);
    }

    /** metrics: counts over get_alerts(limit=1000). */
    method Metrics() returns (total: nat, unacknowledged: nat, clientCount: nat)
      requires Valid()
      ensures total == (if |db.alerts| < 1000 then |db.alerts| else 1000)
      ensures unacknowledged == CountIf(Page(db.alerts, AlertQuery(1000, 0, None, None)), IsUnacknowledged)
      ensures unacknowledged <= total <= 1000
      ensures clientCount == |clients|
    {
      var q := AlertQuery(1000, 0, None, None);
      var alerts := db.GetAlerts(q);
      MatchingUnfiltered(db.alerts, q);
      total := |alerts|;
      unacknowledged := CountIf(alerts, IsUnacknowledged);
      clientCount := |clients|;
    }

    /** The start of sse_stream's generator: a fresh queue is appended to
        sse_clients and the first message is a "connected" event. */
    method Connect(now: real) returns (id: ClientId, first: Json)
      requires Valid()
      modifies this
      ensures Valid()
      ensures id !in old(queues) && clients == old(clients) + [id] && queues == old(queues)[id := []]
      ensures first == JObj(map["type" := JStr("connected"), "timestamp" := JNum(now)])
      ensures latestFrame == old(latestFrame) && latestBoxes == old(latestBoxes)
    {
      id := nextClient;
      nextClient := nextClient + 1;
      clients := clients + [id];
      queues := queues[id := []];
      first := JObj(map["type" := JStr("connected"), "timestamp" := JNum(now)]);
    }

    /** One wait of the generator: the oldest queued event, or a heartbeat
        when the queue stays empty. */
    method NextMessage(id: ClientId, now: real) returns (msg: Json)
      requires Valid() && id in queues
      modifies this
      ensures Valid()
      ensures old(queues)[id] != [] ==> msg == old(queues)[id][0] && queues == old(queues)[id := old(queues)[id][1..]]
      ensures old(queues)[id] == [] ==> msg == JObj(map["type" := JStr("heartbeat"), "timestamp" := JNum(now)]) && queues == old(queues)
      ensures clients == old(clients) && latestFrame == old(latestFrame) && latestBoxes == old(latestBoxes)
    {
      if queues[id] != [] {
        msg := queues[id][0];
        queues := queues[id := queues[id][1..]];
      } else {
        msg := JObj(map["type" := JStr("heartbeat"), "timestamp" := JNum(now)]);
      }
    }

    /** The generator's finally: sse_clients.remove(queue). False when a
        failed broadcast already removed it (ValueError). */
    method Disconnect(id: ClientId) returns (removed: bool)
      requires Valid()
      modifies this
      ensures Valid()
      ensures removed == (id in old(clients))
      ensures clients == Without(old(clients), {id})
      ensures queues == old(queues) && latestFrame == old(latestFrame) && latestBoxes == old(latestBoxes)
    {
      RemoveIsWithout(clients, id);
      var rest := Remove(clients, id);
      if rest.None? {
        WithoutUnaffected(clients, {id});
        return false;
      }
      WithoutEffect(clients, {id});
      clients := rest.value;
      removed := true;
    }
  }
}

/** scripts/sim_reactor_stub.py (SimReactor): the `data: ` lines of the SSE
    stream, the dispatch of each decoded event, the reaction to an alert
    (alert_count and last_action), the NLP action table and the polling
    alternative. Printing is not modelled except where it raises: a format
    that raises ends connect_sse's loop (its generic `except`) and
    propagates out of poll_alerts. The HTTP stream, json.loads and the clock
    are inputs. */
module Reactor {
  import opened Common
  import opened Json
  import opened AlertStore
  import opened Backend
  import Nlp
  import DetectorYolo
  import DetectorGpu
  import DetectorReal
  import Geometry

  /** The SSE field prefix. */
  const DataPrefix: string := "data: "

  /** The JSON text of a stream line: only a non-empty line starting with
      "data: " carries one, the line without its first six characters. */
  function DataPayload(line: string): (r: Option<string>)
    ensures r.Some? <==> line != [] && StartsWith(line, DataPrefix)
    ensures r.Some? ==> line == DataPrefix + r.value
  {
    if line != [] && StartsWith(line, DataPrefix) then Some(line[6..]) else None
  }

  /** The line the backend writes for an event text is read back as that text. */
  lemma DataPayloadRoundTrip(text: string)
    ensures DataPayload(DataPrefix + text) == Some(text)
  {
    assert (DataPrefix + text)[..|DataPrefix|] == DataPrefix;
    assert (DataPrefix + text)[6..] == text;
  }

  // ---------------------------------------------------------------------
  // handle_alert

  /** A value last_action takes. The rotate text renders the angle in
      degrees; only the angle is kept. */
  datatype Action = WaveAndGreet(identity: Json) | ApproachSlowly | Rotate(angle: real) | SoundAlarm

  /** What handle_alert does after counting the alert: raises in one of its
      prints, leaves last_action alone, or sets it. */
  datatype Outcome = Raised | Unchanged | Acted(action: Action)

  /** The prints of handle_alert all succeed: the alert is a dict, its
      status (default 'unknown') a string for `.upper()`, and its distance
      and angle (default 0) numbers for the `.2f` formats. */
  predicate Printable(alert: Json)
  {
    && alert.JObj?
    && GetOr(alert.fields, "status", JStr("unknown")).JStr?
    && FormatsAsFloat(GetOr(alert.fields, "distance", JNum(0.0)))
    && FormatsAsFloat(GetOr(alert.fields, "angle", JNum(0.0)))
  }

  /** handle_alert's decision: greet a friendly identity (default
      'Friend'), approach an unknown closer than 3.0 and rotate otherwise,
      sound the alarm for a suspicious one, and do nothing for any other
      status. */
  function AlertOutcome(alert: Json): (r: Outcome)
    ensures r.Raised? <==> !Printable(alert)
    ensures r.Unchanged? <==> Printable(alert)
                              && GetOr(alert.fields, "status", JStr("unknown")).s !in {"friendly", "unknown", "suspicious"}
    ensures r == Acted(SoundAlarm) <==> Printable(alert) && GetOr(alert.fields, "status", JStr("unknown")).s == "suspicious"
    ensures r.Acted? && r.action.WaveAndGreet? <==> Printable(alert) && GetOr(alert.fields, "status", JStr("unknown")).s == "friendly"
    ensures r.Acted? && r.action.WaveAndGreet? ==> Printable(alert) && r.action.identity == GetOr(alert.fields, "identity", JStr("Friend"))
    ensures r == Acted(ApproachSlowly) <==> Printable(alert) && GetOr(alert.fields, "status", JStr("unknown")).s == "unknown"
                                            && NumValue(GetOr(alert.fields, "distance", JNum(0.0))) < 3.0
    ensures r.Acted? && r.action.Rotate? <==> Printable(alert) && GetOr(alert.fields, "status", JStr("unknown")).s == "unknown"
                                              && NumValue(GetOr(alert.fields, "distance", JNum(0.0))) >= 3.0
    ensures r.Acted? && r.action.Rotate? ==> Printable(alert) && r.action.angle == NumValue(GetOr(alert.fields, "angle", JNum(0.0)))
  {
    if !Printable(alert) then Raised
    else
      var f := alert.fields;
      var status := GetOr(f, "status", JStr("unknown")).s;
      if status == "friendly" then Acted(WaveAndGreet(GetOr(f, "identity", JStr("Friend"))))
      else if status == "unknown" then
        if NumValue(GetOr(f, "distance", JNum(0.0))) < 3.0 then Acted(ApproachSlowly)
        else Acted(Rotate(NumValue(GetOr(f, "angle", JNum(0.0)))))
      else if status == "suspicious" then Acted(SoundAlarm)
      else Unchanged
  }

  /** An alert whose distance key is present but null cannot be handled:
      `format(None, '.2f')` raises. */
  lemma NullDistanceRaises(fields: map<string, Json>)
    requires "distance" in fields && fields["distance"] == JNull
    ensures AlertOutcome(JObj(fields)) == Raised
  {
  }

  /** The reactor's two fields. */
  datatype RState = RState(alertCount: nat, lastAction: Option<Action>)

  /** handle_alert on a state: the count goes up first, whatever follows;
      true when it did not raise. */
  function AlertStep(s: RState, alert: Json): (r: (RState, bool))
    ensures r.0.alertCount == s.alertCount + 1
    ensures r.1 <==> Printable(alert)
    ensures !AlertOutcome(alert).Acted? ==> r.0.lastAction == s.lastAction
    ensures AlertOutcome(alert).Acted? ==> r.0.lastAction == Some(AlertOutcome(alert).action)
  {
    var counted := RState(s.alertCount + 1, s.lastAction);
    match AlertOutcome(alert)
    case Raised => (counted, false)
    case Unchanged => (counted, true)
    case Acted(a) => (RState(counted.alertCount, Some(a)), true)
  }

  // ---------------------------------------------------------------------
  // execute_nlp_action

  /** The behaviour execute_nlp_action settles on. */
  datatype Behavior = Known(text: string) | UnknownAction(action: Json)

  /** action_map.get(action, ...): one of the seven behaviours, the
      "Unknown action" fallback for any other hashable value, and None
      when the value is a list or dict (unhashable: TypeError). */
  function NlpBehavior(action: Json): (r: Option<Behavior>)
    ensures r.None? <==> action.JArr? || action.JObj?
    ensures r.Some? && r.value.UnknownAction? ==> r.value.action == action
  {
    match action
    case JArr(_) => None
    case JObj(_) => None
    case JStr(s) =>
      if s == "stop_patrol" then Some(Known("Stop all movement"))
      else if s == "start_patrol" then Some(Known("Begin patrol route"))
      else if s == "return_home" then Some(Known("Navigate to home position"))
      else if s == "follow" then Some(Known("Enter follow mode"))
      else if s == "investigate" then Some(Known("Approach and scan area"))
      else if s == "sound_alarm" then Some(Known("Activate alarm"))
      else if s == "greet" then Some(Known("Play greeting animation"))
      else Some(UnknownAction(action))
    case _ => Some(UnknownAction(action))
  }

  /** Each fixed reply's action has a behaviour of its own. */
  lemma FixedActionKnown(i: Nlp.Intent)
    requires i != Nlp.Status && i != Nlp.Unknown
    ensures NlpBehavior(JStr(Nlp.FixedReply(i).action.value)) == Some(Known(BehaviorText(i)))
  {
    match i
    case Stop => assert Nlp.ActionOf(i) == Some("stop_patrol");
    case Start => assert Nlp.ActionOf(i) == Some("start_patrol");
    case Follow => assert Nlp.ActionOf(i) == Some("follow");
    case ReturnHome => assert Nlp.ActionOf(i) == Some("return_home");
    case Greet => assert Nlp.ActionOf(i) == Some("greet");
    case Investigate => assert Nlp.ActionOf(i) == Some("investigate");
    case Alarm => assert Nlp.ActionOf(i) == Some("sound_alarm");
  }

  /** The behaviour execute_nlp_action prints for each intent's action. */
  function BehaviorText(i: Nlp.Intent): string
  {
    match i
    case Stop => "Stop all movement"
    case Start => "Begin patrol route"
    case Follow => "Enter follow mode"
    case ReturnHome => "Navigate to home position"
    case Greet => "Play greeting animation"
    case Investigate => "Approach and scan area"
    case Alarm => "Activate alarm"
    case _ => ""
  }

  /** Every action the command resolver can answer has a behaviour of its
      own: none falls through to "Unknown action". */
  lemma ResolverActionsKnown(text: string, fetched: Result<seq<Alert>, string>)
    ensures var r := Nlp.ProcessCommand(text, fetched);
            r.action.Some? ==> NlpBehavior(JStr(r.action.value)).Some? && NlpBehavior(JStr(r.action.value)).value.Known?
  {
    var intent := Nlp.Classify(Nlp.Normalize(text));
    if intent != Nlp.Status && intent != Nlp.Unknown {
      FixedActionKnown(intent);
    }
  }

  // ---------------------------------------------------------------------
  // handle_event and connect_sse

  /** handle_nlp: execute_nlp_action runs only for a truthy action, and
      raises only on an unhashable one. */
  predicate NlpHandled(event: map<string, Json>)
  {
    !Truthy(GetOr(event, "action", JNull)) || NlpBehavior(GetOr(event, "action", JNull)).Some?
  }

  /** handle_event on a state, and whether it returned normally. `event.get`
      needs a dict; a 'connected' event needs a numeric timestamp for
      datetime.fromtimestamp; only 'alert' events change the state. */
  function EventStep(s: RState, event: Json): (r: (RState, bool))
    ensures !(event.JObj? && GetOr(event.fields, "type", JNull) == JStr("alert")) ==> r.0 == s
  {
    if !event.JObj? then (s, false)
    else
      var f := event.fields;
      var eventType := GetOr(f, "type", JNull);
      if eventType == JStr("connected") then (s, FormatsAsFloat(GetOr(f, "timestamp", JNum(0.0))))
      else if eventType == JStr("alert") then AlertStep(s, GetOr(f, "alert", JObj(map[])))
      else if eventType == JStr("nlp") then (s, NlpHandled(f))
      else (s, true)
  }

  /** connect_sse's loop over the lines of a 200 stream: lines without a
      payload and payloads that are not JSON are skipped; the first event
      whose handling raises ends the loop. */
  function Run(s: RState, lines: seq<string>, decode: string -> Option<Json>): RState
    decreases |lines|
  {
    if lines == [] then s
    else
      match DataPayload(lines[0])
      case None => Run(s, lines[1..], decode)
      case Some(text) =>
        match decode(text)
        case None => Run(s, lines[1..], decode)
        case Some(event) =>
          var (t, ok) := EventStep(s, event);
          if ok then Run(t, lines[1..], decode) else t
  }

  /** alert_count grows by at most one per line read. */
  lemma {:induction false} RunCountBounded(s: RState, lines: seq<string>, decode: string -> Option<Json>)
    ensures s.alertCount <= Run(s, lines, decode).alertCount <= s.alertCount + |lines|
    decreases |lines|
  {
    if lines != [] {
      match DataPayload(lines[0])
      case None => RunCountBounded(s, lines[1..], decode);
      case Some(text) =>
        match decode(text)
        case None => RunCountBounded(s, lines[1..], decode);
        case Some(event) =>
          var (t, ok) := EventStep(s, event);
          if ok {
            RunCountBounded(t, lines[1..], decode);
          }
    }
  }

  /** The event the backend broadcasts for a created alert. */
  function AlertEvent(fields: map<string, Json>): Json
  {
    JObj(Tagged("alert", map["alert" := JObj(fields)]))
  }

  /** An alert of face_detector_real.py carries no distance or angle, so
      both read as 0: a recognised face is greeted by name, an unknown one
      approached. */
  lemma RealDetectorAlertHandled(loc: Geometry.Location, name: string, now: real, id: string, hasSnapshot: bool)
    ensures AlertOutcome(JObj(Stamped(DetectorReal.AlertPayload(loc, name, now), id, hasSnapshot)))
         == if name != DetectorReal.UnknownName then Acted(WaveAndGreet(JStr(name))) else Acted(ApproachSlowly)
  {
    var fields := Stamped(DetectorReal.AlertPayload(loc, name, now), id, hasSnapshot);
    assert fields["status"] == JStr(DetectorReal.StatusOf(name));
    assert fields["identity"] == DetectorReal.AlertPayload(loc, name, now)["identity"];
    assert "distance" !in fields && "angle" !in fields;
  }

  /** As written, an alert from face_detector_yolov8_gpu.py or
      face_detector_hybrid.py (both send "distance": null) stops the
      reactor: it is counted, last_action stays, and no later line of the
      stream is read. */
  lemma DetectorAlertStopsStream(name: Option<string>, status: string, confidence: real, now: real, id: string,
                                 hasSnapshot: bool, s: RState, text: string, rest: seq<string>,
                                 decode: string -> Option<Json>)
    requires decode(text) == Some(AlertEvent(Stamped(DetectorYolo.AlertPayload(name, status, confidence, now), id, hasSnapshot)))
    ensures Run(s, [DataPrefix + text] + rest, decode) == RState(s.alertCount + 1, s.lastAction)
  {
    var fields := Stamped(DetectorYolo.AlertPayload(name, status, confidence, now), id, hasSnapshot);
    DataPayloadRoundTrip(text);
    assert ([DataPrefix + text] + rest)[0] == DataPrefix + text;
    assert "type" !in map["alert" := JObj(fields)];
    assert fields["distance"] == JNull;
    NullDistanceRaises(fields);
  }

  /** face_detector_gpu.py's alerts stop it the same way. */
  lemma GpuAlertStopsStream(locs: seq<Geometry.Location>, now: real, id: string, hasSnapshot: bool, s: RState,
                            text: string, rest: seq<string>, decode: string -> Option<Json>)
    requires decode(text) == Some(AlertEvent(Stamped(DetectorGpu.AlertPayload(locs, now), id, hasSnapshot)))
    ensures Run(s, [DataPrefix + text] + rest, decode) == RState(s.alertCount + 1, s.lastAction)
  {
    var fields := Stamped(DetectorGpu.AlertPayload(locs, now), id, hasSnapshot);
    DataPayloadRoundTrip(text);
    assert ([DataPrefix + text] + rest)[0] == DataPrefix + text;
    assert "type" !in map["alert" := JObj(fields)];
    assert fields["distance"] == JNull;
    NullDistanceRaises(fields);
  }

  // ---------------------------------------------------------------------
  // poll_alerts

  /** A row of GET /alerts: every column, NULL as null, acknowledged as
      SQLite's 0 or 1. */
  function RowJson(a: Alert): (r: Json)
    ensures r.JObj? && "distance" in r.fields && (a.distance.None? ==> r.fields["distance"] == JNull)
  {
    JObj(map["id" := JStr(a.id), "timestamp" := JNum(a.timestamp), "status" := JStr(a.status),
             "identity" := OptStr(a.identity), "confidence" := OptNum(a.confidence),
             "angle" := OptNum(a.angle), "distance" := OptNum(a.distance),
             "snapshot_path" := OptStr(a.snapshotPath),
             "acknowledged" := JNum(if a.acknowledged then 1.0 else 0.0), "meta" := a.meta])
  }

  /** One batch of poll_alerts: handle_alert on each alert in order; the
      first that raises ends the batch and the polling. */
  function Poll(s: RState, alerts: seq<Json>): (r: (RState, bool))
    decreases |alerts|
  {
    if alerts == [] then (s, true)
    else
      var (t, ok) := AlertStep(s, alerts[0]);
      if ok then Poll(t, alerts[1..]) else (t, false)
  }

  /** A batch handled in full adds its size to alert_count; a batch cut
      short adds at least one and less than its size. */
  lemma {:induction false} PollCountsBatch(s: RState, alerts: seq<Json>)
    ensures Poll(s, alerts).1 ==> Poll(s, alerts).0.alertCount == s.alertCount + |alerts|
    ensures !Poll(s, alerts).1 ==> s.alertCount < Poll(s, alerts).0.alertCount <= s.alertCount + |alerts|
    decreases |alerts|
  {
    if alerts != [] {
      var (t, ok) := AlertStep(s, alerts[0]);
      if ok {
        PollCountsBatch(t, alerts[1..]);
      }
    }
  }

  /** As written, any stored alert without a distance (every alert the
      detectors in this repository create) ends the polling when it is
      handled. */
  lemma PolledRowRaises(s: RState, a: Alert, rest: seq<Json>)
    requires a.distance.None?
    ensures Poll(s, [RowJson(a)] + rest) == (RState(s.alertCount + 1, s.lastAction), false)
  {
    assert ([RowJson(a)] + rest)[0] == RowJson(a);
    NullDistanceRaises(RowJson(a).fields);
  }

  // ---------------------------------------------------------------------
  // The corrected reaction

  /** `alert.get(key) or default` for distance and angle: absent and null
      both read as 0. */
  function NumberOr0(fields: map<string, Json>, key: string): Json
  {
    if key !in fields || fields[key].JNull? then JNum(0.0) else fields[key]
  }

  /** handle_alert reading a null distance or angle as 0. */
  function AlertOutcomeFixed(alert: Json): (r: Outcome)
    ensures AlertOutcome(alert) != Raised ==> r == AlertOutcome(alert)
    ensures r == Raised ==> AlertOutcome(alert) == Raised
  {
    if !alert.JObj? then Raised
    else
      var f := alert.fields;
      var statusJ := GetOr(f, "status", JStr("unknown"));
      var distance := NumberOr0(f, "distance");
      var angle := NumberOr0(f, "angle");
      if !statusJ.JStr? || !FormatsAsFloat(distance) || !FormatsAsFloat(angle) then Raised
      else if statusJ.s == "friendly" then Acted(WaveAndGreet(GetOr(f, "identity", JStr("Friend"))))
      else if statusJ.s == "unknown" then
        if NumValue(distance) < 3.0 then Acted(ApproachSlowly) else Acted(Rotate(NumValue(angle)))
      else if statusJ.s == "suspicious" then Acted(SoundAlarm)
      else Unchanged
  }

  /** Read that way, the reactor handles every broadcast alert of
      face_detector_yolov8_gpu.py and face_detector_hybrid.py: it greets
      the identity they send for a friendly face and approaches an unknown
      one (no distance means 0). */
  lemma FixedHandlesDetectorAlerts(name: Option<string>, status: string, confidence: real, now: real, id: string, hasSnapshot: bool)
    requires status == "friendly" || status == "unknown"
    ensures var fields := Stamped(DetectorYolo.AlertPayload(name, status, confidence, now), id, hasSnapshot);
            AlertOutcomeFixed(JObj(fields))
              == if status == "friendly" then Acted(WaveAndGreet(fields["identity"])) else Acted(ApproachSlowly)
  {
    var fields := Stamped(DetectorYolo.AlertPayload(name, status, confidence, now), id, hasSnapshot);
    assert fields["status"] == JStr(status);
    assert fields["distance"] == JNull && fields["angle"] == JNum(0.0);
  }

  /** Read that way, every row GET /alerts returns is handled. */
  lemma FixedHandlesRows(a: Alert)
    ensures AlertOutcomeFixed(RowJson(a)) != Raised
  {
  }

  // ---------------------------------------------------------------------
  // The reactor object

  class SimReactor {
    var alertCount: nat
    var lastAction: Option<Action>

    constructor ()
      ensures alertCount == 0 && lastAction == None
    {
      alertCount := 0;
      lastAction := None;
    }

    /** handle_alert: count, print (which may raise), react by status. */
    method HandleAlert(alert: Json) returns (ok: bool)
      modifies this
      ensures (RState(alertCount, lastAction), ok) == AlertStep(RState(old(alertCount), old(lastAction)), alert)
    {
      alertCount := alertCount + 1;
      if !alert.JObj? {
        return false;
      }
      var f := alert.fields;
      var status := GetOr(f, "status", JStr("unknown"));
      if !status.JStr? {
        return false;
      }
      var distance := GetOr(f, "distance", JNum(0.0));
      var angle := GetOr(f, "angle", JNum(0.0));
      if !FormatsAsFloat(distance) || !FormatsAsFloat(angle) {
        return false;
      }
      if status.s == "friendly" {
        lastAction := Some(WaveAndGreet(GetOr(f, "identity", JStr("Friend"))));
      } else if status.s == "unknown" {
        if NumValue(distance) < 3.0 {
          lastAction := Some(ApproachSlowly);
        } else {
          lastAction := Some(Rotate(NumValue(angle)));
        }
      } else if status.s == "suspicious" {
        lastAction := Some(SoundAlarm);
      }
      ok := true;
    }

    /** handle_event: dispatch on the event's type. */
    method HandleEvent(event: Json) returns (ok: bool)
      modifies this
      ensures (RState(alertCount, lastAction), ok) == EventStep(RState(old(alertCount), old(lastAction)), event)
    {
      if !event.JObj? {
        return false;
      }
      var f := event.fields;
      var eventType := GetOr(f, "type", JNull);
      if eventType == JStr("connected") {
        ok := FormatsAsFloat(GetOr(f, "timestamp", JNum(0.0)));
      } else if eventType == JStr("alert") {
        ok := HandleAlert(GetOr(f, "alert", JObj(map[])));
      } else if eventType == JStr("nlp") {
        var action := GetOr(f, "action", JNull);
        ok := !Truthy(action) || NlpBehavior(action).Some?;
      } else {
        ok := true;
      }
    }

    /** connect_sse: nothing unless the stream answers 200; then the lines
        in order until an event raises. */
    method ConnectSse(status: int, lines: seq<string>, decode: string -> Option<Json>)
      modifies this
      ensures status != 200 ==> alertCount == old(alertCount) && lastAction == old(lastAction)
      ensures status == 200 ==> RState(alertCount, lastAction) == Run(RState(old(alertCount), old(lastAction)), lines, decode)
    {
      if status != 200 {
        return;
      }
      var i := 0;
      while i < |lines|
        invariant 0 <= i <= |lines|
        invariant Run(RState(old(alertCount), old(lastAction)), lines, decode) == Run(RState(alertCount, lastAction), lines[i..], decode)
      {
        assert lines[i..][0] == lines[i] && lines[i..][1..] == lines[i + 1..];
        var line := lines[i];
        if line != [] && StartsWith(line, DataPrefix) {
          var text := line[6..];
          var event := decode(text);
          if event.Some? {
            var ok := HandleEvent(event.value);
            if !ok {
              return;
            }
          }
        }
        i := i + 1;
      }
    }

    /** One batch of poll_alerts; `crashed` when a handle_alert raised. */
    method PollAlerts(alerts: seq<Json>) returns (crashed: bool)
      modifies this
      ensures (RState(alertCount, lastAction), !crashed) == Poll(RState(old(alertCount), old(lastAction)), alerts)
    {
      var i := 0;
      while i < |alerts|
        invariant 0 <= i <= |alerts|
        invariant Poll(RState(old(alertCount), old(lastAction)), alerts) == Poll(RState(alertCount, lastAction), alerts[i..])
      {
        assert alerts[i..][0] == alerts[i] && alerts[i..][1..] == alerts[i + 1..];
        var ok := HandleAlert(alerts[i]);
        if !ok {
          return true;
        }
        i := i + 1;
      }
      crashed := false;
    }
  }
}

/** The per-key alert throttle `should_send_alert` shared, up to its cooldown
    constant, by scripts/face_detector_real.py, scripts/face_detector_yolov8_gpu.py
    and scripts/face_detector_hybrid.py: a dict from key to the time of the
    last alert sent for it. time.time() is a parameter. */
module Cooldown {

  /** One call of should_send_alert: the key and the clock reading. */
  datatype Call = Call(key: string, now: real)

  /** The answer should_send_alert gives on the dict as it was before the
      call: first sighting, or at least `cooldown` seconds since the last. */
  predicate Decide(last: map<string, real>, key: string, now: real, cooldown: real)
  {
    key !in last || now - last[key] >= cooldown
  }

  /** The dict after one call: refreshed only when the answer is yes. */
  function Step(last: map<string, real>, c: Call, cooldown: real): map<string, real>
  {
    if Decide(last, c.key, c.now, cooldown) then last[c.key := c.now] else last
  }

  /** The dict after a run of calls. */
  function ReplayMap(last: map<string, real>, calls: seq<Call>, cooldown: real): map<string, real>
  {
    if calls == [] then last
    else Step(ReplayMap(last, calls[..|calls| - 1], cooldown), calls[|calls| - 1], cooldown)
  }

  /** The answers of a run of calls, in order. */
  function ReplaySent(last: map<string, real>, calls: seq<Call>, cooldown: real): (r: seq<bool>)
    ensures |r| == |calls|
  {
    if calls == [] then []
    else
      var init := calls[..|calls| - 1];
      ReplaySent(last, init, cooldown)
        + [Decide(ReplayMap(last, init, cooldown), calls[|calls| - 1].key, calls[|calls| - 1].now, cooldown)]
  }

  lemma {:induction false} ReplaySentAt(last: map<string, real>, calls: seq<Call>, cooldown: real, i: int)
    requires 0 <= i < |calls|
    ensures ReplaySent(last, calls, cooldown)[i]
         == Decide(ReplayMap(last, calls[..i], cooldown), calls[i].key, calls[i].now, cooldown)
  {
    if i < |calls| - 1 {
      var init := calls[..|calls| - 1];
      ReplaySentAt(last, init, cooldown, i);
      assert init[..i] == calls[..i];
    }
  }

  /** Replaying one more call is one more Step and one more answer. */
  lemma ReplaySnoc(last: map<string, real>, calls: seq<Call>, cooldown: real, i: int)
    requires 0 <= i < |calls|
    ensures ReplayMap(last, calls[..i + 1], cooldown) == Step(ReplayMap(last, calls[..i], cooldown), calls[i], cooldown)
    ensures ReplaySent(last, calls[..i + 1], cooldown)
         == ReplaySent(last, calls[..i], cooldown) + [Decide(ReplayMap(last, calls[..i], cooldown), calls[i].key, calls[i].now, cooldown)]
  {
    assert calls[..i + 1][..i] == calls[..i];
  }

  ghost predicate NonDecreasing(calls: seq<Call>)
  {
    forall i, j :: 0 <= i < j < |calls| ==> calls[i].now <= calls[j].now
  }

  /** Once a key is let through, the dict keeps a time for it no earlier
      than that call's, as long as the clock does not go back. */
  lemma {:induction false} RecordedAfterAccept(last: map<string, real>, calls: seq<Call>, cooldown: real, i: int, m: int)
    requires NonDecreasing(calls)
    requires 0 <= i < m <= |calls|
    requires Decide(ReplayMap(last, calls[..i], cooldown), calls[i].key, calls[i].now, cooldown)
    ensures calls[i].key in ReplayMap(last, calls[..m], cooldown)
    ensures ReplayMap(last, calls[..m], cooldown)[calls[i].key] >= calls[i].now
    decreases m
  {
    assert calls[..m][..m - 1] == calls[..m - 1];
    if m > i + 1 {
      RecordedAfterAccept(last, calls, cooldown, i, m - 1);
    }
  }

  /** Two alerts let through for the same key are at least `cooldown`
      seconds apart. */
  lemma AlertsForSameKeyAreSeparated(last: map<string, real>, calls: seq<Call>, cooldown: real, i: int, j: int)
    requires NonDecreasing(calls)
    requires 0 <= i < j < |calls| && calls[i].key == calls[j].key
    requires ReplaySent(last, calls, cooldown)[i] && ReplaySent(last, calls, cooldown)[j]
    ensures calls[j].now - calls[i].now >= cooldown
  {
    ReplaySentAt(last, calls, cooldown, i);
    ReplaySentAt(last, calls, cooldown, j);
    RecordedAfterAccept(last, calls, cooldown, i, j);
  }

  /** With a positive cooldown, asking again for the same key at the same
      instant is refused: one alert per key per clock reading. */
  lemma RepeatAtSameInstantRefused(last: map<string, real>, c: Call, cooldown: real)
    requires cooldown > 0.0
    ensures !Decide(Step(last, c, cooldown), c.key, c.now, cooldown)
  {
  }

  /** A refused call, and any call for another key, leaves an entry as it was. */
  lemma StepTouchesOnlyItsKey(last: map<string, real>, c: Call, cooldown: real, k: string)
    requires k != c.key || !Decide(last, c.key, c.now, cooldown)
    ensures k in Step(last, c, cooldown) <==> k in last
    ensures k in last ==> Step(last, c, cooldown)[k] == last[k]
  {
  }

  class Throttle {
    /** last_alert_time: key -> time of the last alert let through. */
    var last: map<string, real>
    /** alert_cooldown in seconds. */
    const cooldown: real

    constructor (cooldown: real)
      ensures this.cooldown == cooldown && last == map[]
    {
      this.cooldown := cooldown;
      last := map[];
    }

    /** should_send_alert: yes on first sighting or after `cooldown`
        seconds, refreshing only this key's time; no leaves the dict alone. */
    method ShouldSendAlert(key: string, now: real) returns (send: bool)
      modifies this
      ensures send == (key !in old(last) || now - old(last)[key] >= cooldown)
      ensures send ==> last == old(last)[key := now]
      ensures !send ==> last == old(last)
    {
      if key !in last {
        last := last[key := now];
        return true;
      }
      if now - last[key] >= cooldown {
        last := last[key := now];
        return true;
      }
      return false;
    }

    /** The per-frame loop `for each face: if should_send_alert(key): post`,
        one clock reading per call. */
    method AlertFaces(calls: seq<Call>) returns (sent: seq<bool>)
      modifies this
      ensures sent == ReplaySent(old(last), calls, cooldown)
      ensures last == ReplayMap(old(last), calls, cooldown)
    {
      sent := [];
      var i := 0;
      while i < |calls|
        invariant 0 <= i <= |calls|
        invariant sent == ReplaySent(old(last), calls[..i], cooldown)
        invariant last == ReplayMap(old(last), calls[..i], cooldown)
      {
        assert calls[..i + 1][..i] == calls[..i];
        var send := ShouldSendAlert(calls[i].key, calls[i].now);
        sent := sent + [send];
        i := i + 1;
      }
      assert calls[..|calls|] == calls;
    }
  }
}

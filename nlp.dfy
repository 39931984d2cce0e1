/** backend/nlp_handler.py: the rule-based command resolver. A command is
    lower-cased and stripped, then classified by substring keywords in a
    fixed priority order; the status intent reports counts over the latest
    alerts. */
module Nlp {
  import opened Common
  import opened AlertStore

  // ---------------------------------------------------------------------
  // text.lower().strip()

  /** str.lower on one character; only ASCII letters are folded here. */
  function LowerChar(c: char): char
  {
    if 'A' <= c <= 'Z' then (c as int + 32) as char else c
  }

  function Lower(s: string): (r: string)
    ensures |r| == |s|
    ensures forall i :: 0 <= i < |s| ==> r[i] == LowerChar(s[i])
  {
    if s == [] then [] else [LowerChar(s[0])] + Lower(s[1..])
  }

  /** str.isspace on an ASCII character. */
  predicate IsSpace(c: char)
  {
    c == ' ' || 9 <= c as int <= 13 || 28 <= c as int <= 31
  }

  function StripLeft(s: string): (r: string)
    ensures |r| <= |s| && r == s[|s| - |r|..]
    ensures r == [] || !IsSpace(r[0])
  {
    if s != [] && IsSpace(s[0]) then StripLeft(s[1..]) else s
  }

  function StripRight(s: string): (r: string)
    ensures |r| <= |s| && r == s[..|r|]
    ensures r == [] || !IsSpace(r[|r| - 1])
  {
    if s != [] && IsSpace(s[|s| - 1]) then StripRight(s[..|s| - 1]) else s
  }

  /** str.strip with no argument. */
  function Strip(s: string): string
  {
    StripRight(StripLeft(s))
  }

  /** What process_command matches against. */
  function Normalize(text: string): string
  {
    Strip(Lower(text))
  }

  predicate IsLower(s: string)
  {
    forall i :: 0 <= i < |s| ==> !('A' <= s[i] <= 'Z')
  }

  lemma {:induction false} LowerOfLower(s: string)
    requires IsLower(s)
    ensures Lower(s) == s
  {
  }

  lemma {:induction false} StripLeftClean(s: string)
    requires s == [] || !IsSpace(s[0])
    ensures StripLeft(s) == s
  {
  }

  lemma {:induction false} StripRightClean(s: string)
    requires s == [] || !IsSpace(s[|s| - 1])
    ensures StripRight(s) == s
  {
  }

  /** Stripping twice strips nothing more. */
  lemma StripIdempotent(s: string)
    ensures Strip(Strip(s)) == Strip(s)
  {
    var l := StripLeft(s);
    var r := StripRight(l);
    assert r == [] || r[0] == l[0];
    StripLeftClean(r);
    StripRightClean(r);
  }

  /** Normalising an already normalised command changes nothing, so
      commands that differ only in ASCII case and surrounding whitespace are
      resolved alike. */
  lemma NormalizeIdempotent(text: string)
    ensures Normalize(Normalize(text)) == Normalize(text)
  {
    NormalizedIsLower(text);
    LowerOfLower(Normalize(text));
    StripIdempotent(Lower(text));
  }

  /** No upper-case letter survives normalisation: lower-casing removes
      them all and stripping keeps a slice. */
  lemma NormalizedIsLower(text: string)
    ensures IsLower(Normalize(text))
  {
    LowerIsLower(text);
    SliceIsLower(Lower(text), StripLeft(Lower(text)));
    SliceIsLower(StripLeft(Lower(text)), Normalize(text));
  }

  lemma LowerIsLower(s: string)
    ensures IsLower(Lower(s))
  {
    var low := Lower(s);
    forall i | 0 <= i < |low|
      ensures !('A' <= low[i] <= 'Z')
    {
      assert low[i] == LowerChar(s[i]);
    }
  }

  lemma SliceIsLower(s: string, r: string)
    requires IsLower(s) && |r| <= |s|
    requires r == s[|s| - |r|..] || r == s[..|r|]
    ensures IsLower(r)
  {
    forall i | 0 <= i < |r|
      ensures !('A' <= r[i] <= 'Z')
    {
      if r == s[..|r|] {
        assert r[i] == s[i];
      } else {
        assert r[i] == s[|s| - |r| + i];
      }
    }
  }

  // ---------------------------------------------------------------------
  // process_command

  datatype Intent = Status | Stop | Start | Follow | ReturnHome | Greet | Investigate | Alarm | Unknown

  const StatusKeywords: seq<string> := ["status", "report", "what", "how many"]
  const StopKeywords: seq<string> := ["stop", "halt", "pause"]
  const StartKeywords: seq<string> := ["start", "resume", "begin", "patrol"]
  const FollowKeywords: seq<string> := ["follow"]
  const HomeKeywords: seq<string> := ["home", "return", "base"]
  const GreetKeywords: seq<string> := ["greet", "hello", "hi", "wave"]
  const InvestigateKeywords: seq<string> := ["investigate", "check", "inspect"]
  const AlarmKeywords: seq<string> := ["alarm", "alert", "sound"]

  /** The chain of guarded returns, on already normalised text. */
  function Classify(text: string): Intent
  {
    if ContainsAny(text, StatusKeywords) then Status
    else if ContainsAny(text, StopKeywords) then Stop
    else if ContainsAny(text, StartKeywords) then Start
    else if ContainsAny(text, FollowKeywords) then Follow
    else if ContainsAny(text, HomeKeywords) then ReturnHome
    else if ContainsAny(text, GreetKeywords) then Greet
    else if ContainsAny(text, InvestigateKeywords) then Investigate
    else if ContainsAny(text, AlarmKeywords) then Alarm
    else Unknown
  }

  /** The keywords of each non-status rule. */
  function KeywordsOf(i: Intent): seq<string>
  {
    match i
    case Stop => StopKeywords
    case Start => StartKeywords
    case Follow => FollowKeywords
    case ReturnHome => HomeKeywords
    case Greet => GreetKeywords
    case Investigate => InvestigateKeywords
    case Alarm => AlarmKeywords
    case _ => []
  }

  /** The non-status rules in the order they are tried. */
  const Rules: seq<Intent> := [Stop, Start, Follow, ReturnHome, Greet, Investigate, Alarm]

  /** The intent of the first rule, from index k on, with a keyword in the text. */
  function FirstMatch(rules: seq<Intent>, text: string, k: nat): (r: Intent)
    ensures r == Unknown || exists j :: k <= j < |rules| && rules[j] == r
    decreases |rules| - k
  {
    if k >= |rules| then Unknown
    else if ContainsAny(text, KeywordsOf(rules[k])) then rules[k]
    else FirstMatch(rules, text, k + 1)
  }

  /** First-match semantics: a rule with a keyword in the text, after rules
      without one, is the one chosen. */
  lemma {:induction false} FirstMatchIsFirst(rules: seq<Intent>, text: string, k: nat, j: nat)
    requires k <= j < |rules| && ContainsAny(text, KeywordsOf(rules[j]))
    requires forall m :: k <= m < j ==> !ContainsAny(text, KeywordsOf(rules[m]))
    ensures FirstMatch(rules, text, k) == rules[j]
    decreases j - k
  {
    if k < j {
      FirstMatchIsFirst(rules, text, k + 1, j);
    }
  }

  /** No rule with a keyword in the text gives Unknown. */
  lemma {:induction false} FirstMatchNone(rules: seq<Intent>, text: string, k: nat)
    requires forall m :: k <= m < |rules| ==> !ContainsAny(text, KeywordsOf(rules[m]))
    ensures FirstMatch(rules, text, k) == Unknown
    decreases |rules| - k
  {
    if k < |rules| {
      FirstMatchNone(rules, text, k + 1);
    }
  }

  /** The chain is the status check followed by the priority table. */
  lemma ClassifyIsTable(text: string)
    ensures Classify(text) == if ContainsAny(text, StatusKeywords) then Status else FirstMatch(Rules, text, 0)
  {
    var t := text;
    assert FirstMatch(Rules, t, 0) == if ContainsAny(t, StopKeywords) then Stop else FirstMatch(Rules, t, 1);
    assert FirstMatch(Rules, t, 1) == if ContainsAny(t, StartKeywords) then Start else FirstMatch(Rules, t, 2);
    assert FirstMatch(Rules, t, 2) == if ContainsAny(t, FollowKeywords) then Follow else FirstMatch(Rules, t, 3);
    assert FirstMatch(Rules, t, 3) == if ContainsAny(t, HomeKeywords) then ReturnHome else FirstMatch(Rules, t, 4);
    assert FirstMatch(Rules, t, 4) == if ContainsAny(t, GreetKeywords) then Greet else FirstMatch(Rules, t, 5);
    assert FirstMatch(Rules, t, 5) == if ContainsAny(t, InvestigateKeywords) then Investigate else FirstMatch(Rules, t, 6);
    assert FirstMatch(Rules, t, 6) == if ContainsAny(t, AlarmKeywords) then Alarm else FirstMatch(Rules, t, 7);
    assert FirstMatch(Rules, t, 7) == Unknown;
  }

  /** The reply process_command returns. `data` is present only for a
      successful status report. */
  datatype Reply = Reply(intent: string, text: string, action: Option<string>, data: Option<StatusData>)

  datatype StatusData = StatusData(total: nat, unacknowledged: nat, friendly: nat, unknown: nat, suspicious: nat)

  /** The intent string of each non-status intent. */
  function IntentName(i: Intent): (r: string)
    requires i != Status
    ensures r != "status"
    ensures r == "unknown" <==> i == Unknown
  {
    match i
    case Stop => "stop"
    case Start => "start"
    case Follow => "follow"
    case ReturnHome => "return_home"
    case Greet => "greet"
    case Investigate => "investigate"
    case Alarm => "alarm"
    case Unknown => "unknown"
  }

  /** The robot action each intent asks for; Unknown asks for none. */
  function ActionOf(i: Intent): (r: Option<string>)
    requires i != Status
    ensures r.None? <==> i == Unknown
  {
    match i
    case Stop => Some("stop_patrol")
    case Start => Some("start_patrol")
    case Follow => Some("follow")
    case ReturnHome => Some("return_home")
    case Greet => Some("greet")
    case Investigate => Some("investigate")
    case Alarm => Some("sound_alarm")
    case Unknown => None
  }

  /** The sentence each intent answers with. */
  function ReplyText(i: Intent): string
    requires i != Status
  {
    match i
    case Stop => "Patrol stopped. Awaiting further instructions."
    case Start => "Patrol started. Monitoring for intruders."
    case Follow => "Following mode activated. I will track the target."
    case ReturnHome => "Returning to home position."
    case Greet => "Hello! I am DoggoBot, your security assistant."
    case Investigate => "Investigating the area. Stand by."
    case Alarm => "Alarm activated!"
    case Unknown => "I did not understand that command. Try: status, start, stop, investigate, or return home."
  }

  /** The fixed reply of each non-status intent: never the status intent,
      no data, and an action exactly when the command was understood. */
  function FixedReply(i: Intent): (r: Reply)
    requires i != Status
    ensures r.intent != "status" && r.data.None?
    ensures r.intent == "unknown" <==> i == Unknown
    ensures r.action.None? <==> i == Unknown
  {
    Reply(IntentName(i), ReplyText(i), ActionOf(i), None)
  }

  predicate IsFriendly(a: Alert) { a.status == "friendly" }
  predicate IsUnknown(a: Alert) { a.status == "unknown" }
  predicate IsSuspicious(a: Alert) { a.status == "suspicious" }

  /** _handle_status over what get_alerts(limit=100) gave: the counts and
      their sentence, or the error reply when the store raised. */
  function HandleStatus(fetched: Result<seq<Alert>, string>): (r: Reply)
    ensures r.intent == "status" && r.action.None?
    ensures fetched.Err? ==> r.data.None?
    ensures fetched.Ok? ==> r.data.Some? && r.data.value.total == |fetched.value|
  {
    match fetched
    case Err(message) => Reply("status", "Error retrieving status: " + message, None, None)
    case Ok(alerts) =>
      var d := StatusData(|alerts|, CountIf(alerts, IsUnacknowledged), CountIf(alerts, IsFriendly),
                          CountIf(alerts, IsUnknown), CountIf(alerts, IsSuspicious));
      Reply("status",
            "System status: " + Decimal(d.total) + " total alerts. " + Decimal(d.unacknowledged) + " unacknowledged. "
            + Decimal(d.friendly) + " friendly, " + Decimal(d.unknown) + " unknown, " + Decimal(d.suspicious) + " suspicious detections.",
            None, Some(d))
  }

  /** Friendly, unknown and suspicious never overlap, so they add up to at
      most the number of alerts. */
  lemma {:induction false} StatusCountsBound(alerts: seq<Alert>)
    ensures CountIf(alerts, IsFriendly) + CountIf(alerts, IsUnknown) + CountIf(alerts, IsSuspicious) <= |alerts|
  {
    if alerts != [] {
      StatusCountsBound(alerts[..|alerts| - 1]);
    }
  }

  /** Over the store, a status report counts at most 100 alerts, with
      unacknowledged <= total and friendly + unknown + suspicious <= total. */
  lemma StatusOverStore(rows: seq<Alert>)
    ensures var d := HandleStatus(Ok(Page(rows, AlertQuery(100, 0, None, None)))).data.value;
      && d.total <= 100
      && d.unacknowledged <= d.total
      && d.friendly + d.unknown + d.suspicious <= d.total
  {
    PageOrderedAndBounded(rows, AlertQuery(100, 0, None, None));
    StatusCountsBound(Page(rows, AlertQuery(100, 0, None, None)));
  }

  /** process_command: normalise, then the status report or the fixed reply
      of the first matching rule. `fetched` is what the store gives when
      the status intent asks for it. */
  function ProcessCommand(text: string, fetched: Result<seq<Alert>, string>): (r: Reply)
    ensures ContainsAny(Normalize(text), StatusKeywords) <==> r.intent == "status"
    ensures r.intent == "unknown" <==> r.action.None? && r.intent != "status"
  {
    var intent := Classify(Normalize(text));
    ClassifyStatus(Normalize(text));
    if intent == Status then HandleStatus(fetched) else FixedReply(intent)
  }

  lemma ClassifyStatus(text: string)
    ensures Classify(text) == Status <==> ContainsAny(text, StatusKeywords)
  {
  }


  /** Case and surrounding whitespace never change the reply. */
  lemma ProcessCommandNormalized(text: string, fetched: Result<seq<Alert>, string>)
    ensures ProcessCommand(Normalize(text), fetched) == ProcessCommand(text, fetched)
  {
    NormalizeIdempotent(text);
  }

  /** Status keywords win over every other rule. */
  lemma StatusFirst(text: string, fetched: Result<seq<Alert>, string>)
    requires ContainsAny(Normalize(text), StatusKeywords)
    ensures ProcessCommand(text, fetched) == HandleStatus(fetched)
  {
  }

  /** Every character of an occurring needle is in the haystack. */
  lemma OccurrenceHasChar(haystack: string, needle: string, c: char)
    ensures Contains(haystack, needle) && c in needle ==> c in haystack
  {
    if Contains(haystack, needle) && c in needle {
      var i :| 0 <= i <= |haystack| - |needle| && OccursAt(haystack, needle, i);
      var k :| 0 <= k < |needle| && needle[k] == c;
      assert haystack[i..i + |needle|][k] == c;
    }
  }

  /** Lower-case text without surrounding whitespace is already normalised. */
  lemma NormalizedAlready(text: string)
    requires IsLower(text)
    requires text == [] || (!IsSpace(text[0]) && !IsSpace(text[|text| - 1]))
    ensures Normalize(text) == text
  {
    LowerOfLower(text);
    StripLeftClean(text);
    StripRightClean(text);
  }

  /** A non-status command is answered by the fixed reply of its rule. */
  lemma ReplyOfRule(text: string, fetched: Result<seq<Alert>, string>, j: nat)
    requires j < |Rules|
    requires !ContainsAny(Normalize(text), StatusKeywords)
    requires ContainsAny(Normalize(text), KeywordsOf(Rules[j]))
    requires forall m :: 0 <= m < j ==> !ContainsAny(Normalize(text), KeywordsOf(Rules[m]))
    ensures ProcessCommand(text, fetched) == FixedReply(Rules[j])
  {
    ClassifyIsTable(Normalize(text));
    FirstMatchIsFirst(Rules, Normalize(text), 0, j);
  }

  /** The same for a command already lower-case and stripped. */
  lemma ReplyOfCleanRule(text: string, fetched: Result<seq<Alert>, string>, j: nat)
    requires IsLower(text) && text != [] && !IsSpace(text[0]) && !IsSpace(text[|text| - 1])
    requires j < |Rules|
    requires !ContainsAny(text, StatusKeywords)
    requires ContainsAny(text, KeywordsOf(Rules[j]))
    requires forall m :: 0 <= m < j ==> !ContainsAny(text, KeywordsOf(Rules[m]))
    ensures ProcessCommand(text, fetched) == FixedReply(Rules[j])
  {
    ClassifyIsTable(text);
    FirstMatchIsFirst(Rules, text, 0, j);
    NormalizedAlready(text);
  }

  lemma StopPatrolClean(t: string)
    requires t == "stop patrol"
    ensures IsLower(t) && t != [] && !IsSpace(t[0]) && !IsSpace(t[|t| - 1])
  {
  }

  lemma StopPatrolHasStop(t: string)
    requires t == "stop patrol"
    ensures ContainsAny(t, StopKeywords)
  {
    assert OccursAt(t, "stop", 0);
    assert Contains(t, StopKeywords[0]);
  }

  lemma StopPatrolNoStatus(t: string)
    requires t == "stop patrol"
    ensures !ContainsAny(t, StatusKeywords)
  {
    OccurrenceHasChar(t, "status", 'u');
    OccurrenceHasChar(t, "report", 'e');
    OccurrenceHasChar(t, "what", 'w');
    OccurrenceHasChar(t, "how many", 'w');
  }

  /** "stop patrol" stops, although 'patrol' is a start keyword. */
  lemma StopPatrolStops(text: string, fetched: Result<seq<Alert>, string>)
    requires text == "stop patrol"
    ensures ProcessCommand(text, fetched).action == Some("stop_patrol")
  {
    StopPatrolClean(text);
    StopPatrolHasStop(text);
    StopPatrolNoStatus(text);
    ReplyOfCleanRule(text, fetched, 0);
  }

  lemma WhichClean(t: string)
    requires t == "which"
    ensures IsLower(t) && t != [] && !IsSpace(t[0]) && !IsSpace(t[|t| - 1])
  {
  }

  lemma WhichHasHi(t: string)
    requires t == "which"
    ensures ContainsAny(t, GreetKeywords)
  {
    assert OccursAt(t, "hi", 1);
    assert Contains(t, GreetKeywords[2]);
  }

  lemma WhichNoStatus(t: string)
    requires t == "which"
    ensures !ContainsAny(t, StatusKeywords)
  {
    OccurrenceHasChar(t, "status", 's');
    OccurrenceHasChar(t, "report", 'r');
    OccurrenceHasChar(t, "what", 'a');
    OccurrenceHasChar(t, "how many", 'o');
  }

  lemma WhichNoEarlierRule(t: string)
    requires t == "which"
    ensures forall m :: 0 <= m < 4 ==> !ContainsAny(t, KeywordsOf(Rules[m]))
  {
    OccurrenceHasChar(t, "stop", 's');
    OccurrenceHasChar(t, "halt", 'a');
    OccurrenceHasChar(t, "pause", 'p');
    OccurrenceHasChar(t, "start", 's');
    OccurrenceHasChar(t, "resume", 'r');
    OccurrenceHasChar(t, "begin", 'b');
    OccurrenceHasChar(t, "patrol", 'p');
    OccurrenceHasChar(t, "follow", 'f');
    OccurrenceHasChar(t, "home", 'o');
    OccurrenceHasChar(t, "return", 'r');
    OccurrenceHasChar(t, "base", 'b');
  }

  /** "which" greets: 'hi' matches inside the word. */
  lemma WhichGreets(text: string, fetched: Result<seq<Alert>, string>)
    requires text == "which"
    ensures ProcessCommand(text, fetched).action == Some("greet")
  {
    WhichClean(text);
    WhichHasHi(text);
    WhichNoStatus(text);
    WhichNoEarlierRule(text);
    ReplyOfCleanRule(text, fetched, 4);
  }

  /** Text with no keyword at all is the unknown intent with no action. */
  lemma NoKeywordIsUnknown(text: string, fetched: Result<seq<Alert>, string>)
    requires !ContainsAny(Normalize(text), StatusKeywords)
    requires forall k :: 0 <= k < |Rules| ==> !ContainsAny(Normalize(text), KeywordsOf(Rules[k]))
    ensures ProcessCommand(text, fetched) == FixedReply(Unknown)
  {
    ClassifyIsTable(Normalize(text));
    FirstMatchNone(Rules, Normalize(text), 0);
  }
}

/** The alerts and whitelist tables of backend/database.py, held in memory.
    Rows of the alerts table are kept in insertion order; the whitelist is
    kept in the order of its UNIQUE name index. SQLite's own engine, JSON
    (de)serialisation of meta and sample_images, and connection handling are
    not modelled: a stored JSON value reads back as the value written. */
module AlertStore {
  import opened Common
  import opened Json

  /** One row of the alerts table. */
  datatype Alert = Alert(
    id: string,
    timestamp: real,
    status: string,
    identity: Option<string>,
    confidence: Option<real>,
    angle: Option<real>,
    distance: Option<real>,
    snapshotPath: Option<string>,
    acknowledged: bool,
    meta: Json)

  /** A key of the dict handed to insert_alert: absent, present with null,
      or present with a value. */
  datatype Field<+T> = Absent | Null | Present(value: T)

  /** The dict handed to insert_alert, one entry per column it reads. For
      the nullable columns an absent key and a null value store the same
      NULL, so they are one case (None). */
  datatype AlertData = AlertData(
    id: Option<string>,
    timestamp: Field<real>,
    status: Field<string>,
    identity: Option<string>,
    confidence: Option<real>,
    angle: Option<real>,
    distance: Option<real>,
    snapshotPath: Option<string>,
    meta: Option<Json>)

  /** sqlite3.IntegrityError, by the constraint that failed. */
  datatype StoreError = NotNullViolated | DuplicateId(id: string)

  /** One row of the whitelist table. */
  datatype Person = Person(id: int, name: string, sampleImages: seq<string>, encCount: nat, createdAt: real)

  /** The arguments of get_alerts. A status of None or "" does not filter. */
  datatype AlertQuery = AlertQuery(limit: int, offset: int, status: Option<string>, acknowledged: Option<bool>)

  /** get_alerts' defaults: limit 20, offset 0, no filter. */
  function DefaultQuery(): AlertQuery
  {
    AlertQuery(20, 0, None, None)
  }

  /** The id insert_alert uses when the dict has none: alert_<milliseconds>. */
  function DefaultId(nowMs: nat): string
  {
    "alert_" + Decimal(nowMs)
  }

  /** The row insert_alert writes, before the primary key is checked; a
      null timestamp or status fails the NOT NULL constraint. */
  function NewRow(data: AlertData, now: real, nowMs: nat): Result<Alert, StoreError>
  {
    if data.timestamp.Null? || data.status.Null? then Err(NotNullViolated)
    else Ok(Alert(
      if data.id.Some? then data.id.value else DefaultId(nowMs),
      if data.timestamp.Present? then data.timestamp.value else now,
      if data.status.Present? then data.status.value else "unknown",
      data.identity, data.confidence, data.angle, data.distance, data.snapshotPath,
      false,
      if data.meta.Some? then data.meta.value else JObj(map[])))
  }

  predicate HasId(rows: seq<Alert>, id: string)
  {
    exists i :: 0 <= i < |rows| && rows[i].id == id
  }

  /** The PRIMARY KEY on id: no two rows share an id. */
  ghost predicate UniqueIds(rows: seq<Alert>)
  {
    forall i, j :: 0 <= i < j < |rows| ==> rows[i].id != rows[j].id
  }

  // ---------------------------------------------------------------------
  // get_alerts: WHERE, ORDER BY timestamp DESC, LIMIT / OFFSET

  /** The WHERE clause get_alerts builds: each supplied filter, AND-combined. */
  predicate Matches(a: Alert, q: AlertQuery)
  {
    && (q.status.Some? && q.status.value != "" ==> a.status == q.status.value)
    && (q.acknowledged.Some? ==> a.acknowledged == q.acknowledged.value)
  }

  /** The rows that pass the WHERE clause, in table order. */
  function Matching(rows: seq<Alert>, q: AlertQuery): (r: seq<Alert>)
    ensures |r| <= |rows|
  {
    if rows == [] then []
    else Matching(rows[..|rows| - 1], q) + (if Matches(rows[|rows| - 1], q) then [rows[|rows| - 1]] else [])
  }

  lemma {:induction false} MatchingMembers(rows: seq<Alert>, q: AlertQuery, x: Alert)
    ensures x in Matching(rows, q) <==> x in rows && Matches(x, q)
  {
    if rows != [] {
      MatchingMembers(rows[..|rows| - 1], q, x);
      assert rows == rows[..|rows| - 1] + [rows[|rows| - 1]];
    }
  }

  /** With no status and no acknowledged filter, every row matches. */
  lemma {:induction false} MatchingUnfiltered(rows: seq<Alert>, q: AlertQuery)
    requires q.status.None? && q.acknowledged.None?
    ensures Matching(rows, q) == rows
  {
    if rows != [] {
      MatchingUnfiltered(rows[..|rows| - 1], q);
      assert rows == rows[..|rows| - 1] + [rows[|rows| - 1]];
    }
  }

  predicate IsUnacknowledged(a: Alert)
  {
    !a.acknowledged
  }

  /** Non-increasing timestamps. */
  ghost predicate NewestFirst(s: seq<Alert>)
  {
    forall i, j :: 0 <= i < j < |s| ==> s[i].timestamp >= s[j].timestamp
  }

  /** Place x before the first row that is not newer than x. */
  function InsertByTime(x: Alert, s: seq<Alert>): (r: seq<Alert>)
    ensures |r| == |s| + 1
  {
    if s == [] || s[0].timestamp <= x.timestamp then [x] + s
    else [s[0]] + InsertByTime(x, s[1..])
  }

  /** One ordering ORDER BY timestamp DESC may produce: among equal
      timestamps SQLite promises no order, and this one keeps table order. */
  function SortByTimeDesc(s: seq<Alert>): (r: seq<Alert>)
    ensures |r| == |s|
  {
    if s == [] then [] else InsertByTime(s[0], SortByTimeDesc(s[1..]))
  }

  lemma InsertByTimeCorrect(x: Alert, s: seq<Alert>)
    requires NewestFirst(s)
    ensures NewestFirst(InsertByTime(x, s))
    ensures multiset(InsertByTime(x, s)) == multiset(s) + multiset{x}
  {
    InsertByTimeSorted(x, s);
    InsertByTimeAdds(x, s);
  }

  /** Inserting adds exactly x. */
  lemma {:induction false} InsertByTimeAdds(x: Alert, s: seq<Alert>)
    ensures multiset(InsertByTime(x, s)) == multiset(s) + multiset{x}
  {
    if s == [] || s[0].timestamp <= x.timestamp {
      assert InsertByTime(x, s) == [x] + s;
    } else {
      InsertByTimeAdds(x, s[1..]);
      assert s == [s[0]] + s[1..];
      assert InsertByTime(x, s) == [s[0]] + InsertByTime(x, s[1..]);
    }
  }

  /** Inserting into a newest-first list keeps it newest first. */
  lemma {:induction false} InsertByTimeSorted(x: Alert, s: seq<Alert>)
    requires NewestFirst(s)
    ensures NewestFirst(InsertByTime(x, s))
  {
    if s == [] || s[0].timestamp <= x.timestamp {
      assert InsertByTime(x, s) == [x] + s;
    } else {
      var t := InsertByTime(x, s[1..]);
      InsertByTimeSorted(x, s[1..]);
      InsertByTimeAdds(x, s[1..]);
      forall j | 0 <= j < |t|
        ensures s[0].timestamp >= t[j].timestamp
      {
        assert t[j] in multiset(t);
        if t[j] != x {
          assert t[j] in multiset(s[1..]);
          var k :| 0 <= k < |s| - 1 && s[1..][k] == t[j];
          assert s[k + 1] == t[j];
        }
      }
      assert InsertByTime(x, s) == [s[0]] + t;
    }
  }

  /** The ordering is newest first and holds exactly the rows it was given. */
  lemma {:induction false} SortByTimeDescCorrect(s: seq<Alert>)
    ensures NewestFirst(SortByTimeDesc(s))
    ensures multiset(SortByTimeDesc(s)) == multiset(s)
  {
    if s != [] {
      SortByTimeDescCorrect(s[1..]);
      InsertByTimeCorrect(s[0], SortByTimeDesc(s[1..]));
      assert s == [s[0]] + s[1..];
    }
  }

  /** SQLite's LIMIT / OFFSET: a negative offset counts as 0, a negative
      limit means no upper bound. */
  function Window<T>(s: seq<T>, limit: int, offset: int): seq<T>
  {
    var start := if offset < 0 then 0 else if offset > |s| then |s| else offset;
    if limit < 0 || start + limit >= |s| then s[start..] else s[start..start + limit]
  }

  /** The rows get_alerts returns. */
  function Page(rows: seq<Alert>, q: AlertQuery): seq<Alert>
  {
    Window(SortByTimeDesc(Matching(rows, q)), q.limit, q.offset)
  }

  /** Every returned row is a stored row passing every supplied filter. */
  lemma PageSound(rows: seq<Alert>, q: AlertQuery, x: Alert)
    requires x in Page(rows, q)
    ensures x in rows && Matches(x, q)
  {
    var sorted := SortByTimeDesc(Matching(rows, q));
    SortByTimeDescCorrect(Matching(rows, q));
    assert x in sorted;
    assert x in multiset(sorted);
    MatchingMembers(rows, q, x);
  }

  /** The page is newest first and holds at most `limit` rows. */
  lemma PageOrderedAndBounded(rows: seq<Alert>, q: AlertQuery)
    ensures NewestFirst(Page(rows, q))
    ensures q.limit >= 0 ==> |Page(rows, q)| <= q.limit
  {
    SortByTimeDescCorrect(Matching(rows, q));
  }

  /** Without LIMIT and OFFSET, the result holds every matching row exactly
      as often as the table does. */
  lemma PageUnboundedIsAllMatches(rows: seq<Alert>, q: AlertQuery)
    requires q.limit < 0 && q.offset <= 0
    ensures multiset(Page(rows, q)) == multiset(Matching(rows, q))
  {
    SortByTimeDescCorrect(Matching(rows, q));
  }

  /** Two consecutive pages are one page of twice the size: no row is
      skipped or repeated between them. */
  lemma ConsecutivePages(rows: seq<Alert>, q: AlertQuery)
    requires q.limit >= 0 && q.offset >= 0
    ensures Page(rows, q) + Page(rows, q.(offset := q.offset + q.limit))
         == Page(rows, q.(limit := 2 * q.limit))
  {
    var s := SortByTimeDesc(Matching(rows, q));
    assert Matching(rows, q.(offset := q.offset + q.limit)) == Matching(rows, q) by {
      MatchingIgnoresWindow(rows, q, q.(offset := q.offset + q.limit));
    }
    assert Matching(rows, q.(limit := 2 * q.limit)) == Matching(rows, q) by {
      MatchingIgnoresWindow(rows, q, q.(limit := 2 * q.limit));
    }
    AdjacentWindows(s, q.limit, q.offset);
  }

  /** Two windows of one size side by side make the window of twice it. */
  lemma AdjacentWindows<T>(s: seq<T>, limit: nat, offset: nat)
    ensures Window(s, limit, offset) + Window(s, limit, offset + limit) == Window(s, 2 * limit, offset)
  {
    var a := if offset > |s| then |s| else offset;
    var b := if offset + limit > |s| then |s| else offset + limit;
    var c := if offset + 2 * limit > |s| then |s| else offset + 2 * limit;
    assert Window(s, limit, offset) == s[a..b];
    assert Window(s, limit, offset + limit) == s[b..c];
    assert Window(s, 2 * limit, offset) == s[a..c];
    assert s[a..b] + s[b..c] == s[a..c];
  }

  lemma {:induction false} MatchingIgnoresWindow(rows: seq<Alert>, q: AlertQuery, q': AlertQuery)
    requires q.status == q'.status && q.acknowledged == q'.acknowledged
    ensures Matching(rows, q) == Matching(rows, q')
  {
    if rows != [] {
      MatchingIgnoresWindow(rows[..|rows| - 1], q, q');
    }
  }

  // ---------------------------------------------------------------------
  // acknowledge_alert and delete_old_alerts

  /** UPDATE alerts SET acknowledged = 1 WHERE id = ?, on one row. */
  function AckRow(a: Alert, id: string): Alert
  {
    if a.id == id then a.(acknowledged := true) else a
  }

  /** The same UPDATE on every row. */
  function AckRows(rows: seq<Alert>, id: string): (r: seq<Alert>)
    ensures |r| == |rows|
  {
    if rows == [] then [] else AckRows(rows[..|rows| - 1], id) + [AckRow(rows[|rows| - 1], id)]
  }

  lemma {:induction false} AckRowsAt(rows: seq<Alert>, id: string, i: int)
    requires 0 <= i < |rows|
    ensures AckRows(rows, id)[i] == AckRow(rows[i], id)
  {
    if i < |rows| - 1 {
      AckRowsAt(rows[..|rows| - 1], id, i);
    }
  }

  /** The update sets acknowledged on the rows with that id, never clears it
      anywhere, and changes no other column and no other row. */
  lemma AckRowsEffect(rows: seq<Alert>, id: string, i: int)
    requires 0 <= i < |rows|
    ensures AckRows(rows, id)[i].id == rows[i].id
    ensures AckRows(rows, id)[i].acknowledged == (rows[i].acknowledged || rows[i].id == id)
    ensures AckRows(rows, id)[i] == rows[i].(acknowledged := AckRows(rows, id)[i].acknowledged)
  {
    AckRowsAt(rows, id, i);
  }

  /** Acknowledging twice leaves the table as acknowledging once. */
  lemma AckRowsIdempotent(rows: seq<Alert>, id: string)
    ensures AckRows(AckRows(rows, id), id) == AckRows(rows, id)
  {
    var once := AckRows(rows, id);
    forall i | 0 <= i < |rows|
      ensures AckRows(once, id)[i] == once[i]
    {
      AckRowsAt(rows, id, i);
      AckRowsAt(once, id, i);
    }
  }

  /** The rows DELETE ... WHERE timestamp < cutoff keeps, in table order. */
  function Kept(rows: seq<Alert>, cutoff: real): (r: seq<Alert>)
    ensures |r| <= |rows|
  {
    if rows == [] then []
    else Kept(rows[..|rows| - 1], cutoff) + (if rows[|rows| - 1].timestamp >= cutoff then [rows[|rows| - 1]] else [])
  }

  /** The number of rows strictly older than the cutoff. */
  function CountOlder(rows: seq<Alert>, cutoff: real): nat
  {
    if rows == [] then 0
    else CountOlder(rows[..|rows| - 1], cutoff) + (if rows[|rows| - 1].timestamp < cutoff then 1 else 0)
  }

  /** Exactly the rows older than the cutoff go; every other row stays. */
  lemma {:induction false} KeptEffect(rows: seq<Alert>, cutoff: real, x: Alert)
    ensures x in Kept(rows, cutoff) <==> x in rows && x.timestamp >= cutoff
    ensures |rows| - |Kept(rows, cutoff)| == CountOlder(rows, cutoff)
  {
    if rows != [] {
      KeptEffect(rows[..|rows| - 1], cutoff, x);
      assert rows == rows[..|rows| - 1] + [rows[|rows| - 1]];
    }
  }

  lemma {:induction false} KeptUniqueIds(rows: seq<Alert>, cutoff: real)
    requires UniqueIds(rows)
    ensures UniqueIds(Kept(rows, cutoff))
  {
    if rows != [] {
      var init := rows[..|rows| - 1];
      var last := rows[|rows| - 1];
      KeptUniqueIds(init, cutoff);
      forall x | x in Kept(init, cutoff)
        ensures x.id != last.id
      {
        KeptEffect(init, cutoff, x);
      }
    }
  }

  // ---------------------------------------------------------------------
  // The whitelist's name order (SQLite's BINARY collation)

  /** Byte-wise (code point) order of strings, a proper prefix first. */
  predicate NameLess(a: string, b: string)
  {
    if a == [] then b != []
    else if b == [] then false
    else if a[0] != b[0] then a[0] < b[0]
    else NameLess(a[1..], b[1..])
  }

  lemma {:induction false} NameLessIrreflexive(a: string)
    ensures !NameLess(a, a)
  {
    if a != [] {
      NameLessIrreflexive(a[1..]);
    }
  }

  lemma {:induction false} NameLessTransitive(a: string, b: string, c: string)
    requires NameLess(a, b) && NameLess(b, c)
    ensures NameLess(a, c)
  {
    if a != [] && b != [] && c != [] && a[0] == b[0] && b[0] == c[0] {
      NameLessTransitive(a[1..], b[1..], c[1..]);
    }
  }

  lemma {:induction false} NameLessTotal(a: string, b: string)
    ensures a == b || NameLess(a, b) || NameLess(b, a)
  {
    if a != [] && b != [] && a[0] == b[0] {
      NameLessTotal(a[1..], b[1..]);
      if a[1..] == b[1..] {
        assert a == [a[0]] + a[1..] && b == [b[0]] + b[1..];
      }
    }
  }

  /** Strictly increasing names: ORDER BY name over a UNIQUE name column. */
  ghost predicate SortedByName(s: seq<Person>)
  {
    forall i, j :: 0 <= i < j < |s| ==> NameLess(s[i].name, s[j].name)
  }

  /** A set of rows has only one listing in strictly increasing name order,
      so ORDER BY name determines get_whitelist's result. */
  lemma {:induction false} SortedByNameUnique(a: seq<Person>, b: seq<Person>)
    requires SortedByName(a) && SortedByName(b)
    requires forall p :: p in a <==> p in b
    ensures a == b
  {
    assert a == [] <==> b == [] by {
      if a != [] { assert a[0] in b; }
      if b != [] { assert b[0] in a; }
    }
    if a != [] {
      assert a[0] in b && b[0] in a;
      if a[0] != b[0] {
        var i :| 0 <= i < |b| && b[i] == a[0];
        var j :| 0 <= j < |a| && a[j] == b[0];
        NameLessIrreflexive(a[0].name);
        NameLessIrreflexive(b[0].name);
        assert i > 0 && j > 0 by {
          if i == 0 || j == 0 { assert false; }
        }
        assert NameLess(b[0].name, a[0].name);
        assert NameLess(a[0].name, b[0].name);
        NameLessTransitive(a[0].name, b[0].name, a[0].name);
        assert false;
      }
      forall p
        ensures p in a[1..] <==> p in b[1..]
      {
        NameLessIrreflexive(p.name);
        if p in a[1..] {
          var k :| 0 <= k < |a[1..]| && a[1..][k] == p;
          assert NameLess(a[0].name, a[k + 1].name);
          assert p in b;
          var m :| 0 <= m < |b| && b[m] == p;
          assert m != 0;
          assert b[1..][m - 1] == p;
        }
        if p in b[1..] {
          var k :| 0 <= k < |b[1..]| && b[1..][k] == p;
          assert NameLess(b[0].name, b[k + 1].name);
          assert p in a;
          var m :| 0 <= m < |a| && a[m] == p;
          assert m != 0;
          assert a[1..][m - 1] == p;
        }
      }
      SortedByNameUnique(a[1..], b[1..]);
      assert a == [a[0]] + a[1..] && b == [b[0]] + b[1..];
    }
  }

  /** In a name-ordered list, the names before i are below `name`, the
      names from j on are above it, and only i..j (at most one row) holds it,
      when i is the first position not below `name`. */
  lemma NamePosition(s: seq<Person>, name: string, i: int, j: int)
    requires SortedByName(s)
    requires 0 <= i <= |s|
    requires forall k :: 0 <= k < i ==> NameLess(s[k].name, name)
    requires i == |s| || !NameLess(s[i].name, name)
    requires j == if i < |s| && s[i].name == name then i + 1 else i
    ensures forall k :: j <= k < |s| ==> NameLess(name, s[k].name)
    ensures forall k :: 0 <= k < |s| ==> (s[k].name == name <==> i <= k < j)
  {
    NameLessIrreflexive(name);
    forall k | j <= k < |s|
      ensures NameLess(name, s[k].name)
    {
      NameLessTotal(s[i].name, name);
      if s[i].name != name && k > i {
        NameLessTransitive(name, s[i].name, s[k].name);
      }
    }
  }

  /** Replacing the rows i..j of a name-ordered list by one row whose name
      lies strictly between the neighbours keeps the list ordered. */
  lemma ReplaceSorted(s: seq<Person>, i: int, j: int, person: Person)
    requires SortedByName(s)
    requires 0 <= i <= j <= |s|
    requires forall k :: 0 <= k < i ==> NameLess(s[k].name, person.name)
    requires forall k :: j <= k < |s| ==> NameLess(person.name, s[k].name)
    ensures SortedByName(s[..i] + [person] + s[j..])
  {
    var r := s[..i] + [person] + s[j..];
    forall a, b | 0 <= a < b < |r|
      ensures NameLess(r[a].name, r[b].name)
    {
      if a < i && b > i {
        NameLessTransitive(r[a].name, person.name, r[b].name);
      }
    }
  }

  /** The same replacement, when i..j are exactly the rows with the new
      row's name, keeps every row of another name and leaves the new row the
      only one with its name. */
  lemma ReplaceMembers(s: seq<Person>, i: int, j: int, person: Person)
    requires 0 <= i <= j <= |s|
    requires forall k :: 0 <= k < |s| ==> (s[k].name == person.name <==> i <= k < j)
    ensures forall p: Person :: p.name != person.name ==> (p in s[..i] + [person] + s[j..] <==> p in s)
    ensures forall p :: p in s[..i] + [person] + s[j..] && p.name == person.name ==> p == person
  {
    var r := s[..i] + [person] + s[j..];
    assert s == s[..i] + s[i..j] + s[j..];
    forall p: Person | p.name != person.name && p in s
      ensures p in r
    {
      var k :| 0 <= k < |s| && s[k] == p;
      assert k < i ==> r[k] == p;
      assert k >= j ==> r[k - j + i + 1] == p;
    }
    assert forall k :: 0 <= k < i ==> r[k] == s[k];
    assert forall k :: i < k < |r| ==> r[k] == s[k - i - 1 + j];
  }

  // ---------------------------------------------------------------------
  // The two tables

  class Database {
    /** The alerts table, in insertion order. */
    var alerts: seq<Alert>
    /** The whitelist table, in name order. */
    var whitelist: seq<Person>
    /** The largest whitelist id ever handed out (AUTOINCREMENT's sequence). */
    var lastPersonId: nat

    ghost predicate Valid()
      reads this
    {
      && UniqueIds(alerts)
      && SortedByName(whitelist)
      && (forall i :: 0 <= i < |whitelist| ==> 1 <= whitelist[i].id <= lastPersonId)
    }

    /** init_db on a fresh file: both tables empty. */
    constructor ()
      ensures Valid()
      ensures alerts == [] && whitelist == [] && lastPersonId == 0
    {
      alerts := [];
      whitelist := [];
      lastPersonId := 0;
    }

    /** insert_alert: store a new unacknowledged row with the defaults filled
        in and return its id; a null timestamp or status, or an id already in
        the table, raises IntegrityError and leaves the table as it was. */
    method InsertAlert(data: AlertData, now: real, nowMs: nat) returns (r: Result<string, StoreError>)
      requires Valid()
      modifies this
      ensures Valid()
      ensures whitelist == old(whitelist) && lastPersonId == old(lastPersonId)
      ensures data.timestamp.Null? || data.status.Null? ==> r == Err(NotNullViolated) && alerts == old(alerts)
      ensures NewRow(data, now, nowMs).Ok? ==>
        var row := NewRow(data, now, nowMs).value;
        && row.id == (if data.id.Some? then data.id.value else DefaultId(nowMs))
        && !row.acknowledged
        && row.status == (if data.status.Present? then data.status.value else "unknown")
        && row.meta == (if data.meta.Some? then data.meta.value else JObj(map[]))
        && (HasId(old(alerts), row.id) ==> r == Err(DuplicateId(row.id)) && alerts == old(alerts))
        && (!HasId(old(alerts), row.id) ==> r == Ok(row.id) && alerts == old(alerts) + [row])
    {
      var candidate := NewRow(data, now, nowMs);
      if candidate.Err? {
        return Err(candidate.error);
      }
      var row := candidate.value;
      var i := 0;
      while i < |alerts|
        invariant 0 <= i <= |alerts|
        invariant forall k :: 0 <= k < i ==> alerts[k].id != row.id
      {
        if alerts[i].id == row.id {
          return Err(DuplicateId(row.id));
        }
        i := i + 1;
      }
      alerts := alerts + [row];
      r := Ok(row.id);
    }

    /** get_alerts: the matching rows, newest first, LIMIT limit OFFSET offset.
        The WHERE scan is the loop; ordering and the window follow. */
    method GetAlerts(q: AlertQuery) returns (r: seq<Alert>)
      requires Valid()
      ensures r == Page(alerts, q)
    {
      var matching: seq<Alert> := [];
      var i := 0;
      while i < |alerts|
        invariant 0 <= i <= |alerts|
        invariant matching == Matching(alerts[..i], q)
      {
        assert alerts[..i + 1][..i] == alerts[..i];
        if Matches(alerts[i], q) {
          matching := matching + [alerts[i]];
        }
        i := i + 1;
      }
      assert alerts[..|alerts|] == alerts;
      r := Window(SortByTimeDesc(matching), q.limit, q.offset);
    }

    /** get_alert_by_id: the row with that id, or None. */
    method GetAlertById(id: string) returns (r: Option<Alert>)
      requires Valid()
      ensures r.Some? <==> HasId(alerts, id)
      ensures r.Some? ==> r.value in alerts && r.value.id == id
    {
      var i := 0;
      while i < |alerts|
        invariant 0 <= i <= |alerts|
        invariant forall k :: 0 <= k < i ==> alerts[k].id != id
      {
        if alerts[i].id == id {
          return Some(alerts[i]);
        }
        i := i + 1;
      }
      r := None;
    }

    /** acknowledge_alert: true iff some row has that id; that row is marked
        acknowledged and nothing else changes. */
    method AcknowledgeAlert(id: string) returns (found: bool)
      requires Valid()
      modifies this
      ensures Valid()
      ensures found == HasId(old(alerts), id)
      ensures alerts == AckRows(old(alerts), id)
      ensures whitelist == old(whitelist) && lastPersonId == old(lastPersonId)
    {
      var updated: seq<Alert> := [];
      found := false;
      var i := 0;
      while i < |alerts|
        invariant 0 <= i <= |alerts|
        invariant updated == AckRows(alerts[..i], id)
        invariant found == HasId(alerts[..i], id)
      {
        assert alerts[..i + 1][..i] == alerts[..i];
        if alerts[i].id == id {
          found := true;
        }
        updated := updated + [AckRow(alerts[i], id)];
        i := i + 1;
      }
      assert alerts[..|alerts|] == alerts;
      forall i, j | 0 <= i < j < |updated|
        ensures updated[i].id != updated[j].id
      {
        AckRowsAt(alerts, id, i);
        AckRowsAt(alerts, id, j);
      }
      alerts := updated;
    }

    /** delete_old_alerts: remove the rows with timestamp < cutoff and return
        how many went. */
    method DeleteOldAlerts(cutoff: real) returns (deleted: nat)
      requires Valid()
      modifies this
      ensures Valid()
      ensures alerts == Kept(old(alerts), cutoff)
      ensures deleted == CountOlder(old(alerts), cutoff)
      ensures whitelist == old(whitelist) && lastPersonId == old(lastPersonId)
    {
      var kept: seq<Alert> := [];
      deleted := 0;
      var i := 0;
      while i < |alerts|
        invariant 0 <= i <= |alerts|
        invariant kept == Kept(alerts[..i], cutoff)
        invariant deleted == CountOlder(alerts[..i], cutoff)
      {
        assert alerts[..i + 1][..i] == alerts[..i];
        if alerts[i].timestamp < cutoff {
          deleted := deleted + 1;
        } else {
          kept := kept + [alerts[i]];
        }
        i := i + 1;
      }
      assert alerts[..|alerts|] == alerts;
      KeptUniqueIds(alerts, cutoff);
      alerts := kept;
    }

    /** add_whitelist_person (INSERT OR REPLACE on the UNIQUE name): any row
        with that name is replaced by a new row with a fresh id, the given
        images and enc_count = their number; the new id is returned. */
    method AddWhitelistPerson(name: string, sampleImages: seq<string>, now: real) returns (personId: int)
      requires Valid()
      modifies this
      ensures Valid()
      ensures alerts == old(alerts)
      ensures personId == old(lastPersonId) + 1 && lastPersonId == personId
      ensures Person(personId, name, sampleImages, |sampleImages|, now) in whitelist
      ensures forall p :: p in whitelist && p.name == name ==> p == Person(personId, name, sampleImages, |sampleImages|, now)
      ensures forall p: Person :: p.name != name ==> (p in whitelist <==> p in old(whitelist))
    {
      var i := 0;
      while i < |whitelist| && NameLess(whitelist[i].name, name)
        invariant 0 <= i <= |whitelist|
        invariant forall k :: 0 <= k < i ==> NameLess(whitelist[k].name, name)
      {
        i := i + 1;
      }
      var j := if i < |whitelist| && whitelist[i].name == name then i + 1 else i;
      NamePosition(whitelist, name, i, j);
      personId := lastPersonId + 1;
      var person := Person(personId, name, sampleImages, |sampleImages|, now);
      ReplaceSorted(whitelist, i, j, person);
      ReplaceMembers(whitelist, i, j, person);
      whitelist := whitelist[..i] + [person] + whitelist[j..];
      lastPersonId := personId;
    }

    /** get_whitelist: every row, in increasing name order. */
    method GetWhitelist() returns (r: seq<Person>)
      requires Valid()
      ensures SortedByName(r)
      ensures forall p :: p in r <==> p in whitelist
    {
      r := whitelist;
    }
  }
}

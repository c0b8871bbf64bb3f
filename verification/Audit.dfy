/**
 The suspicious-activity query over the audit log, and how its rows are mapped.  Times
 are whole seconds since the epoch; hours are those of a time zone a whole number of
 hours from UTC.
 */
module Audit {
  import opened Codes

  const DAY := 86400
  const HOUR := 3600
  const RAPID_BUCKET := 300

  datatype AuditRow = AuditRow(
    logId: int, tableName: string, recordPk: int, operation: string, officerId: int, beltNumber: string,
    backendPid: int, clientAddr: string, oldValues: string, newValues: string, epoch: nat)

  /** The log, and the station each officer, case and piece of evidence belongs to. */
  datatype Db = Db(
    log: seq<AuditRow>, officers: map<int, int>, cases: map<int, int>, evidence: map<int, int>)

  // ---- Counting ----

  function Count(s: seq<AuditRow>, p: AuditRow -> bool): nat {
    if s == [] then 0 else (if p(s[0]) then 1 else 0) + Count(s[1..], p)
  }

  function Where(s: seq<AuditRow>, p: AuditRow -> bool): seq<AuditRow> {
    if s == [] then [] else (if p(s[0]) then [s[0]] else []) + Where(s[1..], p)
  }

  /** The pigeonhole: what lies in one of two boxes is counted in one of them. */
  lemma {:induction false} TwoBoxes(s: seq<AuditRow>, p: AuditRow -> bool, q: AuditRow -> bool, r: AuditRow -> bool)
    requires forall x :: x in s && p(x) ==> q(x) || r(x)
    ensures Count(s, p) <= Count(s, q) + Count(s, r)
  {
    if s != [] {
      assert s[0] in s;
      assert forall x :: x in s[1..] ==> x in s;
      TwoBoxes(s[1..], p, q, r);
    }
  }

  lemma {:induction false} CountMono(s: seq<AuditRow>, p: AuditRow -> bool, q: AuditRow -> bool)
    requires forall x :: x in s && p(x) ==> q(x)
    ensures Count(s, p) <= Count(s, q)
  {
    if s != [] {
      assert s[0] in s;
      assert forall x :: x in s[1..] ==> x in s;
      CountMono(s[1..], p, q);
    }
  }

  lemma {:induction false} WhereMember(s: seq<AuditRow>, p: AuditRow -> bool, x: AuditRow)
    ensures x in Where(s, p) <==> x in s && p(x)
    ensures multiset(Where(s, p))[x] == if p(x) then multiset(s)[x] else 0
  {
    if s != [] {
      WhereMember(s[1..], p, x);
      assert s == [s[0]] + s[1..];
    }
  }

  lemma {:induction false} CountWhere(s: seq<AuditRow>, p: AuditRow -> bool)
    ensures |Where(s, p)| == Count(s, p)
  {
    if s != [] {
      CountWhere(s[1..], p);
    }
  }

  // ---- The four patterns ----

  predicate Recent(now: int, x: AuditRow) {
    x.epoch >= now - DAY
  }

  predicate StationOfficer(db: Db, station: int, officer: int) {
    officer in db.officers && db.officers[officer] == station
  }

  predicate Relevant(db: Db, now: int, station: int, x: AuditRow) {
    Recent(now, x) && StationOfficer(db, station, x.officerId)
  }

  /** The groups the two counting sub-queries form. */
  function InHour(db: Db, now: int, station: int, pid: int, hour: int): AuditRow -> bool {
    (x: AuditRow) => Relevant(db, now, station, x) && x.backendPid == pid && x.epoch / HOUR == hour
  }

  function DeletesInBucket(db: Db, now: int, station: int, officer: int, bucket: int): AuditRow -> bool {
    (x: AuditRow) =>
      Relevant(db, now, station, x) && x.operation == "DELETE" && x.officerId == officer && x.epoch / RAPID_BUCKET == bucket
  }

  ghost predicate BusyPid(db: Db, now: int, station: int, pid: int) {
    exists hour: int :: Count(db.log, InHour(db, now, station, pid, hour)) > 20
  }

  ghost predicate RapidOfficer(db: Db, now: int, station: int, officer: int) {
    exists bucket: int :: Count(db.log, DeletesInBucket(db, now, station, officer, bucket)) >= 5
  }

  predicate Touched(db: Db, station: int, x: AuditRow) {
    || (x.tableName == "CASES" && x.recordPk in db.cases && db.cases[x.recordPk] == station)
    || (x.tableName == "EVIDENCE" && x.recordPk in db.evidence && db.evidence[x.recordPk] in db.cases
        && db.cases[db.evidence[x.recordPk]] == station)
  }

  datatype Pattern = BULK_CHANGE | RAPID_DELETE | AFTER_HOURS | JURISDICTION_VIOLATION

  ghost predicate Matches(db: Db, now: int, station: int, pattern: Pattern, x: AuditRow) {
    match pattern
    case BULK_CHANGE => Relevant(db, now, station, x) && BusyPid(db, now, station, x.backendPid)
    case RAPID_DELETE =>
      Relevant(db, now, station, x) && x.operation == "DELETE" && RapidOfficer(db, now, station, x.officerId)
    case AFTER_HOURS => Relevant(db, now, station, x) && !(6 <= x.epoch / HOUR % 24 < 22)
    case JURISDICTION_VIOLATION =>
      Recent(now, x) && x.officerId in db.officers && db.officers[x.officerId] != station && Touched(db, station, x)
  }

  ghost function Flagged(db: Db, now: int, station: int, pattern: Pattern): seq<AuditRow> {
    Where(db.log, (x: AuditRow) => Matches(db, now, station, pattern, x))
  }

  predicate NewestFirst(rows: seq<AuditRow>) {
    forall i, j :: 0 <= i < j < |rows| ==> rows[i].epoch >= rows[j].epoch
  }

  ghost function Union(db: Db, now: int, station: int): seq<AuditRow> {
    Flagged(db, now, station, BULK_CHANGE) + Flagged(db, now, station, RAPID_DELETE)
    + Flagged(db, now, station, AFTER_HOURS) + Flagged(db, now, station, JURISDICTION_VIOLATION)
  }

  /** What the database may return: the union of the four in some newest-first order. */
  ghost predicate IsAnswer(db: Db, now: int, station: int, rows: seq<AuditRow>) {
    NewestFirst(rows) && multiset(rows) == multiset(Union(db, now, station))
  }

  // ---- What the buckets guarantee ----

  function DeletesBetween(db: Db, now: int, station: int, officer: int, from: int, to: int): AuditRow -> bool {
    (x: AuditRow) =>
      Relevant(db, now, station, x) && x.operation == "DELETE" && x.officerId == officer && from <= x.epoch <= to
  }

  function WritesBetween(db: Db, now: int, station: int, pid: int, from: int, to: int): AuditRow -> bool {
    (x: AuditRow) => Relevant(db, now, station, x) && x.backendPid == pid && from <= x.epoch <= to
  }

  /** Nine deletes by one officer within 300 seconds are always flagged, wherever the
      bucket boundaries fall. */
  lemma NineDeletesFlagged(db: Db, now: int, station: int, officer: int, from: int)
    requires Count(db.log, DeletesBetween(db, now, station, officer, from, from + RAPID_BUCKET)) >= 9
    ensures RapidOfficer(db, now, station, officer)
  {
    var p := DeletesBetween(db, now, station, officer, from, from + RAPID_BUCKET);
    var k := from / RAPID_BUCKET;
    var q, r := DeletesInBucket(db, now, station, officer, k), DeletesInBucket(db, now, station, officer, k + 1);
    forall x | x in db.log && p(x) ensures q(x) || r(x) {
      assert x.epoch / RAPID_BUCKET == k || x.epoch / RAPID_BUCKET == k + 1;
    }
    TwoBoxes(db.log, p, q, r);
    assert Count(db.log, q) >= 5 || Count(db.log, r) >= 5;
  }

  /** Five deletes in the 300 seconds from an aligned start. */
  ghost predicate RapidFrom(db: Db, now: int, station: int, officer: int, from: int) {
    from % RAPID_BUCKET == 0
    && Count(db.log, DeletesBetween(db, now, station, officer, from, from + RAPID_BUCKET - 1)) >= 5
  }

  /** An officer is flagged exactly for such a window. */
  lemma RapidExact(db: Db, now: int, station: int, officer: int)
    ensures RapidOfficer(db, now, station, officer) <==> exists from: int :: RapidFrom(db, now, station, officer, from)
  {
    if RapidOfficer(db, now, station, officer) {
      var bucket: int :| Count(db.log, DeletesInBucket(db, now, station, officer, bucket)) >= 5;
      var from := bucket * RAPID_BUCKET;
      CountMono(db.log, DeletesInBucket(db, now, station, officer, bucket),
                DeletesBetween(db, now, station, officer, from, from + RAPID_BUCKET - 1));
      assert RapidFrom(db, now, station, officer, from);
    }
    if from: int :| RapidFrom(db, now, station, officer, from) {
      CountMono(db.log, DeletesBetween(db, now, station, officer, from, from + RAPID_BUCKET - 1),
                DeletesInBucket(db, now, station, officer, from / RAPID_BUCKET));
    }
  }

  lemma FortyOneWritesFlagged(db: Db, now: int, station: int, pid: int, from: int)
    requires Count(db.log, WritesBetween(db, now, station, pid, from, from + HOUR)) >= 41
    ensures BusyPid(db, now, station, pid)
  {
    var p := WritesBetween(db, now, station, pid, from, from + HOUR);
    var k := from / HOUR;
    var q, r := InHour(db, now, station, pid, k), InHour(db, now, station, pid, k + 1);
    forall x | x in db.log && p(x) ensures q(x) || r(x) {
      assert x.epoch / HOUR == k || x.epoch / HOUR == k + 1;
    }
    TwoBoxes(db.log, p, q, r);
    assert Count(db.log, q) > 20 || Count(db.log, r) > 20;
  }

  ghost predicate BusyFrom(db: Db, now: int, station: int, pid: int, from: int) {
    from % HOUR == 0 && Count(db.log, WritesBetween(db, now, station, pid, from, from + HOUR - 1)) >= 21
  }

  /** And a backend exactly for twenty-one rows in an aligned hour. */
  lemma BusyExact(db: Db, now: int, station: int, pid: int)
    ensures BusyPid(db, now, station, pid) <==> exists from: int :: BusyFrom(db, now, station, pid, from)
  {
    if BusyPid(db, now, station, pid) {
      var hour: int :| Count(db.log, InHour(db, now, station, pid, hour)) > 20;
      var from := hour * HOUR;
      CountMono(db.log, InHour(db, now, station, pid, hour), WritesBetween(db, now, station, pid, from, from + HOUR - 1));
      assert BusyFrom(db, now, station, pid, from);
    }
    if from: int :| BusyFrom(db, now, station, pid, from) {
      CountMono(db.log, WritesBetween(db, now, station, pid, from, from + HOUR - 1),
                InHour(db, now, station, pid, from / HOUR));
    }
  }

  // ---- What they miss ----

  function WithId(x: AuditRow, id: int): AuditRow {
    x.(logId := id)
  }

  /** n rows alike but for their numbers, from `first` on. */
  function Rows(n: nat, first: int, x: AuditRow): (r: seq<AuditRow>)
    ensures |r| == n && forall i :: 0 <= i < n ==> r[i] == WithId(x, first + i)
  {
    if n == 0 then [] else [WithId(x, first)] + Rows(n - 1, first + 1, x)
  }

  /** The log's primary key. */
  predicate DistinctIds(log: seq<AuditRow>) {
    forall i, j :: 0 <= i < j < |log| ==> log[i].logId != log[j].logId
  }

  lemma {:induction false} CountRows(n: nat, first: int, x: AuditRow, p: AuditRow -> bool)
    requires forall id :: p(WithId(x, id)) == p(x)
    ensures Count(Rows(n, first, x), p) == if p(x) then n else 0
  {
    if n > 0 {
      CountRows(n - 1, first + 1, x, p);
      assert Rows(n, first, x)[1..] == Rows(n - 1, first + 1, x);
      assert p(WithId(x, first)) == p(x);
    }
  }

  lemma {:induction false} CountAppend(a: seq<AuditRow>, b: seq<AuditRow>, p: AuditRow -> bool)
    ensures Count(a + b, p) == Count(a, p) + Count(b, p)
  {
    if a == [] {
      assert a + b == b;
    } else {
      assert (a + b)[0] == a[0] && (a + b)[1..] == a[1..] + b;
      CountAppend(a[1..], b, p);
    }
  }

  function Delete(officer: int, t: nat): AuditRow {
    AuditRow(0, "CASES", 1, "DELETE", officer, "", 7, "", "", "", t)
  }

  /** n rows in the last second of a bucket and n in the first of the next. */
  function Straddling(n: nat, officer: int, station: int, boundary: nat): (db: Db)
    requires boundary > 0
    ensures DistinctIds(db.log) && |db.log| == 2 * n
  {
    Db(Rows(n, 1, Delete(officer, boundary - 1)) + Rows(n, n + 1, Delete(officer, boundary)),
       map[officer := station], map[], map[])
  }

  lemma CountStraddling(n: nat, officer: int, station: int, boundary: nat, p: AuditRow -> bool)
    requires boundary > 0
    requires forall id, t: nat :: p(WithId(Delete(officer, t), id)) == p(Delete(officer, t))
    ensures Count(Straddling(n, officer, station, boundary).log, p) ==
            (if p(Delete(officer, boundary - 1)) then n else 0) + (if p(Delete(officer, boundary)) then n else 0)
  {
    var a, b := Delete(officer, boundary - 1), Delete(officer, boundary);
    CountAppend(Rows(n, 1, a), Rows(n, n + 1, b), p);
    CountRows(n, 1, a, p);
    CountRows(n, n + 1, b, p);
  }

  /** Eight deletes within two seconds across a boundary go unnoticed. */
  lemma EightDeletesMissed(officer: int, station: int, k: nat, now: int)
    requires k > 0 && RAPID_BUCKET * k - 1 >= now - DAY
    ensures var db := Straddling(4, officer, station, RAPID_BUCKET * k);
            Count(db.log, DeletesBetween(db, now, station, officer, RAPID_BUCKET * k - 1, RAPID_BUCKET * k)) == 8
            && DistinctIds(db.log) && !RapidOfficer(db, now, station, officer)
  {
    var db := Straddling(4, officer, station, RAPID_BUCKET * k);
    CountStraddling(4, officer, station, RAPID_BUCKET * k,
                    DeletesBetween(db, now, station, officer, RAPID_BUCKET * k - 1, RAPID_BUCKET * k));
    forall bucket: int ensures Count(db.log, DeletesInBucket(db, now, station, officer, bucket)) < 5 {
      CountStraddling(4, officer, station, RAPID_BUCKET * k, DeletesInBucket(db, now, station, officer, bucket));
    }
  }

  /** Forty writes within two seconds across an hour boundary go unnoticed. */
  lemma FortyWritesMissed(officer: int, station: int, k: nat, now: int)
    requires k > 0 && HOUR * k - 1 >= now - DAY
    ensures var db := Straddling(20, officer, station, HOUR * k);
            Count(db.log, WritesBetween(db, now, station, 7, HOUR * k - 1, HOUR * k)) == 40
            && DistinctIds(db.log) && !BusyPid(db, now, station, 7)
  {
    var db := Straddling(20, officer, station, HOUR * k);
    CountStraddling(20, officer, station, HOUR * k, WritesBetween(db, now, station, 7, HOUR * k - 1, HOUR * k));
    forall hour: int ensures Count(db.log, InHour(db, now, station, 7, hour)) <= 20 {
      CountStraddling(20, officer, station, HOUR * k, InHour(db, now, station, 7, hour));
    }
  }

  // ---- The answer ----

  /** How often a row is returned for one pattern. */
  ghost function Hits(db: Db, now: int, station: int, pattern: Pattern, x: AuditRow): nat {
    if Matches(db, now, station, pattern, x) then multiset(db.log)[x] else 0
  }

  lemma FlaggedHits(db: Db, now: int, station: int, pattern: Pattern, x: AuditRow)
    ensures multiset(Flagged(db, now, station, pattern))[x] == Hits(db, now, station, pattern, x)
  {
    hide Matches;
    WhereMember(db.log, (y: AuditRow) => Matches(db, now, station, pattern, y), x);
  }

  /** Every row of the log is returned once for each pattern it matches, and nothing
      else is returned. */
  lemma ReturnedPerPattern(db: Db, now: int, station: int, rows: seq<AuditRow>, x: AuditRow)
    requires IsAnswer(db, now, station, rows)
    ensures multiset(rows)[x] == Hits(db, now, station, BULK_CHANGE, x) + Hits(db, now, station, RAPID_DELETE, x)
              + Hits(db, now, station, AFTER_HOURS, x) + Hits(db, now, station, JURISDICTION_VIOLATION, x)
  {
    hide Matches, NewestFirst, Flagged, Hits;
    FlaggedHits(db, now, station, BULK_CHANGE, x);
    FlaggedHits(db, now, station, RAPID_DELETE, x);
    FlaggedHits(db, now, station, AFTER_HOURS, x);
    FlaggedHits(db, now, station, JURISDICTION_VIOLATION, x);
  }

  /** In the last 24 hours, by an officer of the station. */
  predicate OwnRecent(db: Db, now: int, station: int, x: AuditRow) {
    x.epoch >= now - 86400 && x.officerId in db.officers && db.officers[x.officerId] == station
  }

  /** Before 06:00 or from 22:00 on. */
  predicate AtNight(x: AuditRow) {
    x.epoch % 86400 < 21600 || x.epoch % 86400 >= 79200
  }

  /** In the last 24 hours, by an officer of another station, on a case of this station or on
      evidence of one. */
  predicate ForeignHand(db: Db, now: int, station: int, x: AuditRow) {
    && x.epoch >= now - 86400 && x.officerId in db.officers && db.officers[x.officerId] != station
    && ((x.tableName == "CASES" && x.recordPk in db.cases && db.cases[x.recordPk] == station)
        || (x.tableName == "EVIDENCE" && x.recordPk in db.evidence && db.evidence[x.recordPk] in db.cases
            && db.cases[db.evidence[x.recordPk]] == station))
  }

  /** Twenty-one rows by the station's officers under one backend in an hour that starts at a
      multiple of 3600. */
  ghost predicate BusyHour(db: Db, now: int, station: int, pid: int, from: int) {
    from % 3600 == 0
    && Count(db.log, (x: AuditRow) => OwnRecent(db, now, station, x) && x.backendPid == pid
                                      && from <= x.epoch < from + 3600) >= 21
  }

  /** Five deletes by one officer in 300 seconds that start at a multiple of 300. */
  ghost predicate RapidWindow(db: Db, now: int, station: int, officer: int, from: int) {
    from % 300 == 0
    && Count(db.log, (x: AuditRow) => OwnRecent(db, now, station, x) && x.operation == "DELETE" && x.officerId == officer
                                      && from <= x.epoch < from + 300) >= 5
  }

  lemma NightExact(x: AuditRow)
    ensures AtNight(x) <==> !(6 <= x.epoch / HOUR % 24 < 22)
  {
    var h, s := x.epoch / 3600, x.epoch % 3600;
    assert x.epoch == 3600 * h + s;
    var d, r := h / 24, h % 24;
    assert h == 24 * d + r;
    assert x.epoch == 86400 * d + (3600 * r + s) && 0 <= 3600 * r + s < 86400;
    assert x.epoch % 86400 == 3600 * r + s;
  }

  lemma BusyHours(db: Db, now: int, station: int, pid: int)
    ensures BusyPid(db, now, station, pid) <==> exists from: int :: BusyHour(db, now, station, pid, from)
  {
    BusyExact(db, now, station, pid);
    forall from: int ensures BusyFrom(db, now, station, pid, from) <==> BusyHour(db, now, station, pid, from) {
      var p := WritesBetween(db, now, station, pid, from, from + HOUR - 1);
      var q := (x: AuditRow) => OwnRecent(db, now, station, x) && x.backendPid == pid && from <= x.epoch < from + 3600;
      CountMono(db.log, p, q);
      CountMono(db.log, q, p);
    }
  }

  lemma RapidWindows(db: Db, now: int, station: int, officer: int)
    ensures RapidOfficer(db, now, station, officer) <==> exists from: int :: RapidWindow(db, now, station, officer, from)
  {
    RapidExact(db, now, station, officer);
    forall from: int ensures RapidFrom(db, now, station, officer, from) <==> RapidWindow(db, now, station, officer, from) {
      var p := DeletesBetween(db, now, station, officer, from, from + RAPID_BUCKET - 1);
      var q := (x: AuditRow) => OwnRecent(db, now, station, x) && x.operation == "DELETE" && x.officerId == officer
                                && from <= x.epoch < from + 300;
      CountMono(db.log, p, q);
      CountMono(db.log, q, p);
    }
  }

  /** How many of the four descriptions fit a row. */
  ghost function Reasons(db: Db, now: int, station: int, x: AuditRow): nat {
    (if OwnRecent(db, now, station, x) && exists from: int :: BusyHour(db, now, station, x.backendPid, from) then 1 else 0)
    + (if OwnRecent(db, now, station, x) && x.operation == "DELETE"
          && exists from: int :: RapidWindow(db, now, station, x.officerId, from) then 1 else 0)
    + (if OwnRecent(db, now, station, x) && AtNight(x) then 1 else 0)
    + (if ForeignHand(db, now, station, x) then 1 else 0)
  }

  lemma MatchesExact(db: Db, now: int, station: int, x: AuditRow)
    ensures Matches(db, now, station, BULK_CHANGE, x) <==>
              OwnRecent(db, now, station, x) && exists from: int :: BusyHour(db, now, station, x.backendPid, from)
    ensures Matches(db, now, station, RAPID_DELETE, x) <==>
              OwnRecent(db, now, station, x) && x.operation == "DELETE"
              && exists from: int :: RapidWindow(db, now, station, x.officerId, from)
    ensures Matches(db, now, station, AFTER_HOURS, x) <==> OwnRecent(db, now, station, x) && AtNight(x)
    ensures Matches(db, now, station, JURISDICTION_VIOLATION, x) <==> ForeignHand(db, now, station, x)
  {
    hide BusyPid, RapidOfficer, BusyHour, RapidWindow, AtNight;
    NightExact(x);
    BusyHours(db, now, station, x.backendPid);
    RapidWindows(db, now, station, x.officerId);
  }

  /** Every answer holds each row of the log as often as there are reasons in the row's own
      fields to report it, and no other row. */
  lemma AnswerExact(db: Db, now: int, station: int, rows: seq<AuditRow>, x: AuditRow)
    requires IsAnswer(db, now, station, rows)
    ensures multiset(rows)[x] == multiset(db.log)[x] * Reasons(db, now, station, x)
    ensures x in rows <==> x in db.log && Reasons(db, now, station, x) > 0
  {
    hide Matches, NewestFirst, Union, OwnRecent, ForeignHand, AtNight, BusyHour, RapidWindow;
    ReturnedPerPattern(db, now, station, rows, x);
    MatchesExact(db, now, station, x);
    var n := multiset(db.log)[x];
    assert n * Reasons(db, now, station, x) ==
           Hits(db, now, station, BULK_CHANGE, x) + Hits(db, now, station, RAPID_DELETE, x)
           + Hits(db, now, station, AFTER_HOURS, x) + Hits(db, now, station, JURISDICTION_VIOLATION, x);
    assert x in rows <==> multiset(rows)[x] > 0;
    assert x in db.log <==> n > 0;
  }

  /** So what an officer of the station does at night is in every answer, and so is what an
      officer of another station does to its cases or evidence; a row that none of the four
      describes is in none. */
  lemma NightAndForeign(db: Db, now: int, station: int, rows: seq<AuditRow>, x: AuditRow)
    requires IsAnswer(db, now, station, rows) && x in db.log
    ensures OwnRecent(db, now, station, x) && AtNight(x) ==> x in rows
    ensures ForeignHand(db, now, station, x) ==> x in rows
    ensures !(OwnRecent(db, now, station, x) && AtNight(x)) && !ForeignHand(db, now, station, x)
            && (forall from: int :: !BusyHour(db, now, station, x.backendPid, from))
            && (forall from: int :: !RapidWindow(db, now, station, x.officerId, from))
            ==> x !in rows
  {
    hide IsAnswer, OwnRecent, ForeignHand, AtNight, BusyHour, RapidWindow;
    AnswerExact(db, now, station, rows, x);
  }

  // ---- Mapping the rows ----

  /** strncpy into a field of `size` bytes with a final NUL. */
  function Cut(s: string, size: nat): string
    requires size > 0
  {
    if |s| < size then s else s[..size - 1]
  }

  function MapRow(x: AuditRow): AuditRow {
    x.(tableName := Cut(x.tableName, 32), operation := Cut(x.operation, 16), beltNumber := Cut(x.beltNumber, 32),
       clientAddr := Cut(x.clientAddr, 48), oldValues := Cut(x.oldValues, 8192), newValues := Cut(x.newValues, 8192))
  }

  /** A mapped row fits the record's fixed fields, keeps every number, and keeps a text
      exactly when it fits with its NUL; otherwise it keeps the longest start that does. */
  lemma MapRowFits(x: AuditRow)
    ensures var m := MapRow(x);
            && m.logId == x.logId && m.recordPk == x.recordPk && m.officerId == x.officerId
            && m.backendPid == x.backendPid && m.epoch == x.epoch
            && Fitted(x.tableName, m.tableName, 32) && Fitted(x.operation, m.operation, 16)
            && Fitted(x.beltNumber, m.beltNumber, 32) && Fitted(x.clientAddr, m.clientAddr, 48)
            && Fitted(x.oldValues, m.oldValues, 8192) && Fitted(x.newValues, m.newValues, 8192)
  {
    hide Fitted, Cut;
    CutFits(x.tableName, 32);
    CutFits(x.operation, 16);
    CutFits(x.beltNumber, 32);
    CutFits(x.clientAddr, 48);
    CutFits(x.oldValues, 8192);
    CutFits(x.newValues, 8192);
  }

  predicate Fitted(s: string, t: string, size: nat) {
    |t| < size && t <= s && (t == s || |t| == size - 1) && (t == s <==> |s| < size)
  }

  lemma CutFits(s: string, size: nat)
    requires size > 0
    ensures Fitted(s, Cut(s, size), size)
  {
  }

  function MapRows(rows: seq<AuditRow>): (r: seq<AuditRow>)
    ensures |r| == |rows| && forall i :: 0 <= i < |rows| ==> r[i] == MapRow(rows[i])
  {
    if rows == [] then [] else [MapRow(rows[0])] + MapRows(rows[1..])
  }

  datatype QueryResult = NoConnection | QueryFailed | Tuples(rows: seq<AuditRow>)

  method ExecuteAndMap(res: QueryResult, before: seq<AuditRow>) returns (rc: ResultCode, out: seq<AuditRow>)
    ensures rc == if !res.Tuples? then DB_ERROR else if res.rows == [] then NOT_FOUND else OK
    ensures out == before + if res.Tuples? then MapRows(res.rows) else []
  {
    hide MapRow, MapRows;
    out := before;
    if res.NoConnection? || res.QueryFailed? {
      return DB_ERROR, out;
    }
    if |res.rows| == 0 {
      return NOT_FOUND, out;
    }
    for r := 0 to |res.rows|
      invariant |out| == |before| + r && out[..|before|] == before
      invariant forall i :: 0 <= i < r ==> out[|before| + i] == MapRow(res.rows[i])
    {
      out := out + [MapRow(res.rows[r])];
    }
    assert out[|before|..] == MapRows(res.rows);
    return OK, out;
  }

  /** An empty answer is OK, not an error. */
  method DetectSuspiciousActivity(res: QueryResult, before: seq<AuditRow>) returns (rc: ResultCode, out: seq<AuditRow>)
    ensures rc == if res.Tuples? then OK else DB_ERROR
    ensures out == before + if res.Tuples? then MapRows(res.rows) else []
  {
    rc, out := ExecuteAndMap(res, before);
    if rc == NOT_FOUND {
      rc := OK;
    }
  }

  /** End to end: when an officer of the station made nine recent deletes within 300
      seconds, each of that officer's recent deletes is in the report, newest first. */
  lemma NineDeletesReported(db: Db, now: int, station: int, officer: int, from: int, rows: seq<AuditRow>, x: AuditRow)
    requires IsAnswer(db, now, station, rows)
    requires Count(db.log, DeletesBetween(db, now, station, officer, from, from + RAPID_BUCKET)) >= 9
    requires x in db.log && x.operation == "DELETE" && x.officerId == officer && Relevant(db, now, station, x)
    ensures MapRow(x) in MapRows(rows) && MapRow(x).logId == x.logId && MapRow(x).operation == "DELETE"
    ensures forall i, j :: 0 <= i < j < |rows| ==> MapRows(rows)[i].epoch >= MapRows(rows)[j].epoch
  {
    hide Relevant;
    NineDeletesFlagged(db, now, station, officer, from);
    ReturnedPerPattern(db, now, station, rows, x);
    assert Matches(db, now, station, RAPID_DELETE, x);
    assert x in multiset(rows);
    var i :| 0 <= i < |rows| && rows[i] == x;
    assert MapRows(rows)[i] == MapRow(x);
    MappedOrder(rows);
  }

  lemma MappedOrder(rows: seq<AuditRow>)
    ensures NewestFirst(rows) <==> NewestFirst(MapRows(rows))
  {
    var mapped := MapRows(rows);
    assert forall i :: 0 <= i < |rows| ==> mapped[i].epoch == rows[i].epoch;
  }
}

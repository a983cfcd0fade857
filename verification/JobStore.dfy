/** The job store (`LocalDb` of `utils/db.py`): claims, updates and the index of completed work. */
module JobStore {
  import opened Text
  import opened Wrappers

  datatype Status =
    | Submitted | Queued | Processing | Rendering | Validating | Uploading | Completed
    | Skipped | Failed | RateLimited | DeadLettered

  /** `ACTIVE_STATUSES`: this vacancy is already being, or has been, handled. */
  predicate Active(status: Status) {
    status in {Queued, Processing, Rendering, Validating, Uploading, Completed}
  }

  /** One row of the board; an empty user, source or version stands for "not given". */
  datatype Row = Row(
    jobId: string, user: string, externalId: string, source: string, version: string,
    status: Status, attempts: nat)

  // ---------- the business key ----------

  function Or(value: string, default_: string): string {
    if value == "" then default_ else value
  }

  /** `job_key`. */
  function JobKey(user: string, externalId: string, version: string, source: string): string {
    Or(user, "local") + ":" + Or(source, "djinni") + ":" + externalId + ":" + Or(version, "v1")
  }

  function KeyOf(r: Row): string {
    JobKey(r.user, r.externalId, r.version, r.source)
  }

  /** `text.split(separator, limit)`. */
  function SplitAtMost(text: string, separator: char, limit: nat): seq<string>
    decreases limit
  {
    var k := IndexOf(text, separator);
    if limit == 0 || k == |text| then [text]
    else [text[..k]] + SplitAtMost(text[k + 1..], separator, limit - 1)
  }

  lemma {:induction false} SplitOffPart(part: string, rest: string, separator: char, limit: nat)
    requires separator !in part
    ensures SplitAtMost(part + [separator] + rest, separator, limit + 1)
         == [part] + SplitAtMost(rest, separator, limit)
  {
    var text := part + [separator] + rest;
    assert text[..|part|] == part && text[|part| + 1..] == rest;
    IndexOfIsUnique(text, separator, |part|);
  }

  /** For a colon-free user, source and external id, splitting the key at its first three colons
      gives the parts back; the version may hold colons. */
  lemma {:induction false} KeySplitsBack(user: string, externalId: string, version: string, source: string)
    requires ':' !in user && ':' !in source && ':' !in externalId
    ensures SplitAtMost(JobKey(user, externalId, version, source), ':', 3)
         == [Or(user, "local"), Or(source, "djinni"), externalId, Or(version, "v1")]
  {
    FourParts(Or(user, "local"), Or(source, "djinni"), externalId, Or(version, "v1"));
  }

  lemma {:induction false} FourParts(u: string, s: string, e: string, v: string)
    requires ':' !in u && ':' !in s && ':' !in e
    ensures SplitAtMost(u + ":" + s + ":" + e + ":" + v, ':', 3) == [u, s, e, v]
  {
    KeyFromTheRight(u, s, e, v);
    TwoParts(e, v);
    ThreeParts(s, e, v);
    SplitOffPart(u, s + [':'] + (e + [':'] + v), ':', 2);
  }

  lemma {:induction false} TwoParts(e: string, v: string)
    requires ':' !in e
    ensures SplitAtMost(e + [':'] + v, ':', 1) == [e, v]
  {
    SplitOffPart(e, v, ':', 0);
  }

  lemma {:induction false} ThreeParts(s: string, e: string, v: string)
    requires ':' !in s && ':' !in e
    ensures SplitAtMost(s + [':'] + (e + [':'] + v), ':', 2) == [s, e, v]
  {
    TwoParts(e, v);
    SplitOffPart(s, e + [':'] + v, ':', 1);
  }

  lemma {:induction false} KeyFromTheRight(u: string, s: string, e: string, v: string)
    ensures u + ":" + s + ":" + e + ":" + v == u + [':'] + (s + [':'] + (e + [':'] + v))
  {
  }

  // When a key can be read in a second way.

  function Keyed(u: string, s: string, e: string, v: string): string {
    u + ":" + s + ":" + e + ":" + v
  }

  /** Four parts whose key it is. User, source and version always say something. */
  predicate Reading(u: string, s: string, e: string, v: string, key: string) {
    u != "" && s != "" && v != "" && Keyed(u, s, e, v) == key
  }

  predicate ColonWithin(t: string, from: int, to: int) {
    exists i :: 0 <= from <= i < to <= |t| && t[i] == ':'
  }

  /** A colon that another reading can take for a separator: in the user behind its first character, in
      the source unless it is nothing else, anywhere in the external id, in the version before its last
      character. */
  predicate ReadsTwoWays(u: string, s: string, e: string, v: string) {
    || ColonWithin(u, 1, |u|) || (ColonWithin(s, 0, |s|) && s != ":")
    || ColonWithin(e, 0, |e|) || ColonWithin(v, 0, |v| - 1)
  }

  /** The separators, and the parts between them. */
  lemma {:induction false} KeyLayout(u: string, s: string, e: string, v: string)
    ensures var k, p := Keyed(u, s, e, v), |u|;
      var q := p + 1 + |s|;
      var r := q + 1 + |e|;
      && |k| == r + 1 + |v| && k[p] == ':' && k[q] == ':' && k[r] == ':'
      && k[..p] == u && k[p + 1..q] == s && k[q + 1..r] == e && k[r + 1..] == v
  {
  }

  /** In a key with one reading, every colon a separator could be is one (or all of the source). */
  lemma {:induction false} ColonsAreSeparators(u: string, s: string, e: string, v: string, i: nat)
    requires !ReadsTwoWays(u, s, e, v)
    requires 1 <= i < |Keyed(u, s, e, v)| - 1 && Keyed(u, s, e, v)[i] == ':'
    ensures var p, q := |u|, |u| + 1 + |s|;
      i == p || i == q || i == q + 1 + |e| || (s == ":" && i == p + 1)
  {
    CharacterOfKey(u, s, e, v, i);
  }

  lemma {:induction false} CharacterOfKey(u: string, s: string, e: string, v: string, i: nat)
    requires i < |Keyed(u, s, e, v)|
    ensures var p, q := |u|, |u| + 1 + |s|;
      var r := q + 1 + |e|;
      Keyed(u, s, e, v)[i] ==
      if i < p then u[i] else if i == p then ':' else if i < q then s[i - p - 1] else if i == q then ':'
      else if i < r then e[i - q - 1] else if i == r then ':' else v[i - r - 1]
  {
  }

  lemma {:induction false} OneReading(u: string, s: string, e: string, v: string,
                                      u2: string, s2: string, e2: string, v2: string)
    requires Reading(u, s, e, v, Keyed(u, s, e, v)) && !ReadsTwoWays(u, s, e, v)
    requires Reading(u2, s2, e2, v2, Keyed(u, s, e, v))
    ensures u2 == u && s2 == s && e2 == e && v2 == v
  {
    KeyLayout(u, s, e, v);
    KeyLayout(u2, s2, e2, v2);
    var p2 := |u2|;
    var q2 := p2 + 1 + |s2|;
    ColonsAreSeparators(u, s, e, v, p2);
    ColonsAreSeparators(u, s, e, v, q2);
    ColonsAreSeparators(u, s, e, v, q2 + 1 + |e2|);
  }

  lemma {:induction false} AnotherReading(u: string, s: string, e: string, v: string)
    returns (u2: string, s2: string, e2: string, v2: string)
    requires Reading(u, s, e, v, Keyed(u, s, e, v)) && ReadsTwoWays(u, s, e, v)
    ensures Reading(u2, s2, e2, v2, Keyed(u, s, e, v)) && (u2, s2, e2, v2) != (u, s, e, v)
  {
    u2, s2, e2, v2 := u, s, e, v;
    if ColonWithin(u, 1, |u|) {
      var i :| 1 <= i < |u| && u[i] == ':';
      u2, s2 := u[..i], u[i + 1..] + ":" + s;
      FirstColonMoves(u2, u[i + 1..], s, e, v);
      Rejoined(u, i);
    } else if ColonWithin(s, 0, |s|) && s != ":" {
      u2, s2, e2 := SourceSplits(u, s, e, v);
    } else if ColonWithin(e, 0, |e|) {
      var i :| 0 <= i < |e| && e[i] == ':';
      e2, v2 := e[..i], e[i + 1..] + ":" + v;
      LastColonMoves(u, s, e2, e[i + 1..], v);
      Rejoined(e, i);
    } else {
      var i :| 0 <= i < |v| - 1 && v[i] == ':';
      e2, v2 := e + ":" + v[..i], v[i + 1..];
      LastColonMoves(u, s, e, v[..i], v2);
      Rejoined(v, i);
    }
  }

  lemma {:induction false} SourceSplits(u: string, s: string, e: string, v: string)
    returns (u2: string, s2: string, e2: string)
    requires Reading(u, s, e, v, Keyed(u, s, e, v)) && ColonWithin(s, 0, |s|) && s != ":"
    ensures Reading(u2, s2, e2, v, Keyed(u, s, e, v)) && s2 != s
  {
    u2, e2 := u, e;
    if s[0] == ':' {
      u2, s2 := u + ":", s[1..];
      Rejoined(s, 0);
      FirstColonMoves(u, "", s2, e, v);
      assert u + ":" + "" == u2 && "" + ":" + s2 == s;
    } else {
      var i :| 0 <= i < |s| && s[i] == ':';
      s2, e2 := s[..i], s[i + 1..] + ":" + e;
      Rejoined(s, i);
      MiddleColonMoves(u, s2, s[i + 1..], e, v);
    }
  }

  lemma {:induction false} Rejoined(t: string, i: nat)
    requires i < |t| && t[i] == ':'
    ensures t == t[..i] + ":" + t[i + 1..]
  {
  }

  lemma {:induction false} FirstColonMoves(a: string, b: string, s: string, e: string, v: string)
    ensures Keyed(a + ":" + b, s, e, v) == Keyed(a, b + ":" + s, e, v)
  {
  }

  lemma {:induction false} MiddleColonMoves(u: string, a: string, b: string, e: string, v: string)
    ensures Keyed(u, a + ":" + b, e, v) == Keyed(u, a, b + ":" + e, v)
  {
  }

  lemma {:induction false} LastColonMoves(u: string, s: string, a: string, b: string, v: string)
    ensures Keyed(u, s, a + ":" + b, v) == Keyed(u, s, a, b + ":" + v)
  {
  }

  /** A key has a second reading exactly when one of its parts holds such a colon. */
  lemma {:induction false} TwoReadingsExactly(u: string, s: string, e: string, v: string)
    requires Reading(u, s, e, v, Keyed(u, s, e, v))
    ensures ReadsTwoWays(u, s, e, v)
       <==> exists u2, s2, e2, v2 :: Reading(u2, s2, e2, v2, Keyed(u, s, e, v)) && (u2, s2, e2, v2) != (u, s, e, v)
  {
    if ReadsTwoWays(u, s, e, v) {
      var u2, s2, e2, v2 := AnotherReading(u, s, e, v);
    } else if u2, s2, e2, v2 :| Reading(u2, s2, e2, v2, Keyed(u, s, e, v)) && (u2, s2, e2, v2) != (u, s, e, v) {
      OneReading(u, s, e, v, u2, s2, e2, v2);
    }
  }

  /** The row's key has a second reading. */
  predicate Ambiguous(r: Row) {
    ReadsTwoWays(Or(r.user, "local"), Or(r.source, "djinni"), r.externalId, Or(r.version, "v1"))
  }

  /** So a row shares the key of a row with one reading exactly when it agrees on every part. */
  lemma {:induction false} KeyIsInjective(a: Row, b: Row)
    requires !Ambiguous(a)
    ensures KeyOf(a) == KeyOf(b) <==>
            && Or(a.user, "local") == Or(b.user, "local")
            && Or(a.source, "djinni") == Or(b.source, "djinni")
            && a.externalId == b.externalId
            && Or(a.version, "v1") == Or(b.version, "v1")
  {
    if KeyOf(a) == KeyOf(b) {
      OneReading(Or(a.user, "local"), Or(a.source, "djinni"), a.externalId, Or(a.version, "v1"),
                 Or(b.user, "local"), Or(b.source, "djinni"), b.externalId, Or(b.version, "v1"));
    }
  }

  /** For example, a colon in an external id makes two vacancies share a key. */
  lemma {:induction false} ColonsCollide()
    ensures JobKey("ann", "7:a", "b", "dou") == JobKey("ann", "7", "a:b", "dou")
  {
    assert "ann" + ":" + "dou" + ":" + "7:a" + ":" + "b" == "ann:dou:7:a:b";
    assert "ann" + ":" + "dou" + ":" + "7" + ":" + "a:b" == "ann:dou:7:a:b";
  }

  // ---------- the store as a value ----------

  /** `order` is the insertion order of the job dictionary. */
  datatype Store = Store(order: seq<string>, jobs: map<string, Row>, completed: map<string, string>)

  datatype Outcome = Claimed | Duplicate | Owned

  /** What an update may set; `keys` stands for the key fields it could overwrite. */
  datatype Fields = Fields(
    status: Option<Status>, attempts: Option<nat>, keys: Option<(string, string, string, string)>)

  datatype Op =
    | Upsert(job: Row)
    | Update(id: string, fields: Fields)
    | Increment(id: string)

  function EmptyStore(): Store {
    Store([], map[], map[])
  }

  /** The first row, in insertion order, that carries the key. */
  function Sibling(order: seq<string>, jobs: map<string, Row>, key: string): (r: Option<Row>) {
    if order == [] then None
    else if order[0] in jobs && KeyOf(jobs[order[0]]) == key then Some(jobs[order[0]])
    else Sibling(order[1..], jobs, key)
  }

  /** The id belongs to another vacancy's row. */
  predicate ForeignId(s: Store, job: Row) {
    && job.jobId in s.jobs
    && (s.jobs[job.jobId].externalId != job.externalId
        || Or(s.jobs[job.jobId].source, "djinni") != Or(job.source, "djinni"))
  }

  function OutcomeOf(s: Store, job: Row): Outcome {
    if ForeignId(s, job) then Owned
    else
      var sibling := Sibling(s.order, s.jobs, KeyOf(job));
      if sibling.Some? && Active(sibling.value.status) then Duplicate else Claimed
  }

  /** The row id an upsert answers with. */
  function ClaimedId(s: Store, job: Row): string {
    var sibling := Sibling(s.order, s.jobs, KeyOf(job));
    if !ForeignId(s, job) && sibling.Some? then sibling.value.jobId else job.jobId
  }

  function Put(s: Store, id: string, r: Row): Store {
    s.(order := if id in s.jobs then s.order else s.order + [id], jobs := s.jobs[id := r])
  }

  /** A row left behind by an earlier attempt, claimed again. */
  function Reclaimed(was: Row, job: Row): Row {
    job.(jobId := was.jobId, attempts := if was.attempts > job.attempts then was.attempts else job.attempts)
  }

  function Upserted(s: Store, job: Row): Store {
    if OutcomeOf(s, job) != Claimed then s
    else
      var sibling := Sibling(s.order, s.jobs, KeyOf(job));
      if sibling.Some? then Put(s, sibling.value.jobId, Reclaimed(sibling.value, job))
      else
        var t := Put(s, job.jobId, job);
        if job.status == Completed then t.(completed := t.completed[KeyOf(job) := job.jobId]) else t
  }

  function Edited(r: Row, f: Fields): Row {
    var r1 := if f.status.Some? then r.(status := f.status.value) else r;
    var r2 := if f.attempts.Some? then r1.(attempts := f.attempts.value) else r1;
    if f.keys.Some? then
      r2.(user := f.keys.value.0, externalId := f.keys.value.1, source := f.keys.value.2, version := f.keys.value.3)
    else r2
  }

  function Updated(s: Store, id: string, f: Fields): Store {
    if id !in s.jobs then s
    else
      var r := Edited(s.jobs[id], f);
      var t := Put(s, id, r);
      if r.status == Completed then t.(completed := t.completed[KeyOf(r) := id]) else t
  }

  function AttemptsOf(s: Store, id: string): nat {
    if id in s.jobs then s.jobs[id].attempts else 0
  }

  function Next(s: Store, op: Op): Store {
    match op
    case Upsert(job) => Upserted(s, job)
    case Update(id, f) => Updated(s, id, f)
    case Increment(id) => Updated(s, id, Fields(None, Some(AttemptsOf(s, id) + 1), None))
  }

  function After(s: Store, ops: seq<Op>): Store
    decreases |ops|
  {
    if ops == [] then s else After(Next(s, ops[0]), ops[1..])
  }

  /** `find_completed`: through the index, whatever the row's status says now. */
  function FindCompletedRow(s: Store, key: string): Option<Row> {
    if key in s.completed && s.completed[key] in s.jobs then Some(s.jobs[s.completed[key]]) else None
  }

  /** `find_existing_ids`: which of these ids the board has for the site, at any version or status. */
  function ExistingIds(s: Store, source: string, wanted: set<string>): set<string> {
    set id | id in s.jobs && s.jobs[id].externalId in wanted
             && Or(s.jobs[id].source, "djinni") == Or(source, "djinni") :: s.jobs[id].externalId
  }

  /** An update sets the fields it names and keeps the others, on one row. */
  lemma {:induction false} UpdateSetsItsFields(s: Store, id: string, f: Fields)
    requires id in s.jobs
    ensures var was, r := s.jobs[id], Updated(s, id, f).jobs[id];
      && Updated(s, id, f).jobs == s.jobs[id := r] && Updated(s, id, f).order == s.order && r.jobId == was.jobId
      && (if f.status.Some? then f.status == Some(r.status) else r.status == was.status)
      && (if f.attempts.Some? then f.attempts == Some(r.attempts) else r.attempts == was.attempts)
      && (if f.keys.Some? then f.keys == Some((r.user, r.externalId, r.source, r.version))
          else r.user == was.user && r.externalId == was.externalId && r.source == was.source
               && r.version == was.version)
  {
  }

  // ---------- keys and rows stay together ----------

  /** Rows are filed under their id, listed once, and no two share a business key. */
  ghost predicate WellKeyed(s: Store) {
    && (forall id :: id in s.jobs <==> id in s.order)
    && (forall i, j :: 0 <= i < j < |s.order| ==> s.order[i] != s.order[j])
    && (forall id :: id in s.jobs ==> s.jobs[id].jobId == id)
    && (forall a, b :: a in s.jobs && b in s.jobs && KeyOf(s.jobs[a]) == KeyOf(s.jobs[b]) ==> a == b)
  }

  lemma {:induction false} SiblingIsTheRowWithTheKey(order: seq<string>, jobs: map<string, Row>, key: string)
    requires forall id :: id in order ==> id in jobs
    ensures var r := Sibling(order, jobs, key);
      if r.Some? then exists id :: id in order && jobs[id] == r.value && KeyOf(r.value) == key
      else forall id :: id in order ==> KeyOf(jobs[id]) != key
  {
    if order != [] {
      SiblingIsTheRowWithTheKey(order[1..], jobs, key);
    }
  }

  /** In a well-keyed store the sibling of a key is its one row. */
  lemma {:induction false} SiblingOfRow(s: Store, id: string)
    requires WellKeyed(s) && id in s.jobs
    ensures Sibling(s.order, s.jobs, KeyOf(s.jobs[id])) == Some(s.jobs[id])
  {
    SiblingIsTheRowWithTheKey(s.order, s.jobs, KeyOf(s.jobs[id]));
  }

  lemma {:induction false} SameParts(a: Row, b: Row)
    requires a.user == b.user && a.externalId == b.externalId && a.source == b.source && a.version == b.version
    ensures KeyOf(a) == KeyOf(b)
  {
  }

  /** What a claim does to the rows: one row is filed, under the key of the job. It is the left-behind row
      of that key; else a row with the job's own id, new or - whatever its status - in the place of one that
      had another key. */
  lemma {:induction false} ClaimFilesOneRow(s: Store, job: Row)
    requires WellKeyed(s) && OutcomeOf(s, job) == Claimed
    ensures var sibling, id := Sibling(s.order, s.jobs, KeyOf(job)), ClaimedId(s, job);
            var r := if sibling.Some? then Reclaimed(sibling.value, job) else job;
      && r.jobId == id && KeyOf(r) == KeyOf(job) && r.status == job.status
      && Upserted(s, job).jobs == s.jobs[id := r] && Upserted(s, job).order == Put(s, id, r).order
      && (sibling.Some? ==> id in s.jobs && s.jobs[id] == sibling.value && KeyOf(s.jobs[id]) == KeyOf(job)
                            && !Active(s.jobs[id].status))
      && (sibling.None? ==> id == job.jobId && forall o :: o in s.jobs ==> KeyOf(s.jobs[o]) != KeyOf(job))
  {
    var sibling := Sibling(s.order, s.jobs, KeyOf(job));
    SiblingIsTheRowWithTheKey(s.order, s.jobs, KeyOf(job));
    if sibling.Some? {
      SameParts(Reclaimed(sibling.value, job), job);
    }
  }

  // Every step writes at most one row.

  predicate Writes(s: Store, op: Op) {
    match op
    case Upsert(job) => OutcomeOf(s, job) == Claimed
    case Update(id, _) => id in s.jobs
    case Increment(id) => id in s.jobs
  }

  function WrittenId(s: Store, op: Op): string {
    match op
    case Upsert(job) => ClaimedId(s, job)
    case Update(id, _) => id
    case Increment(id) => id
  }

  function WrittenRow(s: Store, op: Op): Row
    requires Writes(s, op)
  {
    match op
    case Upsert(job) =>
      var sibling := Sibling(s.order, s.jobs, KeyOf(job));
      if sibling.Some? then Reclaimed(sibling.value, job) else job
    case Update(id, f) => Edited(s.jobs[id], f)
    case Increment(id) => s.jobs[id].(attempts := s.jobs[id].attempts + 1)
  }

  lemma {:induction false} StepWritesOneRow(s: Store, op: Op)
    requires WellKeyed(s)
    ensures !Writes(s, op) ==> Next(s, op) == s
    ensures Writes(s, op) ==>
              var id, r := WrittenId(s, op), WrittenRow(s, op);
              && r.jobId == id && Next(s, op).jobs == s.jobs[id := r] && Next(s, op).order == Put(s, id, r).order
  {
    if op.Upsert? {
      if OutcomeOf(s, op.job) == Claimed {
        ClaimFilesOneRow(s, op.job);
      }
    } else if Writes(s, op) {
      UpdateWritesOneRow(s, op);
    }
  }

  lemma {:induction false} UpdateWritesOneRow(s: Store, op: Op)
    requires !op.Upsert? && Writes(s, op) && s.jobs[op.id].jobId == op.id
    ensures var id, r := WrittenId(s, op), WrittenRow(s, op);
      r.jobId == id && Next(s, op).jobs == s.jobs[id := r] && Next(s, op).order == Put(s, id, r).order
  {
  }

  /** An update does not give a row the key of another row. (The database has a unique index on the key.) */
  predicate NoClash(s: Store, op: Op) {
    op.Update? && op.id in s.jobs && op.fields.keys.Some? ==>
      forall o :: o in s.jobs && o != op.id ==> KeyOf(s.jobs[o]) != KeyOf(Edited(s.jobs[op.id], op.fields))
  }

  ghost predicate NoneClash(s: Store, ops: seq<Op>)
    decreases |ops|
  {
    ops != [] ==> NoClash(s, ops[0]) && NoneClash(Next(s, ops[0]), ops[1..])
  }

  /** The step overwrites no key fields. */
  predicate NoKeyUpdate(op: Op) {
    op.Update? ==> op.fields.keys.None?
  }

  /** The key of the written row is no other row's. */
  lemma {:induction false} WrittenKeyIsFree(s: Store, op: Op)
    requires WellKeyed(s) && NoClash(s, op) && Writes(s, op)
    ensures forall o :: o in s.jobs && o != WrittenId(s, op) ==> KeyOf(s.jobs[o]) != KeyOf(WrittenRow(s, op))
  {
    var r := WrittenRow(s, op);
    if op.Upsert? {
      ClaimFilesOneRow(s, op.job);
    } else if op.Increment? || op.fields.keys.None? {
      SameParts(s.jobs[WrittenId(s, op)], r);
    }
  }

  lemma {:induction false} PutKeepsOrder(s: Store, id: string, r: Row)
    requires WellKeyed(s) && r.jobId == id
    ensures var t := Put(s, id, r);
      && (forall o :: o in t.jobs <==> o in t.order)
      && (forall i, j :: 0 <= i < j < |t.order| ==> t.order[i] != t.order[j])
      && (forall o :: o in t.jobs ==> t.jobs[o].jobId == o)
  {
  }

  lemma {:induction false} PutStaysDistinct(s: Store, id: string, r: Row)
    requires WellKeyed(s) && r.jobId == id
    requires forall o :: o in s.jobs && o != id ==> KeyOf(s.jobs[o]) != KeyOf(r)
    ensures WellKeyed(Put(s, id, r))
  {
    var t := Put(s, id, r);
    PutKeepsOrder(s, id, r);
    forall a, b | a in t.jobs && b in t.jobs && KeyOf(t.jobs[a]) == KeyOf(t.jobs[b])
      ensures a == b
    {
      assert a != id ==> t.jobs[a] == s.jobs[a];
      assert b != id ==> t.jobs[b] == s.jobs[b];
    }
  }

  lemma {:induction false} SameRowsSameKeys(s: Store, t: Store)
    requires WellKeyed(s) && t.jobs == s.jobs && t.order == s.order
    ensures WellKeyed(t)
  {
  }

  /** Claims, counts and updates keep the keys distinct. */
  lemma {:induction false} StepKeepsWellKeyed(s: Store, op: Op)
    requires WellKeyed(s) && NoClash(s, op)
    ensures WellKeyed(Next(s, op))
  {
    StepWritesOneRow(s, op);
    if Writes(s, op) {
      var id, r := WrittenId(s, op), WrittenRow(s, op);
      WrittenKeyIsFree(s, op);
      PutStaysDistinct(s, id, r);
      SameRowsSameKeys(Put(s, id, r), Next(s, op));
    }
  }

  lemma {:induction false} WellKeyedOverRun(s: Store, ops: seq<Op>)
    requires WellKeyed(s) && NoneClash(s, ops)
    ensures WellKeyed(After(s, ops))
    decreases |ops|
  {
    if ops != [] {
      StepKeepsWellKeyed(s, ops[0]);
      WellKeyedOverRun(Next(s, ops[0]), ops[1..]);
    }
  }

  /** Every row of `s` is still there, under the same id and key. */
  ghost predicate KeysKept(s: Store, t: Store) {
    forall id :: id in s.jobs ==> id in t.jobs && KeyOf(t.jobs[id]) == KeyOf(s.jobs[id])
  }

  /** The step files a row under another key: a claim sends its id again for a user or version nobody has a
      row for, or an update overwrites its key fields. */
  predicate Moves(s: Store, op: Op) {
    match op
    case Upsert(job) =>
      OutcomeOf(s, job) == Claimed && job.jobId in s.jobs && Sibling(s.order, s.jobs, KeyOf(job)).None?
    case Update(id, f) => id in s.jobs && KeyOf(Edited(s.jobs[id], f)) != KeyOf(s.jobs[id])
    case Increment(_) => false
  }

  /** ... away from this key. */
  predicate Takes(s: Store, op: Op, key: string) {
    Moves(s, op) && KeyOf(s.jobs[if op.Upsert? then op.job.jobId else op.id]) == key
  }

  /** The written row leaves its key exactly in such a step. */
  lemma {:induction false} MovesExactly(s: Store, op: Op)
    requires WellKeyed(s)
    ensures Moves(s, op) <==> Writes(s, op) && WrittenId(s, op) in s.jobs
                              && KeyOf(WrittenRow(s, op)) != KeyOf(s.jobs[WrittenId(s, op)])
    ensures Moves(s, op) ==> WrittenId(s, op) == if op.Upsert? then op.job.jobId else op.id
  {
    if op.Upsert? {
      if OutcomeOf(s, op.job) == Claimed {
        ClaimFilesOneRow(s, op.job);
      }
    } else if op.Increment? && op.id in s.jobs {
      SameParts(s.jobs[op.id], WrittenRow(s, op));
    }
  }

  /** A step leaves every row under its id and key exactly when it moves none. */
  lemma {:induction false} KeysKeptExactly(s: Store, op: Op)
    requires WellKeyed(s)
    ensures KeysKept(s, Next(s, op)) <==> !Moves(s, op)
  {
    StepWritesOneRow(s, op);
    MovesExactly(s, op);
    if Moves(s, op) {
      assert WrittenId(s, op) in s.jobs;
    }
  }

  ghost predicate SomeTakes(s: Store, ops: seq<Op>, key: string)
    decreases |ops|
  {
    ops != [] && (Takes(s, ops[0], key) || SomeTakes(Next(s, ops[0]), ops[1..], key))
  }

  predicate FiledUnder(s: Store, id: string, key: string) {
    id in s.jobs && KeyOf(s.jobs[id]) == key
  }

  lemma {:induction false} FiledUntilTaken(s: Store, op: Op, id: string, key: string)
    requires WellKeyed(s) && FiledUnder(s, id, key)
    ensures FiledUnder(Next(s, op), id, key) <==> !Takes(s, op, key)
  {
    StepWritesOneRow(s, op);
    MovesExactly(s, op);
  }

  /** Over whole runs: business keys stay pairwise distinct, and a row stays under its key unless some step
      takes it away. */
  lemma {:induction false} KeysStayWithTheirRows(s: Store, ops: seq<Op>, id: string, key: string)
    requires WellKeyed(s) && NoneClash(s, ops) && FiledUnder(s, id, key)
    ensures WellKeyed(After(s, ops))
    ensures SomeTakes(s, ops, key) || FiledUnder(After(s, ops), id, key)
    decreases |ops|
  {
    WellKeyedOverRun(s, ops);
    if ops != [] {
      StepKeepsWellKeyed(s, ops[0]);
      FiledUntilTaken(s, ops[0], id, key);
      if !Takes(s, ops[0], key) {
        KeysStayWithTheirRows(Next(s, ops[0]), ops[1..], id, key);
      }
    }
  }

  // ---------- which rows refuse a claim ----------

  /** A claim is answered `owned` exactly when its id is filed for another vacancy; else `duplicate` exactly
      when a row of its key is waiting, in work or done. */
  lemma {:induction false} OutcomeExactly(s: Store, job: Row)
    requires WellKeyed(s)
    ensures OutcomeOf(s, job) == Owned <==>
              job.jobId in s.jobs && !(s.jobs[job.jobId].externalId == job.externalId
                                       && Or(s.jobs[job.jobId].source, "djinni") == Or(job.source, "djinni"))
    ensures OutcomeOf(s, job) == Duplicate <==>
              OutcomeOf(s, job) != Owned
              && exists id :: id in s.jobs && KeyOf(s.jobs[id]) == KeyOf(job)
                              && s.jobs[id].status in
                                 {Queued, Processing, Rendering, Validating, Uploading, Completed}
  {
    SiblingIsTheRowWithTheKey(s.order, s.jobs, KeyOf(job));
    forall id | id in s.jobs && KeyOf(s.jobs[id]) == KeyOf(job)
      ensures Sibling(s.order, s.jobs, KeyOf(job)) == Some(s.jobs[id])
    {
      SiblingOfRow(s, id);
    }
  }

  // ---------- a claim is exclusive ----------

  /** The step is an update that takes the key's row out of the active statuses. */
  predicate Deactivates(s: Store, op: Op, key: string) {
    && op.Update? && op.id in s.jobs && KeyOf(s.jobs[op.id]) == key
    && op.fields.status.Some? && !Active(op.fields.status.value)
  }

  ghost predicate SomeDeactivates(s: Store, ops: seq<Op>, key: string)
    decreases |ops|
  {
    ops != [] && (Deactivates(s, ops[0], key) || SomeDeactivates(Next(s, ops[0]), ops[1..], key))
  }

  ghost predicate ActivelyHeld(s: Store, id: string, key: string) {
    id in s.jobs && KeyOf(s.jobs[id]) == key && Active(s.jobs[id].status)
  }

  /** One step of a well-keyed store lets go of an actively held row exactly when it takes the row out of
      the active statuses or files it under another key. */
  lemma {:induction false} HeldExactly(s: Store, op: Op, id: string, key: string)
    requires WellKeyed(s) && ActivelyHeld(s, id, key)
    ensures ActivelyHeld(Next(s, op), id, key) <==> !Deactivates(s, op, key) && !Takes(s, op, key)
  {
    StepWritesOneRow(s, op);
    FiledUntilTaken(s, op, id, key);
    if op.Upsert? && OutcomeOf(s, op.job) == Claimed {
      ClaimFilesOneRow(s, op.job);
      SiblingOfRow(s, id);
    }
  }

  lemma {:induction false} HeldOverRun(s: Store, ops: seq<Op>, id: string, key: string)
    requires WellKeyed(s) && ActivelyHeld(s, id, key) && NoneClash(s, ops)
    ensures WellKeyed(After(s, ops))
    ensures SomeDeactivates(s, ops, key) || SomeTakes(s, ops, key) || ActivelyHeld(After(s, ops), id, key)
    decreases |ops|
  {
    WellKeyedOverRun(s, ops);
    if ops != [] {
      StepKeepsWellKeyed(s, ops[0]);
      HeldExactly(s, ops[0], id, key);
      if ActivelyHeld(Next(s, ops[0]), id, key) {
        HeldOverRun(Next(s, ops[0]), ops[1..], id, key);
      }
    }
  }

  /** Exclusive claim: between two claims of one key, the first with an active status, some update put
      the key's row in a non-active status, or some step filed it under another key. */
  lemma {:induction false} ClaimsAreExclusive(s: Store, first: Row, between: seq<Op>, second: Row)
    requires WellKeyed(s) && NoneClash(Next(s, Upsert(first)), between)
    requires KeyOf(first) == KeyOf(second) && Active(first.status)
    requires OutcomeOf(s, first) == Claimed
    requires OutcomeOf(After(Next(s, Upsert(first)), between), second) == Claimed
    ensures var t := Next(s, Upsert(first));
      SomeDeactivates(t, between, KeyOf(first)) || SomeTakes(t, between, KeyOf(first))
  {
    var t := Next(s, Upsert(first));
    StepKeepsWellKeyed(s, Upsert(first));
    ClaimFilesOneRow(s, first);
    var id := ClaimedId(s, first);
    assert ActivelyHeld(t, id, KeyOf(first));
    HeldOverRun(t, between, id, KeyOf(first));
    if ActivelyHeld(After(t, between), id, KeyOf(first)) {
      SiblingOfRow(After(t, between), id);
    }
  }

  /** The second way happens: a job id sent again under another user takes the row away, so its first
      key is claimed a second time although no update touched it. */
  lemma {:induction false} ResentIdIsClaimedTwice()
    ensures var a := Row("job-1", "ann", "7", "dou", "v1", Processing, 0);
            var b := a.(user := "bob");
            var s1 := Next(EmptyStore(), Upsert(a));
            var s2 := After(s1, [Upsert(b)]);
      && OutcomeOf(EmptyStore(), a) == Claimed && OutcomeOf(s2, a) == Claimed
      && !SomeDeactivates(s1, [Upsert(b)], KeyOf(a))
      && OutcomeOf(s1, b) == Claimed && s2.jobs == map["job-1" := b]
  {
    var a := Row("job-1", "ann", "7", "dou", "v1", Processing, 0);
    var b := a.(user := "bob");
    KeyIsInjective(a, b);
    var s1 := Next(EmptyStore(), Upsert(a));
    assert s1.order == ["job-1"] && s1.order[1..] == [];
    assert Sibling([], s1.jobs, KeyOf(b)) == None;
    var s2 := Next(s1, Upsert(b));
    assert [Upsert(b)][1..] == [];
    assert s2.order == ["job-1"] && s2.jobs == map["job-1" := b];
    assert Sibling([], s2.jobs, KeyOf(a)) == None;
  }

  // ---------- the index of completed work ----------

  /** The index lists exactly the completed rows, each under its own key. */
  ghost predicate IndexAgrees(s: Store) {
    && (forall key :: key in s.completed ==>
          && s.completed[key] in s.jobs && KeyOf(s.jobs[s.completed[key]]) == key
          && s.jobs[s.completed[key]].status == Completed)
    && (forall id :: id in s.jobs && s.jobs[id].status == Completed ==>
          KeyOf(s.jobs[id]) in s.completed && s.completed[KeyOf(s.jobs[id])] == id)
  }

  /** The row a scan of the jobs for the key and `completed` finds. */
  ghost predicate ScanFinds(s: Store, key: string, r: Row) {
    exists id :: id in s.jobs && s.jobs[id] == r && KeyOf(r) == key && r.status == Completed
  }

  /** While the index agrees, the lookup answers exactly what the scan would. */
  lemma {:induction false} LookupIsTheScan(s: Store, key: string, r: Row)
    requires WellKeyed(s) && IndexAgrees(s)
    ensures FindCompletedRow(s, key) == Some(r) <==> ScanFinds(s, key, r)
  {
    if ScanFinds(s, key, r) {
      var id :| id in s.jobs && s.jobs[id] == r && KeyOf(r) == key && r.status == Completed;
    }
  }

  /** The steps the index does not follow: a left-behind row claimed again as already completed, a claim
      that sends the id of a completed row again under another key, and an update that takes a completed
      row out of `completed` or to another key. */
  predicate EscapesIndex(s: Store, op: Op) {
    match op
    case Upsert(job) =>
      && OutcomeOf(s, job) == Claimed
      && (if Sibling(s.order, s.jobs, KeyOf(job)).Some? then job.status == Completed
          else job.jobId in s.jobs && s.jobs[job.jobId].status == Completed)
    case Update(id, f) =>
      && id in s.jobs && s.jobs[id].status == Completed
      && ((f.status.Some? && f.status.value != Completed) || KeyOf(Edited(s.jobs[id], f)) != KeyOf(s.jobs[id]))
    case Increment(_) => false
  }

  /** A step keeps the index in agreement exactly when it is none of those. */
  lemma {:induction false} IndexStaysExactly(s: Store, op: Op)
    requires WellKeyed(s) && NoClash(s, op) && IndexAgrees(s)
    ensures IndexAgrees(Next(s, op)) <==> !EscapesIndex(s, op)
  {
    if Writes(s, op) {
      WrittenKeyIsFree(s, op);
      if op.Upsert? {
        ClaimIndex(s, op.job);
      } else if op.Update? {
        UpdateIndex(s, op.id, op.fields);
      } else {
        CountIndex(s, op.id);
      }
    }
  }

  /** Filing one row under a free key, and indexing it when it is completed, keeps the agreement unless a
      completed row gives up its status or its key. */
  lemma {:induction false} FilingKeepsIndex(s: Store, id: string, r: Row, t: Store)
    requires WellKeyed(s) && IndexAgrees(s) && r.jobId == id
    requires id in s.jobs && s.jobs[id].status == Completed ==> r.status == Completed && KeyOf(r) == KeyOf(s.jobs[id])
    requires forall o :: o in s.jobs && o != id ==> KeyOf(s.jobs[o]) != KeyOf(r)
    requires t.jobs == s.jobs[id := r]
    requires t.completed == if r.status == Completed then s.completed[KeyOf(r) := id] else s.completed
    ensures IndexAgrees(t)
  {
    forall key | key in t.completed
      ensures && t.completed[key] in t.jobs && KeyOf(t.jobs[t.completed[key]]) == key
              && t.jobs[t.completed[key]].status == Completed
    {
      if key in s.completed && t.completed[key] == s.completed[key] {
        assert s.completed[key] in s.jobs;
      }
    }
    forall o | o in t.jobs && t.jobs[o].status == Completed
      ensures KeyOf(t.jobs[o]) in t.completed && t.completed[KeyOf(t.jobs[o])] == o
    {
      if o != id {
        assert o in s.jobs && KeyOf(s.jobs[o]) != KeyOf(r);
      }
    }
  }

  /** A completed row that gives up its status or its key leaves its old entry behind. */
  lemma {:induction false} FilingLeavesAnEntry(s: Store, id: string, r: Row, t: Store)
    requires IndexAgrees(s) && id in s.jobs && s.jobs[id].status == Completed
    requires r.status != Completed || KeyOf(r) != KeyOf(s.jobs[id])
    requires t.jobs == s.jobs[id := r]
    requires t.completed == if r.status == Completed then s.completed[KeyOf(r) := id] else s.completed
    ensures !IndexAgrees(t)
  {
    var key := KeyOf(s.jobs[id]);
    assert key in t.completed && t.completed[key] == id && t.jobs[id] == r;
  }

  lemma {:induction false} UpdateIndex(s: Store, id: string, f: Fields)
    requires WellKeyed(s) && IndexAgrees(s) && id in s.jobs
    requires forall o :: o in s.jobs && o != id ==> KeyOf(s.jobs[o]) != KeyOf(Edited(s.jobs[id], f))
    ensures IndexAgrees(Updated(s, id, f)) <==> !EscapesIndex(s, Update(id, f))
  {
    var t, r := Updated(s, id, f), Edited(s.jobs[id], f);
    if EscapesIndex(s, Update(id, f)) {
      FilingLeavesAnEntry(s, id, r, t);
    } else {
      FilingKeepsIndex(s, id, r, t);
    }
  }

  lemma {:induction false} CountIndex(s: Store, id: string)
    requires WellKeyed(s) && IndexAgrees(s) && id in s.jobs
    ensures IndexAgrees(Next(s, Increment(id)))
  {
    var r := s.jobs[id].(attempts := s.jobs[id].attempts + 1);
    SameParts(s.jobs[id], r);
    StepWritesOneRow(s, Increment(id));
    FilingKeepsIndex(s, id, r, Next(s, Increment(id)));
  }

  lemma {:induction false} ClaimIndex(s: Store, job: Row)
    requires WellKeyed(s) && IndexAgrees(s) && OutcomeOf(s, job) == Claimed
    ensures IndexAgrees(Upserted(s, job)) <==> !EscapesIndex(s, Upsert(job))
  {
    ClaimFilesOneRow(s, job);
    if Sibling(s.order, s.jobs, KeyOf(job)).Some? {
      ReclaimIndex(s, job);
    } else if job.jobId in s.jobs && s.jobs[job.jobId].status == Completed {
      FilingLeavesAnEntry(s, job.jobId, job, Upserted(s, job));
    } else {
      FilingKeepsIndex(s, job.jobId, job, Upserted(s, job));
    }
  }

  lemma {:induction false} ReclaimIndex(s: Store, job: Row)
    requires WellKeyed(s) && IndexAgrees(s) && OutcomeOf(s, job) == Claimed
    requires Sibling(s.order, s.jobs, KeyOf(job)).Some?
    ensures IndexAgrees(Upserted(s, job)) <==> job.status != Completed
  {
    ClaimFilesOneRow(s, job);
    var t, id := Upserted(s, job), ClaimedId(s, job);
    if job.status == Completed {
      assert KeyOf(job) !in s.completed;
      assert t.jobs[id].status == Completed && KeyOf(t.jobs[id]) !in t.completed;
    } else {
      FilingKeepsIndex(s, id, t.jobs[id], t);
    }
  }

  ghost predicate NothingEscapes(s: Store, ops: seq<Op>)
    decreases |ops|
  {
    ops != [] ==> !EscapesIndex(s, ops[0]) && NothingEscapes(Next(s, ops[0]), ops[1..])
  }

  lemma {:induction false} IndexAgreesOverRuns(s: Store, ops: seq<Op>)
    requires WellKeyed(s) && IndexAgrees(s) && NoneClash(s, ops) && NothingEscapes(s, ops)
    ensures WellKeyed(After(s, ops)) && IndexAgrees(After(s, ops))
    decreases |ops|
  {
    if ops != [] {
      StepKeepsWellKeyed(s, ops[0]);
      IndexStaysExactly(s, ops[0]);
      IndexAgreesOverRuns(Next(s, ops[0]), ops[1..]);
    }
  }

  /** Over every run from the empty store in which no step escapes the index, `find_completed` answers
      exactly what a scan for the key and `completed` finds. */
  lemma {:induction false} CompletedLookupOverRuns(ops: seq<Op>, key: string, r: Row)
    requires NoneClash(EmptyStore(), ops) && NothingEscapes(EmptyStore(), ops)
    ensures var s := After(EmptyStore(), ops);
      FindCompletedRow(s, key) == Some(r) <==> ScanFinds(s, key, r)
  {
    IndexAgreesOverRuns(EmptyStore(), ops);
    LookupIsTheScan(After(EmptyStore(), ops), key, r);
  }

  /** The id of a completed row sent again for another version: the lookup of the first version then
      answers the row of the second, although that is only being processed. */
  lemma {:induction false} ResentIdMisleadsTheLookup()
    ensures var a := Row("job-1", "ann", "7", "dou", "v1", Completed, 0);
            var b := a.(version := "v2", status := Processing);
            var s := Next(Next(EmptyStore(), Upsert(a)), Upsert(b));
      KeyOf(a) != KeyOf(b) && FindCompletedRow(s, KeyOf(a)) == Some(b)
  {
    var a := Row("job-1", "ann", "7", "dou", "v1", Completed, 0);
    var b := a.(version := "v2", status := Processing);
    KeyIsInjective(a, b);
    var s1 := Next(EmptyStore(), Upsert(a));
    assert s1.order == ["job-1"] && s1.order[1..] == [];
    assert Sibling([], s1.jobs, KeyOf(b)) == None;
  }

  // ---------- attempts ----------

  /** The attempts recorded for a key, 0 while it has no row. */
  ghost function KeyAttempts(s: Store, key: string): nat {
    var sibling := Sibling(s.order, s.jobs, key);
    if sibling.Some? then sibling.value.attempts else 0
  }

  lemma {:induction false} AttemptsOfKey(s: Store, id: string)
    requires WellKeyed(s) && id in s.jobs
    ensures KeyAttempts(s, KeyOf(s.jobs[id])) == s.jobs[id].attempts
  {
    SiblingOfRow(s, id);
  }

  lemma {:induction false} NoRowNoAttempts(s: Store, key: string)
    requires WellKeyed(s) && forall id :: id in s.jobs ==> KeyOf(s.jobs[id]) != key
    ensures KeyAttempts(s, key) == 0
  {
    SiblingIsTheRowWithTheKey(s.order, s.jobs, key);
  }

  /** The step forgets attempts of the key: it files the key's row under another key, or is an update that
      writes a smaller number. */
  predicate Resets(s: Store, op: Op, key: string) {
    || Takes(s, op, key)
    || (op.Update? && op.id in s.jobs && KeyOf(s.jobs[op.id]) == key
        && op.fields.attempts.Some? && op.fields.attempts.value < s.jobs[op.id].attempts)
  }

  /** A key's attempts fall exactly in such a step, if there are any to forget. */
  lemma {:induction false} AttemptsFallExactly(s: Store, op: Op, key: string)
    requires WellKeyed(s) && NoClash(s, op)
    ensures KeyAttempts(Next(s, op), key) < KeyAttempts(s, key) <==> Resets(s, op, key) && KeyAttempts(s, key) > 0
  {
    if id :| id in s.jobs && KeyOf(s.jobs[id]) == key {
      AttemptsOfKey(s, id);
      StepKeepsWellKeyed(s, op);
      FiledUntilTaken(s, op, id, key);
      if Takes(s, op, key) {
        TakenKeyHasNoRow(s, op, key);
        NoRowNoAttempts(Next(s, op), key);
      } else {
        AttemptsOfKey(Next(s, op), id);
        RowAttemptsFallExactly(s, op, id);
      }
    } else {
      NoRowNoAttempts(s, key);
    }
  }

  lemma {:induction false} TakenKeyHasNoRow(s: Store, op: Op, key: string)
    requires WellKeyed(s) && Takes(s, op, key)
    ensures forall id :: id in Next(s, op).jobs ==> KeyOf(Next(s, op).jobs[id]) != key
  {
    StepWritesOneRow(s, op);
    MovesExactly(s, op);
  }

  /** A row that keeps its key loses attempts exactly in an update that writes fewer. */
  lemma {:induction false} RowAttemptsFallExactly(s: Store, op: Op, id: string)
    requires WellKeyed(s) && id in s.jobs && !Takes(s, op, KeyOf(s.jobs[id]))
    ensures id in Next(s, op).jobs
    ensures Next(s, op).jobs[id].attempts < s.jobs[id].attempts <==>
              op.Update? && op.id == id && op.fields.attempts.Some? && op.fields.attempts.value < s.jobs[id].attempts
  {
    if op.Upsert? {
      ClaimKeepsAttempts(s, op.job, id);
    } else if Writes(s, op) {
      UpdateWritesOneRow(s, op);
    }
  }

  /** A claim that takes no row away from a key does not lower the attempts of its row. */
  lemma {:induction false} ClaimKeepsAttempts(s: Store, job: Row, id: string)
    requires WellKeyed(s) && id in s.jobs && !Takes(s, Upsert(job), KeyOf(s.jobs[id]))
    ensures id in Upserted(s, job).jobs && Upserted(s, job).jobs[id].attempts >= s.jobs[id].attempts
  {
    if OutcomeOf(s, job) == Claimed {
      ClaimFilesOneRow(s, job);
    }
  }

  /** A count raises the attempts of its row's key by one, to the number it answers with. */
  lemma {:induction false} CountRaisesAttempts(s: Store, id: string)
    requires WellKeyed(s) && id in s.jobs
    ensures var key := KeyOf(s.jobs[id]);
      KeyAttempts(Next(s, Increment(id)), key) == KeyAttempts(s, key) + 1 == AttemptsOf(s, id) + 1
  {
    StepKeepsWellKeyed(s, Increment(id));
    StepWritesOneRow(s, Increment(id));
    SameParts(s.jobs[id], WrittenRow(s, Increment(id)));
    AttemptsOfKey(s, id);
    AttemptsOfKey(Next(s, Increment(id)), id);
  }

  /** How often a key without attempts can count one and stay below the limit. */
  function Spare(limit: int): nat {
    if limit > 1 then limit - 1 else 0
  }

  /** The attempts a key may still count below the limit. */
  ghost function Headroom(s: Store, key: string, limit: int): nat {
    Max(0, limit - 1 - KeyAttempts(s, key))
  }

  /** 1 when the step counts an attempt for the key and answers with a number below the limit: only then
      may a delivery of that key be sent back for an immediate retry. */
  ghost function RetryableCount(s: Store, op: Op, key: string, limit: int): nat {
    if op.Increment? && op.id in s.jobs && KeyOf(s.jobs[op.id]) == key && AttemptsOf(s, op.id) + 1 < limit then 1
    else 0
  }

  ghost function RetryableCounts(s: Store, ops: seq<Op>, key: string, limit: int): nat
    decreases |ops|
  {
    if ops == [] then 0
    else RetryableCount(s, ops[0], key, limit) + RetryableCounts(Next(s, ops[0]), ops[1..], key, limit)
  }

  /** The steps that forget attempts of the key. */
  ghost function Resettings(s: Store, ops: seq<Op>, key: string): nat
    decreases |ops|
  {
    if ops == [] then 0
    else (if Resets(s, ops[0], key) then 1 else 0) + Resettings(Next(s, ops[0]), ops[1..], key)
  }

  /** What the forgetting steps of the run allow the key beyond its headroom. */
  ghost function Allowance(s: Store, ops: seq<Op>, key: string, limit: int): nat
    decreases |ops|
  {
    if ops == [] then 0
    else (if Resets(s, ops[0], key) then Spare(limit) else 0) + Allowance(Next(s, ops[0]), ops[1..], key, limit)
  }

  lemma {:induction false} AllowanceIsProduct(s: Store, ops: seq<Op>, key: string, limit: int)
    ensures Allowance(s, ops, key, limit) == Resettings(s, ops, key) * Spare(limit)
    decreases |ops|
  {
    if ops != [] {
      AllowanceIsProduct(Next(s, ops[0]), ops[1..], key, limit);
      OneMore(Resettings(Next(s, ops[0]), ops[1..], key), Spare(limit));
    }
  }

  lemma {:induction false} OneMore(k: nat, m: nat)
    ensures (1 + k) * m == m + k * m
  {
  }

  /** What a step does to the headroom of a key. */
  lemma {:induction false} HeadroomStep(s: Store, op: Op, key: string, limit: int)
    requires WellKeyed(s) && NoClash(s, op)
    ensures WellKeyed(Next(s, op))
    ensures Headroom(Next(s, op), key, limit) + RetryableCount(s, op, key, limit)
         <= Headroom(s, key, limit) + (if Resets(s, op, key) then Spare(limit) else 0)
  {
    StepKeepsWellKeyed(s, op);
    AttemptsFallExactly(s, op, key);
    if RetryableCount(s, op, key, limit) > 0 {
      CountRaisesAttempts(s, op.id);
    }
  }

  /** Every state of the run is well keyed, and no step of it clashes. */
  ghost predicate Lawful(s: Store, ops: seq<Op>)
    decreases |ops|
  {
    WellKeyed(s) && (ops != [] ==> NoClash(s, ops[0]) && Lawful(Next(s, ops[0]), ops[1..]))
  }

  lemma {:induction false} RunIsLawful(s: Store, ops: seq<Op>)
    requires WellKeyed(s) && NoneClash(s, ops)
    ensures Lawful(s, ops)
    decreases |ops|
  {
    if ops != [] {
      StepKeepsWellKeyed(s, ops[0]);
      RunIsLawful(Next(s, ops[0]), ops[1..]);
    }
  }

  ghost predicate WithinAllowance(s: Store, ops: seq<Op>, key: string, limit: int) {
    Lawful(s, ops) ==>
      RetryableCounts(s, ops, key, limit) <= Headroom(s, key, limit) + Allowance(s, ops, key, limit)
  }

  lemma {:induction false} LawfulStep(s: Store, ops: seq<Op>, key: string, limit: int)
    requires ops != []
    ensures Lawful(s, ops) ==>
      && Lawful(Next(s, ops[0]), ops[1..])
      && Headroom(Next(s, ops[0]), key, limit) + RetryableCount(s, ops[0], key, limit)
         <= Headroom(s, key, limit) + (if Resets(s, ops[0], key) then Spare(limit) else 0)
  {
    if Lawful(s, ops) {
      HeadroomStep(s, ops[0], key, limit);
    }
  }

  lemma {:induction false} FirstCount(s: Store, ops: seq<Op>, key: string, limit: int)
    requires ops != []
    ensures WithinAllowance(Next(s, ops[0]), ops[1..], key, limit) ==> WithinAllowance(s, ops, key, limit)
  {
    LawfulStep(s, ops, key, limit);
  }

  lemma {:induction false} CountsWithinAllowance(s: Store, ops: seq<Op>, key: string, limit: int)
    ensures WithinAllowance(s, ops, key, limit)
    decreases |ops|
  {
    if ops != [] {
      CountsWithinAllowance(Next(s, ops[0]), ops[1..], key, limit);
      FirstCount(s, ops, key, limit);
    }
  }

  /** Whatever else happens in between, the counts of one key that leave it below the limit are as many as
      attempts are left, and at most `limit - 1` more for every step that forgets its attempts. */
  lemma {:induction false} RetryableCountsAreBounded(s: Store, ops: seq<Op>, key: string, limit: int)
    requires WellKeyed(s) && NoneClash(s, ops)
    ensures RetryableCounts(s, ops, key, limit)
         <= Headroom(s, key, limit) + Resettings(s, ops, key) * Spare(limit)
  {
    RunIsLawful(s, ops);
    CountsWithinAllowance(s, ops, key, limit);
    AllowanceIsProduct(s, ops, key, limit);
  }

  // ---------- the store as an object ----------

  class LocalDb {
    var order: seq<string>
    var jobs: map<string, Row>
    var completed: map<string, string>

    ghost function Contents(): Store
      reads this
    {
      Store(order, jobs, completed)
    }

    constructor ()
      ensures Contents() == EmptyStore()
    {
      order, jobs, completed := [], map[], map[];
    }

    /** The generator expression over `jobs.values()`. */
    method FindSibling(key: string) returns (sibling: Option<Row>)
      ensures sibling == Sibling(order, jobs, key)
    {
      var i := 0;
      while i < |order|
        invariant i <= |order|
        invariant Sibling(order[i..], jobs, key) == Sibling(order, jobs, key)
      {
        if order[i] in jobs && KeyOf(jobs[order[i]]) == key {
          return Some(jobs[order[i]]);
        }
        i := i + 1;
      }
      return None;
    }

    method File(id: string, r: Row)
      modifies this`order, this`jobs
      ensures Contents() == Put(old(Contents()), id, r)
    {
      if id !in jobs {
        order := order + [id];
      }
      jobs := jobs[id := r];
    }

    /** `upsert_job`. */
    method UpsertJob(job: Row) returns (outcome: Outcome, id: string)
      modifies this
      ensures Contents() == Next(old(Contents()), Upsert(job))
      ensures outcome == OutcomeOf(old(Contents()), job) && id == ClaimedId(old(Contents()), job)
    {
      var key := KeyOf(job);
      if job.jobId in jobs
         && (jobs[job.jobId].externalId != job.externalId
             || Or(jobs[job.jobId].source, "djinni") != Or(job.source, "djinni"))
      {
        return Owned, job.jobId;
      }
      var sibling := FindSibling(key);
      if sibling.Some? && Active(sibling.value.status) {
        return Duplicate, sibling.value.jobId;
      }
      if sibling.Some? {
        File(sibling.value.jobId, Reclaimed(sibling.value, job));
        return Claimed, sibling.value.jobId;
      }
      File(job.jobId, job);
      if job.status == Completed {
        completed := completed[key := job.jobId];
      }
      return Claimed, job.jobId;
    }

    /** `update_job`. */
    method UpdateJob(id: string, f: Fields)
      modifies this
      ensures Contents() == Next(old(Contents()), Update(id, f))
    {
      if id !in jobs {
        return;
      }
      var r := Edited(jobs[id], f);
      File(id, r);
      if r.status == Completed {
        completed := completed[KeyOf(r) := id];
      }
    }

    /** `increment_attempts`. */
    method IncrementAttempts(id: string) returns (attempts: nat)
      modifies this
      ensures Contents() == Next(old(Contents()), Increment(id))
      ensures attempts == (if id in old(jobs) then old(jobs)[id].attempts else 0) + 1
    {
      attempts := (if id in jobs then jobs[id].attempts else 0) + 1;
      UpdateJob(id, Fields(None, Some(attempts), None));
    }

    /** `find_completed`. */
    method FindCompleted(key: string) returns (r: Option<Row>)
      ensures r == FindCompletedRow(Contents(), key)
    {
      if key !in completed || completed[key] !in jobs {
        return None;
      }
      return Some(jobs[completed[key]]);
    }

    /** `find_existing_ids`. */
    method FindExistingIds(source: string, wanted: set<string>) returns (known: set<string>)
      requires forall id :: id in jobs <==> id in order
      ensures known == ExistingIds(Contents(), source, wanted)
      ensures forall x :: x in known <==>
                x in wanted && exists id :: id in jobs && jobs[id].externalId == x
                                            && Or(jobs[id].source, "djinni") == Or(source, "djinni")
    {
      known := {};
      var i := 0;
      while i < |order|
        invariant i <= |order|
        invariant known == set id | id in order[..i] && jobs[id].externalId in wanted
                             && Or(jobs[id].source, "djinni") == Or(source, "djinni") :: jobs[id].externalId
      {
        var r := jobs[order[i]];
        assert order[..i + 1] == order[..i] + [order[i]];
        if r.externalId in wanted && Or(r.source, "djinni") == Or(source, "djinni") {
          known := known + {r.externalId};
        }
        i := i + 1;
      }
      assert order[..i] == order;
    }
  }
}

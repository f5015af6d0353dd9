/** The hash-linked audit log of db/index.ts: the hash payload, the startup backfill, the append and
    the integrity check, over a table whose rows are read back in the order SQL returns them. */
module AuditChain {
  import opened Options
  import opened Sorting

  /** Summaries are compared as parsed JSON; text is the serialised form of the parsed value. */
  datatype Json = JsonNull | JsonValue(text: string)

  datatype AuditEvent = AuditEvent(
    actorUsername: Option<string>,
    actorUserId: Option<string>,
    authMode: Option<string>,
    sourceIp: Option<string>,
    correlationId: string,
    action: string,
    targetType: string,
    targetId: Option<string>,
    beforeSummary: Option<string>,
    afterSummary: Option<string>,
    commandResult: Option<string>,
    success: bool)

  datatype Entry = Entry(timestamp: int, event: AuditEvent)

  /** A row of audit_log; the last three columns are nullable. id is the primary key. */
  datatype Row = Row(
    id: int,
    entry: Entry,
    sequenceNumber: Option<int>,
    previousEntryHash: Option<string>,
    entryHash: Option<string>)

  datatype Payload = Payload(
    time: int,
    author: string,
    authorUserId: Option<string>,
    auth: string,
    ip: string,
    action: string,
    targetType: string,
    targetId: Option<string>,
    target: string,
    result: string,
    correlation: string,
    before: Json,
    after: Json,
    commandResult: Json,
    previousHash: Option<string>)

  /** parse is JSON.parse with its failure read as null; digest is SHA-256 of the stringified payload. */
  datatype Codec = Codec(parse: string -> Json, digest: Payload -> string)

  datatype DatabaseKind = Sqlite | Postgres

  const SYSTEM: string := "System"
  const NOT_AVAILABLE: string := "N/A"
  const SUCCESS: string := "success"
  const FAILED: string := "failed"

  function ParseSummary(c: Codec, value: Option<string>): Json {
    match value
    case None => JsonNull
    case Some(text) => if text == "" then JsonNull else c.parse(text)
  }

  function TargetLabel(targetType: string, targetId: Option<string>): string {
    if targetId.None? || targetId.value == "" then targetType else targetType + ": " + targetId.value
  }

  function BuildPayload(c: Codec, e: Entry, previousEntryHash: Option<string>): Payload {
    var v := e.event;
    Payload(
      e.timestamp,
      v.actorUsername.GetOr(SYSTEM),
      v.actorUserId,
      v.authMode.GetOr(NOT_AVAILABLE),
      v.sourceIp.GetOr(NOT_AVAILABLE),
      v.action,
      v.targetType,
      v.targetId,
      TargetLabel(v.targetType, v.targetId),
      if v.success then SUCCESS else FAILED,
      v.correlationId,
      ParseSummary(c, v.beforeSummary),
      ParseSummary(c, v.afterSummary),
      ParseSummary(c, v.commandResult),
      previousEntryHash)
  }

  function ComputeEntryHash(c: Codec, e: Entry, previousEntryHash: Option<string>): string {
    c.digest(BuildPayload(c, e, previousEntryHash))
  }

  /** What a payload pins down about the entry: everything, up to the defaults shown for missing values
      and up to the formatting of the JSON summaries. */
  predicate SameEvidence(c: Codec, a: Entry, b: Entry) {
    var v, w := a.event, b.event;
    && a.timestamp == b.timestamp
    && v.actorUsername.GetOr(SYSTEM) == w.actorUsername.GetOr(SYSTEM)
    && v.actorUserId == w.actorUserId
    && v.authMode.GetOr(NOT_AVAILABLE) == w.authMode.GetOr(NOT_AVAILABLE)
    && v.sourceIp.GetOr(NOT_AVAILABLE) == w.sourceIp.GetOr(NOT_AVAILABLE)
    && v.correlationId == w.correlationId
    && v.action == w.action
    && v.targetType == w.targetType
    && v.targetId == w.targetId
    && ParseSummary(c, v.beforeSummary) == ParseSummary(c, w.beforeSummary)
    && ParseSummary(c, v.afterSummary) == ParseSummary(c, w.afterSummary)
    && ParseSummary(c, v.commandResult) == ParseSummary(c, w.commandResult)
    && v.success == w.success
  }

  lemma PayloadEvidence(c: Codec, a: Entry, p: Option<string>, b: Entry, q: Option<string>)
    ensures BuildPayload(c, a, p) == BuildPayload(c, b, q) <==> p == q && SameEvidence(c, a, b)
  {
    assert SUCCESS[0] != FAILED[0];
  }

  // ---- The chain a list of entries determines ----

  function Entries(rows: seq<Row>): (r: seq<Entry>)
    ensures |r| == |rows|
  {
    seq(|rows|, i requires 0 <= i < |rows| => rows[i].entry)
  }

  /** The hash of the last entry, each entry hashed together with the hash before it. */
  function ChainHash(c: Codec, entries: seq<Entry>): Option<string> {
    if entries == [] then None
    else
      var n := |entries| - 1;
      Some(ComputeEntryHash(c, entries[n], ChainHash(c, entries[..n])))
  }

  /** Number(null) is 0, so a null sequence number reads as 0. */
  function SequenceNumberOf(value: Option<int>): int {
    value.GetOr(0)
  }

  predicate RowOk(c: Codec, rows: seq<Row>, i: nat)
    requires i < |rows|
  {
    && SequenceNumberOf(rows[i].sequenceNumber) == i
    && rows[i].previousEntryHash == ChainHash(c, Entries(rows[..i]))
    && rows[i].entryHash == ChainHash(c, Entries(rows[..i + 1]))
  }

  ghost predicate Intact(c: Codec, rows: seq<Row>) {
    forall i :: 0 <= i < |rows| ==> RowOk(c, rows, i)
  }

  lemma ChainStep(c: Codec, rows: seq<Row>, i: nat)
    requires i < |rows|
    ensures ChainHash(c, Entries(rows[..i + 1]))
         == Some(ComputeEntryHash(c, rows[i].entry, ChainHash(c, Entries(rows[..i]))))
  {
    assert Entries(rows[..i + 1])[..i] == Entries(rows[..i]);
  }

  /** The comparison made by both the backfill and the integrity check. */
  predicate Matches(row: Row, index: nat, previousEntryHash: Option<string>, entryHash: string) {
    && SequenceNumberOf(row.sequenceNumber) == index
    && row.previousEntryHash == previousEntryHash
    && row.entryHash == Some(entryHash)
  }

  lemma MatchesIsRowOk(c: Codec, rows: seq<Row>, i: nat, previousEntryHash: Option<string>)
    requires i < |rows| && previousEntryHash == ChainHash(c, Entries(rows[..i]))
    ensures var entryHash := ComputeEntryHash(c, rows[i].entry, previousEntryHash);
            && ChainHash(c, Entries(rows[..i + 1])) == Some(entryHash)
            && (Matches(rows[i], i, previousEntryHash, entryHash) <==> RowOk(c, rows, i))
  {
    ChainStep(c, rows, i);
  }

  lemma PrefixRowOk(c: Codec, rows: seq<Row>, k: nat, i: nat)
    requires i < k <= |rows|
    ensures RowOk(c, rows[..k], i) <==> RowOk(c, rows, i)
  {
    assert rows[..k][..i] == rows[..i] && rows[..k][..i + 1] == rows[..i + 1];
  }

  // ---- Tamper evidence ----

  ghost predicate CollisionFree(c: Codec) {
    forall p, q :: c.digest(p) == c.digest(q) ==> p == q
  }

  function PayloadAt(c: Codec, entries: seq<Entry>, i: nat): Payload
    requires i < |entries|
  {
    BuildPayload(c, entries[i], ChainHash(c, entries[..i]))
  }

  lemma LastPayload(c: Codec, a: seq<Entry>, b: seq<Entry>)
    requires CollisionFree(c) && a != [] && b != [] && ChainHash(c, a) == ChainHash(c, b)
    ensures PayloadAt(c, a, |a| - 1) == PayloadAt(c, b, |b| - 1)
    ensures ChainHash(c, a[..|a| - 1]) == ChainHash(c, b[..|b| - 1])
  {
    assert c.digest(PayloadAt(c, a, |a| - 1)) == c.digest(PayloadAt(c, b, |b| - 1));
    PayloadEvidence(c, a[|a| - 1], ChainHash(c, a[..|a| - 1]), b[|b| - 1], ChainHash(c, b[..|b| - 1]));
  }

  lemma PayloadAtPrefix(c: Codec, entries: seq<Entry>, n: nat, i: nat)
    requires i < n <= |entries|
    ensures PayloadAt(c, entries[..n], i) == PayloadAt(c, entries, i)
  {
    assert entries[..n][..i] == entries[..i];
  }

  /** Equal final hashes force equal lengths and equal payloads all the way back. */
  lemma {:induction false} SameHashSameChain(c: Codec, a: seq<Entry>, b: seq<Entry>)
    requires CollisionFree(c) && ChainHash(c, a) == ChainHash(c, b)
    ensures |a| == |b|
    ensures forall i :: 0 <= i < |a| ==> PayloadAt(c, a, i) == PayloadAt(c, b, i)
  {
    if a == [] || b == [] {
    } else {
      var n, m := |a| - 1, |b| - 1;
      LastPayload(c, a, b);
      SameHashSameChain(c, a[..n], b[..m]);
      forall i | 0 <= i < n ensures PayloadAt(c, a, i) == PayloadAt(c, b, i) {
        PayloadAtPrefix(c, a, n, i);
        PayloadAtPrefix(c, b, n, i);
      }
    }
  }

  // ---- The orders in which the rows are read ----

  /** ORDER BY sequence_number, timestamp, id. Nulls come first in SQLite and last in Postgres. */
  function SequenceOrder(kind: DatabaseKind): (Row, Row) -> bool {
    (a: Row, b: Row) =>
      if a.sequenceNumber == b.sequenceNumber then AtOrBefore(a, b)
      else if a.sequenceNumber.None? then kind == Sqlite
      else if b.sequenceNumber.None? then kind == Postgres
      else a.sequenceNumber.value < b.sequenceNumber.value
  }

  predicate AtOrBefore(a: Row, b: Row) {
    a.entry.timestamp < b.entry.timestamp || (a.entry.timestamp == b.entry.timestamp && a.id <= b.id)
  }

  function TimeOrder(): (Row, Row) -> bool {
    (a: Row, b: Row) => AtOrBefore(a, b)
  }

  function DescendingOrder(kind: DatabaseKind): (Row, Row) -> bool {
    (a: Row, b: Row) => SequenceOrder(kind)(b, a)
  }

  function BySequence(kind: DatabaseKind, log: seq<Row>): seq<Row> {
    Sort(log, SequenceOrder(kind))
  }

  function ByTime(log: seq<Row>): seq<Row> {
    Sort(log, TimeOrder())
  }

  /** id is the primary key. */
  ghost predicate UniqueIds(log: seq<Row>) {
    forall i, j :: 0 <= i < j < |log| ==> log[i].id != log[j].id
  }

  lemma SameIdSameRow(log: seq<Row>, a: Row, b: Row)
    requires UniqueIds(log) && a in log && b in log && a.id == b.id
    ensures a == b
  {
    var i :| 0 <= i < |log| && log[i] == a;
    var j :| 0 <= j < |log| && log[j] == b;
    assert i == j || i < j || j < i;
  }

  /** Reading a table in some order lists each row once. */
  lemma ReadBack(log: seq<Row>, order: (Row, Row) -> bool)
    requires UniqueIds(log) && TotalPreorder(order)
    ensures UniqueIds(Sort(log, order)) && Sorted(Sort(log, order), order)
  {
    var read := Sort(log, order);
    SortSorts(log, order);
    SortDistinct(log, order);
    forall i, j | 0 <= i < j < |read| ensures read[i].id != read[j].id {
      assert read[i] in log && read[j] in log;
      if read[i].id == read[j].id { SameIdSameRow(log, read[i], read[j]); }
    }
  }

  /** The table has only one listing in sequence order. */
  lemma OneListing(kind: DatabaseKind, log: seq<Row>, listing: seq<Row>)
    requires UniqueIds(log) && UniqueIds(listing)
    requires SameElements(log, listing) && Sorted(listing, SequenceOrder(kind))
    ensures BySequence(kind, log) == listing
  {
    forall x, y | x in log && y in log && SequenceOrder(kind)(x, y) && SequenceOrder(kind)(y, x) ensures x == y {
      SameIdSameRow(log, x, y);
    }
    SortIsThe(log, listing, SequenceOrder(kind));
  }

  // ---- verifyAuditIntegrity ----

  datatype Verdict = Verdict(verified: bool, totalEntriesVerified: nat, latestHash: Option<string>)

  /** The verdict names the longest verified prefix and that prefix's hash. */
  ghost predicate IsVerdict(c: Codec, rows: seq<Row>, v: Verdict) {
    && v.totalEntriesVerified <= |rows|
    && (forall i :: 0 <= i < v.totalEntriesVerified ==> RowOk(c, rows, i))
    && (v.verified <==> v.totalEntriesVerified == |rows|)
    && (!v.verified ==> !RowOk(c, rows, v.totalEntriesVerified))
    && v.latestHash == ChainHash(c, Entries(rows[..v.totalEntriesVerified]))
  }

  /** Where the check stands before row n. */
  ghost predicate OkSoFar(c: Codec, rows: seq<Row>, n: nat, previousEntryHash: Option<string>) {
    && n <= |rows|
    && previousEntryHash == ChainHash(c, Entries(rows[..n]))
    && (forall i :: 0 <= i < n ==> RowOk(c, rows, i))
  }

  lemma VerdictMeaning(c: Codec, rows: seq<Row>, v: Verdict)
    requires IsVerdict(c, rows, v)
    ensures v.verified <==> Intact(c, rows)
    ensures forall k | 0 <= k <= |rows| && Intact(c, rows[..k]) :: k <= v.totalEntriesVerified
    ensures Intact(c, rows[..v.totalEntriesVerified])
  {
    var t := v.totalEntriesVerified;
    forall k | 0 <= k <= |rows| && Intact(c, rows[..k]) ensures k <= t {
      if t < k { PrefixRowOk(c, rows, k, t); }
    }
    forall i | 0 <= i < t ensures RowOk(c, rows[..t], i) {
      PrefixRowOk(c, rows, t, i);
    }
  }

  lemma SamePayloadSameRow(c: Codec, a: seq<Row>, b: seq<Row>, i: nat)
    requires i < |a| && i < |b| && RowOk(c, a, i) && RowOk(c, b, i)
    requires PayloadAt(c, Entries(a), i) == PayloadAt(c, Entries(b), i)
    ensures SameEvidence(c, a[i].entry, b[i].entry)
    ensures a[i].previousEntryHash == b[i].previousEntryHash && a[i].entryHash == b[i].entryHash
  {
    assert Entries(a)[..i] == Entries(a[..i]) && Entries(b)[..i] == Entries(b[..i]);
    PayloadEvidence(c, a[i].entry, ChainHash(c, Entries(a[..i])), b[i].entry, ChainHash(c, Entries(b[..i])));
    ChainStep(c, a, i);
    ChainStep(c, b, i);
  }

  /** Two verified logs that report the same latest hash agree row by row on everything the payload
      records; with the hash published elsewhere, no verified log can be substituted for another. */
  lemma VerifiedLogsAgree(c: Codec, a: seq<Row>, va: Verdict, b: seq<Row>, vb: Verdict)
    requires CollisionFree(c) && IsVerdict(c, a, va) && IsVerdict(c, b, vb)
    requires va.verified && vb.verified && va.latestHash == vb.latestHash
    ensures |a| == |b|
    ensures forall i :: 0 <= i < |a| ==>
              PayloadAt(c, Entries(a), i) == PayloadAt(c, Entries(b), i) && SameEvidence(c, a[i].entry, b[i].entry)
    ensures forall i :: 0 <= i < |a| ==>
              a[i].previousEntryHash == b[i].previousEntryHash && a[i].entryHash == b[i].entryHash
  {
    assert a[..|a|] == a && b[..|b|] == b;
    SameHashSameChain(c, Entries(a), Entries(b));
    forall i | 0 <= i < |a|
      ensures SameEvidence(c, a[i].entry, b[i].entry)
      ensures a[i].previousEntryHash == b[i].previousEntryHash && a[i].entryHash == b[i].entryHash
    {
      SamePayloadSameRow(c, a, b, i);
    }
  }

  // ---- backfillAuditLogChain ----

  function WithChain(row: Row, sequenceNumber: int, previousEntryHash: Option<string>, entryHash: Option<string>): Row
  {
    row.(sequenceNumber := Some(sequenceNumber), previousEntryHash := previousEntryHash, entryHash := entryHash)
  }

  /** Row i of the time-ordered table after the backfill has visited it. */
  function Rechained(c: Codec, rows: seq<Row>, i: nat): Row
    requires i < |rows|
  {
    if RowOk(c, rows, i) then rows[i]
    else WithChain(rows[i], i, ChainHash(c, Entries(rows[..i])), ChainHash(c, Entries(rows[..i + 1])))
  }

  function RechainedAll(c: Codec, rows: seq<Row>): (r: seq<Row>)
    ensures |r| == |rows|
  {
    seq(|rows|, i requires 0 <= i < |rows| => Rechained(c, rows, i))
  }

  /** after is before with each row replaced by its rechained form. */
  ghost predicate IsBackfilled(c: Codec, rows: seq<Row>, before: seq<Row>, after: seq<Row>) {
    && |after| == |before|
    && (forall i, j :: 0 <= i < |rows| && 0 <= j < |before| && rows[i].id == before[j].id
          ==> after[j] == Rechained(c, rows, i))
  }

  /** The table when the backfill has visited the first k rows. */
  ghost predicate Visited(c: Codec, rows: seq<Row>, before: seq<Row>, log: seq<Row>, k: nat) {
    && UniqueIds(rows)
    && |log| == |before|
    && (forall j :: 0 <= j < |before| ==> log[j].id == before[j].id)
    && (forall i, j :: 0 <= i < |rows| && 0 <= j < |before| && rows[i].id == before[j].id
          ==> log[j] == if i < k then Rechained(c, rows, i) else rows[i])
  }

  lemma NothingVisited(c: Codec, log: seq<Row>)
    requires UniqueIds(log)
    ensures Visited(c, ByTime(log), log, log, 0)
  {
    var rows := ByTime(log);
    ReadBack(log, TimeOrder());
    forall i, j | 0 <= i < |rows| && 0 <= j < |log| && rows[i].id == log[j].id ensures rows[i] == log[j] {
      assert rows[i] in log;
      SameIdSameRow(log, rows[i], log[j]);
    }
  }

  lemma AllVisited(c: Codec, rows: seq<Row>, before: seq<Row>, log: seq<Row>)
    requires Visited(c, rows, before, log, |rows|)
    ensures IsBackfilled(c, rows, before, log)
  {
  }

  lemma VisitNext(c: Codec, rows: seq<Row>, before: seq<Row>, log: seq<Row>, next: seq<Row>, k: nat)
    requires k < |rows| && Visited(c, rows, before, log, k) && |next| == |log|
    requires forall j :: 0 <= j < |log| && log[j].id != rows[k].id ==> next[j] == log[j]
    requires forall j :: 0 <= j < |log| && log[j].id == rows[k].id ==>
      next[j] == if RowOk(c, rows, k) then log[j]
                 else WithChain(log[j], k, ChainHash(c, Entries(rows[..k])), ChainHash(c, Entries(rows[..k + 1])))
    ensures Visited(c, rows, before, next, k + 1)
  {
    forall i, j | 0 <= i < |rows| && 0 <= j < |before| && rows[i].id == before[j].id
      ensures next[j] == if i < k + 1 then Rechained(c, rows, i) else rows[i]
    {
      assert log[j].id == before[j].id;
      assert i == k || i < k || k < i;
    }
  }

  /** Row i of the time-ordered table after the backfill has visited k rows. */
  function RechainedTo(c: Codec, rows: seq<Row>, k: nat): (r: seq<Row>)
    ensures |r| == |rows|
  {
    seq(|rows|, i requires 0 <= i < |rows| => if i < k then Rechained(c, rows, i) else rows[i])
  }

  lemma RechainedKeeps(c: Codec, rows: seq<Row>, k: nat, i: nat)
    requires i < |rows|
    ensures var row := RechainedTo(c, rows, k)[i]; row.id == rows[i].id && row.entry == rows[i].entry
  {
  }

  lemma RechainedInOrder(c: Codec, rows: seq<Row>, k: nat)
    requires UniqueIds(rows) && Sorted(rows, TimeOrder())
    ensures UniqueIds(RechainedTo(c, rows, k)) && Sorted(RechainedTo(c, rows, k), TimeOrder())
  {
    var listing := RechainedTo(c, rows, k);
    forall i, j | 0 <= i < j < |listing| ensures listing[i].id != listing[j].id && TimeOrder()(listing[i], listing[j]) {
      RechainedKeeps(c, rows, k, i);
      RechainedKeeps(c, rows, k, j);
      assert TimeOrder()(rows[i], rows[j]);
    }
  }

  lemma VisitedRow(c: Codec, rows: seq<Row>, before: seq<Row>, log: seq<Row>, k: nat, i: nat, j: nat)
    requires Visited(c, rows, before, log, k) && i < |rows| && j < |before| && rows[i].id == before[j].id
    ensures j < |log| && log[j] == RechainedTo(c, rows, k)[i] && log[j].id == before[j].id
  {
  }

  /** A table that the backfill has partly visited is read in the same time order again. */
  lemma SameTimeOrder(c: Codec, before: seq<Row>, log: seq<Row>, k: nat)
    requires UniqueIds(before) && Visited(c, ByTime(before), before, log, k)
    ensures UniqueIds(log) && ByTime(log) == RechainedTo(c, ByTime(before), k)
  {
    var rows, listing := ByTime(before), RechainedTo(c, ByTime(before), k);
    ReadBack(before, TimeOrder());
    RechainedInOrder(c, rows, k);
    forall j | 0 <= j < |before| ensures log[j] in listing {
      assert before[j] in rows;
      var i: nat :| i < |rows| && rows[i] == before[j];
      VisitedRow(c, rows, before, log, k, i, j);
    }
    forall x | x in listing ensures x in log {
      var i: nat :| i < |listing| && listing[i] == x;
      assert rows[i] in before;
      var j: nat :| j < |before| && before[j] == rows[i];
      VisitedRow(c, rows, before, log, k, i, j);
    }
    OneTimeListing(log, listing);
  }

  lemma OneTimeListing(log: seq<Row>, listing: seq<Row>)
    requires UniqueIds(log) && UniqueIds(listing)
    requires SameElements(log, listing) && Sorted(listing, TimeOrder())
    ensures ByTime(log) == listing
  {
    forall x, y | x in log && y in log && TimeOrder()(x, y) && TimeOrder()(y, x) ensures x == y {
      SameIdSameRow(log, x, y);
    }
    SortIsThe(log, listing, TimeOrder());
  }

  /** Rechaining leaves the rows that were rechained before as they are. */
  lemma RechainedAgain(c: Codec, rows: seq<Row>, k: nat, i: nat)
    requires i < |rows|
    ensures Rechained(c, RechainedTo(c, rows, k), i) == Rechained(c, rows, i)
  {
    var chain := RechainedTo(c, rows, k);
    assert Entries(chain[..i]) == Entries(rows[..i]);
    assert Entries(chain[..i + 1]) == Entries(rows[..i + 1]);
  }

  lemma RestartedAfterStop(c: Codec, before: seq<Row>, log: seq<Row>, k: nat, after: seq<Row>)
    requires UniqueIds(before) && Visited(c, ByTime(before), before, log, k)
    requires IsBackfilled(c, ByTime(log), log, after)
    ensures IsBackfilled(c, ByTime(before), before, after)
  {
    var rows := ByTime(before);
    SameTimeOrder(c, before, log, k);
    forall i, j | 0 <= i < |rows| && 0 <= j < |before| && rows[i].id == before[j].id
      ensures after[j] == Rechained(c, rows, i)
    {
      RechainedAgain(c, rows, k, i);
      assert ByTime(log)[i].id == log[j].id;
    }
  }

  lemma OneBackfill(c: Codec, before: seq<Row>, a: seq<Row>, b: seq<Row>)
    requires IsBackfilled(c, ByTime(before), before, a) && IsBackfilled(c, ByTime(before), before, b)
    ensures a == b
  {
    forall j | 0 <= j < |before| ensures a[j] == b[j] {
      assert before[j] in ByTime(before);
    }
  }

  /** Each table is what a backfill of the one before left when it stopped. */
  ghost predicate StoppedBackfills(c: Codec, tables: seq<seq<Row>>) {
    forall n :: 0 <= n < |tables| - 1 ==> StoppedBackfill(c, tables[n], tables[n + 1])
  }

  ghost predicate StoppedBackfill(c: Codec, before: seq<Row>, log: seq<Row>) {
    exists k: nat :: Visited(c, ByTime(before), before, log, k)
  }

  /** However many backfills stop after any of their statements, the first one that finishes leaves the table that an
      uninterrupted backfill of the first table leaves. */
  lemma {:induction false} StopsDoNotMatter(c: Codec, tables: seq<seq<Row>>, after: seq<Row>, uninterrupted: seq<Row>)
    requires tables != [] && UniqueIds(tables[0]) && StoppedBackfills(c, tables)
    requires IsBackfilled(c, ByTime(tables[|tables| - 1]), tables[|tables| - 1], after)
    requires IsBackfilled(c, ByTime(tables[0]), tables[0], uninterrupted)
    ensures after == uninterrupted
  {
    var n := |tables| - 1;
    if n == 0 {
      OneBackfill(c, tables[0], after, uninterrupted);
    } else {
      FirstStops(c, tables);
      StopsKeepIds(c, tables[..n]);
      var k: nat :| Visited(c, ByTime(tables[n - 1]), tables[n - 1], tables[n], k);
      RestartedAfterStop(c, tables[n - 1], tables[n], k, after);
      StopsDoNotMatter(c, tables[..n], after, uninterrupted);
    }
  }

  lemma FirstStops(c: Codec, tables: seq<seq<Row>>)
    requires |tables| > 1 && StoppedBackfills(c, tables)
    ensures StoppedBackfills(c, tables[..|tables| - 1])
    ensures StoppedBackfill(c, tables[|tables| - 2], tables[|tables| - 1])
  {
    var first := tables[..|tables| - 1];
    forall n | 0 <= n < |first| - 1 ensures StoppedBackfill(c, first[n], first[n + 1]) {
      assert StoppedBackfill(c, tables[n], tables[n + 1]);
    }
    assert StoppedBackfill(c, tables[|tables| - 2], tables[|tables| - 2 + 1]);
  }

  lemma {:induction false} StopsKeepIds(c: Codec, tables: seq<seq<Row>>)
    requires tables != [] && UniqueIds(tables[0]) && StoppedBackfills(c, tables)
    ensures UniqueIds(tables[|tables| - 1])
  {
    if |tables| > 1 {
      FirstStops(c, tables);
      StopsKeepIds(c, tables[..|tables| - 1]);
    }
  }

  /** How many of the first n rows of the time-ordered table the backfill has to update. */
  function Repairs(c: Codec, rows: seq<Row>, n: nat): nat
    requires n <= |rows|
  {
    if n == 0 then 0 else Repairs(c, rows, n - 1) + if RowOk(c, rows, n - 1) then 0 else 1
  }

  lemma {:induction false} RepairsGrow(c: Codec, rows: seq<Row>, m: nat, n: nat)
    requires m <= n <= |rows|
    ensures Repairs(c, rows, m) <= Repairs(c, rows, n)
  {
    if m < n { RepairsGrow(c, rows, m, n - 1); }
  }

  /** The one row shape the backfill leaves alone although its sequence number is null. */
  predicate NullHead(c: Codec, log: seq<Row>) {
    && log != []
    && var rows := ByTime(log);
       rows[0].sequenceNumber == None && RowOk(c, rows, 0)
  }

  /** Such a table exists for every entry. */
  lemma NullHeadExists(c: Codec, id: int, entry: Entry)
    ensures NullHead(c, [Row(id, entry, None, None, Some(ComputeEntryHash(c, entry, None)))])
  {
    var row := Row(id, entry, None, None, Some(ComputeEntryHash(c, entry, None)));
    assert [row][1..] == [] && ByTime([row]) == [row];
    assert [row][..0] == [] && [row][..1] == [row];
    ChainStep(c, [row], 0);
  }

  /** The number and the hash of a row are both there or both null; the first row of a chain has no previous hash. */
  predicate AllOrNone(row: Row) {
    row.sequenceNumber.None? <==> row.entryHash.None?
  }

  ghost predicate ChainedOrNot(log: seq<Row>) {
    forall row :: row in log ==> AllOrNone(row)
  }

  lemma AllOrNoneHasNoNullHead(c: Codec, log: seq<Row>)
    requires ChainedOrNot(log)
    ensures !NullHead(c, log)
  {
    if log != [] {
      var rows := ByTime(log);
      assert rows[0] in log;
      ChainStep(c, rows, 0);
    }
  }

  /** The backfill never produces a row with a hash and no number. */
  lemma BackfillKeepsAllOrNone(c: Codec, before: seq<Row>, after: seq<Row>)
    requires UniqueIds(before) && IsBackfilled(c, ByTime(before), before, after) && ChainedOrNot(before)
    ensures ChainedOrNot(after)
  {
    var rows := ByTime(before);
    BackfilledRows(c, before, after);
    forall row | row in after ensures AllOrNone(row) {
      assert row in RechainedAll(c, rows);
      var i :| 0 <= i < |rows| && RechainedAll(c, rows)[i] == row;
      assert rows[i] in before;
      ChainStep(c, rows, i);
    }
  }

  /** Every stored sequence number is its position, a null standing for 0 only where nulls sort first. */
  ghost predicate Numbered(kind: DatabaseKind, rows: seq<Row>) {
    forall i :: 0 <= i < |rows| ==>
      rows[i].sequenceNumber == Some(i) || (kind == Sqlite && i == 0 && rows[i].sequenceNumber == None)
  }

  /** What startup establishes and every append keeps. */
  ghost predicate Linked(kind: DatabaseKind, c: Codec, log: seq<Row>) {
    && UniqueIds(log)
    && Numbered(kind, BySequence(kind, log))
    && Intact(c, BySequence(kind, log))
  }

  lemma RechainedIntact(c: Codec, rows: seq<Row>)
    ensures Intact(c, RechainedAll(c, rows))
  {
    var chain := RechainedAll(c, rows);
    forall i | 0 <= i < |chain| ensures RowOk(c, chain, i) {
      assert Entries(chain[..i]) == Entries(rows[..i]);
      assert Entries(chain[..i + 1]) == Entries(rows[..i + 1]);
    }
  }

  lemma BackfilledRow(c: Codec, rows: seq<Row>, before: seq<Row>, after: seq<Row>, i: nat, j: nat)
    requires IsBackfilled(c, rows, before, after) && i < |rows| && j < |before| && rows[i] == before[j]
    ensures j < |after| && after[j] == RechainedAll(c, rows)[i] && after[j].id == before[j].id
  {
  }

  lemma {:induction false} BackfilledIsRechained(c: Codec, before: seq<Row>, after: seq<Row>, j: nat)
    requires IsBackfilled(c, ByTime(before), before, after) && j < |before|
    ensures j < |after| && after[j].id == before[j].id && after[j] in RechainedAll(c, ByTime(before))
  {
    var rows := ByTime(before);
    assert before[j] in rows;
    var i: nat :| i < |rows| && rows[i] == before[j];
    BackfilledRow(c, rows, before, after, i, j);
  }

  lemma {:induction false} RechainedIsBackfilled(c: Codec, before: seq<Row>, after: seq<Row>, i: nat)
    requires IsBackfilled(c, ByTime(before), before, after) && i < |ByTime(before)|
    ensures RechainedAll(c, ByTime(before))[i].id == ByTime(before)[i].id
    ensures RechainedAll(c, ByTime(before))[i] in after
  {
    var rows := ByTime(before);
    assert rows[i] in before;
    var j: nat :| j < |before| && before[j] == rows[i];
    BackfilledRow(c, rows, before, after, i, j);
  }

  lemma {:induction false} BackfilledRows(c: Codec, before: seq<Row>, after: seq<Row>)
    requires UniqueIds(before) && IsBackfilled(c, ByTime(before), before, after)
    ensures UniqueIds(after) && UniqueIds(RechainedAll(c, ByTime(before)))
    ensures SameElements(after, RechainedAll(c, ByTime(before)))
  {
    var chain := RechainedAll(c, ByTime(before));
    ReadBack(before, TimeOrder());
    forall j: nat | j < |before| ensures after[j].id == before[j].id && after[j] in chain {
      BackfilledIsRechained(c, before, after, j);
    }
    forall i: nat | i < |chain| ensures chain[i].id == ByTime(before)[i].id && chain[i] in after {
      RechainedIsBackfilled(c, before, after, i);
    }
  }

  lemma BackfillLinks(kind: DatabaseKind, c: Codec, before: seq<Row>, after: seq<Row>)
    requires UniqueIds(before) && IsBackfilled(c, ByTime(before), before, after)
    requires kind == Sqlite || !NullHead(c, before)
    ensures BySequence(kind, after) == RechainedAll(c, ByTime(before))
    ensures Linked(kind, c, after)
  {
    var chain := RechainedAll(c, ByTime(before));
    BackfilledRows(c, before, after);
    assert Numbered(kind, chain);
    OneListing(kind, after, chain);
    RechainedIntact(c, ByTime(before));
  }

  // ---- appendAudit ----

  function Latest(kind: DatabaseKind, log: seq<Row>): Option<Row> {
    if log == [] then None else Some(Sort(log, DescendingOrder(kind))[0])
  }

  /** The row appendAudit inserts when the read returned `latest`. */
  function NextRow(c: Codec, latest: Option<Row>, id: int, entry: Entry): Row {
    var sequenceNumber := match latest { case None => 0 case Some(row) => SequenceNumberOf(row.sequenceNumber) + 1 };
    var previousEntryHash := match latest { case None => None case Some(row) => row.entryHash };
    Row(id, entry, Some(sequenceNumber), previousEntryHash,
        Some(ComputeEntryHash(c, entry, previousEntryHash)))
  }

  lemma LatestIsLast(kind: DatabaseKind, c: Codec, log: seq<Row>)
    requires Linked(kind, c, log) && log != []
    ensures Latest(kind, log) == Some(BySequence(kind, log)[|log| - 1])
  {
    var view, desc := BySequence(kind, log), Sort(log, DescendingOrder(kind));
    ReadBack(log, SequenceOrder(kind));
    ReadBack(log, DescendingOrder(kind));
    var first, last := desc[0], view[|log| - 1];
    assert first in log && last in log;
    assert SequenceOrder(kind)(first, last) by {
      assert first in view;
      var i :| 0 <= i < |view| && view[i] == first;
    }
    assert SequenceOrder(kind)(last, first) by {
      assert last in desc;
      var i :| 0 <= i < |desc| && desc[i] == last;
    }
    SameIdSameRow(log, first, last);
  }

  lemma NextRowContinues(kind: DatabaseKind, c: Codec, log: seq<Row>, id: int, entry: Entry)
    requires Linked(kind, c, log)
    ensures var row := NextRow(c, Latest(kind, log), id, entry);
            && row.sequenceNumber == Some(|log|)
            && row.previousEntryHash == ChainHash(c, Entries(BySequence(kind, log)))
  {
    if log != [] {
      var view, n := BySequence(kind, log), |log|;
      LatestIsLast(kind, c, log);
      assert RowOk(c, view, n - 1);
      assert view[..n] == view;
    }
  }

  lemma IntactExtends(c: Codec, rows: seq<Row>, row: Row)
    requires Intact(c, rows) && row.sequenceNumber == Some(|rows|)
    requires row.previousEntryHash == ChainHash(c, Entries(rows))
    requires row.entryHash == Some(ComputeEntryHash(c, row.entry, row.previousEntryHash))
    ensures Intact(c, rows + [row])
  {
    var all, n := rows + [row], |rows|;
    assert all[..n] == rows;
    forall i | 0 <= i < |all| ensures RowOk(c, all, i) {
      if i < n { PrefixRowOk(c, all, n, i); } else { MatchesIsRowOk(c, all, n, row.previousEntryHash); }
    }
  }

  lemma ListingExtends(kind: DatabaseKind, log: seq<Row>, row: Row)
    requires UniqueIds(log + [row])
    requires Numbered(kind, BySequence(kind, log)) && row.sequenceNumber == Some(|log|)
    ensures BySequence(kind, log + [row]) == BySequence(kind, log) + [row]
    ensures Numbered(kind, BySequence(kind, log + [row]))
  {
    var view := BySequence(kind, log);
    var listing := view + [row];
    assert UniqueIds(log) by {
      forall i, j | 0 <= i < j < |log| ensures log[i].id != log[j].id {
        assert (log + [row])[i].id != (log + [row])[j].id;
      }
    }
    ReadBack(log, SequenceOrder(kind));
    forall i | 0 <= i < |view| ensures view[i].id != row.id && SequenceOrder(kind)(view[i], row) {
      assert view[i] in log;
      var k :| 0 <= k < |log| && log[k] == view[i];
      assert (log + [row])[k].id != (log + [row])[|log|].id;
    }
    OneListing(kind, log + [row], listing);
  }

  /** An append that reads the current table and inserts a fresh id extends the chain by one row. */
  lemma AppendLinks(kind: DatabaseKind, c: Codec, log: seq<Row>, id: int, entry: Entry)
    requires Linked(kind, c, log)
    requires forall i :: 0 <= i < |log| ==> log[i].id != id
    ensures Linked(kind, c, log + [NextRow(c, Latest(kind, log), id, entry)])
    ensures BySequence(kind, log + [NextRow(c, Latest(kind, log), id, entry)])
         == BySequence(kind, log) + [NextRow(c, Latest(kind, log), id, entry)]
  {
    var row := NextRow(c, Latest(kind, log), id, entry);
    NextRowContinues(kind, c, log, id, entry);
    assert UniqueIds(log + [row]);
    ListingExtends(kind, log, row);
    IntactExtends(c, BySequence(kind, log), row);
  }

  // ---- The database object ----

  class AppDatabase {
    const kind: DatabaseKind
    const codec: Codec
    var auditLog: seq<Row>

    constructor (kind: DatabaseKind, codec: Codec, rows: seq<Row>)
      ensures this.kind == kind && this.codec == codec && auditLog == rows
    {
      this.kind, this.codec, auditLog := kind, codec, rows;
    }

    method UpdateChainColumns(id: int, sequenceNumber: int, previousEntryHash: Option<string>, entryHash: string)
      modifies this`auditLog
      ensures |auditLog| == |old(auditLog)|
      ensures forall j :: 0 <= j < |auditLog| && old(auditLog)[j].id != id ==> auditLog[j] == old(auditLog)[j]
      ensures forall j :: 0 <= j < |auditLog| && old(auditLog)[j].id == id ==>
                auditLog[j] == WithChain(old(auditLog)[j], sequenceNumber, previousEntryHash, Some(entryHash))
    {
      var rows := auditLog;
      auditLog := seq(|rows|, j requires 0 <= j < |rows| =>
        if rows[j].id == id then WithChain(rows[j], sequenceNumber, previousEntryHash, Some(entryHash)) else rows[j]);
    }

    /** updates: how many UPDATE statements succeed before one fails. visited: how far the loop came. */
    method BackfillAuditLogChain(updates: nat) returns (finished: bool, ghost visited: nat)
      requires UniqueIds(auditLog)
      modifies this`auditLog
      ensures Visited(codec, ByTime(old(auditLog)), old(auditLog), auditLog, visited)
      ensures visited <= |old(auditLog)| && Repairs(codec, ByTime(old(auditLog)), visited) <= updates
      ensures finished <==> Repairs(codec, ByTime(old(auditLog)), |old(auditLog)|) <= updates
      ensures !finished ==> Repairs(codec, ByTime(old(auditLog)), visited) == updates
      ensures finished ==> IsBackfilled(codec, ByTime(old(auditLog)), old(auditLog), auditLog)
    {
      ghost var before := auditLog;
      var rows := ByTime(auditLog);
      NothingVisited(codec, auditLog);
      var previousEntryHash: Option<string> := None;
      var issued := 0;
      for index := 0 to |rows|
        invariant previousEntryHash == ChainHash(codec, Entries(rows[..index]))
        invariant Visited(codec, rows, before, auditLog, index)
        invariant Repairs(codec, rows, index) == issued <= updates
      {
        ghost var log := auditLog;
        var row := rows[index];
        var entryHash := ComputeEntryHash(codec, row.entry, previousEntryHash);
        MatchesIsRowOk(codec, rows, index, previousEntryHash);
        if !Matches(row, index, previousEntryHash, entryHash) {
          if issued == updates {
            RepairsGrow(codec, rows, index + 1, |rows|);
            return false, index;
          }
          UpdateChainColumns(row.id, index, previousEntryHash, entryHash);
          issued := issued + 1;
        }
        VisitNext(codec, rows, before, log, auditLog, index);
        previousEntryHash := Some(entryHash);
      }
      AllVisited(codec, rows, before, auditLog);
      return true, |rows|;
    }

    /** The first half of appendAudit: read the newest row and compute the row to insert. */
    method PrepareAppend(id: int, entry: Entry) returns (row: Row)
      ensures row == NextRow(codec, Latest(kind, auditLog), id, entry)
    {
      var latest := Latest(kind, auditLog);
      var sequenceNumber, previousEntryHash := 0, None;
      if latest.Some? {
        sequenceNumber := SequenceNumberOf(latest.value.sequenceNumber) + 1;
        previousEntryHash := latest.value.entryHash;
      }
      row := Row(id, entry, Some(sequenceNumber), previousEntryHash,
                 Some(ComputeEntryHash(codec, entry, previousEntryHash)));
    }

    /** The second half: the INSERT, which the primary key or the database may refuse. */
    method InsertAuditRow(row: Row, available: bool) returns (stored: bool)
      modifies this`auditLog
      ensures stored == (available && forall i :: 0 <= i < |old(auditLog)| ==> old(auditLog)[i].id != row.id)
      ensures auditLog == if stored then old(auditLog) + [row] else old(auditLog)
    {
      stored := available && forall i :: 0 <= i < |auditLog| ==> auditLog[i].id != row.id;
      if stored { auditLog := auditLog + [row]; }
    }

    method VerifyAuditIntegrity() returns (v: Verdict)
      ensures IsVerdict(codec, BySequence(kind, auditLog), v)
    {
      var rows := BySequence(kind, auditLog);
      var previousEntryHash: Option<string> := None;
      for index := 0 to |rows|
        invariant OkSoFar(codec, rows, index, previousEntryHash)
      {
        var row := rows[index];
        var expectedHash := ComputeEntryHash(codec, row.entry, previousEntryHash);
        MatchesIsRowOk(codec, rows, index, previousEntryHash);
        if !Matches(row, index, previousEntryHash, expectedHash) {
          return Verdict(false, index, previousEntryHash);
        }
        previousEntryHash := Some(expectedHash);
      }
      return Verdict(true, |rows|, previousEntryHash);
    }
  }
}

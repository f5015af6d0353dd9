/** AuditService: concurrent `record` calls, each an asynchronous read of the newest row followed by an
    insert, serialised by the promise queue. Every interleaving of the atomic steps is a run. */
module AuditLog {
  import opened Options
  import opened Sorting
  import opened PromiseQueue
  import opened AuditChain

  /** A row that was inserted, and the write that inserted it. */
  datatype Stored = Stored(write: nat, row: Row)

  /** A write holds its prepared row while it runs and yields the stored row. stored is history. */
  datatype State = State(log: seq<Row>, writes: Queue<AuditEvent, Row, Row>, stored: seq<Stored>)

  datatype Event =
    | Record(event: AuditEvent)
    | Prepare(write: nat, id: int, now: int, available: bool)
    | Insert(write: nat, available: bool, answered: bool)

  /** One atomic step; a step whose promise is not ready does nothing. The clock and the token generator
      are arbitrary, the database may fail, the primary key refuses a repeated id, and an insert whose answer is
      lost rejects although its row is stored. */
  function Step(kind: DatabaseKind, c: Codec, s: State, e: Event): State {
    match e
    case Record(event) => s.(writes := Enqueue(s.writes, event))
    case Prepare(i, id, now, available) =>
      if !Ready(s.writes, i) then s
      else if !available then s.(writes := Advance(s.writes, i, Rejected))
      else
        var row := NextRow(c, Latest(kind, s.log), id, Entry(now, s.writes.jobs[i].args));
        s.(writes := Advance(s.writes, i, Running(row)))
    case Insert(i, available, answered) =>
      if !Active(s.writes, i) then s
      else
        var row := s.writes.jobs[i].phase.local;
        if available && forall j :: 0 <= j < |s.log| ==> s.log[j].id != row.id
        then State(s.log + [row], Advance(s.writes, i, if answered then Fulfilled(row) else Rejected),
                   s.stored + [Stored(i, row)])
        else s.(writes := Advance(s.writes, i, Rejected))
  }

  function Run(kind: DatabaseKind, c: Codec, s: State, events: seq<Event>): State {
    if events == [] then s
    else Step(kind, c, Run(kind, c, s, events[..|events| - 1]), events[|events| - 1])
  }

  function Boot(log: seq<Row>): State {
    State(log, Queue(None, []), [])
  }

  function Rows(stored: seq<Stored>): seq<Row> {
    if stored == [] then [] else Rows(stored[..|stored| - 1]) + [stored[|stored| - 1].row]
  }

  /** A stored row carries the event its call asked to record, and the call is settled: fulfilled with the row, or
      rejected because the answer was lost. */
  ghost predicate StoredBy(jobs: seq<Job<AuditEvent, Row, Row>>, x: Stored) {
    && x.write < |jobs|
    && x.row.entry.event == jobs[x.write].args
    && (jobs[x.write].phase == Fulfilled(x.row) || jobs[x.write].phase.Rejected?)
  }

  /** The rows were stored in call order, one for every successful call. */
  ghost predicate InCallOrder(jobs: seq<Job<AuditEvent, Row, Row>>, stored: seq<Stored>) {
    && (forall x :: x in stored ==> StoredBy(jobs, x))
    && (forall i, j :: 0 <= i < j < |stored| ==> stored[i].write < stored[j].write)
    && (forall i :: 0 <= i < |jobs| && jobs[i].phase.Fulfilled? ==> Stored(i, jobs[i].phase.value) in stored)
  }

  /** A prepared row carries the event of its call. */
  ghost predicate Prepared(jobs: seq<Job<AuditEvent, Row, Row>>) {
    forall i :: 0 <= i < |jobs| && jobs[i].phase.Running? ==> jobs[i].phase.local.entry.event == jobs[i].args
  }

  /** The row a running write is about to insert is still the row the current table calls for. */
  ghost predicate UpToDate(kind: DatabaseKind, c: Codec, s: State) {
    forall i :: 0 <= i < |s.writes.jobs| && s.writes.jobs[i].phase.Running? ==>
      var row := s.writes.jobs[i].phase.local;
      row == NextRow(c, Latest(kind, s.log), row.id, row.entry)
  }

  ghost predicate Inv(kind: DatabaseKind, c: Codec, initial: seq<Row>, s: State) {
    && Serial(s.writes)
    && Prepared(s.writes.jobs)
    && InCallOrder(s.writes.jobs, s.stored)
    && UpToDate(kind, c, s)
    && Linked(kind, c, s.log)
    && s.log == initial + Rows(s.stored)
    && BySequence(kind, s.log) == BySequence(kind, initial) + Rows(s.stored)
  }

  lemma AdvanceKeepsOrder(writes: Queue<AuditEvent, Row, Row>, stored: seq<Stored>, i: nat, phase: Phase<Row, Row>)
    requires Serial(writes) && InCallOrder(writes.jobs, stored) && (Ready(writes, i) || Active(writes, i))
    requires !phase.Fulfilled?
    ensures InCallOrder(Advance(writes, i, phase).jobs, stored)
    ensures forall x :: x in stored ==> x.write < i
  {
    if Ready(writes, i) { ReadyIsNext(writes, i); } else { ActiveIsAlone(writes, i); }
    forall x | x in stored ensures x.write < i && StoredBy(Advance(writes, i, phase).jobs, x) {
      assert StoredBy(writes.jobs, x);
    }
  }

  lemma StoreKeepsOrder(writes: Queue<AuditEvent, Row, Row>, stored: seq<Stored>, i: nat, row: Row, answered: bool)
    requires Serial(writes) && InCallOrder(writes.jobs, stored) && Active(writes, i)
    requires row.entry.event == writes.jobs[i].args
    ensures InCallOrder(Advance(writes, i, if answered then Fulfilled(row) else Rejected).jobs,
                        stored + [Stored(i, row)])
  {
    AdvanceKeepsOrder(writes, stored, i, Rejected);
    var jobs := Advance(writes, i, if answered then Fulfilled(row) else Rejected).jobs;
    forall x | x in stored ensures StoredBy(jobs, x) {
      assert StoredBy(writes.jobs, x) && x.write < i;
    }
  }

  lemma RowsSnoc(stored: seq<Stored>, x: Stored)
    ensures Rows(stored + [x]) == Rows(stored) + [x.row]
  {
    assert (stored + [x])[..|stored|] == stored;
  }

  lemma PrepareKeepsInv(kind: DatabaseKind, c: Codec, initial: seq<Row>, s: State, i: nat, phase: Phase<Row, Row>)
    requires Inv(kind, c, initial, s) && Ready(s.writes, i)
    requires phase.Rejected? ||
      (phase.Running? && phase.local == NextRow(c, Latest(kind, s.log), phase.local.id, phase.local.entry)
       && phase.local.entry.event == s.writes.jobs[i].args)
    ensures Inv(kind, c, initial, s.(writes := Advance(s.writes, i, phase)))
  {
    AdvanceSerial(s.writes, i, phase);
    AdvanceKeepsOrder(s.writes, s.stored, i, phase);
  }

  lemma RejectKeepsInv(kind: DatabaseKind, c: Codec, initial: seq<Row>, s: State, i: nat)
    requires Inv(kind, c, initial, s) && Active(s.writes, i)
    ensures Inv(kind, c, initial, s.(writes := Advance(s.writes, i, Rejected)))
  {
    AdvanceSerial(s.writes, i, Rejected);
    AdvanceKeepsOrder(s.writes, s.stored, i, Rejected);
  }

  /** Storing the row leaves no other write running, so nothing else can be out of date. */
  lemma StoreQueue(kind: DatabaseKind, c: Codec, s: State, i: nat, phase: Phase<Row, Row>, next: State)
    requires Serial(s.writes) && Prepared(s.writes.jobs) && Active(s.writes, i) && phase.Settled()
    requires next.writes == Advance(s.writes, i, phase)
    ensures Serial(next.writes) && Prepared(next.writes.jobs) && UpToDate(kind, c, next)
  {
    ActiveIsAlone(s.writes, i);
    AdvanceSerial(s.writes, i, phase);
  }

  lemma StoreKeepsInv(kind: DatabaseKind, c: Codec, initial: seq<Row>, s: State, i: nat, row: Row, answered: bool)
    requires Inv(kind, c, initial, s) && Active(s.writes, i) && row == s.writes.jobs[i].phase.local
    requires forall j :: 0 <= j < |s.log| ==> s.log[j].id != row.id
    ensures var phase := if answered then Fulfilled(row) else Rejected;
      Inv(kind, c, initial, State(s.log + [row], Advance(s.writes, i, phase), s.stored + [Stored(i, row)]))
  {
    var phase := if answered then Fulfilled(row) else Rejected;
    var next := State(s.log + [row], Advance(s.writes, i, phase), s.stored + [Stored(i, row)]);
    StoreQueue(kind, c, s, i, phase, next);
    StoreKeepsOrder(s.writes, s.stored, i, row, answered);
    RowsSnoc(s.stored, Stored(i, row));
    AppendLinks(kind, c, s.log, row.id, row.entry);
    Associate(initial, Rows(s.stored), row);
    Associate(BySequence(kind, initial), Rows(s.stored), row);
  }

  lemma Associate<T>(a: seq<T>, b: seq<T>, x: T)
    ensures a + b + [x] == a + (b + [x])
  {
  }

  lemma InsertEffect(kind: DatabaseKind, c: Codec, s: State, i: nat, available: bool, answered: bool)
    requires Active(s.writes, i)
    ensures var row := s.writes.jobs[i].phase.local;
      Step(kind, c, s, Insert(i, available, answered)) ==
        if available && forall j :: 0 <= j < |s.log| ==> s.log[j].id != row.id
        then State(s.log + [row], Advance(s.writes, i, if answered then Fulfilled(row) else Rejected),
                   s.stored + [Stored(i, row)])
        else s.(writes := Advance(s.writes, i, Rejected))
  {
  }

  lemma InsertKeepsInv(kind: DatabaseKind, c: Codec, initial: seq<Row>, s: State, i: nat, available: bool,
                       answered: bool)
    requires Inv(kind, c, initial, s) && Active(s.writes, i)
    ensures Inv(kind, c, initial, Step(kind, c, s, Insert(i, available, answered)))
  {
    var row := s.writes.jobs[i].phase.local;
    InsertEffect(kind, c, s, i, available, answered);
    if available && forall j :: 0 <= j < |s.log| ==> s.log[j].id != row.id {
      StoreKeepsInv(kind, c, initial, s, i, row, answered);
    } else {
      RejectKeepsInv(kind, c, initial, s, i);
    }
  }

  lemma StepKeepsInv(kind: DatabaseKind, c: Codec, initial: seq<Row>, s: State, e: Event)
    requires Inv(kind, c, initial, s)
    ensures Inv(kind, c, initial, Step(kind, c, s, e))
  {
    match e
    case Record(event) =>
      EnqueueSerial(s.writes, event);
    case Prepare(i, id, now, available) =>
      if Ready(s.writes, i) {
        PrepareKeepsInv(kind, c, initial, s, i, Step(kind, c, s, e).writes.jobs[i].phase);
      }
    case Insert(i, available, answered) =>
      if Active(s.writes, i) { InsertKeepsInv(kind, c, initial, s, i, available, answered); }
  }

  lemma NothingAdded<T>(s: seq<T>)
    ensures s + [] == s
  {
  }

  lemma {:induction false} BootInv(kind: DatabaseKind, c: Codec, log: seq<Row>)
    requires Linked(kind, c, log)
    ensures Inv(kind, c, log, Boot(log))
  {
    assert Rows([]) == [];
    NothingAdded(log);
    NothingAdded(BySequence(kind, log));
  }

  lemma RunLast(kind: DatabaseKind, c: Codec, s: State, events: seq<Event>)
    requires events != []
    ensures Run(kind, c, s, events) == Step(kind, c, Run(kind, c, s, events[..|events| - 1]), events[|events| - 1])
  {
  }

  lemma {:induction false} RunKeepsInv(kind: DatabaseKind, c: Codec, log: seq<Row>, events: seq<Event>)
    requires Linked(kind, c, log)
    ensures Inv(kind, c, log, Run(kind, c, Boot(log), events))
  {
    if events == [] {
      BootInv(kind, c, log);
    } else {
      var rest, last := events[..|events| - 1], events[|events| - 1];
      RunKeepsInv(kind, c, log, rest);
      StepKeepsInv(kind, c, log, Run(kind, c, Boot(log), rest), last);
      RunLast(kind, c, Boot(log), events);
    }
  }

  lemma SerialRun(kind: DatabaseKind, c: Codec, log: seq<Row>, events: seq<Event>)
    requires Linked(kind, c, log)
    ensures Serial(Run(kind, c, Boot(log), events).writes)
  {
    RunKeepsInv(kind, c, log, events);
  }

  /** Every reachable log is intact, numbered 0..n-1, and holds the old rows followed by the stored rows in call order,
      one for every successful call and each with the event its call recorded. */
  lemma ReachableLogs(kind: DatabaseKind, c: Codec, log: seq<Row>, events: seq<Event>, v: Verdict)
    requires Linked(kind, c, log)
    requires IsVerdict(c, BySequence(kind, Run(kind, c, Boot(log), events).log), v)
    ensures var s := Run(kind, c, Boot(log), events);
            var view := BySequence(kind, s.log);
            && v.verified && v.totalEntriesVerified == |s.log|
            && (forall i :: 0 <= i < |view| ==> SequenceNumberOf(view[i].sequenceNumber) == i)
            && view == BySequence(kind, log) + Rows(s.stored)
            && InCallOrder(s.writes.jobs, s.stored)
  {
    RunKeepsInv(kind, c, log, events);
    var view := BySequence(kind, Run(kind, c, Boot(log), events).log);
    VerdictMeaning(c, view, v);
    forall i | 0 <= i < |view| ensures SequenceNumberOf(view[i].sequenceNumber) == i {
      assert RowOk(c, view, i);
    }
  }

  predicate Answered(e: Event) {
    e.Insert? ==> e.answered
  }

  lemma StepStoresResults(kind: DatabaseKind, c: Codec, s: State, e: Event)
    requires Serial(s.writes) && Rows(s.stored) == Results(s.writes.jobs) && Answered(e)
    ensures Rows(Step(kind, c, s, e).stored) == Results(Step(kind, c, s, e).writes.jobs)
  {
    match e
    case Record(event) => ResultsEnqueue(s.writes, event);
    case Prepare(i, _, _, _) =>
      if Ready(s.writes, i) { ResultsAdvance(s.writes, i, Step(kind, c, s, e).writes.jobs[i].phase); }
    case Insert(i, _, _) =>
      if Active(s.writes, i) {
        ResultsAdvance(s.writes, i, Step(kind, c, s, e).writes.jobs[i].phase);
        RowsSnoc(s.stored, Stored(i, s.writes.jobs[i].phase.local));
      }
  }

  /** As long as no answer is lost, the stored rows are exactly what the successful calls resolved with. */
  lemma {:induction false} AnsweredRowsAreResults(kind: DatabaseKind, c: Codec, log: seq<Row>, events: seq<Event>)
    requires Linked(kind, c, log) && forall e :: e in events ==> Answered(e)
    ensures var s := Run(kind, c, Boot(log), events); Rows(s.stored) == Results(s.writes.jobs)
  {
    if events != [] {
      AnsweredRowsAreResults(kind, c, log, events[..|events| - 1]);
      RunKeepsInv(kind, c, log, events[..|events| - 1]);
      StepStoresResults(kind, c, Run(kind, c, Boot(log), events[..|events| - 1]), events[|events| - 1]);
    }
  }

  /** Two writes never run at once, and a write never starts before an earlier call is settled. */
  lemma WritesAreExclusive(kind: DatabaseKind, c: Codec, log: seq<Row>, events: seq<Event>, i: nat, j: nat)
    requires Linked(kind, c, log)
    requires i < j < |Run(kind, c, Boot(log), events).writes.jobs|
    requires !Run(kind, c, Boot(log), events).writes.jobs[j].phase.Waiting?
    ensures Run(kind, c, Boot(log), events).writes.jobs[i].phase.Settled()
  {
    RunKeepsInv(kind, c, log, events);
  }

  // ---- Every call whose turn comes is stored, unless something fails ----

  /** What the calls asked to record, in call order. */
  function Calls(events: seq<Event>): seq<AuditEvent> {
    if events == [] then []
    else
      var rest, last := Calls(events[..|events| - 1]), events[|events| - 1];
      if last.Record? then rest + [last.event] else rest
  }

  ghost predicate AskedFor(jobs: seq<Job<AuditEvent, Row, Row>>, calls: seq<AuditEvent>) {
    |jobs| == |calls| && forall i :: 0 <= i < |jobs| ==> jobs[i].args == calls[i]
  }

  lemma StepKeepsCalls(kind: DatabaseKind, c: Codec, s: State, e: Event, calls: seq<AuditEvent>)
    requires AskedFor(s.writes.jobs, calls)
    ensures AskedFor(Step(kind, c, s, e).writes.jobs, if e.Record? then calls + [e.event] else calls)
  {
  }

  /** There is one write for every call, with the event that the call recorded. */
  lemma {:induction false} WritesAreCalls(kind: DatabaseKind, c: Codec, log: seq<Row>, events: seq<Event>)
    ensures AskedFor(Run(kind, c, Boot(log), events).writes.jobs, Calls(events))
  {
    if events != [] {
      var rest := events[..|events| - 1];
      WritesAreCalls(kind, c, log, rest);
      StepKeepsCalls(kind, c, Run(kind, c, Boot(log), rest), events[|rest|], Calls(rest));
    }
  }

  lemma RunSnoc(kind: DatabaseKind, c: Codec, s: State, events: seq<Event>, e: Event)
    ensures Run(kind, c, s, events + [e]) == Step(kind, c, Run(kind, c, s, events), e)
  {
    assert (events + [e])[..|events|] == events;
  }

  /** The write runs with a prepared row, and the table is still the one it was prepared for. */
  ghost predicate Holding(s: State, i: nat, log: seq<Row>, row: Row) {
    s.log == log && i < |s.writes.jobs| && s.writes.jobs[i].phase == Running(row)
  }

  lemma OthersWait(kind: DatabaseKind, c: Codec, s: State, e: Event, i: nat, log: seq<Row>, row: Row)
    requires Serial(s.writes) && Holding(s, i, log, row) && !(e.Insert? && e.write == i)
    ensures Holding(Step(kind, c, s, e), i, log, row)
  {
    ActiveIsAlone(s.writes, i);
    if e.Prepare? && Ready(s.writes, e.write) { ReadyIsNext(s.writes, e.write); }
  }

  lemma {:induction false} HeldMeanwhile(kind: DatabaseKind, c: Codec, log: seq<Row>, events: seq<Event>,
                                         meanwhile: seq<Event>, i: nat, held: seq<Row>, row: Row)
    requires Linked(kind, c, log) && Holding(Run(kind, c, Boot(log), events), i, held, row)
    requires forall e :: e in meanwhile ==> !(e.Insert? && e.write == i)
    ensures Holding(Run(kind, c, Boot(log), events + meanwhile), i, held, row)
  {
    if meanwhile == [] {
      assert events + meanwhile == events;
    } else {
      var rest, last := meanwhile[..|meanwhile| - 1], meanwhile[|meanwhile| - 1];
      assert events + meanwhile == events + rest + [last];
      HeldMeanwhile(kind, c, log, events, rest, i, held, row);
      RunKeepsInv(kind, c, log, events + rest);
      OthersWait(kind, c, Run(kind, c, Boot(log), events + rest), last, i, held, row);
      RunSnoc(kind, c, Boot(log), events + rest, last);
    }
  }

  ghost predicate Unused(log: seq<Row>, id: int) {
    forall j :: 0 <= j < |log| ==> log[j].id != id
  }

  lemma PrepareNext(kind: DatabaseKind, c: Codec, s: State, i: nat, id: int, now: int)
    requires Serial(s.writes) && NextInLine(s.writes, i)
    ensures Holding(Step(kind, c, s, Prepare(i, id, now, true)), i, s.log,
                    NextRow(c, Latest(kind, s.log), id, Entry(now, s.writes.jobs[i].args)))
  {
    ReadyIsNextInLine(s.writes, i);
  }

  /** From any table, in any run: a call whose turn has come and whose read and insert work, with whatever else
      happening in between, is fulfilled with a row that records what it was called with at the time it began, and the
      log is the old one plus that row. */
  lemma QueuedCallIsStored(kind: DatabaseKind, c: Codec, log: seq<Row>, events: seq<Event>, meanwhile: seq<Event>,
                           i: nat, id: int, now: int)
    requires Linked(kind, c, log)
    requires NextInLine(Run(kind, c, Boot(log), events).writes, i) && Unused(Run(kind, c, Boot(log), events).log, id)
    requires forall e :: e in meanwhile ==> !(e.Insert? && e.write == i)
    ensures i < |Calls(events)|
    ensures var s := Run(kind, c, Boot(log), events);
      var after := Run(kind, c, Boot(log), events + [Prepare(i, id, now, true)] + meanwhile + [Insert(i, true, true)]);
      && i < |after.writes.jobs| && after.writes.jobs[i].phase.Fulfilled?
      && var row := after.writes.jobs[i].phase.value;
      && row.id == id && row.entry == Entry(now, Calls(events)[i])
      && after.log == s.log + [row]
      && BySequence(kind, after.log) == BySequence(kind, s.log) + [row]
  {
    var s, prepare := Run(kind, c, Boot(log), events), Prepare(i, id, now, true);
    var row := NextRow(c, Latest(kind, s.log), id, Entry(now, s.writes.jobs[i].args));
    WritesAreCalls(kind, c, log, events);
    RunKeepsInv(kind, c, log, events);
    RunSnoc(kind, c, Boot(log), events, prepare);
    PrepareNext(kind, c, s, i, id, now);
    HeldMeanwhile(kind, c, log, events + [prepare], meanwhile, i, s.log, row);
    RunSnoc(kind, c, Boot(log), events + [prepare] + meanwhile, Insert(i, true, true));
    InsertEffect(kind, c, Run(kind, c, Boot(log), events + [prepare] + meanwhile), i, true, true);
    AppendLinks(kind, c, s.log, id, row.entry);
  }

  /** What makes a call fail: in its turn the read fails; or, once it runs, the insert fails, the id is taken, or the
      answer is lost. */
  ghost predicate Fails(s: State, e: Event, i: nat) {
    || (e.Prepare? && e.write == i && !e.available && NextInLine(s.writes, i))
    || (e.Insert? && e.write == i && Active(s.writes, i)
        && (!e.available || !e.answered || !Unused(s.log, s.writes.jobs[i].phase.local.id)))
  }

  ghost predicate FailsAt(kind: DatabaseKind, c: Codec, log: seq<Row>, events: seq<Event>, n: nat, i: nat) {
    n < |events| && Fails(Run(kind, c, Boot(log), events[..n]), events[n], i)
  }

  ghost predicate EverFails(kind: DatabaseKind, c: Codec, log: seq<Row>, events: seq<Event>, i: nat) {
    exists n: nat :: FailsAt(kind, c, log, events, n, i)
  }

  lemma FailsAtPrefix(kind: DatabaseKind, c: Codec, log: seq<Row>, events: seq<Event>, n: nat, i: nat)
    requires n < |events|
    ensures var rest := events[..|events| - 1];
      FailsAt(kind, c, log, events, n, i) <==>
        if n < |rest| then FailsAt(kind, c, log, rest, n, i) else Fails(Run(kind, c, Boot(log), rest), events[n], i)
  {
    if n < |events| - 1 { assert events[..|events| - 1][..n] == events[..n]; }
  }

  lemma EverFailsStep(kind: DatabaseKind, c: Codec, log: seq<Row>, events: seq<Event>, i: nat)
    requires events != []
    ensures var rest, last := events[..|events| - 1], events[|events| - 1];
      EverFails(kind, c, log, events, i) <==>
        EverFails(kind, c, log, rest, i) || Fails(Run(kind, c, Boot(log), rest), last, i)
  {
    var rest := events[..|events| - 1];
    FailsAtPrefix(kind, c, log, events, |rest|, i);
    if n: nat :| FailsAt(kind, c, log, rest, n, i) { FailsAtPrefix(kind, c, log, events, n, i); }
    if n: nat :| FailsAt(kind, c, log, events, n, i) { FailsAtPrefix(kind, c, log, events, n, i); }
  }

  predicate IsRejected(s: State, i: nat) {
    i < |s.writes.jobs| && s.writes.jobs[i].phase.Rejected?
  }

  lemma StepRejects(kind: DatabaseKind, c: Codec, s: State, e: Event, i: nat)
    requires Serial(s.writes)
    ensures IsRejected(Step(kind, c, s, e), i) <==> IsRejected(s, i) || Fails(s, e, i)
  {
    match e
    case Record(_) =>
    case Prepare(j, _, _, _) => ReadyIsNextInLine(s.writes, j);
    case Insert(j, _, _) =>
  }

  /** A call is rejected exactly if its read failed in its turn, its insert failed, its id was taken or its answer was
      lost: no other call, rejected or not, and nothing else in the run makes it fail. */
  lemma {:induction false} RejectedExactly(kind: DatabaseKind, c: Codec, log: seq<Row>, events: seq<Event>, i: nat)
    requires Linked(kind, c, log)
    ensures IsRejected(Run(kind, c, Boot(log), events), i) <==> EverFails(kind, c, log, events, i)
  {
    if events != [] {
      var rest := events[..|events| - 1];
      RejectedExactly(kind, c, log, rest, i);
      SerialRun(kind, c, log, rest);
      StepRejects(kind, c, Run(kind, c, Boot(log), rest), events[|rest|], i);
      RunLast(kind, c, Boot(log), events);
      EverFailsStep(kind, c, log, events, i);
    }
  }

  // ---- Exactly when startup followed by any run leaves a log that verifies ----

  ghost predicate AlwaysIntact(kind: DatabaseKind, c: Codec, log: seq<Row>) {
    forall events: seq<Event> :: Intact(c, BySequence(kind, Run(kind, c, Boot(log), events).log))
  }

  lemma LastComesLast(rows: seq<Row>, order: (Row, Row) -> bool, p: nat)
    requires Sorted(rows, order) && p < |rows|
    ensures p == |rows| - 1 || order(rows[p], rows[|rows| - 1])
  {
  }

  /** In Postgres a null sequence number sorts last, where a second row makes it wrong. */
  lemma NullIsLast(c: Codec, view: seq<Row>, p: nat)
    requires Sorted(view, SequenceOrder(Postgres)) && p < |view| && view[p].sequenceNumber == None && |view| >= 2
    ensures !RowOk(c, view, |view| - 1)
  {
    LastComesLast(view, SequenceOrder(Postgres), p);
    assert view[|view| - 1].sequenceNumber == None;
  }

  /** A null sequence number left at the head sorts last in Postgres, so a longer log is out of order. */
  lemma NullHeadBreaksLongLog(c: Codec, before: seq<Row>, after: seq<Row>)
    requires UniqueIds(before) && IsBackfilled(c, ByTime(before), before, after)
    requires NullHead(c, before) && |before| >= 2
    ensures !Intact(c, BySequence(Postgres, after))
  {
    var chain := RechainedAll(c, ByTime(before));
    BackfilledRows(c, before, after);
    var view := BySequence(Postgres, after);
    ReadBack(after, SequenceOrder(Postgres));
    assert chain[0].sequenceNumber == None && chain[0] in view;
    var p :| 0 <= p < |view| && view[p] == chain[0];
    NullIsLast(c, view, p);
  }

  /** The first call after a start. */
  function FirstCall(id: int, now: int, event: AuditEvent): seq<Event> {
    [Record(event), Prepare(0, id, now, true), Insert(0, true, true)]
  }

  lemma FirstCallAppends(kind: DatabaseKind, c: Codec, log: seq<Row>, id: int, now: int, event: AuditEvent)
    requires Unused(log, id)
    ensures Run(kind, c, Boot(log), FirstCall(id, now, event)).log
         == log + [NextRow(c, Latest(kind, log), id, Entry(now, event))]
  {
    var s0 := Boot(log);
    var s1 := Step(kind, c, s0, Record(event));
    var s2 := Step(kind, c, s1, Prepare(0, id, now, true));
    RunThree(kind, c, s0, Record(event), Prepare(0, id, now, true), Insert(0, true, true));
    assert s2.writes.jobs[0].phase == Running(NextRow(c, Latest(kind, log), id, Entry(now, event)));
  }

  lemma NullSortsLast(c: Codec, head: Row, row: Row)
    requires head.sequenceNumber == None && row.sequenceNumber == Some(1)
    ensures !Intact(c, BySequence(Postgres, [head, row]))
  {
    var view := BySequence(Postgres, [head, row]);
    assert SequenceOrder(Postgres)(row, head) && !SequenceOrder(Postgres)(head, row);
    assert Sort([row], SequenceOrder(Postgres)) == [row];
    assert [head, row][1..] == [row];
    assert view == Sorting.Insert(head, [row], SequenceOrder(Postgres)) == [row, head];
    assert !RowOk(c, view, 0);
  }

  /** On a single-row log the damage shows with the next append, which sorts before the null. */
  lemma NullHeadBreaksNextAppend(c: Codec, before: seq<Row>, after: seq<Row>, now: int, event: AuditEvent)
    requires UniqueIds(before) && IsBackfilled(c, ByTime(before), before, after)
    requires NullHead(c, before) && |before| == 1
    ensures !Intact(c, BySequence(Postgres, Run(Postgres, c, Boot(after), FirstCall(after[0].id + 1, now, event)).log))
  {
    var head := after[0];
    assert ByTime(before) == before;
    assert after == [head] && head == before[0] && head.sequenceNumber == None;
    FirstCallAppends(Postgres, c, after, head.id + 1, now, event);
    assert Latest(Postgres, after) == Some(head);
    NullSortsLast(c, head, NextRow(c, Some(head), head.id + 1, Entry(now, event)));
  }

  lemma RunThree(kind: DatabaseKind, c: Codec, s: State, e0: Event, e1: Event, e2: Event)
    ensures Run(kind, c, s, [e0, e1, e2]) == Step(kind, c, Step(kind, c, Step(kind, c, s, e0), e1), e2)
  {
    assert [e0, e1, e2][..2] == [e0, e1] && [e0, e1][..1] == [e0] && [e0][..0] == [];
    assert Run(kind, c, s, [e0]) == Step(kind, c, s, e0);
    assert Run(kind, c, s, [e0, e1]) == Step(kind, c, Run(kind, c, s, [e0]), e1);
  }

  /** After the backfill, every reachable log verifies unless the database sorts nulls last and the oldest
      row already had the right hashes but a null sequence number. */
  lemma BackfillThenAlwaysIntact(kind: DatabaseKind, c: Codec, before: seq<Row>, after: seq<Row>, event: AuditEvent)
    requires UniqueIds(before) && IsBackfilled(c, ByTime(before), before, after)
    ensures AlwaysIntact(kind, c, after) <==> (kind == Sqlite || !NullHead(c, before))
  {
    if kind == Sqlite || !NullHead(c, before) {
      BackfillLinks(kind, c, before, after);
      forall events: seq<Event> ensures Intact(c, BySequence(kind, Run(kind, c, Boot(after), events).log)) {
        RunKeepsInv(kind, c, after, events);
      }
    } else if |before| >= 2 {
      NullHeadBreaksLongLog(c, before, after);
      var events: seq<Event> := [];
      assert Run(kind, c, Boot(after), events).log == after;
    } else {
      NullHeadBreaksNextAppend(c, before, after, 0, event);
    }
  }

  // ---- Tables that were chained completely or not at all ----

  predicate PreparedWhole(jobs: seq<Job<AuditEvent, Row, Row>>) {
    forall i :: 0 <= i < |jobs| && jobs[i].phase.Running? ==> AllOrNone(jobs[i].phase.local)
  }

  lemma StepKeepsAllOrNone(kind: DatabaseKind, c: Codec, s: State, e: Event)
    requires ChainedOrNot(s.log) && PreparedWhole(s.writes.jobs)
    ensures ChainedOrNot(Step(kind, c, s, e).log) && PreparedWhole(Step(kind, c, s, e).writes.jobs)
  {
  }

  /** No run of the program produces a row with a hash and no number ... */
  lemma {:induction false} RunsKeepAllOrNone(kind: DatabaseKind, c: Codec, log: seq<Row>, events: seq<Event>)
    requires ChainedOrNot(log)
    ensures var s := Run(kind, c, Boot(log), events); ChainedOrNot(s.log) && PreparedWhole(s.writes.jobs)
  {
    if events != [] {
      RunsKeepAllOrNone(kind, c, log, events[..|events| - 1]);
      StepKeepsAllOrNone(kind, c, Run(kind, c, Boot(log), events[..|events| - 1]), events[|events| - 1]);
    }
  }

  /** ... so on either database, from a table whose rows were chained completely or not at all, every reachable log
      verifies, now and after every later restart: the backfill starts from such a table again. */
  lemma {:induction false} AllOrNoneAlwaysIntact(kind: DatabaseKind, c: Codec, before: seq<Row>, after: seq<Row>,
                                                 events: seq<Event>)
    requires UniqueIds(before) && ChainedOrNot(before) && IsBackfilled(c, ByTime(before), before, after)
    ensures var log := Run(kind, c, Boot(after), events).log;
      Intact(c, BySequence(kind, log)) && UniqueIds(log) && ChainedOrNot(log)
  {
    AllOrNoneHasNoNullHead(c, before);
    BackfillLinks(kind, c, before, after);
    RunKeepsInv(kind, c, after, events);
    BackfillKeepsAllOrNone(c, before, after);
    RunsKeepAllOrNone(kind, c, after, events);
  }

  // ---- The service object ----

  class AuditService {
    const db: AppDatabase
    var writeQueue: Option<nat>
    var writes: seq<Job<AuditEvent, Row, Row>>
    ghost var stored: seq<Stored>

    ghost function Abs(): State
      reads this, db
    {
      State(db.auditLog, Queue(writeQueue, writes), stored)
    }

    constructor (db: AppDatabase)
      ensures this.db == db && Abs() == Boot(db.auditLog)
    {
      this.db, writeQueue, writes, stored := db, None, [], [];
    }

    /** record: chain the write to the queue and make it the new tail. */
    method RecordEvent(event: AuditEvent)
      modifies this
      ensures Abs() == Step(db.kind, db.codec, old(Abs()), Record(event))
    {
      writes := writes + [Job(event, writeQueue, Waiting)];
      writeQueue := Some(|writes| - 1);
    }

    /** The first atomic step of runWrite: stamp the entry and read the newest row. */
    method BeginWrite(i: nat, id: int, now: int, available: bool)
      modifies this
      ensures Abs() == Step(db.kind, db.codec, old(Abs()), Prepare(i, id, now, available))
    {
      if !Ready(Queue(writeQueue, writes), i) { return; }
      if !available {
        writes := writes[i := writes[i].(phase := Rejected)];
        return;
      }
      var row := db.PrepareAppend(id, Entry(now, writes[i].args));
      writes := writes[i := writes[i].(phase := Running(row))];
    }

    /** The second atomic step: insert the row and settle the promise; answered: whether the database's answer came. */
    method FinishWrite(i: nat, available: bool, answered: bool)
      modifies this, db
      ensures Abs() == Step(db.kind, db.codec, old(Abs()), Insert(i, available, answered))
    {
      if !Active(Queue(writeQueue, writes), i) { return; }
      var row := writes[i].phase.local;
      var inserted := db.InsertAuditRow(row, available);
      if inserted { stored := stored + [Stored(i, row)]; }
      writes := writes[i := writes[i].(phase := if inserted && answered then Fulfilled(row) else Rejected)];
    }
  }
}

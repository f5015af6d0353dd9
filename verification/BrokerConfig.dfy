/** Pushing a new broker configuration: the compare against the text the caller last saw, the write by rename or
    in place, and the job queue that keeps pushes apart. The file is its bytes; both sides of a compare are
    taken as bytes too. */
module BrokerConfig {
  import opened Basics
  import opened Options
  import opened PromiseQueue

  type Bytes = seq<bv8>

  /** What the file system does to one write; written: how many bytes the in-place write stores. */
  datatype Faults = Faults(
    directory: bool, temporary: bool, rename: bool, open: bool, seek: bool, write: bool, written: nat,
    truncate: bool, sync: bool)

  // ---- One write ----

  /** Bytes stored at offset 0 of an open file. */
  function Overlay(was: Bytes, data: Bytes): Bytes {
    if |data| <= |was| then data + was[|data|..] else data
  }

  function Zeros(n: nat): (r: Bytes)
    ensures |r| == n && forall i :: 0 <= i < n ==> r[i] == 0
  {
    if n == 0 then [] else [0] + Zeros(n - 1)
  }

  /** Setting the length cuts the file or extends it with zero bytes. */
  function SetLength(content: Bytes, length: nat): (r: Bytes)
    ensures |r| == length
    ensures forall i :: 0 <= i < length ==> r[i] == if i < |content| then content[i] else 0
  {
    if length <= |content| then content[..length] else content + Zeros(length - |content|)
  }

  function Stored(rendered: Bytes, faults: Faults): Bytes {
    if faults.written < |rendered| then rendered[..faults.written] else rendered
  }

  /** The fallback on the file as it was found: what it then holds, and whether the caller is told it worked. The
      agent's write_all fails when it cannot store every byte; the local write does not look at the count. */
  function InPlace(found: Bytes, rendered: Bytes, viaAgent: bool, faults: Faults): (Bytes, bool) {
    if viaAgent && faults.seek then (found, false)
    else
      var stored := Overlay(found, Stored(rendered, faults));
      if faults.write || (viaAgent && faults.written < |rendered|) || faults.truncate then (stored, false)
      else (SetLength(stored, |rendered|), !faults.sync)
  }

  function WriteConfig(file: Option<Bytes>, rendered: Bytes, viaAgent: bool, faults: Faults): (Option<Bytes>, bool) {
    if faults.directory then (file, false)
    else if !faults.temporary && !faults.rename then (Some(rendered), true)
    else if faults.open then (file, false)
    else
      var (content, ok) := InPlace(file.GetOr([]), rendered, viaAgent, faults);
      (Some(content), ok)
  }

  /** Whatever the file held before, longer or shorter, a whole in-place write leaves exactly the new text. */
  lemma OverlayThenLength(was: Bytes, rendered: Bytes)
    ensures SetLength(Overlay(was, rendered), |rendered|) == rendered
  {
  }

  /** How many bytes a write that reports success has stored: all of them when the new file was renamed into place or
      the agent wrote, perhaps fewer in the local fallback. */
  function BytesStored(rendered: Bytes, viaAgent: bool, faults: Faults): nat {
    if viaAgent || (!faults.temporary && !faults.rename) || faults.written >= |rendered| then |rendered|
    else faults.written
  }

  /** after is what storing the first k bytes over the file and setting the length leaves. */
  predicate LeftBy(before: Option<Bytes>, after: Option<Bytes>, rendered: Bytes, k: nat) {
    k <= |rendered| && after == Some(SetLength(Overlay(before.GetOr([]), rendered[..k]), |rendered|))
  }

  lemma LeftByAll(before: Option<Bytes>, rendered: Bytes)
    ensures forall after :: LeftBy(before, after, rendered, |rendered|) <==> after == Some(rendered)
  {
    assert rendered[..|rendered|] == rendered;
    OverlayThenLength(before.GetOr([]), rendered);
  }

  /** A write that reports success left the rendered text, through either path, as far as its bytes were stored. */
  lemma WriteLeavesRendered(file: Option<Bytes>, rendered: Bytes, viaAgent: bool, faults: Faults)
    requires WriteConfig(file, rendered, viaAgent, faults).1
    ensures LeftBy(file, WriteConfig(file, rendered, viaAgent, faults).0, rendered,
                   BytesStored(rendered, viaAgent, faults))
    ensures BytesStored(rendered, viaAgent, faults) == |rendered| ==>
              WriteConfig(file, rendered, viaAgent, faults).0 == Some(rendered)
  {
    LeftByAll(file, rendered);
    assert rendered[..|rendered|] == rendered;
    assert Stored(rendered, faults) == rendered[..Min(faults.written, |rendered|)];
  }

  /** Renaming works, or it does not and storing in place does; only the agent notices a bad seek or a short count. */
  predicate ReportsSuccess(rendered: Bytes, viaAgent: bool, faults: Faults) {
    && !faults.directory
    && ((!faults.temporary && !faults.rename)
        || (!faults.open && !faults.write && !faults.truncate && !faults.sync
            && (viaAgent ==> !faults.seek && faults.written >= |rendered|)))
  }

  /** Whether a write reports success does not depend on the file. */
  lemma WriteSucceedsExactly(file: Option<Bytes>, rendered: Bytes, viaAgent: bool, faults: Faults)
    ensures WriteConfig(file, rendered, viaAgent, faults).1 <==> ReportsSuccess(rendered, viaAgent, faults)
  {
  }

  predicate Prefixed(before: Option<Bytes>, after: Option<Bytes>, rendered: Bytes, k: nat) {
    k <= |rendered| && after == Some(Overlay(before.GetOr([]), rendered[..k]))
  }

  /** What a write that reports failure may leave: the old file, or a prefix of the new text laid over the old file,
      cut to the new length or not. The whole of the new text is one such prefix. */
  ghost predicate Interrupted(before: Option<Bytes>, after: Option<Bytes>, rendered: Bytes) {
    || after == before
    || (exists k: nat :: Prefixed(before, after, rendered, k))
    || (exists k: nat :: LeftBy(before, after, rendered, k))
  }

  lemma WriteLeavesAtWorstAPrefix(file: Option<Bytes>, rendered: Bytes, viaAgent: bool, faults: Faults)
    ensures Interrupted(file, WriteConfig(file, rendered, viaAgent, faults).0, rendered)
  {
    LeftByAll(file, rendered);
    var found, k := file.GetOr([]), if faults.written < |rendered| then faults.written else |rendered|;
    var content := InPlace(found, rendered, viaAgent, faults).0;
    assert Stored(rendered, faults) == rendered[..k];
    assert Overlay(found, rendered[..0]) == found;
    var stored := Overlay(found, rendered[..k]);
    assert content == found || content == stored || content == SetLength(stored, |rendered|);
    assert content == found ==> Prefixed(file, Some(content), rendered, 0);
    assert content == stored ==> Prefixed(file, Some(content), rendered, k);
    assert content == SetLength(stored, |rendered|) ==> LeftBy(file, Some(content), rendered, k);
    assert LeftBy(file, Some(rendered), rendered, |rendered|);
  }

  /** The local fallback trusts a short write: it reports success, and the file is right exactly if the bytes it
      did not store happen to be there already. */
  lemma ShortLocalWriteExactly(file: Option<Bytes>, rendered: Bytes, faults: Faults)
    requires !faults.directory && (faults.temporary || faults.rename) && !faults.open
    requires !faults.write && !faults.truncate && !faults.sync
    ensures WriteConfig(file, rendered, false, faults).1
    ensures WriteConfig(file, rendered, false, faults).0 == Some(rendered) <==>
              forall i :: faults.written <= i < |rendered| ==>
                rendered[i] == if i < |file.GetOr([])| then file.GetOr([])[i] else 0
  {
    var found, k := file.GetOr([]), faults.written;
    if k >= |rendered| {
      OverlayThenLength(found, rendered);
    } else {
      var stored := Overlay(found, rendered[..k]);
      var result := SetLength(stored, |rendered|);
      assert WriteConfig(file, rendered, false, faults).0 == Some(result);
      forall i | 0 <= i < |rendered|
        ensures result[i] == if i < k then rendered[i] else if i < |found| then found[i] else 0
      {
      }
      if forall i :: k <= i < |rendered| ==> rendered[i] == if i < |found| then found[i] else 0 {
        assert result == rendered;
      }
    }
  }

  // ---- Queued jobs ----

  /** expected: None for a push without a compare. The queue also carries reloads and restarts. */
  datatype Task =
    | Push(rendered: Bytes, expected: Option<Bytes>)
    | Operation

  /** How far a running push is; before: the file it started from, stored: how much of it was written (the program
      keeps neither). */
  datatype Local = Checked(before: Option<Bytes>) | Written(before: Option<Bytes>, stored: nat)

  type Jobs = Queue<Task, Local, Option<Bytes>>

  datatype Outcome =
    | Succeeded
    | Conflict
    | ReadFailed
    | WriteFailed
    | ReadBackFailed
    | Operated

  /** A settled job: its task, the file when it started and when it settled, and how much a completed write stored. */
  datatype Done = Done(task: Task, before: Option<Bytes>, after: Option<Bytes>, outcome: Outcome, stored: nat)

  /** done is history. */
  datatype State = State(queue: Jobs, file: Option<Bytes>, done: seq<Done>)

  datatype Event =
    | Enqueued(task: Task)
    | Check(job: nat, readFails: bool)
    | Write(job: nat, readFails: bool, faults: Faults, responseLost: bool)
    | ReadBack(job: nat, readFails: bool)
    | Operate(job: nat, succeeds: bool)

  function Settle(s: State, job: nat, before: Option<Bytes>, file: Option<Bytes>, outcome: Outcome, stored: nat): State
    requires job < |s.queue.jobs|
  {
    var phase :=
      if outcome.Succeeded? then Fulfilled(file) else if outcome.Operated? then Fulfilled(None) else Rejected;
    State(Advance(s.queue, job, phase), file,
          s.done + [Done(s.queue.jobs[job].args, before, file, outcome, stored)])
  }

  /** The comparison both sides make before they go on. */
  function Verdict(file: Option<Bytes>, expected: Option<Bytes>, readFails: bool): Option<Outcome> {
    if expected.None? then None
    else if readFails || file.None? then Some(ReadFailed)
    else if file != expected then Some(Conflict)
    else None
  }

  /** assertBrokerConfigMatchesExpected. */
  function CheckStep(s: State, job: nat, readFails: bool): State
    requires Ready(s.queue, job) && s.queue.jobs[job].args.Push?
  {
    match Verdict(s.file, s.queue.jobs[job].args.expected, readFails)
    case Some(outcome) => Settle(s, job, s.file, s.file, outcome, 0)
    case None => s.(queue := Advance(s.queue, job, Running(Checked(s.file))))
  }

  /** The agent compares again before it writes; its answer may be lost. */
  function WriteStep(s: State, viaAgent: bool, job: nat, readFails: bool, faults: Faults, responseLost: bool): State
    requires Active(s.queue, job) && s.queue.jobs[job].args.Push? && s.queue.jobs[job].phase.local.Checked?
  {
    var push, before := s.queue.jobs[job].args, s.queue.jobs[job].phase.local.before;
    var verdict := if viaAgent then Verdict(s.file, push.expected, readFails) else None;
    if verdict.Some? then Settle(s, job, before, s.file, verdict.value, 0)
    else
      var (file, ok) := WriteConfig(s.file, push.rendered, viaAgent, faults);
      if !ok || (viaAgent && responseLost) then Settle(s, job, before, file, WriteFailed, 0)
      else
        var local := Written(before, BytesStored(push.rendered, viaAgent, faults));
        s.(queue := Advance(s.queue, job, Running(local)), file := file)
  }

  function ReadBackStep(s: State, job: nat, readFails: bool): State
    requires Active(s.queue, job) && s.queue.jobs[job].phase.local.Written?
  {
    var local := s.queue.jobs[job].phase.local;
    Settle(s, job, local.before, s.file, if readFails || s.file.None? then ReadBackFailed else Succeeded, local.stored)
  }

  /** A job starts only when the promise before it is settled; its later steps follow one another. */
  function Effect(s: State, viaAgent: bool, e: Event): State {
    match e
    case Enqueued(task) => s.(queue := Enqueue(s.queue, task))
    case Check(job, readFails) =>
      if Ready(s.queue, job) && s.queue.jobs[job].args.Push? then CheckStep(s, job, readFails) else s
    case Write(job, readFails, faults, responseLost) =>
      if Active(s.queue, job) && s.queue.jobs[job].args.Push? && s.queue.jobs[job].phase.local.Checked?
      then WriteStep(s, viaAgent, job, readFails, faults, responseLost) else s
    case ReadBack(job, readFails) =>
      if Active(s.queue, job) && s.queue.jobs[job].phase.local.Written? then ReadBackStep(s, job, readFails) else s
    case Operate(job, succeeds) =>
      if Ready(s.queue, job) && s.queue.jobs[job].args.Operation?
      then Settle(s, job, s.file, s.file, if succeeds then Operated else WriteFailed, 0) else s
  }

  function Run(file: Option<Bytes>, viaAgent: bool, events: seq<Event>): State {
    if events == [] then State(Queue(None, []), file, [])
    else Effect(Run(file, viaAgent, events[..|events| - 1]), viaAgent, events[|events| - 1])
  }

  // ---- What one settled job did ----

  /** A push that got past the comparison. */
  predicate Matched(d: Done) {
    d.task.Push? && (d.task.expected.Some? ==> d.before == d.task.expected)
  }

  /** The push wrote, and through the agent all of it. */
  predicate Wrote(viaAgent: bool, d: Done) {
    && Matched(d)
    && LeftBy(d.before, d.after, d.task.rendered, d.stored)
    && (viaAgent ==> d.stored == |d.task.rendered|)
  }

  /** The sequential meaning of a job: a compare-and-set of the file. */
  ghost predicate Meaning(viaAgent: bool, d: Done) {
    match d.outcome
    case Succeeded => Wrote(viaAgent, d)
    case ReadBackFailed => Wrote(viaAgent, d)
    case Conflict =>
      && d.task.Push? && d.task.expected.Some?
      && d.before.Some? && d.before != d.task.expected && d.after == d.before
    case ReadFailed => d.task.Push? && d.task.expected.Some? && d.after == d.before
    case WriteFailed =>
      if d.task.Push? then Matched(d) && Interrupted(d.before, d.after, d.task.rendered) else d.after == d.before
    case Operated => d.task.Operation? && d.after == d.before
  }

  /** Job i starts from the file its predecessor left. */
  predicate StartsWhereLeft(file: Option<Bytes>, done: seq<Done>, i: nat) {
    i < |done| && done[i].before == if i == 0 then file else done[i - 1].after
  }

  ghost predicate Chain(file: Option<Bytes>, viaAgent: bool, done: seq<Done>) {
    && (forall d :: d in done ==> Meaning(viaAgent, d))
    && (forall i :: 0 <= i < |done| ==> StartsWhereLeft(file, done, i))
  }

  /** The settled jobs are the first ones, in enqueue order. */
  ghost predicate SettledInOrder(q: Jobs, done: seq<Done>) {
    && |done| <= |q.jobs|
    && (forall i :: 0 <= i < |done| ==> q.jobs[i].args == done[i].task && q.jobs[i].phase == PhaseOf(done[i]))
    && (forall i :: |done| <= i < |q.jobs| ==> !q.jobs[i].phase.Settled())
  }

  /** The promise's fate: only success and completed operations fulfil it, a push with the text read back. */
  function PhaseOf(d: Done): Phase<Local, Option<Bytes>> {
    if d.outcome.Succeeded? then Fulfilled(d.after) else if d.outcome.Operated? then Fulfilled(None) else Rejected
  }

  function LastFile(file: Option<Bytes>, done: seq<Done>): Option<Bytes> {
    if done == [] then file else done[|done| - 1].after
  }

  /** The file under the job that runs. */
  ghost predicate Midway(file: Option<Bytes>, viaAgent: bool, s: State, job: Job<Task, Local, Option<Bytes>>)
    requires job.phase.Running?
  {
    && job.args.Push?
    && job.phase.local.before == LastFile(file, s.done)
    && (job.args.expected.Some? ==> job.phase.local.before == job.args.expected)
    && match job.phase.local
       case Checked(before) => s.file == before
       case Written(before, stored) =>
         LeftBy(before, s.file, job.args.rendered, stored) && (viaAgent ==> stored == |job.args.rendered|)
  }

  ghost predicate FileInStep(file: Option<Bytes>, viaAgent: bool, s: State) {
    if Active(s.queue, |s.done|) then Midway(file, viaAgent, s, s.queue.jobs[|s.done|])
    else s.file == LastFile(file, s.done)
  }

  ghost predicate Inv(file: Option<Bytes>, viaAgent: bool, s: State) {
    && Serial(s.queue)
    && SettledInOrder(s.queue, s.done)
    && Chain(file, viaAgent, s.done)
    && FileInStep(file, viaAgent, s)
  }

  lemma TurnIsNext(q: Jobs, done: seq<Done>, job: nat)
    requires Serial(q) && SettledInOrder(q, done) && (Ready(q, job) || Active(q, job))
    ensures job == |done|
    ensures forall i :: job < i < |q.jobs| ==> q.jobs[i].phase.Waiting?
  {
    if Ready(q, job) { ReadyIsNext(q, job); } else { ActiveIsAlone(q, job); }
    forall i | 0 <= i < job ensures i < |done| && q.jobs[i].phase.Settled() {
      assert q.jobs[i].phase.Settled();
    }
    assert job > 0 ==> q.jobs[job - 1].phase.Settled();
  }

  lemma ChainOneMore(file: Option<Bytes>, viaAgent: bool, done: seq<Done>, d: Done)
    requires Chain(file, viaAgent, done) && Meaning(viaAgent, d) && d.before == LastFile(file, done)
    ensures Chain(file, viaAgent, done + [d])
  {
    var all := done + [d];
    forall i | 0 <= i < |all| ensures StartsWhereLeft(file, all, i) {
      assert i < |done| ==> StartsWhereLeft(file, done, i);
    }
  }

  lemma SettledOneMore(q: Jobs, done: seq<Done>, d: Done)
    requires SettledInOrder(q, done) && |done| < |q.jobs| && q.jobs[|done|].args == d.task
    ensures SettledInOrder(Advance(q, |done|, PhaseOf(d)), done + [d])
  {
  }

  lemma SettleKeepsInv(file: Option<Bytes>, viaAgent: bool, s: State, job: nat, before: Option<Bytes>,
                       after: Option<Bytes>, outcome: Outcome, stored: nat)
    requires Inv(file, viaAgent, s) && (Ready(s.queue, job) || Active(s.queue, job))
    requires before == LastFile(file, s.done)
    requires Meaning(viaAgent, Done(s.queue.jobs[job].args, before, after, outcome, stored))
    ensures Inv(file, viaAgent, Settle(s, job, before, after, outcome, stored))
  {
    TurnIsNext(s.queue, s.done, job);
    var d := Done(s.queue.jobs[job].args, before, after, outcome, stored);
    AdvanceSerial(s.queue, job, PhaseOf(d));
    ChainOneMore(file, viaAgent, s.done, d);
    SettledOneMore(s.queue, s.done, d);
    assert !Active(Advance(s.queue, job, PhaseOf(d)), |s.done| + 1);
  }

  /** Going on with the job whose turn it is leaves the queue serial and the same jobs settled. */
  lemma RunningOn(q: Jobs, done: seq<Done>, job: nat, local: Local)
    requires Serial(q) && SettledInOrder(q, done) && (Ready(q, job) || Active(q, job))
    ensures job == |done|
    ensures Serial(Advance(q, job, Running(local))) && SettledInOrder(Advance(q, job, Running(local)), done)
  {
    TurnIsNext(q, done, job);
    if Ready(q, job) { ReadyIsNext(q, job); } else { ActiveIsAlone(q, job); }
    var r := Advance(q, job, Running(local));
    assert forall j :: job < j < |r.jobs| ==> r.jobs[j].phase.Waiting?;
    assert forall j :: 0 <= j < job ==> r.jobs[j].phase.Settled();
  }

  lemma GoOnKeepsInv(file: Option<Bytes>, viaAgent: bool, s: State, job: nat, local: Local, content: Option<Bytes>)
    requires Inv(file, viaAgent, s) && (Ready(s.queue, job) || Active(s.queue, job))
    requires Midway(file, viaAgent, s.(file := content), s.queue.jobs[job].(phase := Running(local)))
    ensures Inv(file, viaAgent, State(Advance(s.queue, job, Running(local)), content, s.done))
  {
    RunningOn(s.queue, s.done, job, local);
  }

  lemma WriteKeepsInv(file: Option<Bytes>, viaAgent: bool, s: State, e: Event)
    requires Inv(file, viaAgent, s) && e.Write?
    requires Active(s.queue, e.job) && s.queue.jobs[e.job].args.Push? && s.queue.jobs[e.job].phase.local.Checked?
    ensures Inv(file, viaAgent, WriteStep(s, viaAgent, e.job, e.readFails, e.faults, e.responseLost))
  {
    TurnIsNext(s.queue, s.done, e.job);
    var push, before := s.queue.jobs[e.job].args, s.queue.jobs[e.job].phase.local.before;
    var verdict := if viaAgent then Verdict(s.file, push.expected, e.readFails) else None;
    if verdict.Some? {
      SettleKeepsInv(file, viaAgent, s, e.job, before, s.file, verdict.value, 0);
    } else {
      var (after, ok) := WriteConfig(s.file, push.rendered, viaAgent, e.faults);
      WriteLeavesAtWorstAPrefix(s.file, push.rendered, viaAgent, e.faults);
      if !ok || (viaAgent && e.responseLost) {
        SettleKeepsInv(file, viaAgent, s, e.job, before, after, WriteFailed, 0);
      } else {
        WriteLeavesRendered(s.file, push.rendered, viaAgent, e.faults);
        var local := Written(before, BytesStored(push.rendered, viaAgent, e.faults));
        GoOnKeepsInv(file, viaAgent, s, e.job, local, after);
      }
    }
  }

  lemma CheckKeepsInv(file: Option<Bytes>, viaAgent: bool, s: State, job: nat, readFails: bool)
    requires Inv(file, viaAgent, s) && Ready(s.queue, job) && s.queue.jobs[job].args.Push?
    ensures Inv(file, viaAgent, CheckStep(s, job, readFails))
  {
    TurnIsNext(s.queue, s.done, job);
    match Verdict(s.file, s.queue.jobs[job].args.expected, readFails)
    case Some(outcome) => SettleKeepsInv(file, viaAgent, s, job, s.file, s.file, outcome, 0);
    case None => GoOnKeepsInv(file, viaAgent, s, job, Checked(s.file), s.file);
  }

  lemma EnqueueKeepsInv(file: Option<Bytes>, viaAgent: bool, s: State, task: Task)
    requires Inv(file, viaAgent, s)
    ensures Inv(file, viaAgent, s.(queue := Enqueue(s.queue, task)))
  {
    EnqueueSerial(s.queue, task);
  }

  lemma StepKeepsInv(file: Option<Bytes>, viaAgent: bool, s: State, e: Event)
    requires Inv(file, viaAgent, s)
    ensures Inv(file, viaAgent, Effect(s, viaAgent, e))
  {
    match e
    case Enqueued(task) => EnqueueKeepsInv(file, viaAgent, s, task);
    case Check(job, readFails) =>
      if Ready(s.queue, job) && s.queue.jobs[job].args.Push? { CheckKeepsInv(file, viaAgent, s, job, readFails); }
    case Write(job, _, _, _) =>
      if Active(s.queue, job) && s.queue.jobs[job].args.Push? && s.queue.jobs[job].phase.local.Checked? {
        WriteKeepsInv(file, viaAgent, s, e);
      }
    case ReadBack(job, readFails) =>
      if Active(s.queue, job) && s.queue.jobs[job].phase.local.Written? {
        TurnIsNext(s.queue, s.done, job);
        var local := s.queue.jobs[job].phase.local;
        SettleKeepsInv(file, viaAgent, s, job, local.before, s.file,
                       if readFails || s.file.None? then ReadBackFailed else Succeeded, local.stored);
      }
    case Operate(job, succeeds) =>
      if Ready(s.queue, job) && s.queue.jobs[job].args.Operation? {
        TurnIsNext(s.queue, s.done, job);
        SettleKeepsInv(file, viaAgent, s, job, s.file, s.file, if succeeds then Operated else WriteFailed, 0);
      }
  }

  lemma RunLast(file: Option<Bytes>, viaAgent: bool, events: seq<Event>)
    requires events != []
    ensures Run(file, viaAgent, events)
         == Effect(Run(file, viaAgent, events[..|events| - 1]), viaAgent, events[|events| - 1])
  {
  }

  /** Every run is a sequence of compare-and-sets in enqueue order, whatever fails on the way. */
  lemma {:induction false} PushesLinearise(file: Option<Bytes>, viaAgent: bool, events: seq<Event>)
    ensures Inv(file, viaAgent, Run(file, viaAgent, events))
  {
    if events != [] {
      PushesLinearise(file, viaAgent, events[..|events| - 1]);
      StepKeepsInv(file, viaAgent, Run(file, viaAgent, events[..|events| - 1]), events[|events| - 1]);
      RunLast(file, viaAgent, events);
    }
  }

  /** Each successful push found the text it expected, and left its own as far as the bytes were stored: all of it
      through the agent and through a rename. */
  lemma {:induction false} SuccessfulPush(file: Option<Bytes>, viaAgent: bool, events: seq<Event>, i: nat)
    requires i < |Run(file, viaAgent, events).done| && Run(file, viaAgent, events).done[i].outcome.Succeeded?
    ensures var d := Run(file, viaAgent, events).done[i];
      && d.task.Push?
      && (d.task.expected.Some? ==> d.before == d.task.expected)
      && LeftBy(d.before, d.after, d.task.rendered, d.stored)
      && (viaAgent || d.stored == |d.task.rendered| ==> d.after == Some(d.task.rendered))
      && i < |Run(file, viaAgent, events).queue.jobs|
      && Run(file, viaAgent, events).queue.jobs[i].phase == Fulfilled(d.after)
  {
    PushesLinearise(file, viaAgent, events);
    var d := Run(file, viaAgent, events).done[i];
    assert Meaning(viaAgent, d);
    LeftByAll(d.before, d.task.rendered);
  }

  // ---- What every job comes to ----

  /** What was enqueued, in order. */
  function Tasks(events: seq<Event>): seq<Task> {
    if events == [] then []
    else
      var rest, last := Tasks(events[..|events| - 1]), events[|events| - 1];
      if last.Enqueued? then rest + [last.task] else rest
  }

  ghost predicate AskedFor(q: Jobs, tasks: seq<Task>) {
    |q.jobs| == |tasks| && forall i :: 0 <= i < |q.jobs| ==> q.jobs[i].args == tasks[i]
  }

  lemma StepKeepsTasks(s: State, viaAgent: bool, e: Event, tasks: seq<Task>)
    requires AskedFor(s.queue, tasks)
    ensures AskedFor(Effect(s, viaAgent, e).queue, if e.Enqueued? then tasks + [e.task] else tasks)
  {
  }

  /** There is one job for every task, in the order of the calls. */
  lemma {:induction false} JobsAreTasks(file: Option<Bytes>, viaAgent: bool, events: seq<Event>)
    ensures AskedFor(Run(file, viaAgent, events).queue, Tasks(events))
  {
    if events != [] {
      var rest := events[..|events| - 1];
      JobsAreTasks(file, viaAgent, rest);
      StepKeepsTasks(Run(file, viaAgent, rest), viaAgent, events[|rest|], Tasks(rest));
      RunLast(file, viaAgent, events);
    }
  }

  predicate HasChecked(q: Jobs, i: nat) { Active(q, i) && q.jobs[i].args.Push? && q.jobs[i].phase.local.Checked? }

  predicate HasWritten(q: Jobs, i: nat) { Active(q, i) && q.jobs[i].phase.local.Written? }

  /** The event that gives job i its outcome. expected is compared with the file the job's turn found. */
  ghost predicate Gives(s: State, viaAgent: bool, e: Event, i: nat, outcome: Outcome) {
    && !e.Enqueued? && e.job == i && i < |s.queue.jobs|
    && var task := s.queue.jobs[i].args;
       match outcome
       case Conflict =>
         && e.Check? && NextInLine(s.queue, i) && task.Push?
         && !e.readFails && s.file.Some? && task.expected.Some? && s.file.value != task.expected.value
       case ReadFailed =>
         && task.Push? && task.expected.Some?
         && ((e.Check? && NextInLine(s.queue, i) && (e.readFails || s.file.None?))
             || (e.Write? && HasChecked(s.queue, i) && viaAgent && e.readFails))
       case WriteFailed =>
         || (e.Operate? && NextInLine(s.queue, i) && task.Operation? && !e.succeeds)
         || (e.Write? && HasChecked(s.queue, i) && !(viaAgent && e.readFails && task.expected.Some?)
             && (!ReportsSuccess(task.rendered, viaAgent, e.faults) || (viaAgent && e.responseLost)))
       case Succeeded => e.ReadBack? && HasWritten(s.queue, i) && !e.readFails
       case ReadBackFailed => e.ReadBack? && HasWritten(s.queue, i) && e.readFails
       case Operated => e.Operate? && NextInLine(s.queue, i) && task.Operation? && e.succeeds
  }

  predicate HasOutcome(s: State, i: nat, outcome: Outcome) {
    i < |s.done| && s.done[i].outcome == outcome
  }

  /** A running job finds the file in a state that fits how far it is. */
  lemma RunningFile(file: Option<Bytes>, viaAgent: bool, s: State, i: nat)
    requires Inv(file, viaAgent, s) && Active(s.queue, i)
    ensures i == |s.done| && s.queue.jobs[i].args.Push?
    ensures HasChecked(s.queue, i) && s.queue.jobs[i].args.expected.Some? ==> s.file == s.queue.jobs[i].args.expected
    ensures HasWritten(s.queue, i) ==> s.file.Some?
  {
    TurnIsNext(s.queue, s.done, i);
  }

  lemma CheckOutcome(file: Option<Bytes>, viaAgent: bool, s: State, e: Event, i: nat, outcome: Outcome)
    requires Inv(file, viaAgent, s) && e.Check?
    ensures HasOutcome(Effect(s, viaAgent, e), i, outcome) <==>
              HasOutcome(s, i, outcome) || Gives(s, viaAgent, e, i, outcome)
  {
    ReadyIsNextInLine(s.queue, e.job);
    if Ready(s.queue, e.job) { TurnIsNext(s.queue, s.done, e.job); }
  }

  lemma OperateOutcome(file: Option<Bytes>, viaAgent: bool, s: State, e: Event, i: nat, outcome: Outcome)
    requires Inv(file, viaAgent, s) && e.Operate?
    ensures HasOutcome(Effect(s, viaAgent, e), i, outcome) <==>
              HasOutcome(s, i, outcome) || Gives(s, viaAgent, e, i, outcome)
  {
    ReadyIsNextInLine(s.queue, e.job);
    if Ready(s.queue, e.job) { TurnIsNext(s.queue, s.done, e.job); }
  }

  lemma WriteOutcome(file: Option<Bytes>, viaAgent: bool, s: State, e: Event, i: nat, outcome: Outcome)
    requires Inv(file, viaAgent, s) && e.Write?
    ensures HasOutcome(Effect(s, viaAgent, e), i, outcome) <==>
              HasOutcome(s, i, outcome) || Gives(s, viaAgent, e, i, outcome)
  {
    if Active(s.queue, e.job) {
      RunningFile(file, viaAgent, s, e.job);
      WriteSucceedsExactly(s.file, s.queue.jobs[e.job].args.rendered, viaAgent, e.faults);
    }
  }

  lemma ReadBackOutcome(file: Option<Bytes>, viaAgent: bool, s: State, e: Event, i: nat, outcome: Outcome)
    requires Inv(file, viaAgent, s) && e.ReadBack?
    ensures HasOutcome(Effect(s, viaAgent, e), i, outcome) <==>
              HasOutcome(s, i, outcome) || Gives(s, viaAgent, e, i, outcome)
  {
    if Active(s.queue, e.job) { RunningFile(file, viaAgent, s, e.job); }
  }

  lemma StepOutcome(file: Option<Bytes>, viaAgent: bool, s: State, e: Event, i: nat, outcome: Outcome)
    requires Inv(file, viaAgent, s)
    ensures HasOutcome(Effect(s, viaAgent, e), i, outcome) <==>
              HasOutcome(s, i, outcome) || Gives(s, viaAgent, e, i, outcome)
  {
    match e
    case Enqueued(_) =>
    case Check(_, _) => CheckOutcome(file, viaAgent, s, e, i, outcome);
    case Write(_, _, _, _) => WriteOutcome(file, viaAgent, s, e, i, outcome);
    case ReadBack(_, _) => ReadBackOutcome(file, viaAgent, s, e, i, outcome);
    case Operate(_, _) => OperateOutcome(file, viaAgent, s, e, i, outcome);
  }

  ghost predicate GivesAt(file: Option<Bytes>, viaAgent: bool, events: seq<Event>, n: nat, i: nat, outcome: Outcome) {
    n < |events| && Gives(Run(file, viaAgent, events[..n]), viaAgent, events[n], i, outcome)
  }

  ghost predicate EverGives(file: Option<Bytes>, viaAgent: bool, events: seq<Event>, i: nat, outcome: Outcome) {
    exists n: nat :: GivesAt(file, viaAgent, events, n, i, outcome)
  }

  lemma GivesAtPrefix(file: Option<Bytes>, viaAgent: bool, events: seq<Event>, n: nat, i: nat, outcome: Outcome)
    requires n < |events|
    ensures var rest := events[..|events| - 1];
      GivesAt(file, viaAgent, events, n, i, outcome) <==>
        if n < |rest| then GivesAt(file, viaAgent, rest, n, i, outcome)
        else Gives(Run(file, viaAgent, rest), viaAgent, events[n], i, outcome)
  {
    if n < |events| - 1 { assert events[..|events| - 1][..n] == events[..n]; }
  }

  lemma StillGives(file: Option<Bytes>, viaAgent: bool, events: seq<Event>, i: nat, outcome: Outcome)
    requires events != [] && EverGives(file, viaAgent, events[..|events| - 1], i, outcome)
    ensures EverGives(file, viaAgent, events, i, outcome)
  {
    var n: nat :| GivesAt(file, viaAgent, events[..|events| - 1], n, i, outcome);
    GivesAtPrefix(file, viaAgent, events, n, i, outcome);
  }

  lemma GivenByLastOrBefore(file: Option<Bytes>, viaAgent: bool, events: seq<Event>, i: nat, outcome: Outcome)
    requires EverGives(file, viaAgent, events, i, outcome) && events != []
    ensures GivesAt(file, viaAgent, events, |events| - 1, i, outcome)
         || EverGives(file, viaAgent, events[..|events| - 1], i, outcome)
  {
    var n: nat :| GivesAt(file, viaAgent, events, n, i, outcome);
    GivesAtPrefix(file, viaAgent, events, n, i, outcome);
  }

  lemma EverGivesStep(file: Option<Bytes>, viaAgent: bool, events: seq<Event>, i: nat, outcome: Outcome)
    requires events != []
    ensures EverGives(file, viaAgent, events, i, outcome) <==>
        || EverGives(file, viaAgent, events[..|events| - 1], i, outcome)
        || GivesAt(file, viaAgent, events, |events| - 1, i, outcome)
  {
    if EverGives(file, viaAgent, events[..|events| - 1], i, outcome) {
      StillGives(file, viaAgent, events, i, outcome);
    }
    if EverGives(file, viaAgent, events, i, outcome) { GivenByLastOrBefore(file, viaAgent, events, i, outcome); }
  }

  /** In every run, what a job comes to is decided exactly by what it met: a conflict if in its turn the file was read
      and differed from the expected text, a failed read if a read failed or there was no file, and so on. */
  lemma {:induction false} OutcomeExactly(file: Option<Bytes>, viaAgent: bool, events: seq<Event>, i: nat,
                                          outcome: Outcome)
    ensures HasOutcome(Run(file, viaAgent, events), i, outcome) <==> EverGives(file, viaAgent, events, i, outcome)
  {
    if events != [] {
      var rest, last := events[..|events| - 1], events[|events| - 1];
      OutcomeExactly(file, viaAgent, rest, i, outcome);
      PushesLinearise(file, viaAgent, rest);
      StepOutcome(file, viaAgent, Run(file, viaAgent, rest), last, i, outcome);
      RunLast(file, viaAgent, events);
      EverGivesStep(file, viaAgent, events, i, outcome);
      GivesAtPrefix(file, viaAgent, events, |rest|, i, outcome);
    }
  }

  lemma RunSnoc(file: Option<Bytes>, viaAgent: bool, events: seq<Event>, e: Event)
    ensures Run(file, viaAgent, events + [e]) == Effect(Run(file, viaAgent, events), viaAgent, e)
  {
    assert (events + [e])[..|events|] == events;
  }

  /** The job is that far and the file holds that. */
  predicate Holding(s: State, i: nat, local: Local, content: Option<Bytes>) {
    i < |s.queue.jobs| && s.queue.jobs[i].phase == Running(local) && s.file == content
  }

  /** Enqueueing, and whatever is tried for another job. */
  predicate Elsewhere(e: Event, i: nat) {
    e.Enqueued? || e.job != i
  }

  lemma OthersWait(s: State, viaAgent: bool, e: Event, i: nat, local: Local, content: Option<Bytes>)
    requires Serial(s.queue) && Holding(s, i, local, content) && Elsewhere(e, i)
    ensures Holding(Effect(s, viaAgent, e), i, local, content)
  {
    if !e.Enqueued? {
      ReadyIsNextInLine(s.queue, e.job);
      ActiveIsAlone(s.queue, i);
    }
  }

  lemma {:induction false} HeldMeanwhile(file: Option<Bytes>, viaAgent: bool, events: seq<Event>,
                                         meanwhile: seq<Event>, i: nat, local: Local, content: Option<Bytes>)
    requires Holding(Run(file, viaAgent, events), i, local, content)
    requires forall e :: e in meanwhile ==> Elsewhere(e, i)
    ensures Holding(Run(file, viaAgent, events + meanwhile), i, local, content)
  {
    if meanwhile == [] {
      assert events + meanwhile == events;
    } else {
      var rest, last := meanwhile[..|meanwhile| - 1], meanwhile[|meanwhile| - 1];
      assert events + meanwhile == events + rest + [last];
      HeldMeanwhile(file, viaAgent, events, rest, i, local, content);
      PushesLinearise(file, viaAgent, events + rest);
      OthersWait(Run(file, viaAgent, events + rest), viaAgent, last, i, local, content);
      RunSnoc(file, viaAgent, events + rest, last);
    }
  }

  lemma CheckGoesOn(file: Option<Bytes>, viaAgent: bool, s: State, i: nat, rendered: Bytes, expected: Option<Bytes>)
    requires Inv(file, viaAgent, s) && NextInLine(s.queue, i) && s.queue.jobs[i].args == Push(rendered, expected)
    requires expected == None || s.file == expected
    ensures Holding(Effect(s, viaAgent, Check(i, false)), i, Checked(s.file), s.file)
  {
    ReadyIsNextInLine(s.queue, i);
  }

  lemma WriteGoesOn(s: State, viaAgent: bool, i: nat, rendered: Bytes, expected: Option<Bytes>, faults: Faults,
                    before: Option<Bytes>)
    requires Holding(s, i, Checked(before), before) && s.queue.jobs[i].args == Push(rendered, expected)
    requires expected == None || before == expected
    requires ReportsSuccess(rendered, viaAgent, faults) && BytesStored(rendered, viaAgent, faults) == |rendered|
    ensures Holding(Effect(s, viaAgent, Write(i, false, faults, false)), i, Written(before, |rendered|), Some(rendered))
  {
    WriteSucceedsExactly(s.file, rendered, viaAgent, faults);
    WriteLeavesRendered(s.file, rendered, viaAgent, faults);
  }

  lemma {:induction false} TasksGrow(events: seq<Event>, more: seq<Event>)
    ensures Tasks(events) <= Tasks(events + more)
  {
    if more == [] {
      assert events + more == events;
    } else {
      TasksGrow(events, more[..|more| - 1]);
      assert (events + more)[..|events + more| - 1] == events + more[..|more| - 1];
    }
  }

  lemma AfterCheck(file: Option<Bytes>, viaAgent: bool, events: seq<Event>, i: nat, rendered: Bytes,
                   expected: Option<Bytes>, first: seq<Event>)
    requires NextInLine(Run(file, viaAgent, events).queue, i) && i < |Tasks(events)|
    requires Tasks(events)[i] == Push(rendered, expected)
    requires expected == None || Run(file, viaAgent, events).file == expected
    requires forall e :: e in first ==> Elsewhere(e, i)
    ensures var before := Run(file, viaAgent, events).file;
      Holding(Run(file, viaAgent, events + [Check(i, false)] + first), i, Checked(before), before)
  {
    var before := Run(file, viaAgent, events).file;
    JobsAreTasks(file, viaAgent, events);
    PushesLinearise(file, viaAgent, events);
    CheckGoesOn(file, viaAgent, Run(file, viaAgent, events), i, rendered, expected);
    RunSnoc(file, viaAgent, events, Check(i, false));
    HeldMeanwhile(file, viaAgent, events + [Check(i, false)], first, i, Checked(before), before);
  }

  lemma AfterWrite(file: Option<Bytes>, viaAgent: bool, events: seq<Event>, i: nat, rendered: Bytes,
                   expected: Option<Bytes>, before: Option<Bytes>, faults: Faults, second: seq<Event>)
    requires i < |Tasks(events)| && Tasks(events)[i] == Push(rendered, expected)
    requires Holding(Run(file, viaAgent, events), i, Checked(before), before)
    requires expected == None || before == expected
    requires ReportsSuccess(rendered, viaAgent, faults) && BytesStored(rendered, viaAgent, faults) == |rendered|
    requires forall e :: e in second ==> Elsewhere(e, i)
    ensures Holding(Run(file, viaAgent, events + [Write(i, false, faults, false)] + second), i,
                    Written(before, |rendered|), Some(rendered))
  {
    var write := Write(i, false, faults, false);
    JobsAreTasks(file, viaAgent, events);
    WriteGoesOn(Run(file, viaAgent, events), viaAgent, i, rendered, expected, faults, before);
    RunSnoc(file, viaAgent, events, write);
    HeldMeanwhile(file, viaAgent, events + [write], second, i, Written(before, |rendered|), Some(rendered));
  }

  lemma ReadBackFulfils(s: State, viaAgent: bool, i: nat, local: Local, rendered: Bytes)
    requires Holding(s, i, local, Some(rendered)) && local.Written?
    ensures var after := Effect(s, viaAgent, ReadBack(i, false));
      && i < |after.queue.jobs| && after.queue.jobs[i].phase == Fulfilled(Some(rendered))
      && after.file == Some(rendered)
  {
  }

  /** The run goes on with the steps of one push, and with whatever else in between. */
  function WithPush(events: seq<Event>, i: nat, faults: Faults, first: seq<Event>, second: seq<Event>): seq<Event> {
    events + [Check(i, false)] + first + [Write(i, false, faults, false)] + second + [ReadBack(i, false)]
  }

  /** In any run, a push whose turn has come and that expects nothing or the text that is there goes through, provided
      its reads work and its write stores everything: it leaves its text and is fulfilled with it. */
  lemma PushGoesThrough(file: Option<Bytes>, viaAgent: bool, events: seq<Event>, i: nat, rendered: Bytes,
                        expected: Option<Bytes>, faults: Faults, first: seq<Event>, second: seq<Event>)
    requires NextInLine(Run(file, viaAgent, events).queue, i) && i < |Tasks(events)|
    requires Tasks(events)[i] == Push(rendered, expected)
    requires expected == None || Run(file, viaAgent, events).file == expected
    requires ReportsSuccess(rendered, viaAgent, faults) && BytesStored(rendered, viaAgent, faults) == |rendered|
    requires forall e :: e in first || e in second ==> Elsewhere(e, i)
    ensures var after := Run(file, viaAgent, WithPush(events, i, faults, first, second));
      && i < |after.queue.jobs| && after.queue.jobs[i].phase == Fulfilled(Some(rendered))
      && after.file == Some(rendered)
  {
    var before := Run(file, viaAgent, events).file;
    var checked := events + [Check(i, false)] + first;
    var written := checked + [Write(i, false, faults, false)] + second;
    AfterCheck(file, viaAgent, events, i, rendered, expected, first);
    TasksGrow(events, [Check(i, false)]);
    TasksGrow(events + [Check(i, false)], first);
    AfterWrite(file, viaAgent, checked, i, rendered, expected, before, faults, second);
    RunSnoc(file, viaAgent, written, ReadBack(i, false));
    ReadBackFulfils(Run(file, viaAgent, written), viaAgent, i, Written(before, |rendered|), rendered);
  }

  /** A failed job blocks nothing: while jobs wait and none runs, the first waiting one may start. */
  lemma {:induction false} NothingBlocks(file: Option<Bytes>, viaAgent: bool, events: seq<Event>)
    ensures var s := Run(file, viaAgent, events);
      |s.done| == |s.queue.jobs| || Ready(s.queue, |s.done|) || Active(s.queue, |s.done|)
  {
    PushesLinearise(file, viaAgent, events);
    var s := Run(file, viaAgent, events);
    NextIsReady(s.queue, s.done);
  }

  lemma NextIsReady(q: Jobs, done: seq<Done>)
    requires Serial(q) && SettledInOrder(q, done)
    ensures |done| == |q.jobs| || Ready(q, |done|) || Active(q, |done|)
  {
  }

  /** What the settled jobs wrote last, if anything. */
  function LastWritten(file: Option<Bytes>, done: seq<Done>): Option<Bytes> {
    if done == [] then file
    else
      var last := done[|done| - 1];
      if last.task.Push? && (last.outcome.Succeeded? || last.outcome.ReadBackFailed?) then Some(last.task.rendered)
      else LastWritten(file, done[..|done| - 1])
  }

  /** A push that stopped half way, or that took a short write for a whole one. */
  predicate Torn(d: Done) {
    && d.task.Push?
    && (d.outcome.WriteFailed?
        || ((d.outcome.Succeeded? || d.outcome.ReadBackFailed?) && d.stored != |d.task.rendered|))
  }

  lemma WholeEffect(file: Option<Bytes>, viaAgent: bool, d: Done)
    requires Meaning(viaAgent, d) && !Torn(d) && d.before == file
    ensures d.after == if d.task.Push? && (d.outcome.Succeeded? || d.outcome.ReadBackFailed?)
                       then Some(d.task.rendered) else file
  {
    if d.task.Push? { LeftByAll(d.before, d.task.rendered); }
  }

  lemma {:induction false} LastWrittenIsLastFile(file: Option<Bytes>, viaAgent: bool, done: seq<Done>)
    requires Chain(file, viaAgent, done) && forall d :: d in done ==> !Torn(d)
    ensures LastWritten(file, done) == LastFile(file, done)
  {
    if done != [] {
      var rest, last := done[..|done| - 1], done[|done| - 1];
      forall i | 0 <= i < |rest| ensures StartsWhereLeft(file, rest, i) {
        assert StartsWhereLeft(file, done, i);
      }
      assert StartsWhereLeft(file, done, |rest|) && last in done;
      LastWrittenIsLastFile(file, viaAgent, rest);
      WholeEffect(LastFile(file, rest), viaAgent, last);
    }
  }

  /** When no write was torn, the idle file is the text of the last push whose write succeeded: conflicts, failed reads
      and operations left no trace. */
  lemma FileIsLastWritten(file: Option<Bytes>, viaAgent: bool, events: seq<Event>)
    requires |Run(file, viaAgent, events).done| == |Run(file, viaAgent, events).queue.jobs|
    requires forall d :: d in Run(file, viaAgent, events).done ==> !Torn(d)
    ensures Run(file, viaAgent, events).file == LastWritten(file, Run(file, viaAgent, events).done)
  {
    PushesLinearise(file, viaAgent, events);
    LastWrittenIsLastFile(file, viaAgent, Run(file, viaAgent, events).done);
  }

  /** Job k is the one that made the file the given text. */
  predicate MadeIt(done: seq<Done>, k: nat, text: Option<Bytes>) {
    k < |done| && done[k].after == text && done[k].before != text
  }

  /** If the file differs from a text after job i and is that text before job j, some job between made it so. */
  lemma {:induction false} ChangedBetween(file: Option<Bytes>, viaAgent: bool, done: seq<Done>, i: nat, j: nat,
                                          text: Option<Bytes>)
    returns (k: nat)
    requires Chain(file, viaAgent, done) && i < j < |done| && done[i].after != text && done[j].before == text
    ensures i < k < j && MadeIt(done, k, text)
  {
    assert StartsWhereLeft(file, done, j);
    k := j - 1;
    if done[k].before == text { k := ChangedBetween(file, viaAgent, done, i, k, text); }
  }

  /** No lost update: of two successful pushes that expected the same text, unless the first pushed that very text
      again or stored only part of its own, some job between them put it back. */
  lemma NoLostUpdate(file: Option<Bytes>, viaAgent: bool, events: seq<Event>, i: nat, j: nat, text: Bytes)
    returns (k: nat)
    requires i < j < |Run(file, viaAgent, events).done|
    requires var d := Run(file, viaAgent, events).done[i];
      d.outcome.Succeeded? && d.task.Push? && d.task.expected == Some(text) && d.task.rendered != text && !Torn(d)
    requires var d := Run(file, viaAgent, events).done[j];
      d.outcome.Succeeded? && d.task.Push? && d.task.expected == Some(text)
    ensures i < k < j && MadeIt(Run(file, viaAgent, events).done, k, Some(text))
  {
    PushesLinearise(file, viaAgent, events);
    SuccessfulPush(file, viaAgent, events, i);
    SuccessfulPush(file, viaAgent, events, j);
    k := ChangedBetween(file, viaAgent, Run(file, viaAgent, events).done, i, j, Some(text));
  }

  // ---- The objects ----

  /** The configuration file as the agent and the local fallback handle it. */
  class ConfigFile {
    var content: Option<Bytes>

    constructor (initial: Option<Bytes>)
      ensures content == initial
    {
      content := initial;
    }

    method Compare(expected: Option<Bytes>, readFails: bool) returns (error: Option<Outcome>)
      ensures error == Verdict(content, expected, readFails)
      ensures error == None <==> expected == None || (!readFails && content == expected)
      ensures error == Some(Conflict) <==> expected.Some? && !readFails && content.Some? && content != expected
      ensures error == Some(ReadFailed) <==> expected.Some? && (readFails || content == None)
    {
      if expected.None? { return None; }
      if readFails || content.None? { return Some(ReadFailed); }
      if content.value != expected.value { return Some(Conflict); }
      error := None;
    }

    /** write_text_atomically, and writeBrokerConfigLocally with viaAgent false. */
    method WriteText(rendered: Bytes, viaAgent: bool, faults: Faults) returns (ok: bool)
      modifies this
      ensures (content, ok) == WriteConfig(old(content), rendered, viaAgent, faults)
      ensures ok && BytesStored(rendered, viaAgent, faults) == |rendered| ==> content == Some(rendered)
    {
      if WriteConfig(content, rendered, viaAgent, faults).1 {
        WriteLeavesRendered(content, rendered, viaAgent, faults);
      }
      if faults.directory { return false; }
      if !faults.temporary && !faults.rename {
        content := Some(rendered);
        return true;
      }
      if faults.open { return false; }
      if content.None? { content := Some([]); }
      if viaAgent && faults.seek { return false; }
      var stored := Stored(rendered, faults);
      content := Some(Overlay(content.value, stored));
      if faults.write || (viaAgent && |stored| < |rendered|) { return false; }
      if faults.truncate { return false; }
      content := Some(SetLength(content.value, |rendered|));
      ok := !faults.sync;
    }
  }

  /** JobQueue and the broker configuration service behind it. */
  class PushService {
    var queue: Jobs
    const file: ConfigFile
    const viaAgent: bool
    ghost var done: seq<Done>

    ghost function Abs(): State
      reads this, file
    {
      State(queue, file.content, done)
    }

    constructor (file: ConfigFile, viaAgent: bool)
      ensures this.file == file && this.viaAgent == viaAgent && Abs() == Run(file.content, viaAgent, [])
    {
      this.file, this.viaAgent := file, viaAgent;
      queue, done := Queue(None, []), [];
    }

    method EnqueueTask(task: Task) returns (job: nat)
      modifies this`queue
      ensures Abs() == Effect(old(Abs()), viaAgent, Enqueued(task)) && job == |old(queue).jobs|
    {
      job := |queue.jobs|;
      queue := Queue(Some(job), queue.jobs + [Job(task, queue.next, Waiting)]);
    }

    method Settled(job: nat, ghost before: Option<Bytes>, outcome: Outcome, ghost stored: nat)
      requires job < |queue.jobs|
      modifies this`queue, this`done
      ensures Abs() == Settle(old(Abs()), job, before, file.content, outcome, stored)
    {
      done := done + [Done(queue.jobs[job].args, before, file.content, outcome, stored)];
      var phase :=
        if outcome.Succeeded? then Fulfilled(file.content) else if outcome.Operated? then Fulfilled(None) else Rejected;
      queue := Advance(queue, job, phase);
    }

    method AssertMatchesExpected(job: nat, readFails: bool)
      requires Ready(queue, job) && queue.jobs[job].args.Push?
      modifies this`queue, this`done
      ensures Abs() == Effect(old(Abs()), viaAgent, Check(job, readFails))
    {
      var error := file.Compare(queue.jobs[job].args.expected, readFails);
      if error.Some? {
        Settled(job, file.content, error.value, 0);
      } else {
        queue := Advance(queue, job, Running(Checked(file.content)));
      }
    }

    method WriteRendered(job: nat, readFails: bool, faults: Faults, responseLost: bool)
      requires Active(queue, job) && queue.jobs[job].args.Push? && queue.jobs[job].phase.local.Checked?
      modifies this`queue, this`done, file
      ensures Abs() == Effect(old(Abs()), viaAgent, Write(job, readFails, faults, responseLost))
    {
      var push, before := queue.jobs[job].args, queue.jobs[job].phase.local.before;
      if viaAgent {
        var error := file.Compare(push.expected, readFails);
        if error.Some? {
          Settled(job, before, error.value, 0);
          return;
        }
      }
      var ok := file.WriteText(push.rendered, viaAgent, faults);
      if !ok || (viaAgent && responseLost) {
        Settled(job, before, WriteFailed, 0);
      } else {
        var local := Written(before, BytesStored(push.rendered, viaAgent, faults));
        queue := Advance(queue, job, Running(local));
      }
    }

    method ReadCurrent(job: nat, readFails: bool)
      requires Active(queue, job) && queue.jobs[job].phase.local.Written?
      modifies this`queue, this`done
      ensures Abs() == Effect(old(Abs()), viaAgent, ReadBack(job, readFails))
    {
      var local := queue.jobs[job].phase.local;
      Settled(job, local.before, if readFails || file.content.None? then ReadBackFailed else Succeeded, local.stored);
    }
  }
}

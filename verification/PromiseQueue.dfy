/** The promise chain behind JobQueue.enqueue and AuditService.record: a job is chained with `then` to
    the promise that `next` holds when it is enqueued, and `next` becomes that job with its rejection
    swallowed. Mutual exclusion and call order are not assumed: they are derived from these links. */
module PromiseQueue {
  import opened Options

  datatype Phase<+S, +R> =
    | Waiting
    | Running(local: S)
    | Fulfilled(value: R)
    | Rejected
  {
    predicate Settled() { Fulfilled? || Rejected? }
  }

  /** after: the promise this job was chained to; None is the initial resolved promise. */
  datatype Job<+A, +S, +R> = Job(args: A, after: Option<nat>, phase: Phase<S, R>)

  datatype Queue<+A, +S, +R> = Queue(next: Option<nat>, jobs: seq<Job<A, S, R>>)

  function Enqueue<A, S, R>(q: Queue<A, S, R>, args: A): Queue<A, S, R> {
    Queue(Some(|q.jobs|), q.jobs + [Job(args, q.next, Waiting)])
  }

  /** `then` runs its callback once the earlier promise is settled: the swallowed rejection counts. */
  predicate Ready<A, S, R>(q: Queue<A, S, R>, i: nat) {
    && i < |q.jobs|
    && q.jobs[i].phase.Waiting?
    && (q.jobs[i].after.Some? ==> q.jobs[i].after.value < |q.jobs| && q.jobs[q.jobs[i].after.value].phase.Settled())
  }

  predicate Active<A, S, R>(q: Queue<A, S, R>, i: nat) {
    i < |q.jobs| && q.jobs[i].phase.Running?
  }

  function Advance<A, S, R>(q: Queue<A, S, R>, i: nat, phase: Phase<S, R>): Queue<A, S, R>
    requires i < |q.jobs|
  {
    q.(jobs := q.jobs[i := q.jobs[i].(phase := phase)])
  }

  /** Every job hangs on its predecessor, and a job has started only if all earlier ones are settled. */
  ghost predicate Serial<A, S, R>(q: Queue<A, S, R>) {
    && q.next == (if q.jobs == [] then None else Some(|q.jobs| - 1))
    && (forall i :: 0 <= i < |q.jobs| ==> q.jobs[i].after == if i == 0 then None else Some(i - 1))
    && (forall i, j :: 0 <= i < j < |q.jobs| && !q.jobs[j].phase.Waiting? ==> q.jobs[i].phase.Settled())
  }

  lemma EnqueueSerial<A, S, R>(q: Queue<A, S, R>, args: A)
    requires Serial(q)
    ensures Serial(Enqueue(q, args))
  {
  }

  /** A ready job starts only after every earlier job is settled, and nothing after it has started. */
  lemma ReadyIsNext<A, S, R>(q: Queue<A, S, R>, i: nat)
    requires Serial(q) && Ready(q, i)
    ensures forall j :: 0 <= j < i ==> q.jobs[j].phase.Settled()
    ensures forall j :: i <= j < |q.jobs| ==> q.jobs[j].phase.Waiting?
  {
    forall j | 0 <= j < i ensures q.jobs[j].phase.Settled() {
      assert q.jobs[i].after == Some(i - 1);
      if j < i - 1 { assert !q.jobs[i - 1].phase.Waiting?; }
    }
    forall j | i <= j < |q.jobs| ensures q.jobs[j].phase.Waiting? {
      assert i == j || (!q.jobs[j].phase.Waiting? ==> q.jobs[i].phase.Settled());
    }
  }

  /** The job has not started and every earlier one is settled, whether fulfilled or rejected. */
  predicate NextInLine<A, S, R>(q: Queue<A, S, R>, i: nat) {
    i < |q.jobs| && q.jobs[i].phase.Waiting? && forall j :: 0 <= j < i ==> q.jobs[j].phase.Settled()
  }

  /** The links let a job start exactly when it is next in line: nothing blocks it and nothing overtakes. */
  lemma ReadyIsNextInLine<A, S, R>(q: Queue<A, S, R>, i: nat)
    requires Serial(q)
    ensures Ready(q, i) <==> NextInLine(q, i)
  {
    if Ready(q, i) { ReadyIsNext(q, i); }
  }

  /** At most one job runs at a time; everything before it is settled, everything after it waits. */
  lemma ActiveIsAlone<A, S, R>(q: Queue<A, S, R>, i: nat)
    requires Serial(q) && Active(q, i)
    ensures forall j :: 0 <= j < i ==> q.jobs[j].phase.Settled()
    ensures forall j :: i < j < |q.jobs| ==> q.jobs[j].phase.Waiting?
  {
    forall j | i < j < |q.jobs| ensures q.jobs[j].phase.Waiting? {
      assert !q.jobs[j].phase.Waiting? ==> q.jobs[i].phase.Settled();
    }
  }

  lemma AdvanceSerial<A, S, R>(q: Queue<A, S, R>, i: nat, phase: Phase<S, R>)
    requires Serial(q)
    requires (Ready(q, i) && !phase.Waiting?) || (Active(q, i) && phase.Settled())
    ensures Serial(Advance(q, i, phase))
  {
    if Ready(q, i) { ReadyIsNext(q, i); } else { ActiveIsAlone(q, i); }
    var r := Advance(q, i, phase);
    assert forall j :: i < j < |r.jobs| ==> r.jobs[j].phase.Waiting?;
    assert forall j :: 0 <= j < i ==> r.jobs[j].phase.Settled();
  }

  /** The results of the jobs that succeeded, in call order. */
  function Results<A, S, R>(jobs: seq<Job<A, S, R>>): seq<R> {
    if jobs == [] then []
    else
      var rest := Results(jobs[..|jobs| - 1]);
      match jobs[|jobs| - 1].phase
      case Fulfilled(value) => rest + [value]
      case _ => rest
  }

  lemma {:induction false} ResultsOfUnfinished<A, S, R>(jobs: seq<Job<A, S, R>>, i: nat)
    requires i <= |jobs|
    requires forall j :: i <= j < |jobs| ==> !jobs[j].phase.Fulfilled?
    ensures Results(jobs) == Results(jobs[..i])
  {
    if i == |jobs| {
      assert jobs[..i] == jobs;
    } else {
      ResultsOfUnfinished(jobs[..|jobs| - 1], i);
      assert jobs[..|jobs| - 1][..i] == jobs[..i];
    }
  }

  /** Settling the job whose turn it is appends its value, if any, to the results. */
  lemma ResultsAdvance<A, S, R>(q: Queue<A, S, R>, i: nat, phase: Phase<S, R>)
    requires Serial(q) && (Ready(q, i) || Active(q, i))
    ensures Results(Advance(q, i, phase).jobs)
         == Results(q.jobs) + if phase.Fulfilled? then [phase.value] else []
  {
    if Ready(q, i) { ReadyIsNext(q, i); } else { ActiveIsAlone(q, i); }
    var jobs := Advance(q, i, phase).jobs;
    ResultsOfUnfinished(q.jobs, i);
    ResultsOfUnfinished(jobs, i + 1);
    assert jobs[..i + 1][..i] == q.jobs[..i];
    assert jobs[..i + 1][i] == jobs[i];
  }

  lemma ResultsEnqueue<A, S, R>(q: Queue<A, S, R>, args: A)
    ensures Results(Enqueue(q, args).jobs) == Results(q.jobs)
  {
    var jobs := Enqueue(q, args).jobs;
    assert jobs[..|jobs| - 1] == q.jobs;
  }
}

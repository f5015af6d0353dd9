/** MqttMessageBuffer: a queue bounded in messages and in bytes, filled by the event stream and emptied by
    polls, with resets that may be suspended while an upstream call is in flight. Every step below runs
    between two awaits, so any interleaving of them is a run. Times are milliseconds. */
module MessageBuffer {
  import opened Basics
  import opened Options

  /** byteLength is the field of the message when it is a number; payloadBytes is the size of its payload. */
  datatype Message = Message(payload: string, byteLength: Option<int>, payloadBytes: nat)

  function ByteLength(m: Message): nat {
    match m.byteLength
    case Some(n) => if n < 0 then 0 else n
    case None => m.payloadBytes
  }

  datatype Config = Config(maxMessages: nat, maxBytes: nat, defaultPoll: nat, maxPoll: nat, inactivityMs: nat)

  function Bytes(q: seq<Message>): nat {
    if q == [] then 0 else Bytes(q[..|q| - 1]) + ByteLength(q[|q| - 1])
  }

  lemma {:induction false} BytesAppend(a: seq<Message>, b: seq<Message>)
    ensures Bytes(a + b) == Bytes(a) + Bytes(b)
  {
    if b == [] {
      assert a + b == a;
    } else {
      assert (a + b)[..|a + b| - 1] == a + b[..|b| - 1];
      BytesAppend(a, b[..|b| - 1]);
    }
  }

  lemma BytesSplit(q: seq<Message>, n: nat)
    requires n <= |q|
    ensures Bytes(q) == Bytes(q[..n]) + Bytes(q[n..])
  {
    assert q == q[..n] + q[n..];
    BytesAppend(q[..n], q[n..]);
  }

  lemma BytesOne(m: Message)
    ensures Bytes([m]) == ByteLength(m)
  {
    assert [m][..0] == [];
  }

  // ---- Dropping the oldest ----

  predicate Fits(cfg: Config, q: seq<Message>) {
    |q| <= cfg.maxMessages && Bytes(q) <= cfg.maxBytes
  }

  /** How many of the oldest messages must go until the rest fits. */
  function Excess(cfg: Config, q: seq<Message>): (n: nat)
    ensures n <= |q|
  {
    if Fits(cfg, q) || q == [] then 0 else 1 + Excess(cfg, q[1..])
  }

  /** What remains is the longest suffix that fits both bounds: it fits, and no longer suffix does. */
  lemma {:induction false} LongestSuffixThatFits(cfg: Config, q: seq<Message>)
    ensures Fits(cfg, q[Excess(cfg, q)..])
    ensures forall n :: 0 <= n < Excess(cfg, q) ==> !Fits(cfg, q[n..])
  {
    if Fits(cfg, q) || q == [] {
      assert q[0..] == q;
    } else {
      LongestSuffixThatFits(cfg, q[1..]);
      assert q[Excess(cfg, q)..] == q[1..][Excess(cfg, q[1..])..];
      forall n | 0 <= n < Excess(cfg, q) ensures !Fits(cfg, q[n..]) {
        if n == 0 { assert q[0..] == q; } else { assert q[n..] == q[1..][n - 1..]; }
      }
    }
  }

  // ---- The state and its steps ----

  /** cleanup: none in flight; waiting for the upstream disconnect, to close afterwards or not; or done but
      its promise not yet collected. */
  datatype Cleanup = NoCleanup | Waiting(close: bool) | Settling

  datatype Buffer = Buffer(
    queue: seq<Message>,
    queuedBytes: int,
    droppedMessages: nat,
    droppedBytes: int,
    lastPolledAt: Option<int>,
    expiresAt: Option<int>,
    closed: bool,
    cleanup: Cleanup)

  /** What became of an accepted message that is no longer queued. */
  datatype Fate = Delivered | Dropped | Discarded

  /** The messages accepted since the start and the fate of each settled one, in receive order; resetAt is
      how many were settled when the counters were last reset. The program keeps none of this. */
  datatype History = History(accepted: seq<Message>, settled: seq<(Message, Fate)>, resetAt: nat)

  datatype State = State(buffer: Buffer, history: History)

  datatype Step =
    | Append(message: Message)
    | Poll(maxMessages: Option<int>, now: int)
    | Clear
    | Activity(now: int)
    | BeginCleanup(callUpstream: bool, closeBuffer: bool)
    | ExpireIfIdle(now: int)
    | UpstreamAnswered
    | CleanupCollected

  function Settle(messages: seq<Message>, fate: Fate): (r: seq<(Message, Fate)>)
    ensures |r| == |messages|
  {
    seq(|messages|, i requires 0 <= i < |messages| => (messages[i], fate))
  }

  /** Removes the n oldest messages, all with the same fate. */
  function Remove(s: State, n: nat, fate: Fate): State
    requires n <= |s.buffer.queue|
  {
    var gone := s.buffer.queue[..n];
    State(s.buffer.(queue := s.buffer.queue[n..], queuedBytes := s.buffer.queuedBytes - Bytes(gone)),
          s.history.(settled := s.history.settled + Settle(gone, fate)))
  }

  function Pushed(b: Buffer, m: Message): Buffer {
    b.(queue := b.queue + [m], queuedBytes := b.queuedBytes + ByteLength(m))
  }

  /** The buffer after the overflow loop. */
  function AfterDrops(cfg: Config, b: Buffer): Buffer {
    var n := Excess(cfg, b.queue);
    var dropped := Bytes(b.queue[..n]);
    b.(queue := b.queue[n..],
       queuedBytes := b.queuedBytes - dropped,
       droppedMessages := b.droppedMessages + n,
       droppedBytes := b.droppedBytes + dropped)
  }

  function DoAppend(cfg: Config, s: State, m: Message): State {
    if s.buffer.closed then s
    else
      var queue := s.buffer.queue + [m];
      State(AfterDrops(cfg, Pushed(s.buffer, m)),
            s.history.(accepted := s.history.accepted + [m],
                       settled := s.history.settled + Settle(queue[..Excess(cfg, queue)], Dropped)))
  }

  function PollCount(cfg: Config, maxMessages: Option<int>): int {
    Min(cfg.maxPoll, Max(1, maxMessages.GetOr(cfg.defaultPoll)))
  }

  function DoPoll(cfg: Config, s: State, maxMessages: Option<int>, now: int): State {
    var next := Remove(s, Min(PollCount(cfg, maxMessages), |s.buffer.queue|), Delivered);
    next.(buffer := next.buffer.(lastPolledAt := Some(now), expiresAt := Some(now + cfg.inactivityMs)))
  }

  function Empty(s: State): State {
    var next := Remove(s, |s.buffer.queue|, Discarded);
    State(next.buffer.(queuedBytes := 0, droppedMessages := 0, droppedBytes := 0),
          next.history.(resetAt := |next.history.settled|))
  }

  function Reset(s: State, close: bool, cleanup: Cleanup): State {
    var next := Empty(s);
    next.(buffer := next.buffer.(lastPolledAt := None, expiresAt := None,
                                 closed := next.buffer.closed || close, cleanup := cleanup))
  }

  /** A cleanup that finds one in flight joins it; otherwise it resets at once or after the upstream call. */
  function DoBeginCleanup(s: State, callUpstream: bool, closeBuffer: bool): State {
    if s.buffer.cleanup != NoCleanup then s
    else if callUpstream then s.(buffer := s.buffer.(cleanup := Waiting(closeBuffer)))
    else Reset(s, closeBuffer, Settling)
  }

  function DoStep(cfg: Config, s: State, step: Step): State {
    match step
    case Append(m) => DoAppend(cfg, s, m)
    case Poll(maxMessages, now) => DoPoll(cfg, s, maxMessages, now)
    case Clear => Empty(s)
    case Activity(now) =>
      if s.buffer.lastPolledAt.Some? then s
      else s.(buffer := s.buffer.(lastPolledAt := Some(now), expiresAt := Some(now + cfg.inactivityMs)))
    case BeginCleanup(callUpstream, closeBuffer) => DoBeginCleanup(s, callUpstream, closeBuffer)
    case ExpireIfIdle(now) =>
      if s.buffer.expiresAt.None? || now <= s.buffer.expiresAt.value then s else DoBeginCleanup(s, true, false)
    case UpstreamAnswered => if s.buffer.cleanup.Waiting? then Reset(s, s.buffer.cleanup.close, Settling) else s
    case CleanupCollected =>
      if s.buffer.cleanup.Settling? then s.(buffer := s.buffer.(cleanup := NoCleanup)) else s
  }

  const START: State :=
    State(Buffer([], 0, 0, 0, None, None, false, NoCleanup), History([], [], 0))

  function Run(cfg: Config, steps: seq<Step>): State {
    if steps == [] then START else DoStep(cfg, Run(cfg, steps[..|steps| - 1]), steps[|steps| - 1])
  }

  function RunFrom(cfg: Config, s: State, steps: seq<Step>): State {
    if steps == [] then s else DoStep(cfg, RunFrom(cfg, s, steps[..|steps| - 1]), steps[|steps| - 1])
  }

  // ---- Conservation ----

  function Messages(settled: seq<(Message, Fate)>): (r: seq<Message>)
    ensures |r| == |settled|
  {
    seq(|settled|, i requires 0 <= i < |settled| => settled[i].0)
  }

  /** The messages accepted so far are those settled, in order, followed by those queued, in order. */
  ghost predicate Conserved(s: State) {
    s.history.accepted == Messages(s.history.settled) + s.buffer.queue
  }

  function WithFate(settled: seq<(Message, Fate)>, fate: Fate): seq<Message> {
    if settled == [] then []
    else
      var last := settled[|settled| - 1];
      WithFate(settled[..|settled| - 1], fate) + if last.1 == fate then [last.0] else []
  }

  /** The counters shown to the client count exactly the messages dropped since the last reset. */
  ghost predicate DropsCounted(s: State) {
    && s.history.resetAt <= |s.history.settled|
    && var dropped := WithFate(s.history.settled[s.history.resetAt..], Dropped);
       s.buffer.droppedMessages == |dropped| && s.buffer.droppedBytes == Bytes(dropped)
  }

  ghost predicate Inv(cfg: Config, s: State) {
    && Conserved(s)
    && DropsCounted(s)
    && s.buffer.queuedBytes == Bytes(s.buffer.queue)
    && Fits(cfg, s.buffer.queue)
  }

  lemma {:induction false} WithFateSettle(settled: seq<(Message, Fate)>, q: seq<Message>, fate: Fate, asked: Fate)
    ensures WithFate(settled + Settle(q, fate), asked) == WithFate(settled, asked) + if fate == asked then q else []
  {
    if q == [] {
      assert settled + Settle(q, fate) == settled;
    } else {
      var n := |q| - 1;
      var all := settled + Settle(q, fate);
      WithFateSettle(settled, q[..n], fate, asked);
      assert all[..|all| - 1] == settled + Settle(q[..n], fate);
      assert all[|all| - 1] == (q[n], fate);
      assert q == q[..n] + [q[n]];
    }
  }

  lemma RemoveCounts(s: State, n: nat, fate: Fate)
    requires n <= |s.buffer.queue| && s.history.resetAt <= |s.history.settled|
    ensures var h, h' := s.history, Remove(s, n, fate).history;
            var dropped := WithFate(h.settled[h.resetAt..], Dropped);
            WithFate(h'.settled[h'.resetAt..], Dropped) ==
              if fate == Dropped then dropped + s.buffer.queue[..n] else dropped
  {
    var h := s.history;
    var gone := s.buffer.queue[..n];
    assert (h.settled + Settle(gone, fate))[h.resetAt..] == h.settled[h.resetAt..] + Settle(gone, fate);
    WithFateSettle(h.settled[h.resetAt..], gone, fate, Dropped);
  }

  lemma RemoveConserves(s: State, n: nat, fate: Fate)
    requires n <= |s.buffer.queue| && Conserved(s) && s.buffer.queuedBytes == Bytes(s.buffer.queue)
    ensures Conserved(Remove(s, n, fate))
    ensures Remove(s, n, fate).buffer.queuedBytes == Bytes(Remove(s, n, fate).buffer.queue)
  {
    var q := s.buffer.queue;
    BytesSplit(q, n);
    MessagesSettle(s.history.settled, q[..n], fate);
    SplitRejoins(Messages(s.history.settled), q, n);
  }

  lemma MessagesSettle(settled: seq<(Message, Fate)>, q: seq<Message>, fate: Fate)
    ensures Messages(settled + Settle(q, fate)) == Messages(settled) + q
  {
  }

  lemma SplitRejoins<T>(a: seq<T>, b: seq<T>, n: nat)
    requires n <= |b|
    ensures a + b[..n] + b[n..] == a + b
  {
    assert b[..n] + b[n..] == b;
  }

  lemma SuffixFits(cfg: Config, q: seq<Message>, n: nat)
    requires Fits(cfg, q) && n <= |q|
    ensures Fits(cfg, q[n..])
  {
    BytesSplit(q, n);
  }

  lemma Regroup<T>(a: seq<T>, q: seq<T>, x: T, n: nat)
    requires n <= |q| + 1
    ensures a + (q + [x])[..n] + (q + [x])[n..] == a + q + [x]
  {
    SplitRejoins(a, q + [x], n);
    assert a + (q + [x]) == a + q + [x];
  }

  lemma AppendConserves(cfg: Config, s: State, m: Message)
    requires !s.buffer.closed && Conserved(s)
    ensures Conserved(DoAppend(cfg, s, m))
  {
    var queue := s.buffer.queue + [m];
    var n := Excess(cfg, queue);
    MessagesSettle(s.history.settled, queue[..n], Dropped);
    Regroup(Messages(s.history.settled), s.buffer.queue, m, n);
  }

  lemma AppendCounts(cfg: Config, s: State, m: Message)
    requires !s.buffer.closed && DropsCounted(s)
    ensures DropsCounted(DoAppend(cfg, s, m))
  {
    var h, queue := s.history, s.buffer.queue + [m];
    var gone := queue[..Excess(cfg, queue)];
    assert (h.settled + Settle(gone, Dropped))[h.resetAt..] == h.settled[h.resetAt..] + Settle(gone, Dropped);
    WithFateSettle(h.settled[h.resetAt..], gone, Dropped, Dropped);
    BytesAppend(WithFate(h.settled[h.resetAt..], Dropped), gone);
  }

  lemma AppendFits(cfg: Config, b: Buffer, m: Message)
    requires b.queuedBytes == Bytes(b.queue)
    ensures var next := AfterDrops(cfg, Pushed(b, m));
      next.queuedBytes == Bytes(next.queue) && Fits(cfg, next.queue)
  {
    var queue := b.queue + [m];
    PushedBytes(b.queue, m);
    BytesSplit(queue, Excess(cfg, queue));
    LongestSuffixThatFits(cfg, queue);
  }

  lemma AppendKeepsInv(cfg: Config, s: State, m: Message)
    requires Inv(cfg, s)
    ensures Inv(cfg, DoAppend(cfg, s, m))
  {
    if !s.buffer.closed {
      AppendConserves(cfg, s, m);
      AppendCounts(cfg, s, m);
      AppendFits(cfg, s.buffer, m);
    }
  }

  lemma PushedBytes(q: seq<Message>, m: Message)
    ensures Bytes(q + [m]) == Bytes(q) + ByteLength(m)
  {
    BytesAppend(q, [m]);
    BytesOne(m);
  }

  lemma EmptyKeepsInv(cfg: Config, s: State)
    requires Inv(cfg, s)
    ensures Inv(cfg, Empty(s))
  {
    RemoveConserves(s, |s.buffer.queue|, Discarded);
    SuffixFits(cfg, s.buffer.queue, |s.buffer.queue|);
    var h := Remove(s, |s.buffer.queue|, Discarded).history;
    assert h.settled[|h.settled|..] == [];
  }

  lemma StepKeepsInv(cfg: Config, s: State, step: Step)
    requires Inv(cfg, s)
    ensures Inv(cfg, DoStep(cfg, s, step))
  {
    EmptyKeepsInv(cfg, s);
    match step
    case Append(m) => AppendKeepsInv(cfg, s, m);
    case Poll(maxMessages, now) =>
      var n := Min(PollCount(cfg, maxMessages), |s.buffer.queue|);
      RemoveConserves(s, n, Delivered);
      RemoveCounts(s, n, Delivered);
      SuffixFits(cfg, s.buffer.queue, n);
    case _ =>
  }

  /** In every reachable state each accepted message is in exactly one place, in receive order; the byte
      count is exact and both bounds hold. */
  lemma {:induction false} EveryRunConserves(cfg: Config, steps: seq<Step>)
    ensures Inv(cfg, Run(cfg, steps))
  {
    if steps != [] {
      EveryRunConserves(cfg, steps[..|steps| - 1]);
      StepKeepsInv(cfg, Run(cfg, steps[..|steps| - 1]), steps[|steps| - 1]);
    }
  }

  // ---- Delivery ----

  /** The fates partition the settled messages. */
  lemma {:induction false} FatesPartition(settled: seq<(Message, Fate)>)
    ensures multiset(Messages(settled)) == Settled(settled)
  {
    if settled != [] {
      var rest, last := settled[..|settled| - 1], settled[|settled| - 1];
      FatesPartition(rest);
      assert Messages(settled) == Messages(rest) + [last.0];
      CountedOnce(settled, Delivered);
      CountedOnce(settled, Dropped);
      CountedOnce(settled, Discarded);
    }
  }

  lemma CountedOnce(settled: seq<(Message, Fate)>, fate: Fate)
    requires settled != []
    ensures var last := settled[|settled| - 1];
      multiset(WithFate(settled, fate))
      == multiset(WithFate(settled[..|settled| - 1], fate)) + if last.1 == fate then multiset{last.0} else multiset{}
  {
  }

  ghost function Settled(settled: seq<(Message, Fate)>): multiset<Message> {
    multiset(WithFate(settled, Delivered))
    + multiset(WithFate(settled, Dropped))
    + multiset(WithFate(settled, Discarded))
  }

  /** Accepted messages are conserved as a multiset: delivered, dropped, discarded and queued, nothing twice. */
  lemma {:induction false} NothingLostOrDuplicated(cfg: Config, steps: seq<Step>)
    ensures var s := Run(cfg, steps);
            multiset(s.history.accepted) == Settled(s.history.settled) + multiset(s.buffer.queue)
  {
    EveryRunConserves(cfg, steps);
    FatesPartition(Run(cfg, steps).history.settled);
  }

  /** part lists, in order, elements of whole at increasing positions. */
  ghost predicate InOrder(part: seq<Message>, whole: seq<Message>, at: seq<nat>) {
    && |at| == |part|
    && (forall i :: 0 <= i < |at| ==> at[i] < |whole| && whole[at[i]] == part[i])
    && (forall i, j :: 0 <= i < j < |at| ==> at[i] < at[j])
  }

  lemma {:induction false} FateInOrder(settled: seq<(Message, Fate)>, fate: Fate) returns (at: seq<nat>)
    ensures InOrder(WithFate(settled, fate), Messages(settled), at)
  {
    if settled == [] {
      at := [];
    } else {
      var n := |settled| - 1;
      at := FateInOrder(settled[..n], fate);
      assert Messages(settled) == Messages(settled[..n]) + [settled[n].0];
      if settled[n].1 == fate { at := at + [n]; }
    }
  }

  lemma InOrderThenRest(part: seq<Message>, whole: seq<Message>, at: seq<nat>, rest: seq<Message>)
    requires InOrder(part, whole, at)
    ensures InOrder(part + rest, whole + rest, at + seq(|rest|, i => |whole| + i))
  {
  }

  /** What was delivered, followed by what is still queued, is in receive order. */
  lemma DeliveredThenQueuedInOrder(cfg: Config, steps: seq<Step>) returns (at: seq<nat>)
    ensures var s := Run(cfg, steps);
            InOrder(WithFate(s.history.settled, Delivered) + s.buffer.queue, s.history.accepted, at)
  {
    EveryRunConserves(cfg, steps);
    var s := Run(cfg, steps);
    at := FateInOrder(s.history.settled, Delivered);
    InOrderThenRest(WithFate(s.history.settled, Delivered), Messages(s.history.settled), at, s.buffer.queue);
    at := at + seq(|s.buffer.queue|, i => |Messages(s.history.settled)| + i);
  }

  // ---- What each request does, in any run ----

  lemma {:induction false} RunSnoc(cfg: Config, steps: seq<Step>, step: Step)
    ensures Run(cfg, steps + [step]) == DoStep(cfg, Run(cfg, steps), step)
  {
    assert (steps + [step])[..|steps|] == steps;
  }

  /** An open buffer accepts every message. It keeps the longest run of newest messages that fits both bounds and drops
      the others; the new message itself stays exactly if it fits alone. A closed one ignores the message. */
  lemma {:induction false} AppendEffect(cfg: Config, steps: seq<Step>, m: Message) returns (n: nat)
    ensures var s, after := Run(cfg, steps), Run(cfg, steps + [Append(m)]);
      var queue := s.buffer.queue + [m];
      if s.buffer.closed then after == s
      else
        && after.history.accepted == s.history.accepted + [m]
        && n <= |queue| && after.buffer.queue == queue[n..]
        && after.history.settled == s.history.settled + Settle(queue[..n], Dropped)
        && (forall k :: 0 <= k <= |queue| ==> (Fits(cfg, queue[k..]) <==> n <= k))
        && (n < |queue| <==> cfg.maxMessages >= 1 && ByteLength(m) <= cfg.maxBytes)
  {
    var queue := Run(cfg, steps).buffer.queue + [m];
    n := Excess(cfg, queue);
    RunSnoc(cfg, steps, Append(m));
    FitsFromExcess(cfg, queue);
    FitsAlone(cfg, Run(cfg, steps).buffer.queue, m);
  }

  lemma {:induction false} FitsFromExcess(cfg: Config, q: seq<Message>)
    ensures forall k :: 0 <= k <= |q| ==> (Fits(cfg, q[k..]) <==> Excess(cfg, q) <= k)
  {
    var n := Excess(cfg, q);
    LongestSuffixThatFits(cfg, q);
    forall k | n <= k <= |q| ensures Fits(cfg, q[k..]) {
      SuffixFits(cfg, q[n..], k - n);
      assert q[n..][k - n..] == q[k..];
    }
  }

  lemma {:induction false} FitsAlone(cfg: Config, q: seq<Message>, m: Message)
    ensures Fits(cfg, (q + [m])[|q|..]) <==> cfg.maxMessages >= 1 && ByteLength(m) <= cfg.maxBytes
  {
    assert (q + [m])[|q|..] == [m];
    BytesOne(m);
  }

  /** How many messages a poll asks for, as the caller sees it: what it names, or the default, but at least one
      and at most the configured maximum. */
  predicate Asked(cfg: Config, maxMessages: Option<int>, n: int) {
    var named := if maxMessages.Some? then maxMessages.value else cfg.defaultPoll;
    && (1 <= named <= cfg.maxPoll ==> n == named)
    && (named > cfg.maxPoll ==> n == cfg.maxPoll)
    && (named < 1 ==> n == if cfg.maxPoll == 0 then 0 else 1)
  }

  lemma AskedIsPolled(cfg: Config, maxMessages: Option<int>, n: int)
    requires Asked(cfg, maxMessages, n)
    ensures PollCount(cfg, maxMessages) == n
  {
  }

  /** What a poll of n messages leaves. */
  ghost predicate PolledBy(s: State, after: State, n: nat) {
    && n <= |s.buffer.queue|
    && WithFate(after.history.settled, Delivered) == WithFate(s.history.settled, Delivered) + s.buffer.queue[..n]
    && after.history.accepted == s.history.accepted
    && after.buffer.queue == s.buffer.queue[n..]
    && after.buffer.droppedMessages == s.buffer.droppedMessages
    && after.buffer.droppedBytes == s.buffer.droppedBytes
    && after.buffer.closed == s.buffer.closed
  }

  lemma {:induction false} PollStep(cfg: Config, s: State, maxMessages: Option<int>, now: int)
    ensures PolledBy(s, DoPoll(cfg, s, maxMessages, now), Min(PollCount(cfg, maxMessages), |s.buffer.queue|))
  {
    var n := Min(PollCount(cfg, maxMessages), |s.buffer.queue|);
    WithFateSettle(s.history.settled, s.buffer.queue[..n], Delivered, Delivered);
  }

  predicate Polled(b: Buffer, expiresAt: int, cleanup: Cleanup) {
    b.lastPolledAt.Some? && b.expiresAt == Some(expiresAt) && b.cleanup == cleanup
  }

  lemma {:induction false} PollDefers(cfg: Config, s: State, maxMessages: Option<int>, now: int)
    ensures Polled(DoPoll(cfg, s, maxMessages, now).buffer, now + cfg.inactivityMs, s.buffer.cleanup)
  {
  }

  /** A poll delivers as many of the oldest messages as were asked for and are there, and leaves the others; it
      postpones the expiry to a whole period from now. */
  lemma {:induction false} PollEffect(cfg: Config, steps: seq<Step>, maxMessages: Option<int>, now: int, asked: nat)
    requires Asked(cfg, maxMessages, asked)
    ensures PolledBy(Run(cfg, steps), Run(cfg, steps + [Poll(maxMessages, now)]),
                     Min(asked, |Run(cfg, steps).buffer.queue|))
    ensures Polled(Run(cfg, steps + [Poll(maxMessages, now)]).buffer, now + cfg.inactivityMs,
                   Run(cfg, steps).buffer.cleanup)
  {
    RunSnoc(cfg, steps, Poll(maxMessages, now));
    AskedIsPolled(cfg, maxMessages, asked);
    PollStep(cfg, Run(cfg, steps), maxMessages, now);
    PollDefers(cfg, Run(cfg, steps), maxMessages, now);
  }

  /** Clearing discards the whole queue and resets the counters, and nothing else. */
  lemma {:induction false} ClearEffect(cfg: Config, steps: seq<Step>)
    ensures var s, after := Run(cfg, steps), Run(cfg, steps + [Clear]);
      && after.buffer == s.buffer.(queue := [], queuedBytes := 0, droppedMessages := 0, droppedBytes := 0)
      && after.history.settled == s.history.settled + Settle(s.buffer.queue, Discarded)
  {
    RunSnoc(cfg, steps, Clear);
    var q := Run(cfg, steps).buffer.queue;
    assert q[|q|..] == [] && q[..|q|] == q;
  }

  /** The answer to a cleanup's upstream call discards what is queued, resets counters and deadlines, and closes the
      buffer if that was asked for; without a waiting cleanup it changes nothing. */
  lemma {:induction false} CleanupEffect(cfg: Config, steps: seq<Step>)
    ensures var s, after := Run(cfg, steps), Run(cfg, steps + [UpstreamAnswered]);
      if s.buffer.cleanup.Waiting?
      then after.buffer == Buffer([], 0, 0, 0, None, None, s.buffer.closed || s.buffer.cleanup.close, Settling)
           && after.history.settled == s.history.settled + Settle(s.buffer.queue, Discarded)
      else after == s
  {
    RunSnoc(cfg, steps, UpstreamAnswered);
    var q := Run(cfg, steps).buffer.queue;
    assert q[|q|..] == [] && q[..|q|] == q;
  }

  ghost predicate OnlyFilled(steps: seq<Step>) {
    forall step :: step in steps ==> step.Append? || step.Clear? || step.Activity?
  }

  lemma {:induction false} FilledKeepsDeadline(cfg: Config, s: State, step: Step, expiresAt: int, cleanup: Cleanup)
    requires Polled(s.buffer, expiresAt, cleanup) && (step.Append? || step.Clear? || step.Activity?)
    ensures Polled(DoStep(cfg, s, step).buffer, expiresAt, cleanup)
  {
  }

  lemma {:induction false} ExpireStep(cfg: Config, s: State, expiresAt: int, cleanup: Cleanup, now: int)
    requires Polled(s.buffer, expiresAt, cleanup)
    ensures DoStep(cfg, s, ExpireIfIdle(now)).buffer.cleanup
         == if cleanup == NoCleanup && now > expiresAt then Waiting(false) else cleanup
  {
  }

  lemma {:induction false} DeadlineStays(cfg: Config, s: State, meanwhile: seq<Step>, expiresAt: int, cleanup: Cleanup)
    requires Polled(s.buffer, expiresAt, cleanup) && OnlyFilled(meanwhile)
    ensures Polled(RunFrom(cfg, s, meanwhile).buffer, expiresAt, cleanup)
  {
    if meanwhile != [] {
      var rest, last := meanwhile[..|meanwhile| - 1], meanwhile[|meanwhile| - 1];
      DeadlineStays(cfg, s, rest, expiresAt, cleanup);
      FilledKeepsDeadline(cfg, RunFrom(cfg, s, rest), last, expiresAt, cleanup);
    }
  }

  /** A session expires exactly when more than the inactivity period has passed since its last poll, however many
      messages came in or were cleared meanwhile: then a cleanup that will not close begins, unless one is in flight. */
  lemma {:induction false} ExpiresExactly(cfg: Config, s: State, maxMessages: Option<int>, polledAt: int,
                                          meanwhile: seq<Step>, now: int)
    requires OnlyFilled(meanwhile)
    ensures var idle := RunFrom(cfg, DoStep(cfg, s, Poll(maxMessages, polledAt)), meanwhile);
      DoStep(cfg, idle, ExpireIfIdle(now)).buffer.cleanup
      == if s.buffer.cleanup == NoCleanup && now > polledAt + cfg.inactivityMs then Waiting(false)
         else s.buffer.cleanup
  {
    var polled, deadline := DoPoll(cfg, s, maxMessages, polledAt), polledAt + cfg.inactivityMs;
    PollDefers(cfg, s, maxMessages, polledAt);
    DeadlineStays(cfg, polled, meanwhile, deadline, s.buffer.cleanup);
    ExpireStep(cfg, RunFrom(cfg, polled, meanwhile), deadline, s.buffer.cleanup, now);
  }

  /** After close has run to its end nothing more is accepted. */
  lemma {:induction false} ClosedStaysClosed(cfg: Config, s: State, steps: seq<Step>)
    requires s.buffer.closed
    ensures RunFrom(cfg, s, steps).buffer.closed
    ensures RunFrom(cfg, s, steps).history.accepted == s.history.accepted
  {
    if steps != [] { ClosedStaysClosed(cfg, s, steps[..|steps| - 1]); }
  }

  ghost predicate NoneCloses(steps: seq<Step>) {
    forall step :: step in steps ==> !(step.BeginCleanup? && step.closeBuffer)
  }

  predicate Closing(s: State) { s.buffer.cleanup == Waiting(true) }

  lemma ClosingStep(cfg: Config, s: State, step: Step)
    requires !s.buffer.closed && !(step.BeginCleanup? && step.closeBuffer)
    ensures var next := DoStep(cfg, s, step);
      if Closing(s) then (if step.UpstreamAnswered? then next.buffer.closed else !next.buffer.closed && Closing(next))
      else !next.buffer.closed && !Closing(next)
  {
  }

  /** What becomes of a closing cleanup in flight, or of its absence, while nobody else asks to close. */
  lemma {:induction false} ClosingRun(cfg: Config, s: State, steps: seq<Step>)
    requires !s.buffer.closed && NoneCloses(steps)
    ensures var done := RunFrom(cfg, s, steps);
      if Closing(s) && UpstreamAnswered in steps then done.buffer.closed
      else !done.buffer.closed && (Closing(done) <==> Closing(s))
  {
    if steps != [] {
      var rest, last := steps[..|steps| - 1], steps[|steps| - 1];
      assert steps == rest + [last];
      ClosingRun(cfg, s, rest);
      var before := RunFrom(cfg, s, rest);
      if before.buffer.closed {
        ClosedStaysClosed(cfg, before, [last]);
        assert [last][..0] == [];
        assert RunFrom(cfg, before, [last]) == DoStep(cfg, RunFrom(cfg, before, []), last);
      } else {
        ClosingStep(cfg, before, last);
      }
    }
  }

  /** close() at any moment, followed by any steps among which nobody else asks to close: the buffer is closed exactly
      if the upstream call was answered and close did not join a cleanup that was started without closing. */
  lemma CloseTakesEffect(cfg: Config, s: State, steps: seq<Step>)
    requires !s.buffer.closed && NoneCloses(steps)
    ensures RunFrom(cfg, DoStep(cfg, s, BeginCleanup(true, true)), steps).buffer.closed <==>
              (s.buffer.cleanup == NoCleanup || s.buffer.cleanup == Waiting(true)) && UpstreamAnswered in steps
  {
    ClosingRun(cfg, DoStep(cfg, s, BeginCleanup(true, true)), steps);
  }

  // ---- The buffer object ----

  /** The overflow loop after dropping n messages. */
  ghost predicate TrimmedFrom(cfg: Config, before: Buffer, n: nat, b: Buffer) {
    && n <= |before.queue|
    && n + Excess(cfg, b.queue) == Excess(cfg, before.queue)
    && b.queuedBytes == Bytes(b.queue)
    && b == before.(queue := before.queue[n..],
                    queuedBytes := before.queuedBytes - Bytes(before.queue[..n]),
                    droppedMessages := before.droppedMessages + n,
                    droppedBytes := before.droppedBytes + Bytes(before.queue[..n]))
  }

  lemma NothingTrimmed(cfg: Config, b: Buffer)
    requires b.queuedBytes == Bytes(b.queue)
    ensures TrimmedFrom(cfg, b, 0, b)
  {
    assert b.queue[..0] == [] && b.queue[0..] == b.queue;
  }

  function WithoutOldest(b: Buffer): Buffer
    requires b.queue != []
  {
    b.(queue := b.queue[1..],
       queuedBytes := b.queuedBytes - ByteLength(b.queue[0]),
       droppedMessages := b.droppedMessages + 1,
       droppedBytes := b.droppedBytes + ByteLength(b.queue[0]))
  }

  lemma DropOne(cfg: Config, before: Buffer, n: nat, b: Buffer)
    requires TrimmedFrom(cfg, before, n, b) && (|b.queue| > cfg.maxMessages || b.queuedBytes > cfg.maxBytes)
    ensures b.queue != [] && TrimmedFrom(cfg, before, n + 1, WithoutOldest(b))
  {
    var q, all := b.queue, before.queue;
    assert !Fits(cfg, q);
    assert q[..1] == [q[0]];
    BytesSplit(q, 1);
    BytesOne(q[0]);
    assert all[..n + 1] == all[..n] + [q[0]];
    PushedBytes(all[..n], q[0]);
  }

  lemma AllTrimmed(cfg: Config, before: Buffer, n: nat, b: Buffer)
    requires TrimmedFrom(cfg, before, n, b) && !(|b.queue| > cfg.maxMessages || b.queuedBytes > cfg.maxBytes)
    ensures b == AfterDrops(cfg, before)
  {
    assert Fits(cfg, b.queue);
  }

  class MqttMessageBuffer {
    const cfg: Config
    var queue: seq<Message>
    var queuedBytes: int
    var droppedMessages: nat
    var droppedBytes: int
    var lastPolledAt: Option<int>
    var expiresAt: Option<int>
    var closed: bool
    var cleanup: Cleanup
    ghost var history: History

    ghost function Fields(): Buffer
      reads this
    {
      Buffer(queue, queuedBytes, droppedMessages, droppedBytes, lastPolledAt, expiresAt, closed, cleanup)
    }

    ghost function Abs(): State
      reads this
    {
      State(Fields(), history)
    }

    constructor (cfg: Config)
      ensures this.cfg == cfg && Abs() == START
    {
      this.cfg := cfg;
      queue, queuedBytes, droppedMessages, droppedBytes := [], 0, 0, 0;
      lastPolledAt, expiresAt, closed, cleanup := None, None, false, NoCleanup;
      history := History([], [], 0);
    }

    method AppendMessage(m: Message)
      requires Inv(cfg, Abs())
      modifies this
      ensures Abs() == DoStep(cfg, old(Abs()), Append(m)) && Inv(cfg, Abs())
    {
      AppendKeepsInv(cfg, Abs(), m);
      if closed { return; }
      history := DoAppend(cfg, Abs(), m).history;
      Push(m);
      DropOldest();
    }

    method Push(m: Message)
      requires queuedBytes == Bytes(queue)
      modifies this`queue, this`queuedBytes
      ensures Fields() == Pushed(old(Fields()), m) && queuedBytes == Bytes(queue)
    {
      PushedBytes(queue, m);
      queue := queue + [m];
      queuedBytes := queuedBytes + ByteLength(m);
    }

    /** The overflow loop of append. */
    method DropOldest()
      requires queuedBytes == Bytes(queue)
      modifies this`queue, this`queuedBytes, this`droppedMessages, this`droppedBytes
      ensures Fields() == AfterDrops(cfg, old(Fields()))
    {
      ghost var before, n := Fields(), 0;
      NothingTrimmed(cfg, before);
      while |queue| > cfg.maxMessages || queuedBytes > cfg.maxBytes
        invariant TrimmedFrom(cfg, before, n, Fields())
        decreases |queue|
      {
        // an empty queue holds 0 bytes and fits, so there is a message to drop
        DropOne(cfg, before, n, Fields());
        Shift();
        n := n + 1;
      }
      AllTrimmed(cfg, before, n, Fields());
    }

    method Shift()
      requires queue != []
      modifies this`queue, this`queuedBytes, this`droppedMessages, this`droppedBytes
      ensures Fields() == WithoutOldest(old(Fields()))
    {
      var dropped := queue[0];
      queue := queue[1..];
      queuedBytes := queuedBytes - ByteLength(dropped);
      droppedMessages := droppedMessages + 1;
      droppedBytes := droppedBytes + ByteLength(dropped);
    }

    method PollMessages(maxMessages: Option<int>, now: int) returns (selected: seq<Message>)
      requires Inv(cfg, Abs())
      modifies this
      ensures Abs() == DoStep(cfg, old(Abs()), Poll(maxMessages, now)) && Inv(cfg, Abs())
      ensures selected == old(queue)[..Min(PollCount(cfg, maxMessages), |old(queue)|)]
    {
      StepKeepsInv(cfg, Abs(), Poll(maxMessages, now));
      var count := Min(PollCount(cfg, maxMessages), |queue|);
      selected := queue[..count];
      var returnedBytes := Bytes(selected);
      queue := queue[count..];
      queuedBytes := queuedBytes - returnedBytes;
      lastPolledAt, expiresAt := Some(now), Some(now + cfg.inactivityMs);
      history := history.(settled := history.settled + Settle(selected, Delivered));
    }

    method ClearMessages()
      requires Inv(cfg, Abs())
      modifies this
      ensures Abs() == DoStep(cfg, old(Abs()), Clear) && Inv(cfg, Abs())
    {
      EmptyKeepsInv(cfg, Abs());
      history := history.(settled := history.settled + Settle(queue, Discarded),
                          resetAt := |history.settled| + |queue|);
      assert queue[..|queue|] == queue && queue[|queue|..] == [];
      queue, queuedBytes, droppedMessages, droppedBytes := [], 0, 0, 0;
    }

    method StartActivityDeadline(now: int)
      modifies this
      ensures Abs() == DoStep(cfg, old(Abs()), Activity(now))
    {
      if lastPolledAt.Some? { return; }
      lastPolledAt, expiresAt := Some(now), Some(now + cfg.inactivityMs);
    }

    /** cleanup up to its first await. */
    method StartCleanup(callUpstream: bool, closeBuffer: bool)
      requires Inv(cfg, Abs())
      modifies this
      ensures Abs() == DoStep(cfg, old(Abs()), BeginCleanup(callUpstream, closeBuffer)) && Inv(cfg, Abs())
    {
      StepKeepsInv(cfg, Abs(), BeginCleanup(callUpstream, closeBuffer));
      if cleanup != NoCleanup { return; }
      if callUpstream {
        cleanup := Waiting(closeBuffer);
        return;
      }
      ResetAll(closeBuffer);
    }

    method ResetAll(close: bool)
      requires Inv(cfg, Abs())
      modifies this
      ensures Abs() == Reset(old(Abs()), close, Settling)
    {
      ClearMessages();
      lastPolledAt, expiresAt := None, None;
      if close { closed := true; }
      cleanup := Settling;
    }

    method Expire(now: int) returns (expired: bool)
      requires Inv(cfg, Abs())
      modifies this
      ensures Abs() == DoStep(cfg, old(Abs()), ExpireIfIdle(now)) && Inv(cfg, Abs())
      ensures expired <==> old(expiresAt).Some? && now > old(expiresAt).value
    {
      expired := expiresAt.Some? && now > expiresAt.value;
      if expired { StartCleanup(true, false); }
    }

    /** cleanup after the upstream call has answered or failed, which makes no difference. */
    method ResumeCleanup()
      requires Inv(cfg, Abs())
      modifies this
      ensures Abs() == DoStep(cfg, old(Abs()), UpstreamAnswered) && Inv(cfg, Abs())
    {
      StepKeepsInv(cfg, Abs(), UpstreamAnswered);
      if cleanup.Waiting? { ResetAll(cleanup.close); }
    }

    method CollectCleanup()
      modifies this
      ensures Abs() == DoStep(cfg, old(Abs()), CleanupCollected)
    {
      if cleanup.Settling? { cleanup := NoCleanup; }
    }
  }
}

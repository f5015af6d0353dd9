/** The MQTT explorer session: counters, the latest message of each tracked topic and the eviction of the
    oldest topics, related to the messages received since the last reset. Times are milliseconds. */
module Explorer {
  import opened Basics
  import opened Options
  import opened Sorting
  import opened TopicFilter

  datatype Message = Message(topic: string, payload: string, receivedAt: int)

  const ABSOLUTE_MAX_TRACKED_TOPICS: int := 500

  /** The part of SessionRecord that messages change. messages is the Map from topic to latest message, as
      its entries in insertion order; subscriptions maps a filter to its matchedMessageCount. */
  datatype Session = Session(
    messages: seq<Message>,
    subscriptions: map<string, nat>,
    totalMessages: nat,
    trackedTopicsLimit: Option<int>)

  // ---- Map<string, MqttLatestMessage> ----

  function Topics(m: seq<Message>): (topics: seq<string>)
    ensures |topics| == |m|
    ensures forall i :: 0 <= i < |m| ==> topics[i] == m[i].topic
  {
    seq(|m|, i requires 0 <= i < |m| => m[i].topic)
  }

  /** set: an existing topic keeps its position. */
  function Put(m: seq<Message>, message: Message): seq<Message> {
    var i := IndexOf(Topics(m), message.topic);
    if i < |m| then m[i := message] else m + [message]
  }

  function Delete(m: seq<Message>, topic: string): seq<Message> {
    var i := IndexOf(Topics(m), topic);
    if i < |m| then m[..i] + m[i + 1..] else m
  }

  // ---- trimTrackedMessages ----

  function EffectiveLimit(limit: Option<int>): int {
    match limit
    case None => ABSOLUTE_MAX_TRACKED_TOPICS
    case Some(n) => if n < ABSOLUTE_MAX_TRACKED_TOPICS then n else ABSOLUTE_MAX_TRACKED_TOPICS
  }

  function ByReceivedAt(): (Message, Message) -> bool {
    (left: Message, right: Message) => left.receivedAt <= right.receivedAt
  }

  function Oldest(m: seq<Message>): Message
    requires m != []
  {
    Sort(m, ByReceivedAt())[0]
  }

  ghost predicate DistinctTopics(m: seq<Message>) {
    forall i, j :: 0 <= i < j < |m| ==> m[i].topic != m[j].topic
  }

  lemma OldestIsMember(m: seq<Message>)
    requires m != []
    ensures Oldest(m) in m && IndexOf(Topics(m), Oldest(m).topic) < |m|
  {
    var x := Oldest(m);
    assert x in Sort(m, ByReceivedAt());
    var i :| 0 <= i < |m| && m[i] == x;
  }

  function Trim(m: seq<Message>, limit: int): (r: seq<Message>)
    decreases |m|
  {
    if |m| <= limit || m == [] then m
    else
      OldestIsMember(m);
      Trim(Delete(m, Oldest(m).topic), limit)
  }

  lemma OldestIsLeast(m: seq<Message>)
    requires m != []
    ensures forall x :: x in m ==> Oldest(m).receivedAt <= x.receivedAt
  {
    SortSorts(m, ByReceivedAt());
    var sorted := Sort(m, ByReceivedAt());
    forall x | x in m ensures sorted[0].receivedAt <= x.receivedAt {
      assert x in sorted;
      var i :| 0 <= i < |sorted| && sorted[i] == x;
      assert i == 0 || ByReceivedAt()(sorted[0], sorted[i]);
    }
  }

  /** The sort is stable, so among equally old messages the one tracked longest goes first. */
  lemma {:induction false} OldestIsNotLast(m: seq<Message>)
    requires |m| >= 2
    requires forall x :: x in m ==> x.receivedAt <= m[|m| - 1].receivedAt
    requires DistinctTopics(m)
    ensures Oldest(m) != m[|m| - 1]
  {
    var rest := m[1..];
    assert m == [m[0]] + rest;
    if |m| == 2 {
      assert rest[1..] == [] && Sort(rest, ByReceivedAt()) == [m[1]];
    } else {
      OldestIsNotLast(rest);
    }
    assert m[0].topic != m[|m| - 1].topic;
    assert m[0] in m;
    var head := Sort(rest, ByReceivedAt())[0];
    if !ByReceivedAt()(m[0], head) {
      assert |m| > 2;
    }
  }

  lemma DeleteAt(m: seq<Message>, i: nat, x: Message)
    requires DistinctTopics(m) && i < |m|
    ensures x in m[..i] + m[i + 1..] <==> x in m && x.topic != m[i].topic
  {
    var r := m[..i] + m[i + 1..];
    if x in m && x.topic != m[i].topic {
      var k :| 0 <= k < |m| && m[k] == x;
      assert r[if k < i then k else k - 1] == x;
    }
    if x in r {
      var k :| 0 <= k < |r| && r[k] == x;
      assert m[if k < i then k else k + 1] == x;
    }
  }

  lemma {:induction false} WithoutIndex(m: seq<Message>, i: nat)
    requires DistinctTopics(m) && i < |m|
    ensures DistinctTopics(m[..i] + m[i + 1..]) && |m[..i] + m[i + 1..]| == |m| - 1
  {
    var r := m[..i] + m[i + 1..];
    forall a, b | 0 <= a < b < |r| ensures r[a].topic != r[b].topic {
      assert r[a] == m[if a < i then a else a + 1] && r[b] == m[if b < i then b else b + 1];
    }
  }

  lemma {:induction false} DeleteEffect(m: seq<Message>, topic: string)
    requires DistinctTopics(m) && IndexOf(Topics(m), topic) < |m|
    ensures DistinctTopics(Delete(m, topic)) && |Delete(m, topic)| == |m| - 1
    ensures forall x :: x in Delete(m, topic) <==> x in m && x.topic != topic
  {
    var i := IndexOf(Topics(m), topic);
    WithoutIndex(m, i);
    forall x ensures x in Delete(m, topic) <==> x in m && x.topic != topic { DeleteAt(m, i, x); }
  }

  /** Trimming keeps the newest messages: exactly as many as allowed, and nothing it evicts is newer than
      anything it keeps. */
  lemma {:induction false} TrimKeepsNewest(m: seq<Message>, limit: int)
    requires DistinctTopics(m)
    ensures DistinctTopics(Trim(m, limit))
    ensures |Trim(m, limit)| == if |m| <= limit then |m| else if limit < 0 then 0 else limit
    ensures forall x :: x in Trim(m, limit) ==> x in m
    ensures forall e, k :: e in m && e !in Trim(m, limit) && k in Trim(m, limit) ==> e.receivedAt <= k.receivedAt
    decreases |m|
  {
    if |m| <= limit || m == [] {
    } else {
      OldestIsMember(m);
      OldestIsLeast(m);
      var o := Oldest(m);
      var rest := Delete(m, o.topic);
      DeleteEffect(m, o.topic);
      TrimKeepsNewest(rest, limit);
      forall e, k | e in m && e !in Trim(rest, limit) && k in Trim(rest, limit) ensures e.receivedAt <= k.receivedAt {
        assert k in rest;
        if e !in rest { assert e.topic == o.topic; SameTopicSameMessage(m, e, o); }
      }
    }
  }

  lemma SameTopicSameMessage(m: seq<Message>, a: Message, b: Message)
    requires DistinctTopics(m) && a in m && b in m && a.topic == b.topic
    ensures a == b
  {
    var i :| 0 <= i < |m| && m[i] == a;
    var j :| 0 <= j < |m| && m[j] == b;
    assert i == j || i < j || j < i;
  }

  // ---- Steps ----

  datatype Step =
    | Receive(message: Message)
    | Subscribe(filter: string)
    | Unsubscribe(filter: string)
    | ClearMessages
    | Connect
    | SetLimit(limit: Option<int>)

  function CountMatch(subscriptions: map<string, nat>, topic: string): map<string, nat> {
    map f | f in subscriptions :: if TopicMatches(f, topic) then subscriptions[f] + 1 else subscriptions[f]
  }

  function DoStep(s: Session, step: Step): Session {
    match step
    case Receive(m) =>
      Session(Trim(Put(s.messages, m), EffectiveLimit(s.trackedTopicsLimit)),
              CountMatch(s.subscriptions, m.topic), s.totalMessages + 1, s.trackedTopicsLimit)
    case Subscribe(f) => s.(subscriptions := s.subscriptions[f := 0])
    case Unsubscribe(f) => s.(subscriptions := s.subscriptions - {f})
    case ClearMessages =>
      s.(messages := [], totalMessages := 0, subscriptions := map f | f in s.subscriptions :: 0)
    case Connect => s.(messages := [], totalMessages := 0, subscriptions := map[])
    case SetLimit(limit) => s.(trackedTopicsLimit := limit, messages := Trim(s.messages, EffectiveLimit(limit)))
  }

  /** received: the messages since the last reset; since: for each subscription, how many of them came
      before it was made. The program keeps neither. */
  datatype State = State(session: Session, received: seq<Message>, since: map<string, nat>)

  function Next(s: State, step: Step): State {
    State(DoStep(s.session, step),
          match step
          case Receive(m) => s.received + [m]
          case ClearMessages => []
          case Connect => []
          case _ => s.received,
          match step
          case Subscribe(f) => s.since[f := |s.received|]
          case Unsubscribe(f) => s.since - {f}
          case ClearMessages => map f | f in s.since :: 0
          case Connect => map[]
          case _ => s.since)
  }

  const START: State := State(Session([], map[], 0, None), [], map[])

  function Run(steps: seq<Step>): State {
    if steps == [] then START else Next(Run(steps[..|steps| - 1]), steps[|steps| - 1])
  }

  // ---- What the session says about the received messages ----

  function Matching(received: seq<Message>, filter: string): nat {
    if received == [] then 0
    else
      Matching(received[..|received| - 1], filter)
      + if TopicMatches(filter, received[|received| - 1].topic) then 1 else 0
  }

  function LatestOn(received: seq<Message>, topic: string): Option<Message> {
    if received == [] then None
    else if received[|received| - 1].topic == topic then Some(received[|received| - 1])
    else LatestOn(received[..|received| - 1], topic)
  }

  ghost predicate Counted(s: State) {
    && s.session.totalMessages == |s.received|
    && s.session.subscriptions.Keys == s.since.Keys
    && (forall f :: f in s.since ==>
          s.since[f] <= |s.received| && s.session.subscriptions[f] == Matching(s.received[s.since[f]..], f))
  }

  ghost predicate Tracked(s: State) {
    && DistinctTopics(s.session.messages)
    && |s.session.messages| <= Limit(s.session)
    && (forall m :: m in s.session.messages ==> LatestOn(s.received, m.topic) == Some(m))
  }

  function Limit(s: Session): int {
    if EffectiveLimit(s.trackedTopicsLimit) < 0 then 0 else EffectiveLimit(s.trackedTopicsLimit)
  }

  lemma ReceiveCounted(s: State, m: Message)
    requires Counted(s)
    ensures Counted(Next(s, Receive(m)))
  {
    var next := Next(s, Receive(m));
    forall f | f in s.since
      ensures next.session.subscriptions[f] == Matching(next.received[next.since[f]..], f)
    {
      var part := next.received[s.since[f]..];
      assert part[..|part| - 1] == s.received[s.since[f]..];
    }
  }

  lemma StepCounted(s: State, step: Step)
    requires Counted(s)
    ensures Counted(Next(s, step))
  {
    match step
    case Receive(m) => ReceiveCounted(s, m);
    case Subscribe(f) => assert s.received[|s.received|..] == [];
    case _ =>
  }

  lemma PutEffect(m: seq<Message>, message: Message)
    requires DistinctTopics(m)
    ensures DistinctTopics(Put(m, message))
    ensures forall x :: x in Put(m, message) <==> x == message || (x in m && x.topic != message.topic)
  {
    var i := IndexOf(Topics(m), message.topic);
    var r := Put(m, message);
    assert r[i] == message;
    forall x | x in m && x.topic != message.topic ensures x in r {
      var k :| 0 <= k < |m| && m[k] == x;
      assert r[k] == x;
    }
    forall x | x in r && x != message ensures x in m && x.topic != message.topic {
      var k :| 0 <= k < |r| && r[k] == x;
      assert k != i && m[k] == x;
      assert k < i || i < k;
    }
  }

  lemma LatestAfter(received: seq<Message>, m: Message, topic: string)
    ensures LatestOn(received + [m], topic) == if m.topic == topic then Some(m) else LatestOn(received, topic)
  {
    assert (received + [m])[..|received|] == received;
  }

  lemma ReceiveTracked(s: State, m: Message)
    requires Tracked(s)
    ensures Tracked(Next(s, Receive(m)))
  {
    var put, limit := Put(s.session.messages, m), EffectiveLimit(s.session.trackedTopicsLimit);
    PutEffect(s.session.messages, m);
    TrimKeepsNewest(put, limit);
    forall x | x in Trim(put, limit) ensures LatestOn(s.received + [m], x.topic) == Some(x) {
      assert x in put;
      LatestAfter(s.received, m, x.topic);
    }
  }

  lemma StepTracked(s: State, step: Step)
    requires Tracked(s)
    ensures Tracked(Next(s, step))
  {
    match step
    case Receive(m) => ReceiveTracked(s, m);
    case SetLimit(limit) => TrimKeepsNewest(s.session.messages, EffectiveLimit(limit));
    case _ =>
  }

  /** In every run: the total and each matched count equal the messages received, and matching, since the
      last reset; each tracked topic holds its latest message; the limit is never exceeded. */
  lemma {:induction false} ExplorerRefinesHistory(steps: seq<Step>)
    ensures Counted(Run(steps)) && Tracked(Run(steps))
    ensures |Run(steps).session.messages| <= ABSOLUTE_MAX_TRACKED_TOPICS
  {
    if steps != [] {
      ExplorerRefinesHistory(steps[..|steps| - 1]);
      StepCounted(Run(steps[..|steps| - 1]), steps[|steps| - 1]);
      StepTracked(Run(steps[..|steps| - 1]), steps[|steps| - 1]);
    }
  }

  // ---- How many topics are tracked ----

  /** The limit that was set last. */
  function LimitSet(steps: seq<Step>): Option<int> {
    if steps == [] then None
    else match steps[|steps| - 1] { case SetLimit(limit) => limit case _ => LimitSet(steps[..|steps| - 1]) }
  }

  /** How many topics a limit leaves room for: 500 without one and at most. */
  function Room(limit: Option<int>): nat {
    if limit.None? then 500 else Max(0, Min(limit.value, 500))
  }

  /** The least room there has been since the last reset. */
  function LeastRoom(steps: seq<Step>): nat {
    if steps == [] then 500
    else
      var rest := steps[..|steps| - 1];
      match steps[|steps| - 1]
      case SetLimit(limit) => Min(LeastRoom(rest), Room(limit))
      case ClearMessages => Room(LimitSet(rest))
      case Connect => Room(LimitSet(rest))
      case _ => LeastRoom(rest)
  }

  function TopicsOf(m: seq<Message>): set<string> {
    set x | x in m :: x.topic
  }

  /** Every topic received since the last reset is tracked, or so many are. */
  ghost predicate Full(s: State, least: nat) {
    && TopicsOf(s.session.messages) <= TopicsOf(s.received)
    && (TopicsOf(s.session.messages) == TopicsOf(s.received) || |s.session.messages| >= least)
  }

  lemma {:induction false} LeastIsRoom(steps: seq<Step>)
    ensures Run(steps).session.trackedTopicsLimit == LimitSet(steps)
    ensures LeastRoom(steps) <= Room(LimitSet(steps)) == Limit(Run(steps).session)
  {
    if steps != [] { LeastIsRoom(steps[..|steps| - 1]); }
  }

  lemma PutTopics(m: seq<Message>, message: Message)
    requires DistinctTopics(m)
    ensures TopicsOf(Put(m, message)) == TopicsOf(m) + {message.topic} && |m| <= |Put(m, message)|
  {
    PutEffect(m, message);
    forall topic | topic in TopicsOf(m) ensures topic in TopicsOf(Put(m, message)) {
      var x :| x in m && x.topic == topic;
      assert topic == message.topic || x in Put(m, message);
    }
    assert message in Put(m, message);
  }

  lemma TrimTopics(m: seq<Message>, limit: int)
    requires DistinctTopics(m)
    ensures TopicsOf(Trim(m, limit)) <= TopicsOf(m)
    ensures |m| <= limit ==> Trim(m, limit) == m
    ensures |m| > limit ==> |Trim(m, limit)| == Max(0, limit)
  {
    TrimKeepsNewest(m, limit);
  }

  lemma ReceiveFull(s: State, m: Message, least: nat)
    requires Tracked(s) && Full(s, least) && least <= Limit(s.session)
    ensures Full(Next(s, Receive(m)), least)
  {
    PutTopics(s.session.messages, m);
    PutEffect(s.session.messages, m);
    TrimTopics(Put(s.session.messages, m), EffectiveLimit(s.session.trackedTopicsLimit));
    assert TopicsOf(s.received + [m]) == TopicsOf(s.received) + {m.topic};
  }

  lemma {:induction false} StaysFull(steps: seq<Step>)
    ensures Full(Run(steps), LeastRoom(steps))
  {
    if steps != [] {
      var rest, step := steps[..|steps| - 1], steps[|steps| - 1];
      StaysFull(rest);
      ExplorerRefinesHistory(rest);
      LeastIsRoom(rest);
      match step
      case Receive(m) => ReceiveFull(Run(rest), m, LeastRoom(rest));
      case SetLimit(limit) => TrimTopics(Run(rest).session.messages, EffectiveLimit(limit));
      case _ =>
    }
  }

  lemma {:induction false} CountTopics(m: seq<Message>)
    requires DistinctTopics(m)
    ensures |TopicsOf(m)| == |m|
  {
    if m != [] {
      var rest, last := m[..|m| - 1], m[|m| - 1];
      CountTopics(rest);
      assert m == rest + [last];
      assert TopicsOf(m) == TopicsOf(rest) + {last.topic};
      assert last.topic !in TopicsOf(rest);
    }
  }

  lemma SubsetSize<T>(a: set<T>, b: set<T>)
    requires a <= b
    ensures |a| <= |b| && (|a| == |b| ==> a == b)
  {
    assert b == a + (b - a) && |b| == |a| + |b - a|;
  }

  /** In every run, while the room has not been less since the last reset than it is now, as many topics are tracked as
      were received since then or as there is room for; where they all find room, all of them are tracked. */
  lemma {:induction false} TracksExactly(steps: seq<Step>)
    ensures var s := Run(steps);
      var topics, tracked := TopicsOf(s.received), TopicsOf(s.session.messages);
      && |tracked| == |s.session.messages|
      && Min(|topics|, LeastRoom(steps)) <= |tracked| <= Min(|topics|, Room(LimitSet(steps)))
      && (LeastRoom(steps) == Room(LimitSet(steps)) ==> |tracked| == Min(|topics|, Room(LimitSet(steps))))
      && (|topics| <= LeastRoom(steps) ==> tracked == topics)
  {
    var s := Run(steps);
    ExplorerRefinesHistory(steps);
    StaysFull(steps);
    LeastIsRoom(steps);
    CountTopics(s.session.messages);
    SubsetSize(TopicsOf(s.session.messages), TopicsOf(s.received));
  }

  lemma {:induction false} NeverLimited(steps: seq<Step>)
    requires forall step :: step in steps ==> !step.SetLimit?
    ensures LeastRoom(steps) == 500 && LimitSet(steps) == None
  {
    if steps != [] { NeverLimited(steps[..|steps| - 1]); }
  }

  /** As long as no limit is set, the first 500 topics received since the last reset are all tracked. */
  lemma WithoutLimitTracksAll(steps: seq<Step>)
    requires forall step :: step in steps ==> !step.SetLimit?
    ensures var s := Run(steps);
      |TopicsOf(s.received)| <= 500 ==> TopicsOf(s.session.messages) == TopicsOf(s.received)
  {
    NeverLimited(steps);
    TracksExactly(steps);
  }

  // ---- With a clock that never goes back ----

  function Times(steps: seq<Step>): seq<int> {
    if steps == [] then []
    else
      Times(steps[..|steps| - 1])
      + match steps[|steps| - 1] { case Receive(m) => [m.receivedAt] case _ => [] }
  }

  ghost predicate Ascending(times: seq<int>) {
    forall i, j :: 0 <= i < j < |times| ==> times[i] <= times[j]
  }

  /** The tracked topics are the most recently updated ones: whatever is not tracked is no newer than
      whatever is. */
  ghost predicate MostRecent(s: State) {
    forall topic, k :: k in s.session.messages && LatestOn(s.received, topic).Some?
                       && LatestOn(s.received, topic).value !in s.session.messages ==>
      LatestOn(s.received, topic).value.receivedAt <= k.receivedAt
  }

  ghost predicate NoneAfter(received: seq<Message>, time: int) {
    forall x :: x in received ==> x.receivedAt <= time
  }

  lemma {:induction false} LatestIsReceived(received: seq<Message>, topic: string)
    ensures LatestOn(received, topic).Some? ==>
              LatestOn(received, topic).value in received && LatestOn(received, topic).value.topic == topic
  {
    if received != [] { LatestIsReceived(received[..|received| - 1], topic); }
  }

  lemma TrimMostRecent(s: State, messages: seq<Message>, limit: int)
    requires DistinctTopics(messages) && MostRecent(s.(session := s.session.(messages := messages)))
    ensures MostRecent(s.(session := s.session.(messages := Trim(messages, limit))))
  {
    TrimKeepsNewest(messages, limit);
  }

  lemma PutMostRecent(s: State, m: Message)
    requires Tracked(s) && MostRecent(s) && NoneAfter(s.received, m.receivedAt)
    ensures MostRecent(State(s.session.(messages := Put(s.session.messages, m)), s.received + [m], s.since))
  {
    var all, put := s.received + [m], Put(s.session.messages, m);
    PutEffect(s.session.messages, m);
    assert all[..|s.received|] == s.received;
    forall topic, k | k in put && LatestOn(all, topic).Some? && LatestOn(all, topic).value !in put
      ensures LatestOn(all, topic).value.receivedAt <= k.receivedAt
    {
      LatestIsReceived(s.received, topic);
    }
  }

  lemma StepMostRecent(s: State, step: Step)
    requires Tracked(s) && MostRecent(s)
    requires step.Receive? ==> NoneAfter(s.received, step.message.receivedAt)
    ensures MostRecent(Next(s, step))
  {
    match step
    case Receive(m) =>
      PutMostRecent(s, m);
      PutEffect(s.session.messages, m);
      var mid := State(s.session.(messages := Put(s.session.messages, m)), s.received + [m], s.since);
      TrimMostRecent(mid, mid.session.messages, EffectiveLimit(s.session.trackedTopicsLimit));
    case SetLimit(limit) => TrimMostRecent(s, s.session.messages, EffectiveLimit(limit));
    case _ =>
  }

  lemma {:induction false} ReceivedTimes(steps: seq<Step>)
    ensures forall x :: x in Run(steps).received ==> x.receivedAt in Times(steps)
  {
    if steps != [] { ReceivedTimes(steps[..|steps| - 1]); }
  }

  lemma BeforeReceive(steps: seq<Step>, m: Message)
    requires Ascending(Times(steps + [Receive(m)]))
    ensures Ascending(Times(steps)) && NoneAfter(Run(steps).received, m.receivedAt)
  {
    var all, times := steps + [Receive(m)], Times(steps);
    assert all[..|steps|] == steps;
    assert Times(all) == times + [m.receivedAt];
    assert forall i :: 0 <= i < |times| ==> Times(all)[i] == times[i];
    ReceivedTimes(steps);
    forall x | x in Run(steps).received ensures x.receivedAt <= m.receivedAt {
      var i :| 0 <= i < |times| && times[i] == x.receivedAt;
      assert Times(all)[i] <= Times(all)[|times|];
    }
  }

  lemma BeforeOther(steps: seq<Step>, step: Step)
    requires Ascending(Times(steps + [step])) && !step.Receive?
    ensures Ascending(Times(steps))
  {
    assert (steps + [step])[..|steps|] == steps;
    assert Times(steps + [step]) == Times(steps) + [] == Times(steps);
  }

  /** With a clock that never goes back the explorer always shows the most recently updated topics, whatever
      resets, subscriptions and limit changes came between. */
  lemma {:induction false} ExplorerShowsMostRecent(steps: seq<Step>)
    requires Ascending(Times(steps))
    ensures MostRecent(Run(steps))
  {
    if steps != [] {
      var rest, step := steps[..|steps| - 1], steps[|steps| - 1];
      assert steps == rest + [step];
      if step.Receive? { BeforeReceive(rest, step.message); } else { BeforeOther(rest, step); }
      ExplorerShowsMostRecent(rest);
      ExplorerRefinesHistory(rest);
      StepMostRecent(Run(rest), step);
    }
  }

  lemma TrimOneTooMany(m: seq<Message>, limit: int)
    requires limit >= 1 && |m| == limit + 1 && DistinctTopics(m)
    requires NoneAfter(m, m[|m| - 1].receivedAt)
    ensures m[|m| - 1] in Trim(m, limit)
  {
    var last, oldest := m[|m| - 1], Oldest(m);
    OldestIsNotLast(m);
    OldestIsMember(m);
    DeleteEffect(m, oldest.topic);
    if oldest.topic == last.topic { SameTopicSameMessage(m, oldest, last); }
    assert last in Delete(m, oldest.topic);
    assert Trim(m, limit) == Delete(m, oldest.topic);
  }

  lemma TrackedBefore(s: State, time: int)
    requires Tracked(s) && NoneAfter(s.received, time)
    ensures NoneAfter(s.session.messages, time)
  {
    forall x | x in s.session.messages ensures x.receivedAt <= time { LatestIsReceived(s.received, x.topic); }
  }

  lemma PutThenTrimKeeps(messages: seq<Message>, m: Message, limit: int)
    requires DistinctTopics(messages) && NoneAfter(messages, m.receivedAt) && limit >= 1 && |messages| <= limit
    ensures m in Trim(Put(messages, m), limit)
  {
    PutEffect(messages, m);
    if |Put(messages, m)| > limit {
      assert Put(messages, m) == messages + [m];
      TrimOneTooMany(messages + [m], limit);
    }
  }

  /** ... and never evicts the message it has just received, unless it may keep none. */
  lemma JustReceivedStays(steps: seq<Step>, m: Message)
    requires Ascending(Times(steps + [Receive(m)]))
    requires EffectiveLimit(Run(steps).session.trackedTopicsLimit) >= 1
    ensures m in Run(steps + [Receive(m)]).session.messages
  {
    assert (steps + [Receive(m)])[..|steps|] == steps;
    BeforeReceive(steps, m);
    ExplorerRefinesHistory(steps);
    var s := Run(steps);
    TrackedBefore(s, m.receivedAt);
    PutThenTrimKeeps(s.session.messages, m, EffectiveLimit(s.session.trackedTopicsLimit));
  }

  // ---- The session object ----

  class SessionRecord {
    var messages: seq<Message>
    var subscriptions: map<string, nat>
    var totalMessages: nat
    var trackedTopicsLimit: Option<int>

    ghost function Abs(): Session
      reads this
    {
      Session(messages, subscriptions, totalMessages, trackedTopicsLimit)
    }

    constructor ()
      ensures Abs() == START.session
    {
      messages, subscriptions, totalMessages, trackedTopicsLimit := [], map[], 0, None;
    }

    method TrimTrackedMessages()
      modifies this`messages
      ensures messages == Trim(old(messages), EffectiveLimit(trackedTopicsLimit))
    {
      var effectiveLimit := EffectiveLimit(trackedTopicsLimit);
      while |messages| > effectiveLimit
        invariant Trim(messages, effectiveLimit) == Trim(old(messages), effectiveLimit)
        decreases |messages|
      {
        if messages == [] { return; }
        OldestIsMember(messages);
        var oldest := Oldest(messages);
        messages := Delete(messages, oldest.topic);
      }
    }

    /** The handler's loop over the subscriptions. */
    method CountForFilters(topic: string)
      modifies this`subscriptions
      ensures subscriptions == CountMatch(old(subscriptions), topic)
    {
      var remaining := subscriptions.Keys;
      while remaining != {}
        invariant remaining <= subscriptions.Keys == old(subscriptions).Keys
        invariant forall f :: f in remaining ==> subscriptions[f] == old(subscriptions)[f]
        invariant forall f :: f in subscriptions && f !in remaining ==>
          subscriptions[f] == CountMatch(old(subscriptions), topic)[f]
        decreases |remaining|
      {
        var filter :| filter in remaining;
        remaining := remaining - {filter};
        var matches := TopicMatchesFilter(filter, topic);
        if matches { subscriptions := subscriptions[filter := subscriptions[filter] + 1]; }
      }
    }

    /** The client's message handler. */
    method OnMessage(m: Message)
      modifies this
      ensures Abs() == DoStep(old(Abs()), Receive(m))
    {
      totalMessages := totalMessages + 1;
      messages := Put(messages, m);
      CountForFilters(m.topic);
      TrimTrackedMessages();
    }

    method AddSubscription(filter: string)
      modifies this
      ensures Abs() == DoStep(old(Abs()), Subscribe(filter))
    {
      subscriptions := subscriptions[filter := 0];
    }

    method RemoveSubscription(filter: string)
      modifies this
      ensures Abs() == DoStep(old(Abs()), Unsubscribe(filter))
    {
      subscriptions := subscriptions - {filter};
    }

    method Clear()
      modifies this
      ensures Abs() == DoStep(old(Abs()), ClearMessages)
    {
      messages, totalMessages := [], 0;
      subscriptions := map f | f in subscriptions :: 0;
    }

    method ResetForConnect()
      modifies this
      ensures Abs() == DoStep(old(Abs()), Connect)
    {
      messages, totalMessages, subscriptions := [], 0, map[];
    }

    method SetTrackedTopicsLimit(limit: Option<int>)
      modifies this
      ensures Abs() == DoStep(old(Abs()), SetLimit(limit))
    {
      trackedTopicsLimit := limit;
      TrimTrackedMessages();
    }
  }
}

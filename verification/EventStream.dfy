/** The server-sent event stream between the events route, which prints frames, and the MCP server's
    SseParser, which reassembles them from chunks cut anywhere. Text is a sequence of characters. */
module EventStream {
  import opened Basics

  datatype Event = Event(event: string, data: string)

  // ---- Splitting the text into frames ----

  /** The length of a match of \r?\n\r?\n at position i, or 0. */
  function SeparatorLength(t: string, i: nat): nat {
    var j := if i < |t| && t[i] == '\r' then i + 1 else i;
    if j < |t| && t[j] == '\n' then
      var k := if j + 1 < |t| && t[j + 1] == '\r' then j + 2 else j + 1;
      if k < |t| && t[k] == '\n' then k + 1 - i else 0
    else 0
  }

  /** The position of the first match at or after `from`; |t| when there is none. */
  function FindSeparator(t: string, from: nat): (i: nat)
    requires from <= |t|
    ensures from <= i <= |t|
    ensures forall j :: from <= j < i ==> SeparatorLength(t, j) == 0
    ensures i < |t| ==> SeparatorLength(t, i) > 0 && i + SeparatorLength(t, i) <= |t|
    decreases |t| - from
  {
    if from == |t| || SeparatorLength(t, from) > 0 then from else FindSeparator(t, from + 1)
  }

  /** replace(/\r\n/g, "\n") */
  function ReplaceCrLf(t: string): string {
    if t == "" then ""
    else if t[0] == '\r' && 1 < |t| && t[1] == '\n' then "\n" + ReplaceCrLf(t[2..])
    else [t[0]] + ReplaceCrLf(t[1..])
  }

  /** replace(/\r/g, "\n") */
  function ReplaceCr(t: string): string {
    if t == "" then "" else [if t[0] == '\r' then '\n' else t[0]] + ReplaceCr(t[1..])
  }

  // ---- Parsing one frame ----

  function Lines(t: string): seq<string> {
    var i := IndexOf(t, '\n');
    if i == |t| then [t] else [t[..i]] + Lines(t[i + 1..])
  }

  const EVENT: string := "event"
  const DATA: string := "data"
  const DEFAULT_EVENT: string := "message"

  function Field(line: string): string {
    line[..IndexOf(line, ':')]
  }

  /** The text after the colon without one leading space; empty when there is no colon. */
  function Value(line: string): string {
    var i := IndexOf(line, ':');
    if i == |line| then ""
    else if i + 1 < |line| && line[i + 1] == ' ' then line[i + 2..]
    else line[i + 1..]
  }

  datatype FrameState = FrameState(event: string, data: seq<string>)

  function ReadLine(s: FrameState, line: string): FrameState {
    if line == "" || line[0] == ':' then s
    else if Field(line) == EVENT then s.(event := Value(line))
    else if Field(line) == DATA then s.(data := s.data + [Value(line)])
    else s
  }

  function ReadLines(s: FrameState, lines: seq<string>): FrameState
    decreases |lines|
  {
    if lines == [] then s else ReadLines(ReadLine(s, lines[0]), lines[1..])
  }

  function Join(parts: seq<string>): string {
    if parts == [] then "" else if |parts| == 1 then parts[0] else parts[0] + "\n" + Join(parts[1..])
  }

  function ParseFrame(frame: string): seq<Event> {
    var s := ReadLines(FrameState(DEFAULT_EVENT, []), Lines(frame));
    if s.data == [] then [] else [Event(s.event, Join(s.data))]
  }

  // ---- Parsing a text ----

  /** The complete frames of a text and the incomplete rest. */
  datatype Cut = Cut(frames: seq<string>, pending: string)

  function FirstFrame(t: string): string {
    t[..FindSeparator(t, 0)]
  }

  function AfterFrame(t: string): (r: string)
    requires FindSeparator(t, 0) < |t|
    ensures |r| < |t|
  {
    t[FindSeparator(t, 0) + SeparatorLength(t, FindSeparator(t, 0))..]
  }

  function CutFrames(t: string): Cut
    decreases |t|
  {
    if FindSeparator(t, 0) == |t| then Cut([], t)
    else Cut([FirstFrame(t)] + CutFrames(AfterFrame(t)).frames, CutFrames(AfterFrame(t)).pending)
  }

  /** A frame is parsed with its line ends normalised. */
  function ParseRaw(frame: string): seq<Event> {
    ParseFrame(ReplaceCr(ReplaceCrLf(frame)))
  }

  function FlatMap<T, U>(f: T -> seq<U>, s: seq<T>): seq<U> {
    if s == [] then [] else FlatMap(f, s[..|s| - 1]) + f(s[|s| - 1])
  }

  function EventsOf(frames: seq<string>): seq<Event> {
    FlatMap(ParseRaw, frames)
  }

  lemma {:induction false} FlatMapAppend<T, U>(f: T -> seq<U>, a: seq<T>, b: seq<T>)
    ensures FlatMap(f, a + b) == FlatMap(f, a) + FlatMap(f, b)
  {
    if b == [] {
      assert a + b == a;
    } else {
      assert (a + b)[..|a + b| - 1] == a + b[..|b| - 1];
      FlatMapAppend(f, a, b[..|b| - 1]);
    }
  }

  lemma FlatMapSnoc<T, U>(f: T -> seq<U>, s: seq<T>, x: T)
    ensures FlatMap(f, s + [x]) == FlatMap(f, s) + f(x)
  {
    assert (s + [x])[..|s|] == s;
  }

  lemma FirstCut(t: string)
    requires FindSeparator(t, 0) < |t|
    ensures CutFrames(t) == Cut([FirstFrame(t)] + CutFrames(AfterFrame(t)).frames, CutFrames(AfterFrame(t)).pending)
  {
  }

  /** One more element done of a list that is mapped and concatenated from the left. */
  lemma OneMore<T, U>(f: T -> seq<U>, start: seq<U>, all: seq<T>, done: seq<T>, first: T, rest: seq<T>, emitted: seq<U>)
    requires done + ([first] + rest) == all && emitted == start + FlatMap(f, done)
    ensures done + [first] + rest == all && emitted + f(first) == start + FlatMap(f, done + [first])
  {
    FlatMapSnoc(f, done, first);
    assert done + [first] + rest == done + ([first] + rest);
  }

  datatype Parsed = Parsed(events: seq<Event>, pending: string)

  function Parse(t: string): Parsed {
    Parsed(EventsOf(CutFrames(t).frames), CutFrames(t).pending)
  }

  /** Where push stands: some frames of the text emitted, the others still in `pending`. */
  ghost predicate Progress(text: string, start: seq<Event>, done: seq<string>, pending: string, emitted: seq<Event>) {
    && done + CutFrames(pending).frames == CutFrames(text).frames
    && CutFrames(pending).pending == CutFrames(text).pending
    && emitted == start + EventsOf(done)
  }

  lemma NothingTaken(text: string, start: seq<Event>)
    ensures Progress(text, start, [], text, start)
  {
    assert [] + CutFrames(text).frames == CutFrames(text).frames;
    assert start + EventsOf([]) == start;
  }

  lemma TakeFrame(text: string, start: seq<Event>, done: seq<string>, pending: string, emitted: seq<Event>)
    requires Progress(text, start, done, pending, emitted) && FindSeparator(pending, 0) < |pending|
    ensures Progress(text, start, done + [FirstFrame(pending)], AfterFrame(pending),
                     emitted + ParseRaw(FirstFrame(pending)))
  {
    FirstCut(pending);
    OneMore(ParseRaw, start, CutFrames(text).frames, done, FirstFrame(pending), CutFrames(AfterFrame(pending)).frames,
            emitted);
  }

  lemma {:induction false} NoFrameLeft(text: string, start: seq<Event>, done: seq<string>, pending: string,
                                       emitted: seq<Event>)
    requires Progress(text, start, done, pending, emitted) && FindSeparator(pending, 0) == |pending|
    ensures pending == Parse(text).pending && emitted == start + Parse(text).events
  {
    assert CutFrames(pending).frames == [];
    assert done + [] == done;
  }

  class SseParser {
    var pending: string
    /** What onEvent has been called with. */
    var emitted: seq<Event>

    constructor ()
      ensures pending == "" && emitted == []
    {
      pending, emitted := "", [];
    }

    method Push(chunk: string)
      modifies this
      ensures pending == Parse(old(pending) + chunk).pending
      ensures emitted == old(emitted) + Parse(old(pending) + chunk).events
    {
      pending := pending + chunk;
      ghost var text, start := pending, emitted;
      ghost var done: seq<string> := [];
      NothingTaken(text, start);
      var i := FindSeparator(pending, 0);
      while i < |pending|
        invariant i == FindSeparator(pending, 0)
        invariant Progress(text, start, done, pending, emitted)
        decreases |pending|
      {
        TakeFrame(text, start, done, pending, emitted);
        ghost var was := pending;
        var frame := pending[..i];
        pending := pending[i + SeparatorLength(pending, i)..];
        assert frame == FirstFrame(was) && pending == AfterFrame(was);
        done := done + [frame];
        EmitFrame(frame);
        i := FindSeparator(pending, 0);
      }
      NoFrameLeft(text, start, done, pending, emitted);
    }

    method EmitFrame(frame: string)
      modifies this`emitted
      ensures emitted == old(emitted) + ParseRaw(frame)
    {
      ParseFrameInto(ReplaceCr(ReplaceCrLf(frame)));
    }

    method ParseFrameInto(frame: string)
      modifies this`emitted
      ensures emitted == old(emitted) + ParseFrame(frame)
    {
      var lines := Lines(frame);
      var event := DEFAULT_EVENT;
      var data: seq<string> := [];
      for n := 0 to |lines|
        invariant ReadLines(FrameState(DEFAULT_EVENT, []), lines) == ReadLines(FrameState(event, data), lines[n..])
      {
        var line := lines[n];
        assert lines[n..][0] == line && lines[n..][1..] == lines[n + 1..];
        if line == "" || line[0] == ':' { continue; }
        var separator := IndexOf(line, ':');
        var field := line[..separator];
        var value := "";
        if separator < |line| {
          value := line[separator + 1..];
          if value != "" && value[0] == ' ' { value := value[1..]; }
        }
        assert value == Value(line);
        if field == EVENT { event := value; }
        if field == DATA { data := data + [value]; }
      }
      if data != [] { emitted := emitted + [Event(event, Join(data))]; }
    }
  }

  // ---- Chunk invariance ----

  /** Text that arrives later never changes where the first complete frame ends. */
  lemma SeparatorStable(t: string, u: string)
    requires FindSeparator(t, 0) < |t|
    ensures FindSeparator(t + u, 0) == FindSeparator(t, 0)
    ensures SeparatorLength(t + u, FindSeparator(t, 0)) == SeparatorLength(t, FindSeparator(t, 0))
  {
    var i, all := FindSeparator(t, 0), t + u;
    assert forall p :: 0 <= p < |t| ==> all[p] == t[p];
    assert SeparatorLength(all, i) == SeparatorLength(t, i);
    forall p | 0 <= p < i ensures SeparatorLength(all, p) == 0 {
      NoEarlierMatch(t, u, p, i);
    }
  }

  lemma NoEarlierMatch(t: string, u: string, p: nat, i: nat)
    requires p < i < |t| && SeparatorLength(t, p) == 0 && SeparatorLength(t, i) > 0
    ensures SeparatorLength(t + u, p) == 0
  {
    var all := t + u;
    assert forall q :: 0 <= q < |t| ==> all[q] == t[q];
    // the first newline of a match at p would be at j, the second at k
    var j := if t[p] == '\r' then p + 1 else p;
    assert j <= i;
    if all[j] == '\n' {
      var k := if j + 1 < |all| && all[j + 1] == '\r' then j + 2 else j + 1;
      assert k < |t| ==> all[k] == t[k];
    }
  }

  lemma FirstOfAppend(t: string, u: string)
    requires FindSeparator(t, 0) < |t|
    ensures FindSeparator(t + u, 0) < |t + u|
    ensures FirstFrame(t + u) == FirstFrame(t) && AfterFrame(t + u) == AfterFrame(t) + u
  {
    SeparatorStable(t, u);
    SlicesOfAppend(t, u, FindSeparator(t, 0), SeparatorLength(t, FindSeparator(t, 0)));
  }

  lemma SlicesOfAppend(t: string, u: string, i: nat, n: nat)
    requires i + n <= |t|
    ensures (t + u)[..i] == t[..i] && (t + u)[i + n..] == t[i + n..] + u
  {
  }

  lemma {:induction false} CutAppend(t: string, u: string)
    ensures CutFrames(t + u).pending == CutFrames(CutFrames(t).pending + u).pending
    ensures CutFrames(t + u).frames == CutFrames(t).frames + CutFrames(CutFrames(t).pending + u).frames
    decreases |t|
  {
    if FindSeparator(t, 0) < |t| {
      FirstOfAppend(t, u);
      CutAppend(AfterFrame(t), u);
      ConsFrames(t, t + u, CutFrames(CutFrames(t).pending + u).frames);
    }
  }

  lemma ConsFrames(t: string, all: string, later: seq<string>)
    requires FindSeparator(t, 0) < |t| && FindSeparator(all, 0) < |all| && FirstFrame(all) == FirstFrame(t)
    requires CutFrames(AfterFrame(all)).frames == CutFrames(AfterFrame(t)).frames + later
    ensures CutFrames(all).frames == CutFrames(t).frames + later
  {
    FirstCut(t);
    FirstCut(all);
    ConsAppend(FirstFrame(t), CutFrames(AfterFrame(t)).frames, later);
  }

  lemma ConsAppend<T>(x: T, a: seq<T>, b: seq<T>)
    ensures [x] + (a + b) == [x] + a + b
  {
  }

  /** Parsing a text in two pieces, the second appended to what the first left over. */
  lemma ParseAppend(t: string, u: string)
    ensures Parse(t + u).pending == Parse(Parse(t).pending + u).pending
    ensures Parse(t + u).events == Parse(t).events + Parse(Parse(t).pending + u).events
  {
    CutAppend(t, u);
    FlatMapAppend(ParseRaw, CutFrames(t).frames, CutFrames(CutFrames(t).pending + u).frames);
  }

  function Concat(chunks: seq<string>): string {
    if chunks == [] then "" else Concat(chunks[..|chunks| - 1]) + chunks[|chunks| - 1]
  }

  /** Pushing the chunks one after the other into a new parser. */
  function PushAll(chunks: seq<string>): Parsed {
    if chunks == [] then Parsed([], "")
    else
      var before := PushAll(chunks[..|chunks| - 1]);
      var now := Parse(before.pending + chunks[|chunks| - 1]);
      Parsed(before.events + now.events, now.pending)
  }

  /** However the text is cut, the parser emits the same events and keeps the same rest as for one push. */
  lemma {:induction false} ChunkInvariance(chunks: seq<string>)
    ensures PushAll(chunks) == Parse(Concat(chunks))
  {
    if chunks != [] {
      var before := chunks[..|chunks| - 1];
      ChunkInvariance(before);
      ParseAppend(Concat(before), chunks[|chunks| - 1]);
    }
  }

  // ---- The printer ----

  /** What the route sends: the explorer state, one message, or a heartbeat; json is JSON.stringify's text. */
  datatype Frame = State(json: string) | Message(json: string) | Ping

  const BLANK: string := "\n\n"
  const PING: string := ": ping"
  const MESSAGE_EVENT: string := "mqtt-message"
  const COLON: string := ": "
  const DATA_PREFIX: string := DATA + COLON
  const MESSAGE_LINE: string := EVENT + COLON + MESSAGE_EVENT

  function Body(f: Frame): string {
    match f
    case State(json) => DATA_PREFIX + json
    case Message(json) => MESSAGE_LINE + "\n" + DATA_PREFIX + json
    case Ping => PING
  }

  function Print(f: Frame): string {
    Body(f) + BLANK
  }

  function PrintAll(fs: seq<Frame>): string {
    if fs == [] then "" else Print(fs[0]) + PrintAll(fs[1..])
  }

  function Expected(f: Frame): seq<Event> {
    match f
    case State(json) => [Event(DEFAULT_EVENT, json)]
    case Message(json) => [Event(MESSAGE_EVENT, json)]
    case Ping => []
  }

  function ExpectedAll(fs: seq<Frame>): seq<Event> {
    if fs == [] then [] else Expected(fs[0]) + ExpectedAll(fs[1..])
  }

  predicate NewlineFree(t: string) {
    '\n' !in t && '\r' !in t
  }

  /** JSON.stringify escapes line breaks, so its text never contains one. */
  predicate Printable(f: Frame) {
    f.Ping? || NewlineFree(f.json)
  }

  // ---- Round trip ----

  lemma FindIs(t: string, i: nat)
    requires i < |t| && SeparatorLength(t, i) > 0
    requires forall p :: 0 <= p < i ==> SeparatorLength(t, p) == 0
    ensures FindSeparator(t, 0) == i
  {
  }

  /** No carriage return, no blank line and no line break at the end. */
  predicate OneFrame(b: string) {
    forall p :: 0 <= p < |b| ==> b[p] != '\r' && (b[p] == '\n' ==> p + 1 < |b| && b[p + 1] != '\n')
  }

  lemma BodyIsOneFrame(f: Frame)
    requires Printable(f)
    ensures OneFrame(Body(f))
  {
    match f
    case State(json) =>
      DataIsOneFrame(json);
    case Message(json) =>
      MessageLineNames();
      DataIsOneFrame(json);
      TwoLinesOneFrame(MESSAGE_LINE, DATA_PREFIX + json);
      assert Body(f) == MESSAGE_LINE + "\n" + (DATA_PREFIX + json);
    case Ping =>
  }

  lemma DataIsOneFrame(json: string)
    requires NewlineFree(json)
    ensures OneFrame(DATA_PREFIX + json) && NewlineFree(DATA_PREFIX + json)
  {
    var line := DATA_PREFIX + json;
    forall p | 0 <= p < |line| ensures line[p] != '\r' && line[p] != '\n' {
      if p >= |DATA_PREFIX| { assert line[p] == json[p - |DATA_PREFIX|] && line[p] in json; }
    }
  }

  lemma TwoLinesOneFrame(a: string, b: string)
    requires NewlineFree(a) && NewlineFree(b) && b != ""
    ensures OneFrame(a + "\n" + b)
  {
    var t := a + "\n" + b;
    assert forall p :: 0 <= p < |a| ==> t[p] == a[p] && a[p] in a;
    assert t[|a|] == '\n';
    assert forall p :: 0 <= p < |b| ==> t[|a| + 1 + p] == b[p] && b[p] in b;
    forall p | 0 <= p < |t| ensures t[p] != '\r' && (t[p] == '\n' ==> p + 1 < |t| && t[p + 1] != '\n') {
      if p > |a| { assert t[p] == b[p - |a| - 1]; }
      if p == |a| { assert t[|a| + 1 + 0] == b[0]; }
    }
  }

  lemma FrameEndsAtBlank(b: string, rest: string)
    requires OneFrame(b)
    ensures FindSeparator(b + BLANK + rest, 0) == |b|
    ensures FirstFrame(b + BLANK + rest) == b
    ensures FindSeparator(b + BLANK + rest, 0) < |b + BLANK + rest| && AfterFrame(b + BLANK + rest) == rest
  {
    var t := b + BLANK + rest;
    assert t[|b|] == '\n' && t[|b| + 1] == '\n';
    assert forall p :: 0 <= p < |b| ==> t[p] == b[p];
    FindIs(t, |b|);
  }

  lemma {:induction false} NothingToReplace(t: string)
    requires '\r' !in t
    ensures ReplaceCrLf(t) == t && ReplaceCr(t) == t
  {
    if t != "" {
      assert t[0] in t;
      NothingToReplace(t[1..]);
      assert t == [t[0]] + t[1..];
    }
  }

  lemma {:induction false} IndexOfPrefix(a: string, c: char, b: string)
    requires c !in a
    ensures IndexOf(a + [c] + b, c) == |a|
    ensures IndexOf(a, c) == |a|
  {
    var t := a + [c] + b;
    assert t[|a|] == c;
    assert forall j :: 0 <= j < |a| ==> t[j] == a[j];
    assert forall j :: 0 <= j < |a| ==> a[j] in a;
  }

  lemma LinesOfOne(t: string)
    requires '\n' !in t
    ensures Lines(t) == [t]
  {
    IndexOfPrefix(t, '\n', "");
  }

  lemma LinesCons(a: string, t: string)
    requires '\n' !in a
    ensures Lines(a + "\n" + t) == [a] + Lines(t)
  {
    IndexOfPrefix(a, '\n', t);
    var all := a + "\n" + t;
    assert all == a + ['\n'] + t;
    assert all[..|a|] == a && all[|a| + 1..] == t;
  }

  lemma ReadDataLine(s: FrameState, json: string)
    ensures ReadLine(s, DATA_PREFIX + json) == s.(data := s.data + [json])
  {
    var line := DATA_PREFIX + json;
    IndexOfPrefix(DATA, ':', " " + json);
    assert line == DATA + [':'] + (" " + json);
    assert Field(line) == DATA && Value(line) == json;
    assert DATA[0] != EVENT[0];
  }

  /** A line that names an event: the only thing the proofs need of the printed event line. */
  predicate NamesEvent(line: string, name: string) {
    NewlineFree(line) && line != "" && line[0] != ':' && Field(line) == EVENT && Value(line) == name
  }

  lemma FieldAndValue(name: string, value: string)
    requires ':' !in name
    ensures Field(name + COLON + value) == name && Value(name + COLON + value) == value
  {
    var line := name + COLON + value;
    IndexOfPrefix(name, ':', " " + value);
    assert line == name + [':'] + (" " + value);
    assert line[|name| + 2..] == value;
  }

  lemma MessageLineNames()
    ensures NamesEvent(MESSAGE_LINE, MESSAGE_EVENT)
  {
    FieldAndValue(EVENT, MESSAGE_EVENT);
  }

  lemma ReadOne(s: FrameState, line: string)
    ensures ReadLines(s, [line]) == ReadLine(s, line)
  {
    assert [line][1..] == [];
    assert ReadLines(ReadLine(s, line), []) == ReadLine(s, line);
  }

  /** What a frame without carriage returns emits, given what its lines add up to. */
  lemma {:induction false} RawEvents(b: string, lines: seq<string>, s: FrameState)
    requires '\r' !in b && Lines(b) == lines && ReadLines(FrameState(DEFAULT_EVENT, []), lines) == s
    ensures ParseRaw(b) == if s.data == [] then [] else [Event(s.event, Join(s.data))]
  {
    NothingToReplace(b);
  }

  lemma StateEvents(json: string)
    requires NewlineFree(json)
    ensures ParseRaw(DATA_PREFIX + json) == [Event(DEFAULT_EVENT, json)]
  {
    var start, line := FrameState(DEFAULT_EVENT, []), DATA_PREFIX + json;
    LinesOfOne(line);
    ReadOne(start, line);
    ReadDataLine(start, json);
    assert start.data + [json] == [json];
    RawEvents(line, [line], start.(data := [json]));
  }

  lemma ReadTwo(s: FrameState, a: string, b: string)
    ensures ReadLines(s, [a, b]) == ReadLine(ReadLine(s, a), b)
  {
    assert [a, b][1..] == [b];
    ReadOne(ReadLine(s, a), b);
  }

  lemma EventThenData(first: string, name: string, line: string, json: string)
    requires NamesEvent(first, name) && NewlineFree(line)
    requires ReadLine(FrameState(name, []), line) == FrameState(name, [json])
    ensures ParseRaw(first + "\n" + line) == [Event(name, json)]
  {
    LinesCons(first, line);
    LinesOfOne(line);
    assert [first] + [line] == [first, line];
    ReadTwo(FrameState(DEFAULT_EVENT, []), first, line);
    NoReturn(first, line);
    RawEvents(first + "\n" + line, [first, line], FrameState(name, [json]));
  }

  lemma NoReturn(a: string, b: string)
    requires NewlineFree(a) && NewlineFree(b)
    ensures '\r' !in a + "\n" + b
  {
  }

  lemma MessageEvents(json: string)
    requires NewlineFree(json)
    ensures ParseRaw(MESSAGE_LINE + "\n" + DATA_PREFIX + json) == [Event(MESSAGE_EVENT, json)]
  {
    MessageLineNames();
    DataIsOneFrame(json);
    ReadDataLine(FrameState(MESSAGE_EVENT, []), json);
    EventThenData(MESSAGE_LINE, MESSAGE_EVENT, DATA_PREFIX + json, json);
    Associate(MESSAGE_LINE, "\n", DATA_PREFIX, json);
  }

  lemma Associate(a: string, b: string, c: string, d: string)
    ensures a + b + c + d == a + b + (c + d)
  {
  }

  lemma PingEvents()
    ensures ParseRaw(PING) == []
  {
    LinesOfOne(PING);
    ReadOne(FrameState(DEFAULT_EVENT, []), PING);
    RawEvents(PING, [PING], FrameState(DEFAULT_EVENT, []));
  }

  lemma PrintedFrameEvents(f: Frame)
    requires Printable(f)
    ensures ParseRaw(Body(f)) == Expected(f)
  {
    match f
    case State(json) => StateEvents(json);
    case Message(json) => MessageEvents(json);
    case Ping => PingEvents();
  }

  function Bodies(fs: seq<Frame>): seq<string> {
    if fs == [] then [] else [Body(fs[0])] + Bodies(fs[1..])
  }

  lemma {:induction false} CutPrinted(fs: seq<Frame>)
    requires forall i :: 0 <= i < |fs| ==> Printable(fs[i])
    ensures CutFrames(PrintAll(fs)) == Cut(Bodies(fs), "")
  {
    if fs != [] {
      CutPrinted(fs[1..]);
      BodyIsOneFrame(fs[0]);
      CutOne(Body(fs[0]), PrintAll(fs[1..]));
      assert PrintAll(fs) == Body(fs[0]) + BLANK + PrintAll(fs[1..]);
    }
  }

  lemma CutOne(b: string, rest: string)
    requires OneFrame(b)
    ensures CutFrames(b + BLANK + rest) == Cut([b] + CutFrames(rest).frames, CutFrames(rest).pending)
  {
    FrameEndsAtBlank(b, rest);
  }

  lemma {:induction false} PrintedEvents(fs: seq<Frame>)
    requires forall i :: 0 <= i < |fs| ==> Printable(fs[i])
    ensures EventsOf(Bodies(fs)) == ExpectedAll(fs)
  {
    if fs != [] {
      PrintedEvents(fs[1..]);
      PrintedFrameEvents(fs[0]);
      FlatMapCons(ParseRaw, Body(fs[0]), Bodies(fs[1..]));
    }
  }

  lemma FlatMapCons<T, U>(f: T -> seq<U>, x: T, s: seq<T>)
    ensures FlatMap(f, [x] + s) == f(x) + FlatMap(f, s)
  {
    FlatMapAppend(f, [x], s);
    assert [x] == [] + [x];
    FlatMapSnoc(f, [], x);
  }

  /** Whatever the route prints, cut into chunks anywhere, reaches onEvent as exactly the state and message
      events in order, each with its JSON text; pings vanish and nothing is left pending. */
  lemma {:induction false} RoundTrip(fs: seq<Frame>, chunks: seq<string>)
    requires forall i :: 0 <= i < |fs| ==> Printable(fs[i])
    requires Concat(chunks) == PrintAll(fs)
    ensures PushAll(chunks) == Parsed(ExpectedAll(fs), "")
  {
    ChunkInvariance(chunks);
    CutPrinted(fs);
    PrintedEvents(fs);
  }

  // ---- The standard's interpretation (section 9.2.6 of the WHATWG HTML Living Standard) ----

  /** The buffers of the standard's algorithm; `data` grows by each value and a line feed. */
  datatype Buffers = Buffers(event: string, data: string)

  function StandardLine(b: Buffers, line: string): Buffers {
    if line[..IndexOf(line, ':')] == EVENT then b.(event := Value(line))
    else if line[..IndexOf(line, ':')] == DATA then b.(data := b.data + Value(line) + "\n")
    else b
  }

  function Dispatch(b: Buffers): seq<Event> {
    if b.data == "" then []
    else [Event(if b.event == "" then DEFAULT_EVENT else b.event, b.data[..|b.data| - 1])]
  }

  function LineEnd(t: string): (i: nat)
    ensures i <= |t|
    ensures forall j :: 0 <= j < i ==> t[j] != '\n' && t[j] != '\r'
    ensures i < |t| ==> t[i] == '\n' || t[i] == '\r'
  {
    if t == "" || t[0] == '\n' || t[0] == '\r' then 0 else 1 + LineEnd(t[1..])
  }

  /** Lines end at CRLF, LF or CR; a blank line dispatches; an unfinished event is discarded. */
  function Standard(b: Buffers, t: string): seq<Event>
    decreases |t|
  {
    var i := LineEnd(t);
    if i == |t| then []
    else
      var next := if t[i] == '\r' && i + 1 < |t| && t[i + 1] == '\n' then i + 2 else i + 1;
      if i == 0 then Dispatch(b) + Standard(Buffers("", ""), t[next..])
      else if t[0] == ':' then Standard(b, t[next..])
      else Standard(StandardLine(b, t[..i]), t[next..])
  }

  lemma StandardReads(b: Buffers, line: string, t: string)
    requires NewlineFree(line)
    ensures Standard(b, line + "\n" + t) ==
              if line == "" then Dispatch(b) + Standard(Buffers("", ""), t)
              else if line[0] == ':' then Standard(b, t)
              else Standard(StandardLine(b, line), t)
  {
    var all := line + "\n" + t;
    assert all[|line|] == '\n';
    assert forall j :: 0 <= j < |line| ==> all[j] == line[j] && line[j] in line;
    assert LineEnd(all) == |line|;
    assert all[..|line|] == line && all[|line| + 1..] == t;
  }

  lemma StandardBlank(b: Buffers, t: string)
    ensures Standard(b, "\n" + t) == Dispatch(b) + Standard(Buffers("", ""), t)
  {
    assert "\n" + t == "" + "\n" + t;
    StandardReads(b, "", t);
  }

  lemma StandardDataLine(b: Buffers, json: string)
    ensures StandardLine(b, DATA_PREFIX + json) == b.(data := b.data + json + "\n")
    ensures (DATA_PREFIX + json)[0] != ':'
  {
    var line := DATA_PREFIX + json;
    IndexOfPrefix(DATA, ':', " " + json);
    assert line == DATA + [':'] + (" " + json);
    assert Value(line) == json;
    assert DATA[0] != EVENT[0];
  }

  lemma {:induction false} StandardDataThenBlank(event: string, line: string, json: string, t: string)
    requires NewlineFree(line) && line != "" && line[0] != ':'
    requires StandardLine(Buffers(event, ""), line) == Buffers(event, json + "\n")
    ensures Standard(Buffers(event, ""), line + "\n" + ("\n" + t))
         == [Event(if event == "" then DEFAULT_EVENT else event, json)] + Standard(Buffers("", ""), t)
  {
    StandardReads(Buffers(event, ""), line, "\n" + t);
    StandardBlank(Buffers(event, json + "\n"), t);
    assert (json + "\n")[..|json|] == json;
  }

  lemma StandardData(event: string, json: string, t: string)
    requires NewlineFree(json)
    ensures Standard(Buffers(event, ""), DATA_PREFIX + json + BLANK + t)
         == [Event(if event == "" then DEFAULT_EVENT else event, json)] + Standard(Buffers("", ""), t)
  {
    StandardDataLine(Buffers(event, ""), json);
    assert "" + json + "\n" == json + "\n";
    DataIsOneFrame(json);
    StandardDataThenBlank(event, DATA_PREFIX + json, json, t);
    BlankIsTwo(DATA_PREFIX + json, t);
  }

  lemma BlankIsTwo(line: string, t: string)
    ensures line + BLANK + t == line + "\n" + ("\n" + t)
  {
  }

  lemma StandardEventLine(line: string, name: string, rest: string)
    requires NamesEvent(line, name)
    ensures Standard(Buffers("", ""), line + "\n" + rest) == Standard(Buffers(name, ""), rest)
  {
    StandardReads(Buffers("", ""), line, rest);
  }

  lemma StandardPing(t: string)
    ensures Standard(Buffers("", ""), PING + BLANK + t) == Standard(Buffers("", ""), t)
  {
    assert PING + BLANK + t == PING + "\n" + ("\n" + t);
    StandardReads(Buffers("", ""), PING, "\n" + t);
    StandardBlank(Buffers("", ""), t);
  }

  lemma {:induction false} StandardMessage(json: string, t: string)
    requires NewlineFree(json)
    ensures Standard(Buffers("", ""), Print(Message(json)) + t)
         == [Event(MESSAGE_EVENT, json)] + Standard(Buffers("", ""), t)
  {
    var rest := DATA_PREFIX + json + BLANK + t;
    assert Print(Message(json)) + t == MESSAGE_LINE + "\n" + rest;
    MessageLineNames();
    StandardEventLine(MESSAGE_LINE, MESSAGE_EVENT, rest);
    StandardData(MESSAGE_EVENT, json, t);
  }

  lemma {:induction false} StandardFrame(f: Frame, t: string)
    requires Printable(f)
    ensures Standard(Buffers("", ""), Print(f) + t) == Expected(f) + Standard(Buffers("", ""), t)
  {
    match f
    case State(json) =>
      StandardData("", json, t);
    case Message(json) =>
      StandardMessage(json, t);
    case Ping =>
      StandardPing(t);
  }

  /** On what the route prints, the parser and the standard's algorithm emit the same events. */
  lemma {:induction false} AgreesWithStandard(fs: seq<Frame>)
    requires forall i :: 0 <= i < |fs| ==> Printable(fs[i])
    ensures Standard(Buffers("", ""), PrintAll(fs)) == ExpectedAll(fs)
    ensures Parse(PrintAll(fs)).events == Standard(Buffers("", ""), PrintAll(fs))
  {
    if fs != [] {
      AgreesWithStandard(fs[1..]);
      StandardFrame(fs[0], PrintAll(fs[1..]));
    }
    CutPrinted(fs);
    PrintedEvents(fs);
  }

  // ---- Agreement on any text whose lines end with line feeds ----

  /** An empty event name stands for the default one. */
  function Named(name: string): string {
    if name == "" then DEFAULT_EVENT else name
  }

  function NamedAll(events: seq<Event>): (r: seq<Event>)
    ensures |r| == |events|
  {
    seq(|events|, i requires 0 <= i < |events| => Event(Named(events[i].event), events[i].data))
  }

  lemma {:induction false} NamedAppend(a: seq<Event>, b: seq<Event>)
    ensures NamedAll(a + b) == NamedAll(a) + NamedAll(b)
  {
  }

  predicate BlankLineAt(t: string, p: nat) {
    p + 1 < |t| && t[p] == '\n' && t[p + 1] == '\n'
  }

  ghost predicate NoBlankLine(t: string) {
    forall p: nat :: !BlankLineAt(t, p)
  }

  predicate StartsWithBreak(t: string) {
    t != "" && t[0] == '\n'
  }

  predicate EndsWithBreak(t: string) {
    t != "" && t[|t| - 1] == '\n'
  }

  const NOTHING: Buffers := Buffers("", "")

  /** The standard's buffers after the lines of one frame. */
  function BufferLines(b: Buffers, lines: seq<string>): Buffers
    decreases |lines|
  {
    if lines == [] then b
    else BufferLines(BufferLine(b, lines[0]), lines[1..])
  }

  /** Blank lines inside a frame and comments are skipped. */
  function BufferLine(b: Buffers, line: string): Buffers {
    if line == "" || line[0] == ':' then b else StandardLine(b, line)
  }

  lemma {:induction false} BufferCons(b: Buffers, line: string, lines: seq<string>)
    ensures BufferLines(b, [line] + lines) == BufferLines(BufferLine(b, line), lines)
  {
    assert ([line] + lines)[1..] == lines;
  }

  // ... the program's state and the standard's buffers agree line by line

  /** The values with a line feed after each. */
  function Fed(parts: seq<string>): string {
    if parts == [] then "" else parts[0] + "\n" + Fed(parts[1..])
  }

  lemma {:induction false} FedSnoc(parts: seq<string>, x: string)
    ensures Fed(parts + [x]) == Fed(parts) + x + "\n"
  {
    if parts == [] {
      assert parts + [x] == [x] && [x][1..] == [];
    } else {
      assert (parts + [x])[1..] == parts[1..] + [x];
      FedSnoc(parts[1..], x);
    }
  }

  lemma {:induction false} FedIsJoined(parts: seq<string>)
    requires parts != []
    ensures Fed(parts) == Join(parts) + "\n"
  {
    if |parts| == 1 {
      assert parts[1..] == [];
    } else {
      FedIsJoined(parts[1..]);
    }
  }

  predicate InStep(s: FrameState, b: Buffers) {
    Named(s.event) == Named(b.event) && b.data == Fed(s.data)
  }

  lemma {:induction false} LinesInStep(s: FrameState, b: Buffers, lines: seq<string>)
    requires InStep(s, b)
    ensures InStep(ReadLines(s, lines), BufferLines(b, lines))
    decreases |lines|
  {
    if lines != [] {
      var line := lines[0];
      FedSnoc(s.data, Value(line));
      LinesInStep(ReadLine(s, line), BufferLine(b, line), lines[1..]);
    }
  }

  lemma {:induction false} FrameDispatches(frame: string)
    ensures Dispatch(BufferLines(NOTHING, Lines(frame))) == NamedAll(ParseFrame(frame))
  {
    var start, lines := FrameState(DEFAULT_EVENT, []), Lines(frame);
    LinesInStep(start, NOTHING, lines);
    var s, b := ReadLines(start, lines), BufferLines(NOTHING, lines);
    if s.data != [] {
      FedIsJoined(s.data);
      assert b.data[..|b.data| - 1] == Join(s.data);
    }
  }

  // ... the standard reads one frame after the other

  lemma {:induction false} NothingBefore<T>(s: seq<T>)
    ensures [] + s == s
  {
  }

  lemma {:induction false} NothingToDispatch(t: string)
    ensures Standard(NOTHING, "\n" + t) == Standard(NOTHING, t)
  {
    StandardBlank(NOTHING, t);
    NothingBefore(Standard(NOTHING, t));
  }

  /** A line that does not end an event. */
  lemma {:induction false} StandardReadsLine(b: Buffers, line: string, t: string)
    requires NewlineFree(line) && (line == "" ==> b == NOTHING)
    ensures Standard(b, line + "\n" + t) == Standard(BufferLine(b, line), t)
  {
    if line == "" {
      assert line + "\n" + t == "\n" + t;
      NothingToDispatch(t);
    } else {
      StandardReads(b, line, t);
    }
  }

  lemma {:induction false} BlankEnds(b: Buffers, t: string)
    ensures Standard(b, "\n" + t) == Dispatch(b) + Standard(NOTHING, t)
  {
    StandardBlank(b, t);
  }

  lemma {:induction false} LastLine(b: Buffers, line: string, t: string)
    requires NewlineFree(line) && (line == "" ==> b == NOTHING)
    ensures Standard(b, line + "\n" + ("\n" + t)) == Dispatch(BufferLine(b, line)) + Standard(NOTHING, t)
  {
    StandardReadsLine(b, line, "\n" + t);
    BlankEnds(BufferLine(b, line), t);
  }

  lemma {:induction false} TailWithoutBlank(t: string, n: nat)
    requires n < |t| && t[n] == '\n' && '\r' !in t && NoBlankLine(t)
    ensures '\r' !in t[n + 1..] && NoBlankLine(t[n + 1..]) && !StartsWithBreak(t[n + 1..])
  {
    var rest := t[n + 1..];
    forall p: nat ensures !BlankLineAt(rest, p) { assert !BlankLineAt(t, n + 1 + p); }
    assert !BlankLineAt(t, n);
  }

  /** The rest of a frame after its first line. */
  lemma {:induction false} TailOfFrame(frame: string, n: nat)
    requires n < |frame| && frame[n] == '\n' && '\r' !in frame && NoBlankLine(frame) && !EndsWithBreak(frame)
    ensures var rest := frame[n + 1..];
      rest != "" && '\r' !in rest && NoBlankLine(rest) && !EndsWithBreak(rest) && !StartsWithBreak(rest)
  {
    TailWithoutBlank(frame, n);
    assert frame[n + 1..] == "" ==> n == |frame| - 1;
  }

  lemma {:induction false} FirstLine(frame: string)
    requires '\r' !in frame
    ensures var n := IndexOf(frame, '\n');
      NewlineFree(frame[..n]) && (n < |frame| ==> frame == frame[..n] + "\n" + frame[n + 1..])
  {
  }

  lemma {:induction false} StandardReadsFrame(b: Buffers, frame: string, t: string)
    requires '\r' !in frame && NoBlankLine(frame) && !EndsWithBreak(frame)
    requires frame == "" || StartsWithBreak(frame) ==> b == NOTHING
    ensures Standard(b, frame + "\n" + ("\n" + t)) == Dispatch(BufferLines(b, Lines(frame))) + Standard(NOTHING, t)
    decreases |frame|
  {
    var n := IndexOf(frame, '\n');
    FirstLine(frame);
    if n == |frame| {
      OneLine(b, frame);
      LastLine(b, frame, t);
    } else {
      var line, rest := frame[..n], frame[n + 1..];
      TailOfFrame(frame, n);
      LinesCons(line, rest);
      BufferCons(b, line, Lines(rest));
      StandardReadsFrame(BufferLine(b, line), rest, t);
      StandardReadsLine(b, line, rest + "\n" + ("\n" + t));
      Regroup(line, rest, t);
    }
  }

  lemma {:induction false} OneLine(b: Buffers, line: string)
    requires IndexOf(line, '\n') == |line| && '\r' !in line
    ensures NewlineFree(line) && BufferLines(b, Lines(line)) == BufferLine(b, line)
  {
    assert line[..|line|] == line && Lines(line) == [line];
    BufferCons(b, line, []);
    assert [line] + [] == [line];
  }

  lemma {:induction false} Regroup(line: string, rest: string, t: string)
    ensures line + "\n" + rest + "\n" + ("\n" + t) == line + "\n" + (rest + "\n" + ("\n" + t))
  {
  }

  /** A text without a blank line holds no complete event. */
  lemma {:induction false} NoFrameNoEvent(b: Buffers, t: string)
    requires '\r' !in t && NoBlankLine(t) && (StartsWithBreak(t) ==> b == NOTHING)
    ensures Standard(b, t) == []
    decreases |t|
  {
    var n := IndexOf(t, '\n');
    FirstLine(t);
    if n == |t| {
      assert forall p :: 0 <= p < |t| ==> t[p] in t;
      assert LineEnd(t) == |t|;
    } else {
      var line, rest := t[..n], t[n + 1..];
      TailWithoutBlank(t, n);
      StandardReadsLine(b, line, rest);
      NoFrameNoEvent(BufferLine(b, line), rest);
    }
  }

  // ... and so does the program

  lemma {:induction false} SeparatorIsBlankLine(t: string, p: nat)
    requires '\r' !in t
    ensures SeparatorLength(t, p) == if BlankLineAt(t, p) then 2 else 0
  {
    assert p < |t| ==> t[p] in t;
    assert p + 1 < |t| ==> t[p + 1] in t;
  }

  lemma {:induction false} CutAtBlankLine(t: string)
    requires '\r' !in t
    ensures FindSeparator(t, 0) == |t| ==> NoBlankLine(t)
    ensures FindSeparator(t, 0) < |t| ==>
              var frame := FirstFrame(t);
              && '\r' !in frame && NoBlankLine(frame) && !EndsWithBreak(frame)
              && '\r' !in AfterFrame(t) && t == frame + "\n" + ("\n" + AfterFrame(t))
  {
    var i := FindSeparator(t, 0);
    forall p: nat | p < i ensures !BlankLineAt(t, p) { SeparatorIsBlankLine(t, p); }
    if i < |t| {
      SeparatorIsBlankLine(t, i);
      var frame := FirstFrame(t);
      forall p: nat ensures !BlankLineAt(frame, p) { assert p < i ==> !BlankLineAt(t, p); }
      if i > 0 { assert !BlankLineAt(t, i - 1); }
      assert forall x :: x in frame || x in AfterFrame(t) ==> x in t;
    } else {
      forall p: nat ensures !BlankLineAt(t, p) { assert p < i ==> !BlankLineAt(t, p); }
    }
  }

  lemma {:induction false} EventsCons(frame: string, frames: seq<string>)
    ensures EventsOf([frame] + frames) == ParseRaw(frame) + EventsOf(frames)
  {
    FlatMapAppend(ParseRaw, [frame], frames);
    assert [frame][..0] == [];
    assert EventsOf([frame]) == [] + ParseRaw(frame);
  }

  lemma {:induction false} ParseFirst(t: string)
    requires FindSeparator(t, 0) < |t|
    ensures Parse(t).events == ParseRaw(FirstFrame(t)) + Parse(AfterFrame(t)).events
  {
    FirstCut(t);
    EventsCons(FirstFrame(t), CutFrames(AfterFrame(t)).frames);
  }

  /** Whatever is sent, and whatever its lines say: on text without carriage returns the parser emits exactly the events
      of the standard's algorithm, but for an event named by an empty value, whose name it leaves empty. */
  lemma {:induction false} AgreesOnAnyText(t: string)
    requires '\r' !in t
    ensures NamedAll(Parse(t).events) == Standard(NOTHING, t)
    decreases |t|
  {
    CutAtBlankLine(t);
    if FindSeparator(t, 0) == |t| {
      NoFrameNoEvent(NOTHING, t);
      assert CutFrames(t).frames == [];
    } else {
      var frame, rest := FirstFrame(t), AfterFrame(t);
      ParseFirst(t);
      NamedAppend(ParseRaw(frame), Parse(rest).events);
      NothingToReplace(frame);
      FrameDispatches(frame);
      StandardReadsFrame(NOTHING, frame, rest);
      AgreesOnAnyText(rest);
    }
  }

  // ---- Carriage returns ----

  /** The length of a line end that is a line feed with or without a carriage return before it, or 0. */
  function LineFeedAt(t: string, p: nat): nat {
    if p + 1 < |t| && t[p] == '\r' && t[p + 1] == '\n' then 2 else if p < |t| && t[p] == '\n' then 1 else 0
  }

  /** Frames end at two such line ends in a row, and all of it is skipped. */
  lemma {:induction false} SeparatorExactly(t: string, p: nat)
    ensures var one := LineFeedAt(t, p);
      var two := LineFeedAt(t, p + one);
      SeparatorLength(t, p) == if one > 0 && two > 0 then one + two else 0
  {
  }

  /** What follows a line end of the standard: CRLF, LF or CR. */
  function AfterLineEnd(t: string, i: nat): string
    requires i < |t|
  {
    t[if t[i] == '\r' && i + 1 < |t| && t[i + 1] == '\n' then i + 2 else i + 1..]
  }

  /** The lines of a text as the standard splits it. */
  function StandardLines(t: string): seq<string>
    decreases |t|
  {
    var i := LineEnd(t);
    if i == |t| then [t] else [t[..i]] + StandardLines(AfterLineEnd(t, i))
  }

  function Normal(t: string): string {
    ReplaceCr(ReplaceCrLf(t))
  }

  lemma {:induction false} NormalChar(t: string)
    requires t != "" && t[0] != '\r'
    ensures Normal(t) == [t[0]] + Normal(t[1..])
  {
    var u := ReplaceCrLf(t);
    assert u == [t[0]] + ReplaceCrLf(t[1..]) && u[1..] == ReplaceCrLf(t[1..]);
  }

  lemma {:induction false} NormalBreak(t: string)
    requires t != "" && (t[0] == '\n' || t[0] == '\r')
    ensures Normal(t) == "\n" + Normal(AfterLineEnd(t, 0))
  {
    var u, rest := ReplaceCrLf(t), AfterLineEnd(t, 0);
    assert u[1..] == ReplaceCrLf(rest);
  }

  /** What normalising makes of a text up to its first line end. */
  ghost predicate NormalUpTo(t: string, i: nat)
    requires i <= |t|
  {
    Normal(t) == if i == |t| then t else t[..i] + "\n" + Normal(AfterLineEnd(t, i))
  }

  lemma {:induction false} Consed(c: char, a: string, b: string, x: string)
    ensures [c] + (a + b + x) == [c] + a + b + x
  {
  }

  lemma {:induction false} LineEndOfTail(t: string)
    requires t != "" && t[0] != '\n' && t[0] != '\r'
    ensures LineEnd(t) == 1 + LineEnd(t[1..]) && t == [t[0]] + t[1..]
    ensures LineEnd(t) < |t| ==>
              && [t[0]] + t[1..][..LineEnd(t) - 1] == t[..LineEnd(t)]
              && AfterLineEnd(t, LineEnd(t)) == AfterLineEnd(t[1..], LineEnd(t) - 1)
  {
  }

  lemma {:induction false} NormalUpToOneMore(t: string)
    requires t != "" && t[0] != '\n' && t[0] != '\r' && NormalUpTo(t[1..], LineEnd(t[1..]))
    ensures NormalUpTo(t, LineEnd(t))
  {
    var u := t[1..];
    var i := LineEnd(u);
    NormalChar(t);
    LineEndOfTail(t);
    if i < |u| { Consed(t[0], u[..i], "\n", Normal(AfterLineEnd(u, i))); }
  }

  lemma {:induction false} NormalUpToBreak(t: string)
    requires t != "" && (t[0] == '\n' || t[0] == '\r')
    ensures LineEnd(t) == 0 && NormalUpTo(t, 0)
  {
    NormalBreak(t);
    assert t[..0] + "\n" == "\n";
  }

  lemma {:induction false} NormalToLineEnd(t: string)
    ensures NormalUpTo(t, LineEnd(t))
  {
    if t == "" {
      assert Normal(t) == t;
    } else if t[0] == '\n' || t[0] == '\r' {
      NormalUpToBreak(t);
    } else {
      NormalToLineEnd(t[1..]);
      NormalUpToOneMore(t);
    }
  }

  lemma {:induction false} SameLines(t: string)
    ensures Lines(Normal(t)) == StandardLines(t)
    decreases |t|
  {
    var i := LineEnd(t);
    NormalToLineEnd(t);
    if i == |t| {
      LinesOfOne(t);
    } else {
      LinesCons(t[..i], Normal(AfterLineEnd(t, i)));
      SameLines(AfterLineEnd(t, i));
    }
  }

  /** Inside a frame every line end counts as in the standard: the frame's event is the one the standard dispatches
      after its lines, whatever mixture of CRLF, LF and CR ends them. */
  lemma {:induction false} FrameAsStandard(frame: string)
    ensures NamedAll(ParseRaw(frame)) == Dispatch(BufferLines(NOTHING, StandardLines(frame)))
  {
    SameLines(frame);
    FrameDispatches(Normal(frame));
  }
}

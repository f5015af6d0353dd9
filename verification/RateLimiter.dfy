/** The fixed-window limiter of the MCP server, and the token names that keep its keys apart.
    Times are milliseconds. */
module RateLimiter {
  import opened Basics
  import opened Options

  // ---- Token names ----

  const RESERVED_NAME: string := "_service"

  predicate IsTokenName(s: string) {
    IsName(s) && s != RESERVED_NAME
  }

  datatype Access = ReadAccess | ReadWriteAccess

  datatype Token = Token(name: string, secret: string, access: Access)

  datatype TokenError = InvalidName(index: nat) | MissingSecret(index: nat) | DuplicateName

  datatype Tokens = Loaded(tokens: seq<Token>) | Refused(error: TokenError)

  /** A name that fits the pattern, and a secret. */
  predicate EntryOk(entry: (string, string)) {
    IsTokenName(entry.0) && entry.1 != ""
  }

  ghost predicate AllOk(entries: seq<(string, string)>) {
    forall entry :: entry in entries ==> EntryOk(entry)
  }

  /** One list of entries, in order; the first one that is not in order is reported with its position. */
  function ParseTokenEntries(entries: seq<(string, string)>, access: Access, index: nat): (r: Tokens)
    ensures r.Loaded? ==> |r.tokens| == |entries| && forall i :: 0 <= i < |entries| ==>
              r.tokens[i] == TokenOf(entries[i], access)
  {
    if entries == [] then Loaded([])
    else if !IsTokenName(entries[0].0) then Refused(InvalidName(index))
    else if entries[0].1 == "" then Refused(MissingSecret(index))
    else
      match ParseTokenEntries(entries[1..], access, index + 1)
      case Refused(error) => Refused(error)
      case Loaded(rest) => Loaded([TokenOf(entries[0], access)] + rest)
  }

  /** How many entries are in order before the first that is not. */
  function FirstBad(entries: seq<(string, string)>): (n: nat)
    ensures n <= |entries|
    ensures forall i :: 0 <= i < n ==> EntryOk(entries[i])
    ensures n < |entries| ==> !EntryOk(entries[n])
  {
    if entries == [] || !EntryOk(entries[0]) then 0 else 1 + FirstBad(entries[1..])
  }

  /** A list loads exactly if every entry is in order; otherwise the error names the first that is not. */
  lemma {:induction false} ParseTokenEntriesExactly(entries: seq<(string, string)>, access: Access, index: nat)
    ensures var r, n := ParseTokenEntries(entries, access, index), FirstBad(entries);
      && (r.Loaded? <==> AllOk(entries))
      && (r.Refused? ==>
            && n < |entries|
            && r.error == if !IsTokenName(entries[n].0) then InvalidName(index + n) else MissingSecret(index + n))
  {
    if entries != [] {
      assert entries == [entries[0]] + entries[1..];
      if EntryOk(entries[0]) { ParseTokenEntriesExactly(entries[1..], access, index + 1); }
    }
  }

  predicate UniqueNames(tokens: seq<Token>) {
    forall i, j :: 0 <= i < j < |tokens| ==> tokens[i].name != tokens[j].name
  }

  /** Both lists together; a name may occur only once across them. */
  function LoadTokens(read: seq<(string, string)>, readWrite: seq<(string, string)>): (r: Tokens)
    ensures r.Loaded? ==> UniqueNames(r.tokens)
  {
    match ParseTokenEntries(read, ReadAccess, 0)
    case Refused(error) => Refused(error)
    case Loaded(a) =>
      match ParseTokenEntries(readWrite, ReadWriteAccess, 0)
      case Refused(error) => Refused(error)
      case Loaded(b) => if UniqueNames(a + b) then Loaded(a + b) else Refused(DuplicateName)
  }

  predicate DistinctNames(entries: seq<(string, string)>) {
    forall i, j :: 0 <= i < j < |entries| ==> entries[i].0 != entries[j].0
  }

  function TokenOf(entry: (string, string), access: Access): Token {
    Token(entry.0, entry.1, access)
  }

  /** The tokens load exactly if every entry of both lists is in order and no name occurs twice across them; they are
      then the entries in order, and every name is valid. */
  lemma LoadTokensExactly(read: seq<(string, string)>, readWrite: seq<(string, string)>)
    ensures var r, all := LoadTokens(read, readWrite), read + readWrite;
      && (r.Loaded? <==> AllOk(all) && DistinctNames(all))
      && (r.Loaded? ==>
            && |r.tokens| == |all|
            && (forall i :: 0 <= i < |read| ==> r.tokens[i] == TokenOf(read[i], ReadAccess))
            && (forall i :: |read| <= i < |all| ==> r.tokens[i] == TokenOf(all[i], ReadWriteAccess))
            && (forall t :: t in r.tokens ==> IsTokenName(t.name)))
  {
    ParseTokenEntriesExactly(read, ReadAccess, 0);
    ParseTokenEntriesExactly(readWrite, ReadWriteAccess, 0);
    assert AllOk(read + readWrite) <==> AllOk(read) && AllOk(readWrite);
    var a, b := ParseTokenEntries(read, ReadAccess, 0), ParseTokenEntries(readWrite, ReadWriteAccess, 0);
    if a.Loaded? && b.Loaded? { JoinedTokens(read, readWrite, a.tokens, b.tokens); }
  }

  lemma JoinedTokens(read: seq<(string, string)>, readWrite: seq<(string, string)>, a: seq<Token>, b: seq<Token>)
    requires AllOk(read) && AllOk(readWrite) && |a| == |read| && |b| == |readWrite|
    requires forall i :: 0 <= i < |read| ==> a[i] == TokenOf(read[i], ReadAccess)
    requires forall i :: 0 <= i < |readWrite| ==> b[i] == TokenOf(readWrite[i], ReadWriteAccess)
    ensures UniqueNames(a + b) <==> DistinctNames(read + readWrite)
    ensures forall i :: 0 <= i < |read| ==> (a + b)[i] == TokenOf(read[i], ReadAccess)
    ensures forall i :: |read| <= i < |a + b| ==> (a + b)[i] == TokenOf((read + readWrite)[i], ReadWriteAccess)
    ensures forall t :: t in a + b ==> IsTokenName(t.name)
  {
    SameNames(read + readWrite, a + b);
    ValidNames(read, a, ReadAccess);
    ValidNames(readWrite, b, ReadWriteAccess);
  }

  lemma ValidNames(entries: seq<(string, string)>, tokens: seq<Token>, access: Access)
    requires |entries| == |tokens| && forall i :: 0 <= i < |entries| ==> tokens[i] == TokenOf(entries[i], access)
    requires AllOk(entries)
    ensures forall t :: t in tokens ==> IsTokenName(t.name)
  {
    forall t | t in tokens ensures IsTokenName(t.name) {
      var i :| 0 <= i < |tokens| && tokens[i] == t;
      assert entries[i] in entries;
    }
  }

  lemma SameNames(entries: seq<(string, string)>, tokens: seq<Token>)
    requires |entries| == |tokens| && forall i :: 0 <= i < |entries| ==> tokens[i].name == entries[i].0
    ensures UniqueNames(tokens) <==> DistinctNames(entries)
  {
  }

  // ---- The limiter ----

  datatype Category = Read | Write | Destructive

  datatype Config = Config(windowMs: int, read: nat, write: nat, destructive: nat)

  function Limit(cfg: Config, c: Category): nat {
    match c
    case Read => cfg.read
    case Write => cfg.write
    case Destructive => cfg.destructive
  }

  function CategoryName(c: Category): string {
    match c
    case Read => "read"
    case Write => "write"
    case Destructive => "destructive"
  }

  const SEPARATOR: string := ":"

  function Key(identity: string, c: Category): string {
    identity + SEPARATOR + CategoryName(c)
  }

  datatype Window = Window(count: nat, resetAt: int)

  datatype Decision = Decision(allowed: bool, limit: nat, remaining: nat, retryAfterSeconds: int)

  datatype Call = Call(identity: string, category: Category, now: int)

  /** Math.ceil(ms / 1000). */
  function CeilSeconds(ms: int): int {
    (ms + 999) / 1000
  }

  type Windows = map<string, Window>

  function NextWindow(cfg: Config, windows: Windows, call: Call): Window {
    var key := Key(call.identity, call.category);
    if key !in windows || call.now >= windows[key].resetAt then Window(1, call.now + cfg.windowMs)
    else windows[key].(count := windows[key].count + 1)
  }

  function Decide(cfg: Config, windows: Windows, call: Call): Decision {
    var w, limit := NextWindow(cfg, windows, call), Limit(cfg, call.category);
    Decision(w.count <= limit, limit, Max(0, limit - w.count), Max(1, CeilSeconds(w.resetAt - call.now)))
  }

  function After(cfg: Config, windows: Windows, call: Call): Windows {
    windows[Key(call.identity, call.category) := NextWindow(cfg, windows, call)]
  }

  class Limiter {
    const cfg: Config
    var windows: Windows

    constructor (cfg: Config)
      ensures this.cfg == cfg && windows == map[]
    {
      this.cfg, windows := cfg, map[];
    }

    method Check(call: Call) returns (d: Decision)
      modifies this
      ensures d == Decide(cfg, old(windows), call)
      ensures windows == After(cfg, old(windows), call)
    {
      var limit := Limit(cfg, call.category);
      var key := Key(call.identity, call.category);
      var state := if key !in windows || call.now >= windows[key].resetAt
                   then Window(0, call.now + cfg.windowMs)
                   else windows[key];
      state := state.(count := state.count + 1);
      windows := windows[key := state];
      d := Decision(state.count <= limit, limit, Max(0, limit - state.count),
                    Max(1, CeilSeconds(state.resetAt - call.now)));
    }
  }

  function Run(cfg: Config, calls: seq<Call>): Windows {
    if calls == [] then map[] else After(cfg, Run(cfg, calls[..|calls| - 1]), calls[|calls| - 1])
  }

  /** How many of the calls on a key between two times, both included, were allowed. */
  function AllowedBetween(cfg: Config, calls: seq<Call>, key: string, from: int, to: int): nat {
    if calls == [] then 0
    else
      var rest, call := calls[..|calls| - 1], calls[|calls| - 1];
      AllowedBetween(cfg, rest, key, from, to)
      + if Key(call.identity, call.category) == key && from <= call.now <= to
           && Decide(cfg, Run(cfg, rest), call).allowed
        then 1 else 0
  }

  // ---- The bound over sliding intervals ----

  ghost predicate ClockNeverGoesBack(calls: seq<Call>) {
    forall i, j :: 0 <= i < j < |calls| ==> calls[i].now <= calls[j].now
  }

  ghost predicate ValidIdentities(calls: seq<Call>) {
    forall i :: 0 <= i < |calls| ==> IsTokenName(calls[i].identity)
  }

  lemma NameEndsAtColon(identity: string, c: Category)
    requires IsTokenName(identity)
    ensures IndexOf(Key(identity, c), ':') == |identity|
  {
    var key := Key(identity, c);
    assert key[|identity|] == ':';
    assert forall j :: 0 <= j < |identity| ==> key[j] == identity[j];
  }

  /** Token names cannot contain ':', so distinct (identity, category) pairs have distinct keys. */
  lemma KeySeparates(a: string, c: Category, b: string, d: Category)
    requires IsTokenName(a) && IsTokenName(b)
    ensures Key(a, c) == Key(b, d) <==> a == b && c == d
  {
    if Key(a, c) == Key(b, d) {
      NameEndsAtColon(a, c);
      NameEndsAtColon(b, d);
      var n := |a|;
      assert a == Key(a, c)[..n] && b == Key(b, d)[..n];
      assert CategoryName(c) == Key(a, c)[n + 1..] && CategoryName(d) == Key(b, d)[n + 1..];
      assert |CategoryName(c)| == |CategoryName(d)|;
    }
  }

  ghost predicate LimitOnKey(cfg: Config, calls: seq<Call>, key: string, limit: nat) {
    forall i :: 0 <= i < |calls| && Key(calls[i].identity, calls[i].category) == key ==>
      Limit(cfg, calls[i].category) == limit
  }

  /** How many of the calls on a key at or after a time were allowed. */
  function AllowedSince(cfg: Config, calls: seq<Call>, key: string, from: int): nat {
    if calls == [] then 0
    else
      var rest, call := calls[..|calls| - 1], calls[|calls| - 1];
      AllowedSince(cfg, rest, key, from)
      + if Key(call.identity, call.category) == key && from <= call.now && Decide(cfg, Run(cfg, rest), call).allowed
        then 1 else 0
  }

  lemma {:induction false} SinceAntitone(cfg: Config, calls: seq<Call>, key: string, from: int, later: int)
    requires from <= later
    ensures AllowedSince(cfg, calls, key, later) <= AllowedSince(cfg, calls, key, from)
  {
    if calls != [] { SinceAntitone(cfg, calls[..|calls| - 1], key, from, later); }
  }

  function WindowOf(windows: Windows, key: string): Option<Window> {
    if key in windows then Some(windows[key]) else None
  }

  /** What the window says about the number of allowed calls at or after a time: those of the window itself, and
      those of the window before it. */
  predicate Bounded(allowed: int, from: int, window: Option<Window>, windowMs: int, limit: int) {
    match window
    case None => allowed == 0
    case Some(w) =>
      var start, own := w.resetAt - windowMs, Min(w.count, limit);
      && (from >= w.resetAt ==> allowed == 0)
      && (from >= start ==> allowed <= own)
      && (from > start && limit >= 1 ==> allowed <= own - 1)
      && (from >= start - windowMs ==> allowed <= limit + own)
      && (from > start - windowMs && limit >= 1 ==> allowed <= limit - 1 + own)
  }

  predicate Opened(window: Option<Window>, windowMs: int, now: int) {
    window.Some? ==> window.value.count >= 1 && window.value.resetAt - windowMs <= now
  }

  ghost predicate WindowInv(cfg: Config, calls: seq<Call>, key: string, limit: nat, now: int) {
    var w := WindowOf(Run(cfg, calls), key);
    && Opened(w, cfg.windowMs, now)
    && (forall a :: Bounded(AllowedSince(cfg, calls, key, a), a, w, cfg.windowMs, limit))
  }

  lemma SinceStep(cfg: Config, calls: seq<Call>, call: Call, key: string, from: int)
    requires Key(call.identity, call.category) == key
    ensures AllowedSince(cfg, calls + [call], key, from)
         == AllowedSince(cfg, calls, key, from)
            + if from <= call.now && Decide(cfg, Run(cfg, calls), call).allowed then 1 else 0
  {
    assert (calls + [call])[..|calls|] == calls;
  }

  lemma RunSnoc(cfg: Config, calls: seq<Call>, call: Call)
    ensures Run(cfg, calls + [call]) == After(cfg, Run(cfg, calls), call)
  {
    assert (calls + [call])[..|calls|] == calls;
  }

  /** One more call, in the same window or opening a new one. */
  lemma BoundedStep(cfg: Config, windows: Windows, call: Call, allowed: int, from: int, limit: int)
    requires cfg.windowMs > 0 && limit >= 0
    requires var w := WindowOf(windows, Key(call.identity, call.category));
      Bounded(allowed, from, w, cfg.windowMs, limit) && Opened(w, cfg.windowMs, call.now)
    ensures var next := NextWindow(cfg, windows, call);
      && Bounded(allowed + if from <= call.now && next.count <= limit then 1 else 0, from, Some(next), cfg.windowMs,
                 limit)
      && Opened(Some(next), cfg.windowMs, call.now)
  {
  }

  lemma SameKey(cfg: Config, calls: seq<Call>, call: Call, key: string, limit: nat, now: int)
    requires cfg.windowMs > 0 && WindowInv(cfg, calls, key, limit, now) && now <= call.now
    requires Key(call.identity, call.category) == key && Limit(cfg, call.category) == limit
    ensures WindowInv(cfg, calls + [call], key, limit, call.now)
  {
    RunSnoc(cfg, calls, call);
    var next := NextWindow(cfg, Run(cfg, calls), call);
    assert WindowOf(Run(cfg, calls + [call]), key) == Some(next);
    forall a ensures Bounded(AllowedSince(cfg, calls + [call], key, a), a, Some(next), cfg.windowMs, limit) {
      SinceStep(cfg, calls, call, key, a);
      BoundedStep(cfg, Run(cfg, calls), call, AllowedSince(cfg, calls, key, a), a, limit);
    }
    BoundedStep(cfg, Run(cfg, calls), call, AllowedSince(cfg, calls, key, 0), 0, limit);
  }

  lemma OtherKey(cfg: Config, calls: seq<Call>, call: Call, key: string, limit: nat, now: int)
    requires WindowInv(cfg, calls, key, limit, now) && now <= call.now
    requires Key(call.identity, call.category) != key
    ensures WindowInv(cfg, calls + [call], key, limit, call.now)
  {
    RunSnoc(cfg, calls, call);
    assert WindowOf(Run(cfg, calls + [call]), key) == WindowOf(Run(cfg, calls), key);
    assert (calls + [call])[..|calls|] == calls;
    forall a ensures AllowedSince(cfg, calls + [call], key, a) == AllowedSince(cfg, calls, key, a) {
    }
  }

  function LastTime(calls: seq<Call>): int {
    if calls == [] then 0 else calls[|calls| - 1].now
  }

  lemma {:induction false} RunKeepsWindowInv(cfg: Config, calls: seq<Call>, key: string, limit: nat)
    requires cfg.windowMs > 0 && ClockNeverGoesBack(calls) && LimitOnKey(cfg, calls, key, limit)
    ensures WindowInv(cfg, calls, key, limit, LastTime(calls))
  {
    if calls != [] {
      var rest, call := calls[..|calls| - 1], calls[|calls| - 1];
      RunKeepsWindowInv(cfg, rest, key, limit);
      assert calls == rest + [call];
      var now := if rest == [] then call.now else LastTime(rest);
      assert WindowInv(cfg, rest, key, limit, now);
      if Key(call.identity, call.category) != key {
        OtherKey(cfg, rest, call, key, limit, now);
      } else {
        SameKey(cfg, rest, call, key, limit, now);
      }
    }
  }

  lemma {:induction false} BetweenIsSince(cfg: Config, calls: seq<Call>, key: string, from: int, to: int)
    requires forall i :: 0 <= i < |calls| ==> calls[i].now <= to
    ensures AllowedBetween(cfg, calls, key, from, to) == AllowedSince(cfg, calls, key, from)
  {
    if calls != [] { BetweenIsSince(cfg, calls[..|calls| - 1], key, from, to); }
  }

  lemma {:induction false} KeyBound(cfg: Config, calls: seq<Call>, key: string, limit: nat, from: int, to: int)
    requires cfg.windowMs > 0 && ClockNeverGoesBack(calls) && LimitOnKey(cfg, calls, key, limit)
    requires to <= from + cfg.windowMs
    ensures AllowedBetween(cfg, calls, key, from, to) <= 2 * limit
    ensures to < from + cfg.windowMs && limit >= 1 ==> AllowedBetween(cfg, calls, key, from, to) <= 2 * limit - 1
  {
    if calls == [] {
    } else if calls[|calls| - 1].now > to {
      KeyBound(cfg, calls[..|calls| - 1], key, limit, from, to);
    } else {
      BetweenIsSince(cfg, calls, key, from, to);
      RunKeepsWindowInv(cfg, calls, key, limit);
      assert Bounded(AllowedSince(cfg, calls, key, from), from, WindowOf(Run(cfg, calls), key), cfg.windowMs, limit);
    }
  }

  lemma PairHasLimit(cfg: Config, calls: seq<Call>, identity: string, c: Category)
    requires IsTokenName(identity) && ValidIdentities(calls)
    ensures LimitOnKey(cfg, calls, Key(identity, c), Limit(cfg, c))
  {
    forall i | 0 <= i < |calls| && Key(calls[i].identity, calls[i].category) == Key(identity, c)
      ensures Limit(cfg, calls[i].category) == Limit(cfg, c)
    {
      KeySeparates(calls[i].identity, calls[i].category, identity, c);
    }
  }

  /** A pair gets at most twice its limit in any interval as long as the window, ends included, and one
      fewer when the interval is any shorter. */
  lemma {:induction false} TwiceTheLimit(cfg: Config, calls: seq<Call>, identity: string, c: Category, from: int,
                                         to: int)
    requires cfg.windowMs > 0 && ClockNeverGoesBack(calls) && ValidIdentities(calls) && IsTokenName(identity)
    requires to <= from + cfg.windowMs
    ensures AllowedBetween(cfg, calls, Key(identity, c), from, to) <= 2 * Limit(cfg, c)
    ensures to < from + cfg.windowMs && Limit(cfg, c) >= 1 ==>
              AllowedBetween(cfg, calls, Key(identity, c), from, to) <= 2 * Limit(cfg, c) - 1
  {
    PairHasLimit(cfg, calls, identity, c);
    KeyBound(cfg, calls, Key(identity, c), Limit(cfg, c), from, to);
  }

  // ---- The bound is reached ----

  /** The calls followed by n times the same one. */
  function Burst(before: seq<Call>, call: Call, n: nat): seq<Call> {
    if n == 0 then before else Burst(before, call, n - 1) + [call]
  }

  lemma AppendCall(cfg: Config, calls: seq<Call>, call: Call, from: int, to: int)
    requires from <= call.now <= to
    ensures Run(cfg, calls + [call]) == After(cfg, Run(cfg, calls), call)
    ensures AllowedBetween(cfg, calls + [call], Key(call.identity, call.category), from, to)
         == AllowedBetween(cfg, calls, Key(call.identity, call.category), from, to)
            + if Decide(cfg, Run(cfg, calls), call).allowed then 1 else 0
  {
    assert (calls + [call])[..|calls|] == calls;
  }

  /** The key's window is w and so many of its calls between the two times were allowed. */
  ghost predicate Stands(cfg: Config, calls: seq<Call>, key: string, w: Window, from: int, to: int, allowed: int) {
    && AllowedBetween(cfg, calls, key, from, to) == allowed
    && key in Run(cfg, calls)
    && Run(cfg, calls)[key] == w
  }

  lemma BurstStart(cfg: Config, before: seq<Call>, call: Call, from: int, to: int)
    requires 1 <= Limit(cfg, call.category) && from <= call.now <= to
    requires var key := Key(call.identity, call.category);
             key !in Run(cfg, before) || call.now >= Run(cfg, before)[key].resetAt
    ensures var key := Key(call.identity, call.category);
      Stands(cfg, before + [call], key, Window(1, call.now + cfg.windowMs), from, to,
             AllowedBetween(cfg, before, key, from, to) + 1)
  {
    AppendCall(cfg, before, call, from, to);
  }

  lemma BurstMore(cfg: Config, calls: seq<Call>, call: Call, n: nat, from: int, to: int, allowed: int)
    requires cfg.windowMs > 0 && n + 1 <= Limit(cfg, call.category) && from <= call.now <= to
    requires Stands(cfg, calls, Key(call.identity, call.category), Window(n, call.now + cfg.windowMs), from, to,
                    allowed)
    ensures Stands(cfg, calls + [call], Key(call.identity, call.category), Window(n + 1, call.now + cfg.windowMs), from,
                   to, allowed + 1)
  {
    AppendCall(cfg, calls, call, from, to);
  }

  /** A burst no longer than the limit, started in a fresh window, is allowed in full. */
  lemma {:induction false} BurstAllowed(cfg: Config, before: seq<Call>, call: Call, n: nat, from: int, to: int)
    requires cfg.windowMs > 0 && 1 <= n <= Limit(cfg, call.category) && from <= call.now <= to
    requires var key := Key(call.identity, call.category);
             key !in Run(cfg, before) || call.now >= Run(cfg, before)[key].resetAt
    ensures var key := Key(call.identity, call.category);
      Stands(cfg, Burst(before, call, n), key, Window(n, call.now + cfg.windowMs), from, to,
             AllowedBetween(cfg, before, key, from, to) + n)
  {
    if n == 1 {
      assert Burst(before, call, 0) == before;
      BurstStart(cfg, before, call, from, to);
    } else {
      var earlier := AllowedBetween(cfg, before, Key(call.identity, call.category), from, to);
      BurstAllowed(cfg, before, call, n - 1, from, to);
      BurstMore(cfg, Burst(before, call, n - 1), call, n - 1, from, to, earlier + n - 1);
    }
  }

  /** For every limit some run uses it twice within one window length. */
  lemma TwiceTheLimitReached(cfg: Config, identity: string, c: Category)
    requires cfg.windowMs > 0 && Limit(cfg, c) >= 1
    ensures var n := Limit(cfg, c);
            var calls := Burst(Burst([], Call(identity, c, 0), n), Call(identity, c, cfg.windowMs), n);
            AllowedBetween(cfg, calls, Key(identity, c), 0, cfg.windowMs) == 2 * n
  {
    var n := Limit(cfg, c);
    BurstAllowed(cfg, [], Call(identity, c, 0), n, 0, cfg.windowMs);
    BurstAllowed(cfg, Burst([], Call(identity, c, 0), n), Call(identity, c, cfg.windowMs), n, 0, cfg.windowMs);
  }

  // ---- Isolation ----

  function OnlyPair(calls: seq<Call>, identity: string, c: Category): seq<Call> {
    if calls == [] then []
    else
      var call := calls[|calls| - 1];
      OnlyPair(calls[..|calls| - 1], identity, c)
      + if call.identity == identity && call.category == c then [call] else []
  }

  lemma PairWindowStep(cfg: Config, calls: seq<Call>, own: seq<Call>, call: Call, identity: string, c: Category)
    requires IsTokenName(call.identity) && IsTokenName(identity)
    requires SameWindowOf(Key(identity, c), Run(cfg, calls), Run(cfg, own))
    ensures SameWindowOf(Key(identity, c), After(cfg, Run(cfg, calls), call),
                         if call.identity == identity && call.category == c then After(cfg, Run(cfg, own), call)
                         else Run(cfg, own))
  {
    KeySeparates(call.identity, call.category, identity, c);
  }

  predicate SameWindowOf(key: string, a: Windows, b: Windows) {
    (key in a <==> key in b) && (key in a ==> a[key] == b[key])
  }

  lemma {:induction false} PairWindow(cfg: Config, calls: seq<Call>, identity: string, c: Category)
    requires ValidIdentities(calls) && IsTokenName(identity)
    ensures SameWindowOf(Key(identity, c), Run(cfg, calls), Run(cfg, OnlyPair(calls, identity, c)))
  {
    if calls != [] {
      var rest, call := calls[..|calls| - 1], calls[|calls| - 1];
      PairWindow(cfg, rest, identity, c);
      var own := OnlyPair(rest, identity, c);
      PairWindowStep(cfg, rest, own, call, identity, c);
      assert (own + [call])[..|own|] == own;
      assert own + [] == own;
    }
  }

  /** A decision depends only on the earlier calls of the same identity and category. */
  lemma PairsAreIndependent(cfg: Config, calls: seq<Call>, call: Call)
    requires ValidIdentities(calls) && IsTokenName(call.identity)
    ensures Decide(cfg, Run(cfg, calls), call)
         == Decide(cfg, Run(cfg, OnlyPair(calls, call.identity, call.category)), call)
  {
    PairWindow(cfg, calls, call.identity, call.category);
  }

  // ---- Retry-After ----

  /** How the windows go on from a state. */
  function Then(cfg: Config, windows: Windows, calls: seq<Call>): Windows
    decreases |calls|
  {
    if calls == [] then windows else Then(cfg, After(cfg, windows, calls[0]), calls[1..])
  }

  lemma Shift<T>(a: seq<T>, b: seq<T>)
    requires b != []
    ensures a + [b[0]] + b[1..] == a + b
  {
  }

  lemma {:induction false} ThenIsRun(cfg: Config, before: seq<Call>, calls: seq<Call>)
    ensures Then(cfg, Run(cfg, before), calls) == Run(cfg, before + calls)
    decreases |calls|
  {
    if calls == [] {
      assert before + calls == before;
    } else {
      Shift(before, calls);
      RunSnoc(cfg, before, calls[0]);
      ThenIsRun(cfg, before + [calls[0]], calls[1..]);
    }
  }

  lemma {:induction false} WindowUntouched(cfg: Config, windows: Windows, between: seq<Call>, key: string)
    requires forall call :: call in between ==> Key(call.identity, call.category) != key
    requires key in windows
    ensures key in Then(cfg, windows, between) && Then(cfg, windows, between)[key] == windows[key]
    decreases |between|
  {
    if between != [] {
      assert between[0] in between;
      WindowUntouched(cfg, After(cfg, windows, between[0]), between[1..], key);
    }
  }

  /** Whoever waits as long as it was told to is let through: the next call on the pair after
      retryAfterSeconds opens a new window, whatever others did meanwhile. */
  lemma RetryAfterIsEnough(cfg: Config, before: seq<Call>, call: Call, between: seq<Call>, next: Call)
    requires next.identity == call.identity && next.category == call.category && Limit(cfg, call.category) >= 1
    requires forall other :: other in between ==>
      Key(other.identity, other.category) != Key(call.identity, call.category)
    requires next.now >= call.now + 1000 * Decide(cfg, Run(cfg, before), call).retryAfterSeconds
    ensures Decide(cfg, Run(cfg, before + [call] + between), next).allowed
  {
    RunSnoc(cfg, before, call);
    WindowUntouched(cfg, Run(cfg, before + [call]), between, Key(call.identity, call.category));
    ThenIsRun(cfg, before + [call], between);
  }

  // ---- What a caller is told ----

  predicate SamePair(a: Call, b: Call) {
    a.identity == b.identity && a.category == b.category
  }

  function CountPair(calls: seq<Call>, of: Call): nat {
    if calls == [] then 0
    else CountPair(calls[..|calls| - 1], of) + if SamePair(calls[|calls| - 1], of) then 1 else 0
  }

  /** No call on the pair is less than a window old. */
  ghost predicate Quiet(cfg: Config, calls: seq<Call>, call: Call) {
    forall i :: 0 <= i < |calls| && SamePair(calls[i], call) ==> calls[i].now + cfg.windowMs <= call.now
  }

  /** The pair's window was opened by one of its calls. */
  lemma {:induction false} SomeCallOpened(cfg: Config, calls: seq<Call>, call: Call) returns (i: nat)
    requires ValidIdentities(calls) && IsTokenName(call.identity)
    requires Key(call.identity, call.category) in Run(cfg, calls)
    ensures i < |calls| && SamePair(calls[i], call)
    ensures Run(cfg, calls)[Key(call.identity, call.category)].resetAt == calls[i].now + cfg.windowMs
  {
    var rest, last, key := calls[..|calls| - 1], calls[|calls| - 1], Key(call.identity, call.category);
    KeySeparates(last.identity, last.category, call.identity, call.category);
    if SamePair(last, call) && (key !in Run(cfg, rest) || last.now >= Run(cfg, rest)[key].resetAt) {
      i := |rest|;
    } else {
      i := SomeCallOpened(cfg, rest, call);
    }
  }

  lemma {:induction false} QuietOpensWindow(cfg: Config, before: seq<Call>, first: Call)
    requires ValidIdentities(before) && IsTokenName(first.identity) && Quiet(cfg, before, first)
    ensures NextWindow(cfg, Run(cfg, before), first) == Window(1, first.now + cfg.windowMs)
  {
    if Key(first.identity, first.category) in Run(cfg, before) { var i := SomeCallOpened(cfg, before, first); }
  }

  /** The calls on the pair come before its window ends. */
  ghost predicate Within(calls: seq<Call>, of: Call, resetAt: int) {
    forall call :: call in calls && SamePair(call, of) ==> call.now < resetAt
  }

  predicate HasWindow(windows: Windows, of: Call, w: Window) {
    Key(of.identity, of.category) in windows && windows[Key(of.identity, of.category)] == w
  }

  lemma CountStep(cfg: Config, windows: Windows, call: Call, of: Call, w: Window)
    requires IsTokenName(call.identity) && IsTokenName(of.identity) && HasWindow(windows, of, w)
    requires SamePair(call, of) ==> call.now < w.resetAt
    ensures HasWindow(After(cfg, windows, call), of, w.(count := w.count + if SamePair(call, of) then 1 else 0))
  {
    KeySeparates(call.identity, call.category, of.identity, of.category);
  }

  /** While a window is open it counts the calls on its pair, allowed or not. */
  lemma {:induction false} WindowCounts(cfg: Config, before: seq<Call>, between: seq<Call>, of: Call, w: Window)
    requires ValidIdentities(between) && IsTokenName(of.identity)
    requires HasWindow(Run(cfg, before), of, w) && Within(between, of, w.resetAt)
    ensures HasWindow(Run(cfg, before + between), of, w.(count := w.count + CountPair(between, of)))
  {
    if between == [] {
      assert before + between == before;
    } else {
      var rest, last := between[..|between| - 1], between[|between| - 1];
      assert before + between == before + rest + [last];
      WindowCounts(cfg, before, rest, of, w);
      RunSnoc(cfg, before + rest, last);
      CountStep(cfg, Run(cfg, before + rest), last, of, w.(count := w.count + CountPair(rest, of)));
    }
  }

  lemma WindowAfter(cfg: Config, before: seq<Call>, call: Call)
    ensures HasWindow(Run(cfg, before + [call]), call, NextWindow(cfg, Run(cfg, before), call))
  {
    RunSnoc(cfg, before, call);
  }

  /** The budget of a category is the one configured under its name. */
  predicate Budgeted(cfg: Config, c: Category, budget: nat) {
    (c == Read && budget == cfg.read) || (c == Write && budget == cfg.write)
    || (c == Destructive && budget == cfg.destructive)
  }

  /** What is decided in an open window. */
  lemma {:induction false} DecisionInWindow(cfg: Config, windows: Windows, call: Call, w: Window, budget: nat)
    requires HasWindow(windows, call, w) && call.now < w.resetAt && Budgeted(cfg, call.category, budget)
    ensures var d := Decide(cfg, windows, call);
      && (d.allowed <==> w.count < budget)
      && d.limit == budget && d.remaining == Max(0, budget - w.count - 1)
      && 1000 * (d.retryAfterSeconds - 1) < w.resetAt - call.now <= 1000 * d.retryAfterSeconds
  {
  }

  lemma WithinParts(calls: seq<Call>, next: Call, of: Call, resetAt: int)
    requires Within(calls + [next], of, resetAt) && SamePair(next, of)
    ensures Within(calls, of, resetAt) && next.now < resetAt
  {
    forall call | call in calls && SamePair(call, of) ensures call.now < resetAt { assert call in calls + [next]; }
    assert next in calls + [next];
  }

  /** The first so many calls of a fresh window are allowed and all later ones refused; each is told the category's
      limit, how many more may follow, and how many whole seconds the window still lasts. */
  lemma {:induction false} AllowanceExactly(cfg: Config, before: seq<Call>, first: Call, between: seq<Call>,
                                            next: Call, budget: nat)
    requires cfg.windowMs > 0 && ValidIdentities(before) && ValidIdentities(between) && IsTokenName(first.identity)
    requires Budgeted(cfg, first.category, budget) && Quiet(cfg, before, first) && SamePair(next, first)
    requires Within(between + [next], first, first.now + cfg.windowMs)
    ensures Decide(cfg, Run(cfg, before), first).allowed <==> budget >= 1
    ensures var d := Decide(cfg, Run(cfg, before + [first] + between), next);
      var used := 1 + CountPair(between, first);
      && (d.allowed <==> used < budget)
      && d.limit == budget && d.remaining == Max(0, budget - used - 1)
      && 1000 * (d.retryAfterSeconds - 1) < first.now + cfg.windowMs - next.now <= 1000 * d.retryAfterSeconds
  {
    var w := Window(1, first.now + cfg.windowMs);
    QuietOpensWindow(cfg, before, first);
    WindowAfter(cfg, before, first);
    WithinParts(between, next, first, w.resetAt);
    WindowCounts(cfg, before + [first], between, first, w);
    DecisionInWindow(cfg, Run(cfg, before + [first] + between), next,
                     w.(count := 1 + CountPair(between, first)), budget);
  }

  /** After any call, `remaining` is how many more calls on the pair are allowed before its window ends. */
  lemma {:induction false} RemainingIsExact(cfg: Config, before: seq<Call>, call: Call, between: seq<Call>, next: Call)
    requires ValidIdentities(between) && IsTokenName(call.identity) && SamePair(next, call)
    requires Within(between + [next], call, NextWindow(cfg, Run(cfg, before), call).resetAt)
    ensures Decide(cfg, Run(cfg, before + [call] + between), next).allowed <==>
              CountPair(between, call) < Decide(cfg, Run(cfg, before), call).remaining
  {
    WindowAfter(cfg, before, call);
    WithinParts(between, next, call, NextWindow(cfg, Run(cfg, before), call).resetAt);
    WindowCounts(cfg, before + [call], between, call, NextWindow(cfg, Run(cfg, before), call));
  }

  /** Whoever was refused and comes back fewer whole seconds later than it was told to is refused again. */
  lemma {:induction false} ShorterWaitIsRefused(cfg: Config, before: seq<Call>, call: Call, between: seq<Call>,
                                                next: Call, seconds: nat)
    requires cfg.windowMs > 0 && ValidIdentities(between) && IsTokenName(call.identity) && SamePair(next, call)
    requires !Decide(cfg, Run(cfg, before), call).allowed
    requires seconds < Decide(cfg, Run(cfg, before), call).retryAfterSeconds && next.now == call.now + 1000 * seconds
    requires Within(between, call, next.now + 1)
    ensures !Decide(cfg, Run(cfg, before + [call] + between), next).allowed
  {
    var w := NextWindow(cfg, Run(cfg, before), call);
    assert next.now < w.resetAt;
    forall other | other in between + [next] && SamePair(other, call) ensures other.now < w.resetAt {
      assert other in between || other == next;
    }
    RemainingIsExact(cfg, before, call, between, next);
  }
}

/** Validation of MCP request proofs: the claim checks, the replay cache that forgets expired proofs, and
    its agreement with a set that never forgets. Times are whole seconds. */
module ReplayCache {
  import opened Basics
  import opened Options

  datatype Config = Config(
    audience: string,
    maxProofAgeSeconds: nat,
    clockSkewSeconds: nat,
    replayCacheMaxEntries: nat)

  /** The value of a claim in the decoded token. */
  datatype Value = Absent | Text(text: string) | Integer(n: int) | OtherValue

  datatype RawClaims = RawClaims(
    iss: Value, aud: Value, sub: Value, access: Value, jti: Value,
    iat: Value, exp: Value, htm: Value, htu: Value, bodySha256: Value)

  datatype Claims = Claims(
    iss: string, aud: string, sub: string, access: string, jti: string,
    iat: int, exp: int, htm: string, htu: string, bodySha256: string)

  /** httpMethod is already in upper case. */
  datatype Request = Request(httpMethod: string, pathname: string, search: string, bodyDigest: string)

  /** One call of validateClaims at a time. */
  datatype Call = Call(raw: RawClaims, request: Request, now: int)

  datatype Error =
    | ClaimsMissing
    | IssuerOrAudienceInvalid
    | AccessInvalid
    | SubjectInvalid
    | WindowInvalid
    | NotBoundToRequest
    | ReadOnlyMethodDenied
    | ServiceSubjectDenied
    | Replayed
    | CacheFull

  datatype Outcome = Accepted | Rejected(error: Error)

  const ISSUER: string := "mqttctl-mcp"
  const SERVICE_SUBJECT: string := "_service"
  const READ: string := "read"
  const READWRITE: string := "readwrite"
  const HEARTBEAT: string := "POST /api/mcp/heartbeat"
  const SAFE_READ_METHODS: seq<string> := ["GET", "HEAD"]
  const TRANSIENT_READ_PATHS: seq<string> := [
    HEARTBEAT, "POST /api/mqtt/connect", "POST /api/mqtt/disconnect", "POST /api/mqtt/messages",
    "POST /api/mqtt/subscribe", "POST /api/mqtt/unsubscribe"
  ]

  predicate Typed(raw: RawClaims) {
    && raw.iss.Text? && raw.aud.Text? && raw.sub.Text? && raw.access.Text? && raw.jti.Text?
    && raw.htm.Text? && raw.htu.Text? && raw.bodySha256.Text?
    && raw.iat.Integer? && raw.exp.Integer?
  }

  function TextOf(v: Value): string {
    if v.Text? then v.text else ""
  }

  function IntegerOf(v: Value): int {
    if v.Integer? then v.n else 0
  }

  function ClaimsOf(raw: RawClaims): Claims {
    Claims(TextOf(raw.iss), TextOf(raw.aud), TextOf(raw.sub), TextOf(raw.access), TextOf(raw.jti),
           IntegerOf(raw.iat), IntegerOf(raw.exp), TextOf(raw.htm), TextOf(raw.htu), TextOf(raw.bodySha256))
  }

  predicate InWindow(cfg: Config, c: Claims, now: int) {
    && c.iat <= now + cfg.clockSkewSeconds
    && c.exp >= now - cfg.clockSkewSeconds
    && c.exp > c.iat
    && c.exp - c.iat <= cfg.maxProofAgeSeconds
  }

  function RequestKey(r: Request): string {
    r.httpMethod + " " + r.pathname
  }

  predicate ReadMayCall(r: Request) {
    Among(r.httpMethod, SAFE_READ_METHODS) || Among(RequestKey(r), TRANSIENT_READ_PATHS)
  }

  predicate Among(s: string, names: seq<string>) {
    names != [] && (s == names[0] || Among(s, names[1..]))
  }

  predicate Bound(c: Claims, r: Request) {
    c.htm == r.httpMethod && c.htu == r.pathname + r.search && c.bodySha256 == r.bodyDigest
  }

  /** The checks made before the cache is consulted, in order. */
  function CheckClaims(cfg: Config, call: Call): Option<Error> {
    var c, r := ClaimsOf(call.raw), call.request;
    if !Typed(call.raw) then Some(ClaimsMissing)
    else if c.iss != ISSUER || c.aud != cfg.audience then Some(IssuerOrAudienceInvalid)
    else if c.access != READ && c.access != READWRITE then Some(AccessInvalid)
    else if c.sub != SERVICE_SUBJECT && !IsName(c.sub) then Some(SubjectInvalid)
    else if !InWindow(cfg, c, call.now) then Some(WindowInvalid)
    else if !Bound(c, r) then Some(NotBoundToRequest)
    else if c.access == READ && !ReadMayCall(r) then Some(ReadOnlyMethodDenied)
    else if c.sub == SERVICE_SUBJECT && RequestKey(r) != HEARTBEAT then Some(ServiceSubjectDenied)
    else None
  }

  predicate Passes(cfg: Config, call: Call) {
    CheckClaims(cfg, call) == None
  }

  function Jti(call: Call): string {
    TextOf(call.raw.jti)
  }

  /** When the cache may forget the proof. */
  function Expires(cfg: Config, call: Call): int {
    IntegerOf(call.raw.exp) + cfg.clockSkewSeconds
  }

  lemma PassingBounds(cfg: Config, call: Call)
    requires Passes(cfg, call)
    ensures call.now <= Expires(cfg, call) <= call.now + cfg.maxProofAgeSeconds + 2 * cfg.clockSkewSeconds
  {
    assert InWindow(cfg, ClaimsOf(call.raw), call.now);
  }

  // ---- What a proof must say, claim by claim ----

  /** Who issued the proof, to whom, for what access and for which subject. */
  predicate FromTheServer(cfg: Config, raw: RawClaims) {
    && raw.iss == Text("mqttctl-mcp")
    && raw.aud == Text(cfg.audience)
    && (raw.access == Text("read") || raw.access == Text("readwrite"))
    && raw.sub.Text? && (raw.sub.text == "_service" || IsName(raw.sub.text))
    && raw.jti.Text?
  }

  /** The proof is for this method, this target and this body. */
  predicate ForRequest(raw: RawClaims, r: Request) {
    && raw.htm == Text(r.httpMethod)
    && raw.htu == Text(r.pathname + r.search)
    && raw.bodySha256 == Text(r.bodyDigest)
  }

  /** The proof was made at most the skew from now in the future, has not expired but for the skew, and lives no longer
      than allowed. */
  predicate Timely(cfg: Config, raw: RawClaims, now: int) {
    && raw.iat.Integer? && raw.exp.Integer?
    && raw.iat.n - cfg.clockSkewSeconds <= now <= raw.exp.n + cfg.clockSkewSeconds
    && 0 < raw.exp.n - raw.iat.n <= cfg.maxProofAgeSeconds
  }

  /** Read access covers reading and the requests that change nothing lasting; the service itself only beats. */
  predicate Entitled(raw: RawClaims, r: Request) {
    && (raw.access == Text("read") ==>
          r.httpMethod == "GET" || r.httpMethod == "HEAD"
          || r.httpMethod + " " + r.pathname in
               ["POST /api/mcp/heartbeat", "POST /api/mqtt/connect", "POST /api/mqtt/disconnect",
                "POST /api/mqtt/messages", "POST /api/mqtt/subscribe", "POST /api/mqtt/unsubscribe"])
    && (raw.sub == Text("_service") ==> r.httpMethod + " " + r.pathname == "POST /api/mcp/heartbeat")
  }

  predicate Admissible(cfg: Config, call: Call) {
    && FromTheServer(cfg, call.raw)
    && ForRequest(call.raw, call.request)
    && Timely(cfg, call.raw, call.now)
    && Entitled(call.raw, call.request)
  }

  lemma {:induction false} AmongIsIn(s: string, names: seq<string>)
    ensures Among(s, names) <==> s in names
  {
    if names != [] { AmongIsIn(s, names[1..]); }
  }

  lemma EntitledExactly(raw: RawClaims, r: Request)
    requires raw.access.Text? && raw.sub.Text?
    ensures Entitled(raw, r) <==>
      (raw.access.text == READ ==> ReadMayCall(r)) && (raw.sub.text == SERVICE_SUBJECT ==> RequestKey(r) == HEARTBEAT)
  {
    AmongIsIn(r.httpMethod, SAFE_READ_METHODS);
    AmongIsIn(RequestKey(r), TRANSIENT_READ_PATHS);
  }

  /** The checks in their order let through exactly the admissible calls. */
  lemma PassesExactly(cfg: Config, call: Call)
    ensures Passes(cfg, call) <==> Admissible(cfg, call)
  {
    if call.raw.access.Text? && call.raw.sub.Text? { EntitledExactly(call.raw, call.request); }
  }

  /** A refused call is told what fails first: the claims at all, who they are from, their time, their request, and only
      then what they entitle to. */
  lemma FirstFailure(cfg: Config, call: Call)
    ensures var error := CheckClaims(cfg, call);
      var from, timely, bound :=
        FromTheServer(cfg, call.raw), Timely(cfg, call.raw, call.now), ForRequest(call.raw, call.request);
      && (error == Some(ClaimsMissing) <==> !Typed(call.raw))
      && (error in {Some(IssuerOrAudienceInvalid), Some(AccessInvalid), Some(SubjectInvalid)} <==>
            Typed(call.raw) && !from)
      && (error == Some(WindowInvalid) <==> Typed(call.raw) && from && !timely)
      && (error == Some(NotBoundToRequest) <==> Typed(call.raw) && from && timely && !bound)
      && (error in {Some(ReadOnlyMethodDenied), Some(ServiceSubjectDenied)} <==>
            Typed(call.raw) && from && timely && bound && !Entitled(call.raw, call.request))
  {
    if Typed(call.raw) { EntitledExactly(call.raw, call.request); }
  }

  function Purge(cache: map<string, int>, now: int): map<string, int> {
    map jti | jti in cache && cache[jti] >= now :: cache[jti]
  }

  // ---- The service object ----

  class McpAuthService {
    const cfg: Config
    var replayCache: map<string, int>

    constructor (cfg: Config)
      ensures this.cfg == cfg && replayCache == map[]
    {
      this.cfg, replayCache := cfg, map[];
    }

    method PurgeReplayCache(now: int)
      modifies this
      ensures replayCache == Purge(old(replayCache), now)
    {
      var remaining := replayCache.Keys;
      while remaining != {}
        invariant remaining <= replayCache.Keys <= old(replayCache).Keys
        invariant forall jti :: jti in replayCache ==> replayCache[jti] == old(replayCache)[jti]
        invariant forall jti :: jti in old(replayCache) && jti !in remaining ==>
          (jti in replayCache <==> old(replayCache)[jti] >= now)
        decreases |remaining|
      {
        var jti :| jti in remaining;
        remaining := remaining - {jti};
        if replayCache[jti] < now { replayCache := replayCache - {jti}; }
      }
    }

    method RememberJti(jti: string, expiresAt: int, now: int) returns (outcome: Outcome)
      modifies this
      ensures (outcome, replayCache) == Remember(cfg, old(replayCache), jti, expiresAt, now)
    {
      PurgeReplayCache(now);
      if jti in replayCache { return Rejected(Replayed); }
      if |replayCache| >= cfg.replayCacheMaxEntries { return Rejected(CacheFull); }
      replayCache := replayCache[jti := expiresAt];
      return Accepted;
    }

    method ValidateClaims(call: Call) returns (outcome: Outcome)
      modifies this
      ensures (outcome, replayCache) == Validate(cfg, old(replayCache), call)
      ensures outcome in {Accepted, Rejected(Replayed), Rejected(CacheFull)} <==> Admissible(cfg, call)
      ensures !Admissible(cfg, call) ==> replayCache == old(replayCache)
    {
      PassesExactly(cfg, call);
      var failed := CheckClaims(cfg, call);
      if failed.Some? { return Rejected(failed.value); }
      outcome := RememberJti(Jti(call), Expires(cfg, call), call.now);
    }
  }

  function Remember(cfg: Config, cache: map<string, int>, jti: string, expiresAt: int, now: int)
    : (Outcome, map<string, int>)
  {
    var purged := Purge(cache, now);
    if jti in purged then (Rejected(Replayed), purged)
    else if |purged| >= cfg.replayCacheMaxEntries then (Rejected(CacheFull), purged)
    else (Accepted, purged[jti := expiresAt])
  }

  function Validate(cfg: Config, cache: map<string, int>, call: Call): (Outcome, map<string, int>) {
    match CheckClaims(cfg, call)
    case Some(error) => (Rejected(error), cache)
    case None => Remember(cfg, cache, Jti(call), Expires(cfg, call), call.now)
  }

  // ---- Runs ----

  /** The cache after the calls. */
  function Run(cfg: Config, calls: seq<Call>): map<string, int> {
    if calls == [] then map[] else Validate(cfg, Run(cfg, calls[..|calls| - 1]), calls[|calls| - 1]).1
  }

  /** What the i-th call of a run was answered. */
  function OutcomeOf(cfg: Config, calls: seq<Call>, i: nat): Outcome
    requires i < |calls|
  {
    Validate(cfg, Run(cfg, calls[..i]), calls[i]).0
  }

  predicate AcceptedAt(cfg: Config, calls: seq<Call>, i: nat, jti: string) {
    i < |calls| && Jti(calls[i]) == jti && OutcomeOf(cfg, calls, i) == Accepted
  }

  ghost predicate EverAccepted(cfg: Config, calls: seq<Call>, jti: string) {
    exists i: nat :: AcceptedAt(cfg, calls, i, jti)
  }

  /** A later call that reaches the cache when the earlier proof has expired. */
  predicate Clears(cfg: Config, later: Call, earlier: Call) {
    Passes(cfg, later) && later.now > Expires(cfg, earlier)
  }

  ghost predicate Cleared(cfg: Config, calls: seq<Call>, i: nat)
    requires i < |calls|
  {
    exists k :: i < k < |calls| && Clears(cfg, calls[k], calls[i])
  }

  /** The i-th call accepted the proof and no later call has cleared it. */
  ghost predicate Held(cfg: Config, calls: seq<Call>, i: nat, jti: string) {
    AcceptedAt(cfg, calls, i, jti) && !Cleared(cfg, calls, i)
  }

  lemma AcceptedInPrefix(cfg: Config, calls: seq<Call>, n: nat, i: nat, jti: string)
    requires i < n <= |calls|
    ensures AcceptedAt(cfg, calls[..n], i, jti) == AcceptedAt(cfg, calls, i, jti)
  {
    assert calls[..n][..i] == calls[..i];
  }

  lemma ClearedByOneMore(cfg: Config, calls: seq<Call>, call: Call, i: nat)
    requires i < |calls|
    ensures Cleared(cfg, calls + [call], i) <==> Cleared(cfg, calls, i) || Clears(cfg, call, calls[i])
  {
    var all := calls + [call];
    if Cleared(cfg, calls, i) {
      var k :| i < k < |calls| && Clears(cfg, calls[k], calls[i]);
      assert Clears(cfg, all[k], all[i]);
    }
    if Clears(cfg, call, calls[i]) { assert Clears(cfg, all[|calls|], all[i]); }
  }

  lemma HeldAfterOneMore(cfg: Config, calls: seq<Call>, call: Call, i: nat, jti: string)
    requires i < |calls|
    ensures Held(cfg, calls + [call], i, jti) <==> Held(cfg, calls, i, jti) && !Clears(cfg, call, calls[i])
  {
    assert (calls + [call])[..|calls|] == calls;
    AcceptedInPrefix(cfg, calls + [call], |calls|, i, jti);
    ClearedByOneMore(cfg, calls, call, i);
  }

  lemma HeldNow(cfg: Config, calls: seq<Call>, call: Call, jti: string)
    ensures Held(cfg, calls + [call], |calls|, jti)
       <==> Jti(call) == jti && Validate(cfg, Run(cfg, calls), call).0 == Accepted
  {
    assert (calls + [call])[..|calls|] == calls;
  }

  lemma RunOneMore(cfg: Config, calls: seq<Call>, call: Call)
    ensures Run(cfg, calls + [call]) == Validate(cfg, Run(cfg, calls), call).1
  {
    assert (calls + [call])[..|calls|] == calls;
  }

  // ---- What the cache holds, whatever the clock does ----

  ghost predicate HeldUntil(cfg: Config, calls: seq<Call>, i: nat, jti: string, expiresAt: int) {
    Held(cfg, calls, i, jti) && Expires(cfg, calls[i]) == expiresAt
  }

  ghost predicate SomeHeldUntil(cfg: Config, calls: seq<Call>, jti: string, expiresAt: int) {
    exists i: nat :: HeldUntil(cfg, calls, i, jti, expiresAt)
  }

  predicate Has(cache: map<string, int>, jti: string, expiresAt: int) {
    jti in cache && cache[jti] == expiresAt
  }

  lemma SomeHeldAfterOneMore(cfg: Config, calls: seq<Call>, call: Call, jti: string, expiresAt: int)
    ensures SomeHeldUntil(cfg, calls + [call], jti, expiresAt) <==>
              || (SomeHeldUntil(cfg, calls, jti, expiresAt) && !(Passes(cfg, call) && call.now > expiresAt))
              || (Jti(call) == jti && Expires(cfg, call) == expiresAt
                  && Validate(cfg, Run(cfg, calls), call).0 == Accepted)
  {
    var all := calls + [call];
    HeldNow(cfg, calls, call, jti);
    if SomeHeldUntil(cfg, all, jti, expiresAt) {
      var i: nat :| HeldUntil(cfg, all, i, jti, expiresAt);
      if i < |calls| {
        HeldAfterOneMore(cfg, calls, call, i, jti);
        assert HeldUntil(cfg, calls, i, jti, expiresAt);
      }
    }
    if SomeHeldUntil(cfg, calls, jti, expiresAt) && !(Passes(cfg, call) && call.now > expiresAt) {
      var i: nat :| HeldUntil(cfg, calls, i, jti, expiresAt);
      HeldAfterOneMore(cfg, calls, call, i, jti);
      assert HeldUntil(cfg, all, i, jti, expiresAt);
    }
    if Jti(call) == jti && Expires(cfg, call) == expiresAt && Validate(cfg, Run(cfg, calls), call).0 == Accepted {
      assert HeldUntil(cfg, all, |calls|, jti, expiresAt);
    }
  }

  lemma CacheAfterOneMore(cfg: Config, cache: map<string, int>, call: Call, jti: string, expiresAt: int)
    ensures Has(Validate(cfg, cache, call).1, jti, expiresAt) <==>
              || (Has(cache, jti, expiresAt) && !(Passes(cfg, call) && call.now > expiresAt))
              || (Jti(call) == jti && Expires(cfg, call) == expiresAt && Validate(cfg, cache, call).0 == Accepted)
  {
  }

  /** In every run, with any clock: the cache holds a jti with an expiry exactly if some call accepted that proof
      and no later call that reached the cache came after the expiry. */
  lemma {:induction false} CachedExactly(cfg: Config, calls: seq<Call>, jti: string, expiresAt: int)
    ensures Has(Run(cfg, calls), jti, expiresAt) <==> SomeHeldUntil(cfg, calls, jti, expiresAt)
  {
    if calls != [] {
      var rest, last := calls[..|calls| - 1], calls[|calls| - 1];
      assert calls == rest + [last];
      CachedExactly(cfg, rest, jti, expiresAt);
      RunOneMore(cfg, rest, last);
      CacheAfterOneMore(cfg, Run(cfg, rest), last, jti, expiresAt);
      SomeHeldAfterOneMore(cfg, rest, last, jti, expiresAt);
    }
  }

  // ---- Exactly when a proof is refused or accepted again ----

  /** The i-th call accepted the jti, and neither a call since then nor this one clears it. */
  ghost predicate StillHeld(cfg: Config, calls: seq<Call>, call: Call, i: nat) {
    i < |calls| && Held(cfg, calls + [call], i, Jti(call))
  }

  /** With any clock, a proof that passes the checks is refused as a replay exactly if an accepted proof with its jti
      has been cleared neither by a call since then nor by this one. */
  lemma ReplayedExactly(cfg: Config, calls: seq<Call>, call: Call)
    requires Passes(cfg, call)
    ensures Validate(cfg, Run(cfg, calls), call).0 == Rejected(Replayed) <==>
            exists i: nat :: StillHeld(cfg, calls, call, i)
  {
    var cache, jti := Run(cfg, calls), Jti(call);
    if jti in Purge(cache, call.now) {
      CachedExactly(cfg, calls, jti, cache[jti]);
      var i: nat :| HeldUntil(cfg, calls, i, jti, cache[jti]);
      HeldAfterOneMore(cfg, calls, call, i, jti);
      assert StillHeld(cfg, calls, call, i);
    }
    if i: nat :| StillHeld(cfg, calls, call, i) {
      HeldAfterOneMore(cfg, calls, call, i, jti);
      assert HeldUntil(cfg, calls, i, jti, Expires(cfg, calls[i]));
      CachedExactly(cfg, calls, jti, Expires(cfg, calls[i]));
    }
  }

  /** A call that passes the checks accepts a jti again exactly if the jti was accepted before, every one of those
      acceptances has been cleared, this call's own purge included, and what has not expired leaves room. */
  lemma AcceptedAgainExactly(cfg: Config, calls: seq<Call>, call: Call)
    requires Passes(cfg, call)
    ensures EverAccepted(cfg, calls, Jti(call)) && Validate(cfg, Run(cfg, calls), call).0 == Accepted <==>
              && EverAccepted(cfg, calls, Jti(call))
              && |Purge(Run(cfg, calls), call.now)| < cfg.replayCacheMaxEntries
              && forall i: nat :: AcceptedAt(cfg, calls, i, Jti(call)) ==> Cleared(cfg, calls + [call], i)
  {
    ReplayedExactly(cfg, calls, call);
    forall i | 0 <= i < |calls|
      ensures StillHeld(cfg, calls, call, i)
         <==> AcceptedAt(cfg, calls, i, Jti(call)) && !Cleared(cfg, calls + [call], i)
    {
      HeldAfterOneMore(cfg, calls, call, i, Jti(call));
      ClearedByOneMore(cfg, calls, call, i);
    }
  }

  /** With any clock, a call is accepted exactly if its claims are admissible, no acceptance of its jti is still held,
      and what has not expired leaves room. */
  lemma AcceptedExactly(cfg: Config, calls: seq<Call>, call: Call)
    ensures Validate(cfg, Run(cfg, calls), call).0 == Accepted <==>
              && Admissible(cfg, call)
              && !(exists i: nat :: StillHeld(cfg, calls, call, i))
              && |Purge(Run(cfg, calls), call.now)| < cfg.replayCacheMaxEntries
  {
    PassesExactly(cfg, call);
    if Passes(cfg, call) { ReplayedExactly(cfg, calls, call); }
  }

  /** Between two acceptances of a jti some call clears the first. */
  lemma ReuseNeedsClearing(cfg: Config, calls: seq<Call>, i: nat, j: nat) returns (k: nat)
    requires i < j < |calls| && AcceptedAt(cfg, calls, i, Jti(calls[j])) && AcceptedAt(cfg, calls, j, Jti(calls[j]))
    ensures i < k <= j && Clears(cfg, calls[k], calls[i])
  {
    var before, call := calls[..j], calls[j];
    assert Passes(cfg, call);
    assert calls[..j + 1] == before + [call];
    AcceptedInPrefix(cfg, calls, j, i, Jti(call));
    AcceptedAgainExactly(cfg, before, call);
    assert Cleared(cfg, before + [call], i);
    var n :| i < n < j + 1 && Clears(cfg, (before + [call])[n], (before + [call])[i]);
    k := n;
  }

  /** The same proof, jti and expiry, is accepted twice only if the clock has gone back below a call between. */
  lemma SameProofTwiceNeedsClockBack(cfg: Config, calls: seq<Call>, i: nat, j: nat) returns (k: nat)
    requires i < j < |calls| && AcceptedAt(cfg, calls, i, Jti(calls[j])) && AcceptedAt(cfg, calls, j, Jti(calls[j]))
    requires Expires(cfg, calls[i]) == Expires(cfg, calls[j])
    ensures i < k < j && Clears(cfg, calls[k], calls[i]) && calls[k].now > calls[j].now
  {
    k := ReuseNeedsClearing(cfg, calls, i, j);
    assert Passes(cfg, calls[j]);
    PassingBounds(cfg, calls[j]);
  }

  // ---- With a clock that never goes back ----

  ghost predicate ClockNeverGoesBack(calls: seq<Call>) {
    forall i, j :: 0 <= i < j < |calls| ==> calls[i].now <= calls[j].now
  }

  /** No proof is accepted twice. */
  lemma NoProofAcceptedTwice(cfg: Config, calls: seq<Call>, i: nat, j: nat)
    requires ClockNeverGoesBack(calls) && i < j < |calls|
    ensures !(AcceptedAt(cfg, calls, i, Jti(calls[j])) && AcceptedAt(cfg, calls, j, Jti(calls[j]))
              && Expires(cfg, calls[i]) == Expires(cfg, calls[j]))
  {
    if AcceptedAt(cfg, calls, i, Jti(calls[j])) && AcceptedAt(cfg, calls, j, Jti(calls[j]))
       && Expires(cfg, calls[i]) == Expires(cfg, calls[j])
    {
      var k := SameProofTwiceNeedsClockBack(cfg, calls, i, j);
      assert false;
    }
  }

  /** A jti is accepted again only after the earlier proof has left its own validity window. */
  lemma ReuseOnlyAfterLapse(cfg: Config, calls: seq<Call>, i: nat, j: nat)
    requires ClockNeverGoesBack(calls) && i < j < |calls|
    requires AcceptedAt(cfg, calls, i, Jti(calls[j])) && AcceptedAt(cfg, calls, j, Jti(calls[j]))
    ensures Expires(cfg, calls[i]) < calls[j].now && !InWindow(cfg, ClaimsOf(calls[i].raw), calls[j].now)
  {
    var k := ReuseNeedsClearing(cfg, calls, i, j);
    assert k == j || calls[k].now <= calls[j].now;
  }

  /** An accepted proof with this jti whose window is still open. */
  ghost predicate LiveBefore(cfg: Config, calls: seq<Call>, jti: string, now: int) {
    exists i: nat :: AcceptedAt(cfg, calls, i, jti) && Expires(cfg, calls[i]) >= now
  }

  lemma OpenIsNotCleared(cfg: Config, calls: seq<Call>, call: Call, i: nat)
    requires ClockNeverGoesBack(calls + [call]) && i < |calls| && Passes(cfg, call)
    ensures Cleared(cfg, calls + [call], i) <==> Expires(cfg, calls[i]) < call.now
  {
    var all := calls + [call];
    assert all[|calls|] == call && all[i] == calls[i];
    if k :| i < k < |all| && Clears(cfg, all[k], all[i]) {
      assert k == |calls| || all[k].now <= all[|calls|].now;
    }
    if Expires(cfg, calls[i]) < call.now { assert Clears(cfg, all[|calls|], all[i]); }
  }

  /** A proof that passes the checks is a replay exactly if an accepted proof with its jti is still in its window. */
  lemma {:induction false} ReplayedWhileLive(cfg: Config, calls: seq<Call>, call: Call)
    requires ClockNeverGoesBack(calls + [call]) && Passes(cfg, call)
    ensures Validate(cfg, Run(cfg, calls), call).0 == Rejected(Replayed)
       <==> LiveBefore(cfg, calls, Jti(call), call.now)
  {
    ReplayedExactly(cfg, calls, call);
    forall i: nat | i < |calls| { StillHeldWhileOpen(cfg, calls, call, i); }
    if LiveBefore(cfg, calls, Jti(call), call.now) {
      var i: nat :| AcceptedAt(cfg, calls, i, Jti(call)) && Expires(cfg, calls[i]) >= call.now;
      assert StillHeld(cfg, calls, call, i);
    }
  }

  lemma StillHeldWhileOpen(cfg: Config, calls: seq<Call>, call: Call, i: nat)
    requires ClockNeverGoesBack(calls + [call]) && Passes(cfg, call) && i < |calls|
    ensures StillHeld(cfg, calls, call, i)
       <==> AcceptedAt(cfg, calls, i, Jti(call)) && Expires(cfg, calls[i]) >= call.now
  {
    assert (calls + [call])[..|calls|] == calls;
    AcceptedInPrefix(cfg, calls + [call], |calls|, i, Jti(call));
    OpenIsNotCleared(cfg, calls, call, i);
  }

  // ---- Agreement with a set that never forgets ----

  ghost predicate OneExpiryPerJti(calls: seq<Call>) {
    forall i, j :: 0 <= i < |calls| && 0 <= j < |calls| && Jti(calls[i]) == Jti(calls[j]) ==>
      calls[i].raw.exp == calls[j].raw.exp
  }

  /** With one expiry per jti, ever accepted means still in its window, for any proof that passes the checks. */
  lemma LiveIsEver(cfg: Config, calls: seq<Call>, call: Call)
    requires OneExpiryPerJti(calls + [call]) && Passes(cfg, call)
    ensures LiveBefore(cfg, calls, Jti(call), call.now) <==> EverAccepted(cfg, calls, Jti(call))
  {
    PassingBounds(cfg, call);
    var all := calls + [call];
    forall i: nat | AcceptedAt(cfg, calls, i, Jti(call)) ensures Expires(cfg, calls[i]) >= call.now {
      assert all[i] == calls[i] && all[|calls|] == call;
    }
  }

  /** Each call is decided as by the set of everything ever accepted, apart from the cache being full. */
  lemma DecidedAsByUnboundedSet(cfg: Config, calls: seq<Call>, call: Call)
    requires ClockNeverGoesBack(calls + [call]) && OneExpiryPerJti(calls + [call]) && Passes(cfg, call)
    ensures var outcome := Validate(cfg, Run(cfg, calls), call).0;
      if EverAccepted(cfg, calls, Jti(call)) then outcome == Rejected(Replayed)
      else outcome == Accepted || outcome == Rejected(CacheFull)
  {
    ReplayedWhileLive(cfg, calls, call);
    LiveIsEver(cfg, calls, call);
  }

  /** The same service with a set of all accepted jtis in place of the cache, refusing for lack of room when the
      cache does. */
  function IdealRun(cfg: Config, calls: seq<Call>): (set<string>, seq<Outcome>) {
    if calls == [] then ({}, [])
    else
      var (seen, outcomes) := IdealRun(cfg, calls[..|calls| - 1]);
      var last := calls[|calls| - 1];
      match CheckClaims(cfg, last)
      case Some(error) => (seen, outcomes + [Rejected(error)])
      case None =>
        if Jti(last) in seen then (seen, outcomes + [Rejected(Replayed)])
        else if OutcomeOf(cfg, calls, |calls| - 1) == Rejected(CacheFull) then (seen, outcomes + [Rejected(CacheFull)])
        else (seen + {Jti(last)}, outcomes + [Accepted])
  }

  lemma EverAcceptedGrows(cfg: Config, calls: seq<Call>, call: Call, jti: string)
    ensures EverAccepted(cfg, calls + [call], jti) <==>
              EverAccepted(cfg, calls, jti) || (Jti(call) == jti && Validate(cfg, Run(cfg, calls), call).0 == Accepted)
  {
    var all := calls + [call];
    assert all[..|calls|] == calls;
    forall i: nat | i < |calls| { AcceptedInPrefix(cfg, all, |calls|, i, jti); }
    if EverAccepted(cfg, calls, jti) {
      var i: nat :| AcceptedAt(cfg, calls, i, jti);
      assert AcceptedAt(cfg, all, i, jti);
    }
    AcceptedLast(cfg, calls, call, jti);
  }

  lemma AcceptedLast(cfg: Config, calls: seq<Call>, call: Call, jti: string)
    ensures AcceptedAt(cfg, calls + [call], |calls|, jti)
       <==> Jti(call) == jti && Validate(cfg, Run(cfg, calls), call).0 == Accepted
  {
    assert (calls + [call])[..|calls|] == calls;
  }

  lemma IdealStep(cfg: Config, calls: seq<Call>, call: Call)
    requires ClockNeverGoesBack(calls + [call]) && OneExpiryPerJti(calls + [call])
    requires forall jti :: jti in IdealRun(cfg, calls).0 <==> EverAccepted(cfg, calls, jti)
    ensures var outcome := Validate(cfg, Run(cfg, calls), call).0;
      && IdealRun(cfg, calls + [call]).1 == IdealRun(cfg, calls).1 + [outcome]
      && IdealRun(cfg, calls + [call]).0 == IdealRun(cfg, calls).0 + if outcome.Accepted? then {Jti(call)} else {}
  {
    assert (calls + [call])[..|calls|] == calls;
    if Passes(cfg, call) { DecidedAsByUnboundedSet(cfg, calls, call); }
  }

  /** Every run of the purging cache gives exactly the outcomes of the unbounded set. */
  lemma {:induction false} SameOutcomes(cfg: Config, calls: seq<Call>)
    requires ClockNeverGoesBack(calls) && OneExpiryPerJti(calls)
    ensures |IdealRun(cfg, calls).1| == |calls|
    ensures forall i :: 0 <= i < |calls| ==> IdealRun(cfg, calls).1[i] == OutcomeOf(cfg, calls, i)
    ensures forall jti :: jti in IdealRun(cfg, calls).0 <==> EverAccepted(cfg, calls, jti)
  {
    if calls != [] {
      var rest, last := calls[..|calls| - 1], calls[|calls| - 1];
      assert calls == rest + [last];
      SameOutcomes(cfg, rest);
      IdealStep(cfg, rest, last);
      forall jti { EverAcceptedGrows(cfg, rest, last, jti); }
      forall i | 0 <= i < |rest| ensures OutcomeOf(cfg, calls, i) == OutcomeOf(cfg, rest, i) {
        assert rest[..i] == calls[..i];
      }
    }
  }

  // ---- Capacity ----

  /** The jtis of the proofs accepted at or after the given time. */
  function AcceptedSince(cfg: Config, calls: seq<Call>, time: int): set<string> {
    set i | 0 <= i < |calls| && calls[i].now >= time && OutcomeOf(cfg, calls, i) == Accepted :: Jti(calls[i])
  }

  lemma RecentlyAccepted(cfg: Config, calls: seq<Call>, i: nat, now: int)
    requires i < |calls| && OutcomeOf(cfg, calls, i) == Accepted && Expires(cfg, calls[i]) >= now
    ensures Jti(calls[i]) in AcceptedSince(cfg, calls, now - (cfg.maxProofAgeSeconds + 2 * cfg.clockSkewSeconds))
  {
    assert Passes(cfg, calls[i]);
    PassingBounds(cfg, calls[i]);
  }

  /** What is cached was accepted no longer ago than a proof can live, whatever the clock did in between. */
  lemma {:induction false} CachedAreRecent(cfg: Config, calls: seq<Call>, now: int)
    ensures Purge(Run(cfg, calls), now).Keys
         <= AcceptedSince(cfg, calls, now - (cfg.maxProofAgeSeconds + 2 * cfg.clockSkewSeconds))
  {
    var cache, since := Run(cfg, calls), now - (cfg.maxProofAgeSeconds + 2 * cfg.clockSkewSeconds);
    var recent := AcceptedSince(cfg, calls, since);
    forall jti | jti in cache && cache[jti] >= now ensures jti in recent {
      CachedExactly(cfg, calls, jti, cache[jti]);
      var i: nat :| HeldUntil(cfg, calls, i, jti, cache[jti]);
      RecentlyAccepted(cfg, calls, i, now);
    }
  }

  lemma SmallerSet(a: set<string>, b: set<string>)
    requires a <= b
    ensures |a| <= |b|
  {
    if a != {} {
      var x :| x in a;
      SmallerSet(a - {x}, b - {x});
    }
  }

  /** A proof is turned away for lack of room only when at least that many distinct proofs were accepted
      within the longest time a proof can stay cached. */
  lemma {:induction false} CacheFullMeansBusy(cfg: Config, calls: seq<Call>, call: Call)
    requires Validate(cfg, Run(cfg, calls), call).0 == Rejected(CacheFull)
    ensures |AcceptedSince(cfg, calls, call.now - (cfg.maxProofAgeSeconds + 2 * cfg.clockSkewSeconds))|
         >= cfg.replayCacheMaxEntries
  {
    CachedAreRecent(cfg, calls, call.now);
    SmallerSet(Purge(Run(cfg, calls), call.now).Keys,
               AcceptedSince(cfg, calls, call.now - (cfg.maxProofAgeSeconds + 2 * cfg.clockSkewSeconds)));
  }

  lemma OneMoreEntry(cache: map<string, int>, now: int, jti: string, expiresAt: int)
    ensures |Purge(cache, now)| <= |cache|
    ensures |Purge(cache, now)[jti := expiresAt]| <= |Purge(cache, now)| + 1
  {
    var purged := Purge(cache, now);
    SmallerSet(purged.Keys, cache.Keys);
    assert purged[jti := expiresAt].Keys == purged.Keys + {jti};
  }

  /** The cache never outgrows its bound, whatever the clock does. */
  lemma {:induction false} CacheBounded(cfg: Config, calls: seq<Call>)
    ensures |Run(cfg, calls)| <= cfg.replayCacheMaxEntries
  {
    if calls != [] {
      var rest, last := calls[..|calls| - 1], calls[|calls| - 1];
      CacheBounded(cfg, rest);
      OneMoreEntry(Run(cfg, rest), last.now, Jti(last), Expires(cfg, last));
    }
  }

  // ---- A clock that goes back ----

  /** A proof that the cache has forgotten is accepted again when the clock goes back into its window. */
  lemma ReplayAfterClockJump(cfg: Config, a: Call, b: Call)
    requires Passes(cfg, a) && Passes(cfg, b)
    requires Jti(a) != Jti(b) && Expires(cfg, a) < b.now && cfg.replayCacheMaxEntries >= 2
    ensures AcceptedAt(cfg, [a, b, a], 0, Jti(a)) && AcceptedAt(cfg, [a, b, a], 2, Jti(a))
  {
    var one, two := map[Jti(a) := Expires(cfg, a)], map[Jti(b) := Expires(cfg, b)];
    var calls := [a, b, a];
    assert calls[..0] == [] && calls[..1] == [] + [a] == [a] && calls[..2] == [a] + [b];
    AcceptStep(cfg, map[], a, map[]);
    RunOneMore(cfg, [], a);
    AcceptStep(cfg, one, b, map[]);
    RunOneMore(cfg, [a], b);
    AtMostOne(Purge(two, a.now), Jti(b));
    AcceptStep(cfg, two, a, Purge(two, a.now));
  }

  lemma AcceptStep(cfg: Config, cache: map<string, int>, call: Call, purged: map<string, int>)
    requires Passes(cfg, call) && purged == Purge(cache, call.now)
    requires Jti(call) !in purged && |purged| < cfg.replayCacheMaxEntries
    ensures Validate(cfg, cache, call) == (Accepted, purged[Jti(call) := Expires(cfg, call)])
  {
  }

  lemma AtMostOne(cache: map<string, int>, jti: string)
    requires cache.Keys <= {jti}
    ensures |cache| <= 1
  {
    assert cache == if jti in cache then map[jti := cache[jti]] else map[];
  }

  /** Without the assumption on the clock the same proof can be accepted twice. */
  lemma ClockJumpAllowsReplay()
    ensures exists cfg: Config, a: Call, b: Call ::
              AcceptedAt(cfg, [a, b, a], 0, Jti(a)) && AcceptedAt(cfg, [a, b, a], 2, Jti(a))
  {
    var cfg := Config("a", 10, 0, 5);
    var r := Request("GET", "/", "", "d");
    var a := Call(RawClaims(Text(ISSUER), Text("a"), Text("x"), Text(READ), Text("j"), Integer(0), Integer(5),
                            Text("GET"), Text("/" + ""), Text("d")), r, 0);
    var b := a.(raw := a.raw.(jti := Text("k"), iat := Integer(100), exp := Integer(105)), now := 100);
    assert IsName("x");
    assert "j"[0] != "k"[0];
    assert Passes(cfg, a) && Passes(cfg, b);
    ReplayAfterClockJump(cfg, a, b);
  }
}

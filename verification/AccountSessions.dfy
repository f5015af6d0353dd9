/** Accounts and login sessions: a login reads the account row and later inserts a session carrying the row's
    session version; an update reads the row and later writes back a row whose version it may have raised. The
    reads and writes of different requests interleave freely. Times are milliseconds. */
module AccountSessions {
  import opened Options

  datatype AuthSource = Local | Oidc | Header | McpSource
  datatype Role = Mcp | SuperAdmin | Other(name: string)

  /** A row of app_users, without the columns that no decision here reads. */
  datatype User = User(
    email: Option<string>,
    role: Role,
    authSource: AuthSource,
    externalSubject: Option<string>,
    passwordHash: Option<string>,
    disabled: bool,
    sessionVersion: int)

  /** A row of sessions. No statement ever updates one. */
  datatype Session = Session(userId: string, sessionVersion: int, expiresAt: int)

  datatype Db = Db(users: map<string, User>, sessions: map<string, Session>)

  // ---- The row an update computes from the row it read ----

  datatype Change =
    | Admin(email: Option<string>, role: Role, disabled: bool, newHash: Option<string>)
    | Sync(authSource: AuthSource, subject: Option<string>, syncedEmail: Option<string>)

  /** updateUser by anyone but the MCP user; None stands for its errors. newHash is the hash of the new password, if
      one was given. */
  function AdminUpdate(user: User, change: Change): Option<User>
    requires change.Admin?
  {
    if user.authSource.McpSource? || (!user.authSource.Local? && (change.disabled || change.newHash.Some?)) then None
    else
      var nextHash :=
        if !user.authSource.Local? then None
        else if change.newHash.Some? then change.newHash
        else user.passwordHash;
      var nextDisabled := user.authSource.Local? && change.disabled;
      var bump := nextHash != user.passwordHash || nextDisabled != user.disabled;
      Some(User(change.email, change.role, user.authSource, user.externalSubject, nextHash, nextDisabled,
                if bump then user.sessionVersion + 1 else user.sessionVersion))
  }

  /** syncExternalAccount. */
  function Synced(user: User, change: Change): User
    requires change.Sync?
  {
    var bump :=
      || user.authSource != change.authSource
      || user.externalSubject != change.subject
      || user.passwordHash.Some?
      || user.disabled;
    User(change.syncedEmail, user.role, change.authSource, change.subject, None, false,
         if bump then user.sessionVersion + 1 else user.sessionVersion)
  }

  function Apply(user: User, change: Change): Option<User> {
    if change.Admin? then AdminUpdate(user, change) else Some(Synced(user, change))
  }

  /** What must end every earlier session: another password, another disabled state, another external link. */
  predicate CredentialsDiffer(user: User, next: User) {
    || user.passwordHash != next.passwordHash
    || user.disabled != next.disabled
    || user.authSource != next.authSource
    || user.externalSubject != next.externalSubject
  }

  lemma BumpsExactlyOnCredentials(user: User, change: Change)
    requires Apply(user, change).Some?
    ensures var next := Apply(user, change).value;
      && user.sessionVersion <= next.sessionVersion <= user.sessionVersion + 1
      && (next.sessionVersion != user.sessionVersion <==> CredentialsDiffer(user, next))
  {
    match change
    case Admin(_, _, _, _) =>
    case Sync(_, _, _) =>
  }

  /** What makes updateUser refuse: the reserved account, or a password or a disabling asked for an external one. */
  predicate Refused(user: User, disabled: bool, newHash: Option<string>) {
    user.authSource.McpSource? || (!user.authSource.Local? && (disabled || newHash.Some?))
  }

  /** The row that an administrator asked for. */
  predicate AsAsked(user: User, next: User, email: Option<string>, role: Role, disabled: bool, newHash: Option<string>)
  {
    && next.email == email && next.role == role
    && next.authSource == user.authSource && next.externalSubject == user.externalSubject
    && (user.authSource.Local? ==>
          && next.disabled == disabled
          && next.passwordHash == if newHash.Some? then newHash else user.passwordHash)
    && (!user.authSource.Local? ==> !next.disabled && next.passwordHash == None)
  }

  lemma AdminUpdateAsAsked(user: User, email: Option<string>, role: Role, disabled: bool, newHash: Option<string>)
    ensures var next := AdminUpdate(user, Admin(email, role, disabled, newHash));
      && (next == None <==> Refused(user, disabled, newHash))
      && (next.Some? ==> AsAsked(user, next.value, email, role, disabled, newHash))
  {
  }

  /** Whether the request, read against the row it meets, changes a credential. */
  predicate AsksForBump(user: User, change: Change) {
    match change
    case Admin(_, _, disabled, newHash) =>
      if user.authSource.Local?
      then disabled != user.disabled || (newHash.Some? && newHash != user.passwordHash)
      else user.disabled || user.passwordHash.Some?
    case Sync(authSource, subject, _) =>
      user.authSource != authSource || user.externalSubject != subject || user.passwordHash.Some? || user.disabled
  }

  /** An accepted request raises the version by one exactly if it asks for another credential. */
  lemma BumpsExactlyAsAsked(user: User, change: Change)
    requires Apply(user, change).Some?
    ensures Apply(user, change).value.sessionVersion
         == user.sessionVersion + if AsksForBump(user, change) then 1 else 0
  {
    match change
    case Admin(_, _, _, _) =>
    case Sync(_, _, _) =>
  }

  // ---- Statements ----

  /** UPDATE app_users ... WHERE id: a missing row is no error. */
  function WriteUser(db: Db, id: string, user: User): Db {
    if id in db.users then db.(users := db.users[id := user]) else db
  }

  function DropSessions(db: Db, id: string): Db {
    db.(sessions := map sid | sid in db.sessions && db.sessions[sid].userId != id :: db.sessions[sid])
  }

  /** What deleting an account's sessions leaves. */
  ghost predicate OthersOnly(before: map<string, Session>, after: map<string, Session>, id: string) {
    && (forall sid :: sid in after <==> sid in before && before[sid].userId != id)
    && (forall sid :: sid in after ==> after[sid] == before[sid])
  }

  predicate MayLogIn(user: User) { !user.authSource.McpSource? && !user.role.Mcp? }

  /** INSERT INTO sessions: the foreign key and the primary key are enforced. */
  predicate CanInsert(db: Db, sid: string, id: string) { id in db.users && sid !in db.sessions }

  /** getUserFromCookie's verdict on a session row it has read. */
  predicate Accepts(db: Db, session: Session, now: int) {
    && session.expiresAt > now
    && session.userId in db.users
    && !db.users[session.userId].disabled
    && MayLogIn(db.users[session.userId])
    && db.users[session.userId].sessionVersion == session.sessionVersion
  }

  function Visited(db: Db, sid: string, now: int): Db {
    if sid in db.sessions && !Accepts(db, db.sessions[sid], now) then db.(sessions := db.sessions - {sid}) else db
  }

  function Deleted(db: Db, id: string): Db {
    DropSessions(db, id).(users := db.users - {id})
  }

  // ---- Interleaved requests ----

  /** A row in the hands of some request; at: how many events had happened once it was read. */
  datatype Read = Read(id: string, user: User, at: nat)

  /** A session that was inserted at some time, and the read it was made from. */
  datatype Issued = Issued(sid: string, session: Session, read: nat)

  datatype Event =
    | ReadUser(id: string)
    | WriteUpdate(read: nat, change: Change)
    | InsertSession(sid: string, read: nat, expiresAt: int)
    | DeleteSessionsForUser(id: string)
    | DeleteSession(sid: string)
    | PurgeExpired(now: int)
    | VisitWith(sid: string, now: int)
    | CreateUser(id: string, user: User)
    | DeleteUser(id: string)

  /** snapshots, issued, used (every id ever created) and clock are history. */
  datatype State = State(db: Db, snapshots: seq<Read>, issued: seq<Issued>, used: set<string>, clock: nat)

  function WriteStep(s: State, read: nat, change: Change): State
    requires read < |s.snapshots|
  {
    var r := s.snapshots[read];
    match Apply(r.user, change)
    case None => s
    case Some(next) =>
      s.(db := WriteUser(s.db, r.id, next),
         snapshots := if change.Sync? then s.snapshots + [Read(r.id, next, s.clock + 1)] else s.snapshots)
  }

  function InsertStep(s: State, sid: string, read: nat, expiresAt: int): State
    requires read < |s.snapshots|
  {
    var r := s.snapshots[read];
    if !MayLogIn(r.user) || !CanInsert(s.db, sid, r.id) then s
    else
      var session := Session(r.id, r.user.sessionVersion, expiresAt);
      s.(db := s.db.(sessions := s.db.sessions[sid := session]), issued := s.issued + [Issued(sid, session, read)])
  }

  function Effect(s: State, e: Event): State {
    match e
    case ReadUser(id) =>
      if id in s.db.users then s.(snapshots := s.snapshots + [Read(id, s.db.users[id], s.clock + 1)]) else s
    case WriteUpdate(read, change) => if read < |s.snapshots| then WriteStep(s, read, change) else s
    case InsertSession(sid, read, expiresAt) => if read < |s.snapshots| then InsertStep(s, sid, read, expiresAt) else s
    case DeleteSessionsForUser(id) => s.(db := DropSessions(s.db, id))
    case DeleteSession(sid) => s.(db := s.db.(sessions := s.db.sessions - {sid}))
    case PurgeExpired(now) =>
      s.(db := s.db.(sessions := map x | x in s.db.sessions && s.db.sessions[x].expiresAt >= now :: s.db.sessions[x]))
    case VisitWith(sid, now) => s.(db := Visited(s.db, sid, now))
    case CreateUser(id, user) => s.(db := s.db.(users := s.db.users[id := user]), used := s.used + {id})
    case DeleteUser(id) => s.(db := Deleted(s.db, id))
  }

  const START := State(Db(map[], map[]), [], [], {}, 0)

  function Next(s: State, e: Event): State {
    Effect(s, e).(clock := s.clock + 1)
  }

  function Run(events: seq<Event>): State {
    if events == [] then START else Next(Run(events[..|events| - 1]), events[|events| - 1])
  }

  /** The random id of this account is new when the account is created, and the account is written only while it still
      has the version that was read. Nothing is said about other accounts. */
  predicate Current(s: State, e: Event, id: string) {
    match e
    case CreateUser(created, _) => created == id ==> id !in s.used
    case WriteUpdate(read, _) =>
      read < |s.snapshots| && s.snapshots[read].id == id && id in s.db.users ==>
        s.db.users[id].sessionVersion == s.snapshots[read].user.sessionVersion
    case _ => true
  }

  predicate CurrentAt(events: seq<Event>, i: nat, id: string) {
    i < |events| ==> Current(Run(events[..i]), events[i], id)
  }

  /** From some event on, the updates to this account are serialised. */
  ghost predicate SerialisedFrom(events: seq<Event>, from: nat, id: string) {
    forall i :: from <= i < |events| ==> CurrentAt(events, i, id)
  }

  ghost predicate Serialised(events: seq<Event>, id: string) {
    SerialisedFrom(events, 0, id)
  }

  predicate WritesTo(s: State, e: Event, id: string) {
    e.WriteUpdate? && e.read < |s.snapshots| && s.snapshots[e.read].id == id
  }

  /** An event that raises the version of the account. */
  predicate Bumps(s: State, e: Event, id: string) {
    && e.WriteUpdate?
    && e.read < |s.snapshots|
    && s.snapshots[e.read].id == id
    && id in s.db.users
    && Apply(s.snapshots[e.read].user, e.change).Some?
    && Apply(s.snapshots[e.read].user, e.change).value.sessionVersion != s.snapshots[e.read].user.sessionVersion
  }

  predicate BumpsAt(events: seq<Event>, i: nat, id: string) {
    i < |events| && Bumps(Run(events[..i]), events[i], id)
  }

  ghost predicate BumpedSince(events: seq<Event>, at: nat, id: string) {
    exists i :: at <= i < |events| && BumpsAt(events, i, id)
  }

  // ---- Versions only grow ----

  lemma Prefixes(events: seq<Event>)
    requires events != []
    ensures var rest := events[..|events| - 1];
      && (forall i :: 0 <= i <= |rest| ==> rest[..i] == events[..i])
      && (forall i :: 0 <= i < |rest| ==> rest[i] == events[i])
  {
  }

  lemma SerialisedPrefix(events: seq<Event>, from: nat, id: string)
    requires from < |events| && SerialisedFrom(events, from, id)
    ensures SerialisedFrom(events[..|events| - 1], from, id)
    ensures Current(Run(events[..|events| - 1]), events[|events| - 1], id)
  {
    var n := |events| - 1;
    assert CurrentAt(events, n, id);
    forall i | from <= i < n ensures CurrentAt(events[..n], i, id) {
      assert CurrentAt(events, i, id);
      assert events[..n][..i] == events[..i];
    }
  }

  lemma {:induction false} SerialisedSnoc(events: seq<Event>, e: Event, from: nat, id: string)
    requires SerialisedFrom(events, from, id) && Current(Run(events), e, id)
    ensures SerialisedFrom(events + [e], from, id)
  {
    var all := events + [e];
    forall i | from <= i < |all| ensures CurrentAt(all, i, id) {
      assert all[..i] == if i < |events| then events[..i] else events;
      assert i < |events| ==> CurrentAt(events, i, id);
    }
  }

  lemma BumpsAtPrefix(events: seq<Event>, i: nat, id: string)
    requires i < |events|
    ensures var rest := events[..|events| - 1];
      BumpsAt(events, i, id) <==> if i < |rest| then BumpsAt(rest, i, id) else Bumps(Run(rest), events[i], id)
  {
    if i < |events| - 1 { assert events[..|events| - 1][..i] == events[..i]; }
  }

  lemma StillBumped(events: seq<Event>, at: nat, id: string)
    requires at < |events|
    ensures BumpedSince(events[..|events| - 1], at, id) ==> BumpedSince(events, at, id)
  {
    var rest := events[..|events| - 1];
    if i :| at <= i < |rest| && BumpsAt(rest, i, id) { BumpsAtPrefix(events, i, id); }
  }

  lemma BumpedByLastOrBefore(events: seq<Event>, at: nat, id: string)
    requires at < |events| && BumpedSince(events, at, id)
    ensures var rest := events[..|events| - 1];
      BumpedSince(rest, at, id) || Bumps(Run(rest), events[|events| - 1], id)
  {
    var i :| at <= i < |events| && BumpsAt(events, i, id);
    BumpsAtPrefix(events, i, id);
  }

  lemma BumpedSinceStep(events: seq<Event>, at: nat, id: string)
    requires at < |events|
    ensures var rest := events[..|events| - 1];
      BumpedSince(events, at, id) <==> BumpedSince(rest, at, id) || Bumps(Run(rest), events[|events| - 1], id)
  {
    StillBumped(events, at, id);
    BumpsAtPrefix(events, |events| - 1, id);
    if BumpedSince(events, at, id) { BumpedByLastOrBefore(events, at, id); }
  }

  lemma {:induction false} IdsAreUsed(events: seq<Event>)
    ensures Run(events).db.users.Keys <= Run(events).used && Run(events).clock == |events|
    ensures forall r :: r in Run(events).snapshots ==> r.id in Run(events).used && r.at <= |events|
  {
    if events != [] {
      IdsAreUsed(events[..|events| - 1]);
    }
  }

  lemma UsedByStep(s: State, e: Event)
    ensures s.used <= Next(s, e).used
  {
  }

  lemma {:induction false} UsedGrows(events: seq<Event>, at: nat)
    requires at <= |events|
    ensures Run(events[..at]).used <= Run(events).used
    decreases |events|
  {
    if at == |events| {
      assert events[..at] == events;
    } else {
      var rest := events[..|events| - 1];
      assert rest[..at] == events[..at];
      UsedGrows(rest, at);
      UsedByStep(Run(rest), events[|rest|]);
    }
  }

  lemma EffectOnVersion(s: State, e: Event, id: string)
    requires Current(s, e, id) && id in s.used && id in Effect(s, e).db.users
    ensures id in s.db.users
    ensures var was, now := s.db.users[id].sessionVersion, Effect(s, e).db.users[id].sessionVersion;
      if Bumps(s, e, id) then now == was + 1 else was == now
  {
    if e.WriteUpdate? && e.read < |s.snapshots| && Apply(s.snapshots[e.read].user, e.change).Some? {
      BumpsExactlyOnCredentials(s.snapshots[e.read].user, e.change);
    }
  }

  /** From the moment on that its updates are serialised an account's version rises exactly if something bumps it. */
  lemma {:induction false} VersionsTellBumps(events: seq<Event>, at: nat, id: string)
    requires at <= |events| && SerialisedFrom(events, at, id)
    requires id in Run(events[..at]).used && id in Run(events).db.users
    ensures id in Run(events[..at]).db.users
    ensures var was, now := Run(events[..at]).db.users[id].sessionVersion, Run(events).db.users[id].sessionVersion;
      if BumpedSince(events, at, id) then was < now else was == now
    decreases |events|
  {
    if at == |events| {
      assert events[..at] == events;
    } else {
      var rest := events[..|events| - 1];
      Prefixes(events);
      SerialisedPrefix(events, at, id);
      UsedGrows(rest, at);
      EffectOnVersion(Run(rest), events[|events| - 1], id);
      VersionsTellBumps(rest, at, id);
      BumpedSinceStep(events, at, id);
    }
  }

  // ---- What a read knows ----

  /** A read row has the version the account had when it was read, unless the account was already gone. */
  ghost predicate ReadIsTrue(events: seq<Event>, r: Read) {
    && r.at <= |events|
    && r.id in Run(events[..r.at]).used
    && (r.id in Run(events[..r.at]).db.users ==>
          Run(events[..r.at]).db.users[r.id].sessionVersion == r.user.sessionVersion)
  }

  lemma ReadByStep(s: State, e: Event, r: Read)
    requires s.db.users.Keys <= s.used && forall x :: x in s.snapshots ==> x.id in s.used
    requires r in Effect(s, e).snapshots && r !in s.snapshots
    ensures r.at == s.clock + 1 && r.id in s.used
    ensures r.id in Effect(s, e).db.users ==> Effect(s, e).db.users[r.id].sessionVersion == r.user.sessionVersion
  {
  }

  lemma {:induction false} NewRead(events: seq<Event>, r: Read)
    requires events != [] && r in Run(events).snapshots && r !in Run(events[..|events| - 1]).snapshots
    ensures ReadIsTrue(events, r)
  {
    var rest := events[..|events| - 1];
    IdsAreUsed(rest);
    ReadByStep(Run(rest), events[|events| - 1], r);
    UsedGrows(events, |rest|);
    assert events[..|events|] == events;
  }

  lemma {:induction false} ReadsAreTrue(events: seq<Event>, r: Read)
    requires r in Run(events).snapshots
    ensures ReadIsTrue(events, r)
  {
    var rest := events[..|events| - 1];
    Prefixes(events);
    if r in Run(rest).snapshots {
      ReadsAreTrue(rest, r);
    } else {
      NewRead(events, r);
    }
  }

  ghost predicate CameFromRead(s: State, issued: Issued) {
    && issued.read < |s.snapshots|
    && issued.session.userId == s.snapshots[issued.read].id
    && issued.session.sessionVersion == s.snapshots[issued.read].user.sessionVersion
  }

  lemma {:induction false} IssuedFromReads(events: seq<Event>, k: nat)
    requires k < |Run(events).issued|
    ensures CameFromRead(Run(events), Run(events).issued[k])
  {
    var rest := events[..|events| - 1];
    if k < |Run(rest).issued| { IssuedFromReads(rest, k); }
  }

  lemma StoredByStep(s: State, e: Event, sid: string)
    requires sid in Effect(s, e).db.sessions
    ensures s.issued <= Effect(s, e).issued
    ensures if sid in s.db.sessions then Effect(s, e).db.sessions[sid] == s.db.sessions[sid]
            else e.InsertSession? && |Effect(s, e).issued| == |s.issued| + 1
                 && Effect(s, e).issued[|s.issued|] == Issued(sid, Effect(s, e).db.sessions[sid], e.read)
  {
  }

  /** Every stored session was issued, and is as it was then. */
  lemma {:induction false} StoredWasIssued(events: seq<Event>, sid: string) returns (k: nat)
    requires sid in Run(events).db.sessions
    ensures k < |Run(events).issued|
    ensures var issued := Run(events).issued[k]; issued.sid == sid && issued.session == Run(events).db.sessions[sid]
  {
    var rest, last := events[..|events| - 1], events[|events| - 1];
    StoredByStep(Run(rest), last, sid);
    if sid in Run(rest).db.sessions { k := StoredWasIssued(rest, sid); } else { k := |Run(rest).issued|; }
  }

  // ---- Which sessions are accepted ----

  /** What the account must be for a session of it to be accepted at all. */
  predicate Usable(db: Db, id: string) {
    id in db.users && !db.users[id].disabled && MayLogIn(db.users[id])
  }

  /** Since the read that the k-th issued session was made from, the updates to its account have been serialised. */
  ghost predicate SerialisedSinceRead(events: seq<Event>, k: nat)
    requires k < |Run(events).issued|
  {
    var s, issued := Run(events), Run(events).issued[k];
    issued.read < |s.snapshots| ==>
      SerialisedFrom(events, s.snapshots[issued.read].at, issued.session.userId)
  }

  /** With updates to its account serialised since its login's read, an issued session passes the checks exactly while
      it has not expired, the account exists, is enabled and may log in, and nothing has bumped the account since that
      read: whether the session row was inserted before or after the bump makes no difference. */
  lemma {:induction false} IssuedAcceptedExactly(events: seq<Event>, k: nat, now: int)
    requires k < |Run(events).issued| && SerialisedSinceRead(events, k)
    ensures CameFromRead(Run(events), Run(events).issued[k])
    ensures var s, issued := Run(events), Run(events).issued[k];
      Accepts(s.db, issued.session, now) <==>
        && issued.session.expiresAt > now
        && Usable(s.db, issued.session.userId)
        && !BumpedSince(events, s.snapshots[issued.read].at, issued.session.userId)
  {
    IssuedFromReads(events, k);
    var s, session := Run(events), Run(events).issued[k].session;
    var r := s.snapshots[s.issued[k].read];
    ReadsAreTrue(events, r);
    if session.userId in s.db.users { VersionsTellBumps(events, r.at, r.id); }
  }

  /** A cookie is accepted exactly while its session row is stored and the session it was issued as passes. */
  lemma SessionAcceptedExactly(events: seq<Event>, sid: string, now: int) returns (k: nat)
    requires sid in Run(events).db.sessions
    ensures k < |Run(events).issued| && Run(events).issued[k].sid == sid
    ensures CameFromRead(Run(events), Run(events).issued[k])
    ensures var s := Run(events);
      var session := s.db.sessions[sid];
      && session == s.issued[k].session
      && (SerialisedSinceRead(events, k) ==>
          (Visited(s.db, sid, now) == s.db <==>
            && session.expiresAt > now
            && Usable(s.db, session.userId)
            && !BumpedSince(events, s.snapshots[s.issued[k].read].at, session.userId)))
  {
    k := StoredWasIssued(events, sid);
    IssuedFromReads(events, k);
    if SerialisedSinceRead(events, k) { IssuedAcceptedExactly(events, k, now); }
    var s := Run(events);
    assert !Accepts(s.db, s.db.sessions[sid], now) ==> sid !in Visited(s.db, sid, now).sessions;
  }

  lemma ReadsGrow(s: State, e: Event)
    ensures s.snapshots <= Next(s, e).snapshots
  {
  }

  lemma {:induction false} ReadsKept(events: seq<Event>, at: nat)
    requires at <= |events|
    ensures Run(events[..at]).snapshots <= Run(events).snapshots
    decreases |events|
  {
    if at == |events| {
      assert events[..at] == events;
    } else {
      var rest := events[..|events| - 1];
      assert rest[..at] == events[..at];
      ReadsKept(rest, at);
      ReadsGrow(Run(rest), events[|rest|]);
    }
  }

  /** Once the account is bumped, no session from an earlier read of it is accepted in any later state. */
  lemma BumpEndsEarlierSessions(events: seq<Event>, bump: nat, k: nat, now: int)
    requires bump < |events| && k < |Run(events).issued| && SerialisedSinceRead(events, k)
    requires BumpsAt(events, bump, Run(events).issued[k].session.userId)
    requires Run(events).issued[k].read < |Run(events[..bump]).snapshots|
    ensures !Accepts(Run(events).db, Run(events).issued[k].session, now)
  {
    IssuedFromReads(events, k);
    ReadsKept(events, bump);
    IdsAreUsed(events[..bump]);
    var issued := Run(events).issued[k];
    assert Run(events[..bump]).snapshots[issued.read].at <= bump;
    assert Run(events).snapshots[issued.read] in Run(events[..bump]).snapshots;
    assert BumpedSince(events, Run(events).snapshots[issued.read].at, issued.session.userId);
    IssuedAcceptedExactly(events, k, now);
  }

  /** Exactly the requests for another credential that are not refused are bumps. */
  predicate Asks(s: State, e: Event, id: string) {
    && WritesTo(s, e, id)
    && id in s.db.users
    && (e.change.Admin? ==> !Refused(s.snapshots[e.read].user, e.change.disabled, e.change.newHash))
    && AsksForBump(s.snapshots[e.read].user, e.change)
  }

  lemma BumpsIsAsks(s: State, e: Event, id: string)
    ensures Bumps(s, e, id) <==> Asks(s, e, id)
  {
    if WritesTo(s, e, id) {
      var user := s.snapshots[e.read].user;
      if e.change.Admin? {
        AdminUpdateAsAsked(user, e.change.email, e.change.role, e.change.disabled, e.change.newHash);
      }
      if Apply(user, e.change).Some? { BumpsExactlyAsAsked(user, e.change); }
    }
  }

  /** A password reset, a disabling or enabling, or a sync from elsewhere ends every session from an earlier read. */
  lemma {:induction false} RequestEndsEarlierSessions(events: seq<Event>, i: nat, k: nat, now: int)
    requires i < |events| && k < |Run(events).issued| && SerialisedSinceRead(events, k)
    requires Asks(Run(events[..i]), events[i], Run(events).issued[k].session.userId)
    requires Run(events).issued[k].read < |Run(events[..i]).snapshots|
    ensures !Accepts(Run(events).db, Run(events).issued[k].session, now)
  {
    BumpsIsAsks(Run(events[..i]), events[i], Run(events).issued[k].session.userId);
    BumpEndsEarlierSessions(events, i, k, now);
  }

  // ---- What an administrator's request does ----

  /** The write stores what was asked for, whatever row it was computed from. */
  lemma AdminWriteStored(events: seq<Event>, read: nat, email: Option<string>, role: Role, disabled: bool,
                         newHash: Option<string>)
    requires read < |Run(events).snapshots| && Run(events).snapshots[read].id in Run(events).db.users
    requires !Refused(Run(events).snapshots[read].user, disabled, newHash)
    ensures var r := Run(events).snapshots[read];
      var after := Run(events + [WriteUpdate(read, Admin(email, role, disabled, newHash))]).db;
      && r.id in after.users && AsAsked(r.user, after.users[r.id], email, role, disabled, newHash)
      && after == Run(events).db.(users := Run(events).db.users[r.id := after.users[r.id]])
  {
    AdminUpdateAsAsked(Run(events).snapshots[read].user, email, role, disabled, newHash);
    RunStep(events, WriteUpdate(read, Admin(email, role, disabled, newHash)));
  }

  /** The id is not given to a new account, and every write to the account asks for it to be disabled. */
  predicate KeepsDisabled(s: State, e: Event, id: string) {
    && (e.CreateUser? ==> e.id != id)
    && (WritesTo(s, e, id) ==> e.change.Admin? && e.change.disabled)
  }

  predicate AlwaysKeepsDisabled(s: State, more: seq<Event>, id: string)
    decreases |more|
  {
    more != [] ==> KeepsDisabled(s, more[0], id) && AlwaysKeepsDisabled(Next(s, more[0]), more[1..], id)
  }

  predicate IsDisabled(s: State, id: string) {
    id in s.db.users ==> s.db.users[id].disabled
  }

  lemma StepKeepsDisabled(s: State, e: Event, id: string)
    requires IsDisabled(s, id) && KeepsDisabled(s, e, id)
    ensures IsDisabled(Next(s, e), id)
  {
    if WritesTo(s, e, id) {
      AdminUpdateAsAsked(s.snapshots[e.read].user, e.change.email, e.change.role, e.change.disabled, e.change.newHash);
    }
  }

  lemma {:induction false} DisabledStays(s: State, more: seq<Event>, id: string)
    requires IsDisabled(s, id) && AlwaysKeepsDisabled(s, more, id)
    ensures IsDisabled(Then(s, more), id)
    decreases |more|
  {
    if more != [] {
      StepKeepsDisabled(s, more[0], id);
      DisabledStays(Next(s, more[0]), more[1..], id);
    }
  }

  /** Once a request to disable an account is written, no session of it is accepted, stale reads or not, until some
      other write to it. */
  lemma DisabledIsLockedOut(events: seq<Event>, read: nat, disable: Change, more: seq<Event>, session: Session,
                            now: int)
    requires read < |Run(events).snapshots| && disable.Admin? && disable.disabled
    requires session.userId == Run(events).snapshots[read].id && session.userId in Run(events).db.users
    requires !Refused(Run(events).snapshots[read].user, true, disable.newHash)
    requires AlwaysKeepsDisabled(Run(events + [WriteUpdate(read, disable)]), more, session.userId)
    ensures !Accepts(Run(events + [WriteUpdate(read, disable)] + more).db, session, now)
  {
    AdminWriteStored(events, read, disable.email, disable.role, true, disable.newHash);
    DisabledStays(Run(events + [WriteUpdate(read, disable)]), more, session.userId);
    ThenIsRun(events + [WriteUpdate(read, disable)], more);
  }

  // ---- How a session row comes and goes ----

  /** A login that holds a row of an account that may log in stores a session, under an id that is free, as long as the
      account exists; the session carries the row's version, so it is accepted exactly if the account is usable and
      still has that version. */
  lemma {:induction false} LoginGoesThrough(events: seq<Event>, sid: string, read: nat, expiresAt: int, now: int)
    requires read < |Run(events).snapshots| && sid !in Run(events).db.sessions
    requires var r := Run(events).snapshots[read];
      r.id in Run(events).db.users && !r.user.authSource.McpSource? && !r.user.role.Mcp?
    ensures var r, s := Run(events).snapshots[read], Run(events + [InsertSession(sid, read, expiresAt)]);
      var session := Session(r.id, r.user.sessionVersion, expiresAt);
      && s.db.users == Run(events).db.users
      && s.db.sessions == Run(events).db.sessions[sid := session]
      && s.issued == Run(events).issued + [Issued(sid, session, read)]
      && (Accepts(s.db, session, now) <==>
            expiresAt > now && Usable(s.db, r.id) && s.db.users[r.id].sessionVersion == r.user.sessionVersion)
  {
    RunStep(events, InsertSession(sid, read, expiresAt));
  }

  /** The events that take a stored session away: a logout, the end of its account's sessions or of its account, a purge
      after its expiry, and a visit at which it is refused. */
  predicate TakesAway(db: Db, e: Event, sid: string)
    requires sid in db.sessions
  {
    match e
    case DeleteSession(gone) => gone == sid
    case DeleteSessionsForUser(id) => id == db.sessions[sid].userId
    case DeleteUser(id) => id == db.sessions[sid].userId
    case PurgeExpired(now) => db.sessions[sid].expiresAt < now
    case VisitWith(visited, now) => visited == sid && !Accepts(db, db.sessions[sid], now)
    case _ => false
  }

  /** Nothing else removes a session, and nothing changes one. */
  lemma {:induction false} TakenAwayExactly(events: seq<Event>, e: Event, sid: string)
    requires sid in Run(events).db.sessions
    ensures sid !in Run(events + [e]).db.sessions <==> TakesAway(Run(events).db, e, sid)
    ensures sid in Run(events + [e]).db.sessions ==>
              Run(events + [e]).db.sessions[sid] == Run(events).db.sessions[sid]
  {
    RunStep(events, e);
  }

  /** Every stored session belongs to a stored account: deleting an account deletes its sessions. */
  lemma {:induction false} SessionsHaveAccounts(events: seq<Event>)
    ensures forall sid :: sid in Run(events).db.sessions ==> Run(events).db.sessions[sid].userId in Run(events).db.users
  {
    if events != [] {
      SessionsHaveAccounts(events[..|events| - 1]);
      StepKeepsAccounts(Run(events[..|events| - 1]), events[|events| - 1]);
    }
  }

  lemma StepKeepsAccounts(s: State, e: Event)
    requires forall sid :: sid in s.db.sessions ==> s.db.sessions[sid].userId in s.db.users
    ensures forall sid :: sid in Next(s, e).db.sessions ==> Next(s, e).db.sessions[sid].userId in Next(s, e).db.users
  {
  }

  // ---- One update of an account at a time is enough ----

  predicate WritesAt(events: seq<Event>, i: nat, id: string) {
    i < |events| && WritesTo(Run(events[..i]), events[i], id)
  }

  /** Event j is an update computed from the read r. */
  predicate Uses(events: seq<Event>, j: nat, r: Read) {
    && j < |events|
    && events[j].WriteUpdate?
    && events[j].read < |Run(events[..j]).snapshots|
    && Run(events[..j]).snapshots[events[j].read] == r
  }

  lemma WritesAtPrefix(events: seq<Event>, n: nat, i: nat, id: string)
    requires i < n <= |events|
    ensures WritesAt(events[..n], i, id) == WritesAt(events, i, id)
  {
    assert events[..n][..i] == events[..i];
  }

  lemma UsesPrefix(events: seq<Event>, n: nat, j: nat, r: Read)
    requires j < n <= |events|
    ensures Uses(events[..n], j, r) == Uses(events, j, r)
  {
    assert events[..n][..j] == events[..j];
  }

  lemma OneUpdatePrefix(events: seq<Event>, n: nat, id: string)
    requires OneUpdateAtATime(events, id) && n <= |events|
    ensures OneUpdateAtATime(events[..n], id)
  {
    forall j, r, i | 0 <= j < n && Uses(events[..n], j, r) && r.id == id && r.at <= i < j
      ensures !WritesAt(events[..n], i, id)
    {
      UsesPrefix(events, n, j, r);
      WritesAtPrefix(events, n, i, id);
    }
  }

  /** No other update of the account is written between an update's read and its write. */
  ghost predicate OneUpdateAtATime(events: seq<Event>, id: string) {
    forall j, r :: 0 <= j < |events| && Uses(events, j, r) && r.id == id ==>
      forall i :: r.at <= i < j ==> !WritesAt(events, i, id)
  }

  predicate FreshAt(events: seq<Event>, i: nat, id: string) {
    i < |events| && events[i].CreateUser? && events[i].id == id ==> id !in Run(events[..i]).used
  }

  /** The account is created at most once. */
  ghost predicate CreatedOnce(events: seq<Event>, id: string) {
    forall i :: 0 <= i < |events| ==> FreshAt(events, i, id)
  }

  lemma FreshPrefix(events: seq<Event>, id: string)
    requires events != [] && CreatedOnce(events, id)
    ensures CreatedOnce(events[..|events| - 1], id)
    ensures var last := events[|events| - 1];
      last.CreateUser? && last.id == id ==> id !in Run(events[..|events| - 1]).used
  {
    var n := |events| - 1;
    assert FreshAt(events, n, id);
    forall i | 0 <= i < n ensures FreshAt(events[..n], i, id) {
      assert FreshAt(events, i, id);
      assert events[..n][..i] == events[..i];
    }
  }

  lemma NoBumpWithoutWrite(events: seq<Event>, at: nat, id: string)
    requires forall i :: at <= i < |events| ==> !WritesAt(events, i, id)
    ensures !BumpedSince(events, at, id)
  {
    assert forall i :: at <= i < |events| && BumpsAt(events, i, id) ==> WritesAt(events, i, id);
  }

  lemma LastIsCurrent(rest: seq<Event>, last: Event, id: string)
    requires Serialised(rest, id) && OneUpdateAtATime(rest + [last], id) && last.WriteUpdate?
    ensures Current(Run(rest), last, id)
  {
    var events, s := rest + [last], Run(rest);
    assert events[..|rest|] == rest;
    if last.read < |s.snapshots| && s.snapshots[last.read].id == id && id in s.db.users {
      var r := s.snapshots[last.read];
      ReadsAreTrue(rest, r);
      assert Uses(events, |rest|, r);
      forall i | r.at <= i < |rest| ensures !WritesAt(rest, i, id) { WritesAtPrefix(events, |rest|, i, id); }
      NoBumpWithoutWrite(rest, r.at, id);
      VersionsTellBumps(rest, r.at, id);
    }
  }

  lemma {:induction false} OneUpdateAtATimeIsSerialised(events: seq<Event>, id: string)
    requires OneUpdateAtATime(events, id) && CreatedOnce(events, id)
    ensures Serialised(events, id)
  {
    if events != [] {
      var rest, last := events[..|events| - 1], events[|events| - 1];
      assert events == rest + [last];
      FreshPrefix(events, id);
      OneUpdatePrefix(events, |rest|, id);
      OneUpdateAtATimeIsSerialised(rest, id);
      if last.WriteUpdate? { LastIsCurrent(rest, last, id); }
      SerialisedSnoc(rest, last, 0, id);
    }
  }

  // ---- Updates that are not serialised ----

  /** A version the account has had. */
  ghost predicate Had(events: seq<Event>, id: string, version: int) {
    exists i: nat :: HadAt(events, i, id, version)
  }

  predicate HadAt(events: seq<Event>, i: nat, id: string, version: int) {
    && i <= |events|
    && id in Run(events[..i]).db.users
    && Run(events[..i]).db.users[id].sessionVersion == version
  }

  lemma HadInPrefix(events: seq<Event>, i: nat, id: string, version: int)
    requires i < |events|
    ensures HadAt(events[..|events| - 1], i, id, version) == HadAt(events, i, id, version)
  {
    assert events[..|events| - 1][..i] == events[..i];
  }

  /** Versions rise one by one, so every version in between has been had. */
  lemma {:induction false} EveryVersionHad(events: seq<Event>, at: nat, id: string, version: int)
    requires SerialisedFrom(events, at, id) && at <= |events|
    requires id in Run(events[..at]).db.users && id in Run(events).db.users
    requires Run(events[..at]).db.users[id].sessionVersion <= version <= Run(events).db.users[id].sessionVersion
    ensures Had(events, id, version)
    decreases |events|
  {
    assert events[..|events|] == events;
    if version == Run(events).db.users[id].sessionVersion {
      assert HadAt(events, |events|, id, version);
    } else {
      var rest := events[..|events| - 1];
      assert rest[..at] == events[..at];
      SerialisedPrefix(events, at, id);
      IdsAreUsed(events[..at]);
      UsedGrows(rest, at);
      EffectOnVersion(Run(rest), events[|events| - 1], id);
      EveryVersionHad(rest, at, id, version);
      var i: nat :| HadAt(rest, i, id, version);
      HadInPrefix(events, i, id, version);
    }
  }

  lemma {:induction false} HadAtMostCurrent(events: seq<Event>, id: string, version: int)
    requires Serialised(events, id) && id in Run(events).db.users && Had(events, id, version)
    ensures version <= Run(events).db.users[id].sessionVersion
  {
    var i: nat :| HadAt(events, i, id, version);
    IdsAreUsed(events[..i]);
    VersionsTellBumps(events, i, id);
  }

  lemma {:induction false} VersionAtLeast(events: seq<Event>, at: nat, id: string, version: int)
    requires Serialised(events, id) && at <= |events| && id in Run(events).db.users && id in Run(events[..at]).used
    requires id in Run(events[..at]).db.users ==> Run(events[..at]).db.users[id].sessionVersion == version
    ensures id in Run(events[..at]).db.users && version <= Run(events).db.users[id].sessionVersion
  {
    VersionsTellBumps(events, at, id);
  }

  lemma {:induction false} HadSince(events: seq<Event>, at: nat, id: string, version: int)
    requires Serialised(events, id) && at <= |events| && id in Run(events).db.users && id in Run(events[..at]).used
    requires id in Run(events[..at]).db.users ==> Run(events[..at]).db.users[id].sessionVersion == version
    ensures version <= Run(events).db.users[id].sessionVersion && Had(events, id, version)
    ensures version < Run(events).db.users[id].sessionVersion ==> Had(events, id, version + 1)
  {
    VersionAtLeast(events, at, id, version);
    EveryVersionHad(events, at, id, version);
    if version < Run(events).db.users[id].sessionVersion { EveryVersionHad(events, at, id, version + 1); }
  }

  /** A read is no newer than the row, and the version after it has been had if the row has moved on. */
  lemma {:induction false} ReadVersionHad(events: seq<Event>, r: Read)
    requires Serialised(events, r.id) && r in Run(events).snapshots && r.id in Run(events).db.users
    ensures r.user.sessionVersion <= Run(events).db.users[r.id].sessionVersion
    ensures Had(events, r.id, r.user.sessionVersion)
    ensures r.user.sessionVersion < Run(events).db.users[r.id].sessionVersion ==>
              Had(events, r.id, r.user.sessionVersion + 1)
  {
    ReadsAreTrue(events, r);
    HadSince(events, r.at, r.id, r.user.sessionVersion);
  }

  predicate Carries(db: Db, id: string, version: int, now: int) {
    Accepts(db, Session(id, version, now + 1), now)
  }

  lemma CarriesExactly(db: Db, id: string, version: int, now: int)
    requires Usable(db, id)
    ensures Carries(db, id, version, now) <==> db.users[id].sessionVersion == version
  {
  }

  /** The first stale write to an account. If it bumps, it ends every version the account has ever had exactly if the
      row still has the version that was read. */
  lemma {:induction false} StaleBumpExactly(events: seq<Event>, read: nat, change: Change, now: int)
    requires read < |Run(events).snapshots| && Serialised(events, Run(events).snapshots[read].id)
    requires Bumps(Run(events), WriteUpdate(read, change), Run(events).snapshots[read].id)
    requires Usable(Run(events + [WriteUpdate(read, change)]).db, Run(events).snapshots[read].id)
    ensures var s, r := Run(events), Run(events).snapshots[read];
      (forall version :: Had(events, r.id, version) ==>
         !Carries(Run(events + [WriteUpdate(read, change)]).db, r.id, version, now))
      <==> s.db.users[r.id].sessionVersion == r.user.sessionVersion
  {
    var s, r := Run(events), Run(events).snapshots[read];
    var after := Run(events + [WriteUpdate(read, change)]).db;
    RunStep(events, WriteUpdate(read, change));
    BumpsExactlyOnCredentials(r.user, change);
    assert after.users[r.id].sessionVersion == r.user.sessionVersion + 1;
    ReadVersionHad(events, r);
    forall version | Had(events, r.id, version)
      ensures version <= s.db.users[r.id].sessionVersion
      ensures Carries(after, r.id, version, now) <==> version == r.user.sessionVersion + 1
    {
      HadAtMostCurrent(events, r.id, version);
      CarriesExactly(after, r.id, version, now);
    }
  }

  /** If it bumps nothing, it revives no version that had ended exactly under the same condition. */
  lemma StaleWriteExactly(events: seq<Event>, read: nat, change: Change, now: int)
    requires read < |Run(events).snapshots| && Serialised(events, Run(events).snapshots[read].id)
    requires Apply(Run(events).snapshots[read].user, change).Some?
    requires !Bumps(Run(events), WriteUpdate(read, change), Run(events).snapshots[read].id)
    requires Usable(Run(events + [WriteUpdate(read, change)]).db, Run(events).snapshots[read].id)
    ensures var s, r := Run(events), Run(events).snapshots[read];
      r.id in s.db.users
      && ((forall version :: Had(events, r.id, version) && version != s.db.users[r.id].sessionVersion ==>
             !Carries(Run(events + [WriteUpdate(read, change)]).db, r.id, version, now))
          <==> s.db.users[r.id].sessionVersion == r.user.sessionVersion)
  {
    var r, after := Run(events).snapshots[read], Run(events + [WriteUpdate(read, change)]).db;
    RunStep(events, WriteUpdate(read, change));
    assert after.users[r.id].sessionVersion == r.user.sessionVersion;
    ReadVersionHad(events, r);
    CarriesExactly(after, r.id, r.user.sessionVersion, now);
  }

  // ---- Any run, and everything that may follow ----

  /** However the run goes on with updates to the account serialised, the k-th read's version is never accepted
      again. */
  ghost predicate NeverAgain(events: seq<Event>, id: string, k: nat, more: seq<Event>, now: int)
    requires k < |Run(events).snapshots|
  {
    SerialisedFrom(events + more, |events|, id) ==>
      !Carries(Run(events + more).db, id, Run(events).snapshots[k].user.sessionVersion, now)
  }

  function OtherSource(source: AuthSource): AuthSource {
    if source.Oidc? then Header else Oidc
  }

  /** One more read and external sync raise the version by one and leave the account usable. */
  lemma RaiseOnce(events: seq<Event>, from: nat, id: string) returns (sync: Event)
    requires from <= |events| && SerialisedFrom(events, from, id) && Usable(Run(events).db, id)
    ensures var all := events + [ReadUser(id)] + [sync];
      && SerialisedFrom(all, from, id)
      && Usable(Run(all).db, id)
      && Run(all).db.users[id].sessionVersion == Run(events).db.users[id].sessionVersion + 1
  {
    var user := Run(events).db.users[id];
    sync := WriteUpdate(|Run(events).snapshots|, Sync(OtherSource(user.authSource), None, None));
    RunStep(events, ReadUser(id));
    SerialisedSnoc(events, ReadUser(id), from, id);
    RunStep(events + [ReadUser(id)], sync);
    SerialisedSnoc(events + [ReadUser(id)], sync, from, id);
  }

  lemma {:induction false} RaiseBy(events: seq<Event>, id: string, n: nat) returns (more: seq<Event>)
    requires Usable(Run(events).db, id)
    ensures SerialisedFrom(events + more, |events|, id) && Usable(Run(events + more).db, id)
    ensures Run(events + more).db.users[id].sessionVersion == Run(events).db.users[id].sessionVersion + n
  {
    if n == 0 {
      more := [];
      assert events + more == events;
    } else {
      var shorter := RaiseBy(events, id, n - 1);
      var sync := RaiseOnce(events + shorter, |events|, id);
      more := shorter + [ReadUser(id)] + [sync];
      assert events + more == events + shorter + [ReadUser(id)] + [sync];
    }
  }

  lemma NeverAgainBelow(events: seq<Event>, id: string, k: nat, more: seq<Event>, now: int)
    requires id in Run(events).db.users && k < |Run(events).snapshots|
    requires Run(events).snapshots[k].user.sessionVersion < Run(events).db.users[id].sessionVersion
    ensures NeverAgain(events, id, k, more, now)
  {
    var all := events + more;
    assert all[..|events|] == events;
    if SerialisedFrom(all, |events|, id) && id in Run(all).db.users {
      IdsAreUsed(events);
      VersionsTellBumps(all, |events|, id);
    }
  }

  /** A read of the account from which a login can insert a session. */
  predicate LeadsToSession(s: State, k: nat, id: string) {
    k < |s.snapshots| && s.snapshots[k].id == id && MayLogIn(s.snapshots[k].user)
  }

  /** In any run, serialised or not, from a moment when the account is usable: none of the sessions that its first
      reads can still lead to is ever accepted again, however the run goes on with updates to it serialised, exactly
      if each of those reads that may log in carries a version below the row's. */
  lemma EndedForGoodExactly(events: seq<Event>, id: string, earlier: nat, now: int)
    requires Usable(Run(events).db, id) && earlier <= |Run(events).snapshots|
    ensures var s := Run(events);
      (forall k: nat, more: seq<Event> :: k < earlier && LeadsToSession(s, k, id) ==>
         NeverAgain(events, id, k, more, now))
      <==> (forall k: nat :: k < earlier && LeadsToSession(s, k, id) ==>
              s.snapshots[k].user.sessionVersion < s.db.users[id].sessionVersion)
  {
    var s := Run(events);
    forall k: nat, more: seq<Event>
      | k < earlier && s.snapshots[k].user.sessionVersion < s.db.users[id].sessionVersion
      ensures NeverAgain(events, id, k, more, now)
    {
      NeverAgainBelow(events, id, k, more, now);
    }
    forall k: nat | k < earlier && s.snapshots[k].user.sessionVersion >= s.db.users[id].sessionVersion
      ensures exists more: seq<Event> :: !NeverAgain(events, id, k, more, now)
    {
      var more := RaiseBy(events, id, s.snapshots[k].user.sessionVersion - s.db.users[id].sessionVersion);
      assert !NeverAgain(events, id, k, more, now);
    }
  }

  lemma RunStep(events: seq<Event>, e: Event)
    ensures Run(events + [e]) == Next(Run(events), e)
  {
    assert (events + [e])[..|events|] == events;
  }

  function Reset(user: User, newHash: string): Change {
    Admin(user.email, user.role, user.disabled, Some(newHash))
  }

  /** Two password resets read the account before either writes; a login reads it in between. */
  function Race(id: string, user: User, first: string, second: string): seq<Event> {
    [CreateUser(id, user)] + [ReadUser(id)] + [ReadUser(id)] + [WriteUpdate(0, Reset(user, first))] + [ReadUser(id)]
    + [WriteUpdate(1, Reset(user, second))]
  }

  /** The second reset bumps the version it read, to the one the login already holds: the session that the
      login inserts afterwards outlives the reset and the deletion of the account's sessions. */
  lemma RacingResetsLoseABump(id: string, user: User, first: string, second: string, sid: string, now: int)
    requires user.authSource.Local? && MayLogIn(user) && !user.disabled
    requires user.passwordHash != Some(first) && user.passwordHash != Some(second)
    ensures var race := Race(id, user, first, second);
      var s := Run(race + [DeleteSessionsForUser(id)] + [InsertSession(sid, 2, now + 1)]);
      && Bumps(Run(race[..5]), race[5], id)
      && s.issued == [Issued(sid, Session(id, user.sessionVersion + 1, now + 1), 2)]
      && Accepts(s.db, s.issued[0].session, now)
  {
    var race := Race(id, user, first, second);
    var created := [CreateUser(id, user)];
    RunStep([], created[0]);
    assert [] + created == created;
    RunStep(created, ReadUser(id));
    var read := created + [ReadUser(id)];
    RunStep(read, ReadUser(id));
    var twice := read + [ReadUser(id)];
    RunStep(twice, WriteUpdate(0, Reset(user, first)));
    var reset := twice + [WriteUpdate(0, Reset(user, first))];
    RunStep(reset, ReadUser(id));
    var login := reset + [ReadUser(id)];
    assert race[..5] == login;
    RunStep(login, race[5]);
    RunStep(race, DeleteSessionsForUser(id));
    RunStep(race + [DeleteSessionsForUser(id)], InsertSession(sid, 2, now + 1));
  }

  // ---- Repeating an external sync ----

  predicate Linked(user: User, source: AuthSource, subject: Option<string>) {
    user.authSource == source && user.externalSubject == subject && user.passwordHash == None && !user.disabled
  }

  /** Changes that keep the link: administrative edits and syncs with the same source and subject. */
  predicate KeepsLink(change: Change, source: AuthSource, subject: Option<string>) {
    change.Admin? || (change.authSource == source && change.subject == subject)
  }

  lemma SyncLinks(user: User, change: Change)
    requires change.Sync?
    ensures Linked(Synced(user, change), change.authSource, change.subject)
  {
  }

  lemma LinkedChange(user: User, change: Change, source: AuthSource, subject: Option<string>)
    requires !source.Local? && Linked(user, source, subject) && KeepsLink(change, source, subject)
    ensures Apply(user, change).Some? ==>
              && Linked(Apply(user, change).value, source, subject)
              && Apply(user, change).value.sessionVersion == user.sessionVersion
  {
    if change.Admin? { assert AdminUpdate(user, change).Some? ==> !change.disabled && change.newHash == None; }
  }

  ghost predicate StillLinked(s: State, id: string, firstRead: nat, source: AuthSource, subject: Option<string>,
                              version: int)
  {
    && id in s.used
    && firstRead <= |s.snapshots|
    && (id in s.db.users ==> Linked(s.db.users[id], source, subject) && s.db.users[id].sessionVersion == version)
    && (forall k :: firstRead <= k < |s.snapshots| && s.snapshots[k].id == id ==>
          Linked(s.snapshots[k].user, source, subject) && s.snapshots[k].user.sessionVersion == version)
  }

  lemma StillLinkedStep(s: State, e: Event, id: string, firstRead: nat, source: AuthSource, subject: Option<string>,
                        version: int)
    requires !source.Local? && StillLinked(s, id, firstRead, source, subject, version)
    requires e.CreateUser? && e.id == id ==> id !in s.used
    requires WritesTo(s, e, id) ==> e.read >= firstRead && KeepsLink(e.change, source, subject)
    ensures StillLinked(Next(s, e), id, firstRead, source, subject, version)
  {
    if e.WriteUpdate? && e.read < |s.snapshots| && s.snapshots[e.read].id == id {
      LinkedChange(s.snapshots[e.read].user, e.change, source, subject);
    }
  }

  /** How a run goes on from a state. */
  function Then(s: State, more: seq<Event>): State
    decreases |more|
  {
    if more == [] then s else Then(Next(s, more[0]), more[1..])
  }

  lemma {:induction false} ThenIsRun(events: seq<Event>, more: seq<Event>)
    ensures Then(Run(events), more) == Run(events + more)
    decreases |more|
  {
    if more == [] {
      assert events + more == events;
    } else {
      RunStep(events, more[0]);
      ThenIsRun(events + [more[0]], more[1..]);
      assert events + [more[0]] + more[1..] == events + more;
    }
  }

  predicate LinkKept(s: State, e: Event, id: string, firstRead: nat, source: AuthSource, subject: Option<string>) {
    && (e.CreateUser? && e.id == id ==> id !in s.used)
    && (WritesTo(s, e, id) ==> e.read >= firstRead && KeepsLink(e.change, source, subject))
  }

  /** The id is not given to a new account, and this one is written only from reads that are not before firstRead, by
      changes that keep the link. */
  predicate LinkAlwaysKept(s: State, more: seq<Event>, id: string, firstRead: nat, source: AuthSource,
                           subject: Option<string>)
    decreases |more|
  {
    more != [] ==>
      && LinkKept(s, more[0], id, firstRead, source, subject)
      && LinkAlwaysKept(Next(s, more[0]), more[1..], id, firstRead, source, subject)
  }

  lemma {:induction false} LinkStays(s: State, more: seq<Event>, id: string, firstRead: nat, source: AuthSource,
                                     subject: Option<string>, version: int)
    requires !source.Local? && StillLinked(s, id, firstRead, source, subject, version)
    requires LinkAlwaysKept(s, more, id, firstRead, source, subject)
    ensures StillLinked(Then(s, more), id, firstRead, source, subject, version)
    decreases |more|
  {
    if more != [] {
      StillLinkedStep(s, more[0], id, firstRead, source, subject, version);
      LinkStays(Next(s, more[0]), more[1..], id, firstRead, source, subject, version);
    }
  }

  /** No number of repeated syncs and administrative edits, in any interleaving, bumps a linked account. */
  lemma LinkedIsNotBumped(events: seq<Event>, more: seq<Event>, id: string, firstRead: nat, source: AuthSource,
                          subject: Option<string>, version: int)
    requires !source.Local? && StillLinked(Run(events), id, firstRead, source, subject, version)
    requires LinkAlwaysKept(Run(events), more, id, firstRead, source, subject)
    ensures var after := Run(events + more).db.users;
      id in after ==> Linked(after[id], source, subject) && after[id].sessionVersion == version
  {
    LinkStays(Run(events), more, id, firstRead, source, subject, version);
    ThenIsRun(events, more);
  }

  /** After a sync of an account, whatever row it was computed from, repeating it and editing the account bump nothing,
      in any interleaving of requests that read the account since or use the row the sync returned: whoever logs in
      after the sync stays logged in. */
  lemma RepeatedSyncBumpsNothing(events: seq<Event>, read: nat, sync: Change, more: seq<Event>)
    requires read < |Run(events).snapshots| && Run(events).snapshots[read].id in Run(events).db.users
    requires sync.Sync? && !sync.authSource.Local?
    requires LinkAlwaysKept(Run(events + [WriteUpdate(read, sync)]), more, Run(events).snapshots[read].id,
                            |Run(events).snapshots|, sync.authSource, sync.subject)
    ensures var r := Run(events).snapshots[read];
      var after := Run(events + [WriteUpdate(read, sync)] + more).db.users;
      r.id in after ==>
        && Linked(after[r.id], sync.authSource, sync.subject)
        && after[r.id].sessionVersion == Synced(r.user, sync).sessionVersion
  {
    var r := Run(events).snapshots[read];
    SyncLinks(r.user, sync);
    IdsAreUsed(events);
    RunStep(events, WriteUpdate(read, sync));
    LinkedIsNotBumped(events + [WriteUpdate(read, sync)], more, r.id, |Run(events).snapshots|, sync.authSource,
                      sync.subject, Synced(r.user, sync).sessionVersion);
  }

  // ---- The service, its statements run without interruption ----

  /** The MCP user may not touch a superadmin, nor make one. */
  predicate McpDenied(actor: Option<Role>, existing: Role, next: Role) {
    actor == Some(Mcp) && (existing.SuperAdmin? || next.SuperAdmin?)
  }

  datatype LoginError =
    | LocalAuthDisabled
    | UserNotFound
    | Disabled
    | PasswordHashMissing
    | PasswordMismatch
    | SystemUserProtected
    | InsertFailed

  class AuthService {
    var users: map<string, User>
    var sessions: map<string, Session>

    ghost function Abs(): Db
      reads this
    {
      Db(users, sessions)
    }

    constructor ()
      ensures Abs() == START.db
    {
      users, sessions := map[], map[];
    }

    method DeleteSessionsFor(id: string)
      modifies this`sessions
      ensures Abs() == DropSessions(old(Abs()), id) && OthersOnly(old(sessions), sessions, id)
    {
      sessions := map sid | sid in sessions && sessions[sid].userId != id :: sessions[sid];
    }

    method StoreUser(id: string, user: User)
      modifies this`users
      ensures Abs() == WriteUser(old(Abs()), id, user)
    {
      if id in users { users := users[id := user]; }
    }

    method SyncExternalAccount(id: string, user: User, source: AuthSource, subject: Option<string>,
                               email: Option<string>)
      returns (updated: User)
      modifies this
      ensures Linked(updated, source, subject) && updated.role == user.role && updated.email == email
      ensures CredentialsDiffer(user, updated) <==> updated.sessionVersion == user.sessionVersion + 1
      ensures !CredentialsDiffer(user, updated) <==> updated.sessionVersion == user.sessionVersion
      ensures users == if id in old(users) then old(users)[id := updated] else old(users)
      ensures if CredentialsDiffer(user, updated) then OthersOnly(old(sessions), sessions, id)
              else sessions == old(sessions)
      ensures updated == Synced(user, Sync(source, subject, email))
    {
      var nextSessionVersion := user.sessionVersion;
      if user.authSource != source || user.externalSubject != subject || user.passwordHash.Some? || user.disabled {
        nextSessionVersion := nextSessionVersion + 1;
      }
      updated := User(email, user.role, source, subject, None, false, nextSessionVersion);
      StoreUser(id, updated);
      if nextSessionVersion != user.sessionVersion { DeleteSessionsFor(id); }
    }

    /** actor: the role of whoever asks. false: the account is missing or the change is refused. */
    method UpdateUser(actor: Option<Role>, id: string, email: Option<string>, role: Role, disabled: bool,
                      newHash: Option<string>)
      returns (ok: bool)
      modifies this
      ensures ok <==>
        && id in old(users)
        && !McpDenied(actor, old(users)[id].role, role)
        && !Refused(old(users)[id], disabled, newHash)
      ensures !ok ==> Abs() == old(Abs())
      ensures ok ==>
        && id in users
        && Some(users[id]) == AdminUpdate(old(users)[id], Admin(email, role, disabled, newHash))
        && users == old(users)[id := users[id]]
        && AsAsked(old(users)[id], users[id], email, role, disabled, newHash)
        && if AsksForBump(old(users)[id], Admin(email, role, disabled, newHash))
           then users[id].sessionVersion == old(users)[id].sessionVersion + 1
                && OthersOnly(old(sessions), sessions, id)
           else users[id].sessionVersion == old(users)[id].sessionVersion && sessions == old(sessions)
    {
      if id !in users { return false; }
      var existing := users[id];
      if existing.authSource.McpSource? { return false; }
      if actor == Some(Mcp) && (existing.role.SuperAdmin? || role.SuperAdmin?) { return false; }
      if !existing.authSource.Local? && disabled { return false; }
      if !existing.authSource.Local? && newHash.Some? { return false; }
      var nextPasswordHash :=
        if existing.authSource.Local? then (if newHash.Some? then newHash else existing.passwordHash) else None;
      var nextDisabled := if existing.authSource.Local? then disabled else false;
      var nextSessionVersion := existing.sessionVersion;
      if nextPasswordHash != existing.passwordHash || nextDisabled != existing.disabled {
        nextSessionVersion := nextSessionVersion + 1;
      }
      StoreUser(id, User(email, role, existing.authSource, existing.externalSubject, nextPasswordHash, nextDisabled,
                         nextSessionVersion));
      if nextSessionVersion != existing.sessionVersion { DeleteSessionsFor(id); }
      ok := true;
    }

    method RemoveUser(actor: Option<Role>, id: string) returns (ok: bool)
      modifies this
      ensures ok <==>
        && id in old(users)
        && !old(users)[id].authSource.McpSource?
        && !McpDenied(actor, old(users)[id].role, old(users)[id].role)
      ensures !ok ==> Abs() == old(Abs())
      ensures ok ==> users == old(users) - {id} && OthersOnly(old(sessions), sessions, id)
    {
      if id !in users || users[id].authSource.McpSource? { return false; }
      if actor == Some(Mcp) && users[id].role.SuperAdmin? { return false; }
      DeleteSessionsFor(id);
      users := users - {id};
      ok := true;
    }

    /** user is the row some earlier statement read. */
    method CreateSessionForUser(sid: string, id: string, user: User, expiresAt: int) returns (error: Option<LoginError>)
      modifies this`sessions
      ensures error == None <==>
        && !user.authSource.McpSource? && !user.role.Mcp?
        && id in old(users) && sid !in old(sessions)
      ensures error == Some(SystemUserProtected) <==> !MayLogIn(user)
      ensures error == Some(InsertFailed) <==> MayLogIn(user) && !CanInsert(old(Abs()), sid, id)
      ensures error.Some? ==> Abs() == old(Abs())
      ensures error == None ==> sessions == old(sessions)[sid := Session(id, user.sessionVersion, expiresAt)]
    {
      if user.authSource.McpSource? || user.role.Mcp? { return Some(SystemUserProtected); }
      if id !in users || sid in sessions { return Some(InsertFailed); }
      sessions := sessions[sid := Session(id, user.sessionVersion, expiresAt)];
      error := None;
    }

    /** localEnabled: the configuration's switch; found: the row getUserByUsername returned; matches: argon2's verdict
        on the password. */
    method LoginLocal(localEnabled: bool, found: Option<(string, User)>, matches: bool, sid: string, expiresAt: int)
      returns (error: Option<LoginError>)
      modifies this`sessions
      ensures error == None <==>
        && localEnabled
        && found.Some? && found.value.1.passwordHash.Some? && !found.value.1.disabled && matches
        && MayLogIn(found.value.1) && CanInsert(old(Abs()), sid, found.value.0)
      ensures error == Some(LocalAuthDisabled) <==> !localEnabled
      ensures error.Some? ==> Abs() == old(Abs())
      ensures error == None ==>
        sessions == old(sessions)[sid := Session(found.value.0, found.value.1.sessionVersion, expiresAt)]
    {
      if !localEnabled { return Some(LocalAuthDisabled); }
      if found.None? { return Some(UserNotFound); }
      var user := found.value.1;
      if user.passwordHash.None? || user.disabled {
        return Some(if user.disabled then Disabled else PasswordHashMissing);
      }
      if !matches { return Some(PasswordMismatch); }
      error := CreateSessionForUser(sid, found.value.0, user, expiresAt);
    }

    method GetUserFromCookie(sid: string, now: int) returns (user: Option<User>)
      modifies this`sessions
      ensures user.Some? <==> sid in old(sessions) && Accepts(old(Abs()), old(sessions)[sid], now)
      ensures user.Some? ==> user.value == users[old(sessions)[sid].userId]
      ensures Abs() == Visited(old(Abs()), sid, now)
    {
      if sid !in sessions { return None; }
      var session := sessions[sid];
      if session.expiresAt <= now {
        sessions := sessions - {sid};
        return None;
      }
      if session.userId !in users {
        sessions := sessions - {sid};
        return None;
      }
      var found := users[session.userId];
      if found.disabled || found.authSource.McpSource? || found.role.Mcp?
         || found.sessionVersion != session.sessionVersion
      {
        sessions := sessions - {sid};
        return None;
      }
      user := Some(found);
    }
  }
}

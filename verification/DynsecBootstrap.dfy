/** The bootstrap of the managed dynamic-security roles and the migration away from the legacy role:
    a list of broker commands and setting writes decided from one read of the state, which may stop
    after any of them and be retried from freshly read state. */
module DynsecBootstrap {
  import opened Basics
  import opened Options

  const READ_ALL: string := "read-all"
  const READ_WRITE_ALL: string := "read-write-all"
  const LEGACY: string := "mqttctl-default"
  const RESERVED_ROLES: set<string> := {
    "admin", "broker-admin", "client", "dynsec-admin", "super-admin", "sys-notify", "sys-observe", "topic-observe",
    READ_ALL, READ_WRITE_ALL, LEGACY
  }

  /** An ACL as the commands that add one carry it, without the name and description of the stored record. */
  datatype Grant = Grant(acltype: string, topic: string, allow: bool, priority: int)

  const READ_ALL_ACLS: seq<Grant> := [
    Grant("publishClientReceive", "#", true, 0),
    Grant("subscribePattern", "#", true, 0),
    Grant("unsubscribePattern", "#", true, 0)
  ]
  const READ_WRITE_ALL_ACLS: seq<Grant> := READ_ALL_ACLS + [Grant("publishClientSend", "#", true, 0)]

  datatype Holder = Client(username: string) | Group(groupname: string)

  /** held: the roles of each listed client and group, with their priorities. */
  datatype Broker = Broker(
    roles: map<string, set<Grant>>,
    clients: seq<string>,
    groups: seq<string>,
    held: map<Holder, map<string, int>>)

  datatype Settings = Settings(defaultRoleName: Option<string>, defaultRolePriority: int, initialized: bool)

  datatype World = World(broker: Broker, settings: Settings)

  datatype Command =
    | CreateRole(rolename: string)
    | AddRoleAcl(rolename: string, acl: Grant)
    | AddHolderRole(holder: Holder, rolename: string, priority: int)
    | RemoveHolderRole(holder: Holder, rolename: string)
    | DeleteRole(rolename: string)
    | SetClientDefaults(name: string, priority: int)
    | MarkInitialized
  {
    predicate ForBroker() { !SetClientDefaults? && !MarkInitialized? }
  }

  /** Each command is one atomic update. Deleting a role does not touch the references to it. */
  function ApplyToBroker(b: Broker, c: Command): Broker {
    match c
    case CreateRole(name) => if name in b.roles then b else b.(roles := b.roles[name := {}])
    case AddRoleAcl(name, acl) => if name in b.roles then b.(roles := b.roles[name := b.roles[name] + {acl}]) else b
    case AddHolderRole(h, name, priority) =>
      if h in b.held then b.(held := b.held[h := b.held[h][name := priority]]) else b
    case RemoveHolderRole(h, name) => if h in b.held then b.(held := b.held[h := b.held[h] - {name}]) else b
    case DeleteRole(name) => b.(roles := b.roles - {name})
    case SetClientDefaults(_, _) => b
    case MarkInitialized => b
  }

  function Apply(w: World, c: Command): World {
    World(ApplyToBroker(w.broker, c),
          match c
          case SetClientDefaults(name, priority) =>
            w.settings.(defaultRoleName := Some(name), defaultRolePriority := priority)
          case MarkInitialized => w.settings.(initialized := true)
          case _ => w.settings)
  }

  function Exec(w: World, cs: seq<Command>): World
    decreases |cs|
  {
    if cs == [] then w else Exec(Apply(w, cs[0]), cs[1..])
  }

  // ---- The commands a run decides on ----

  function MissingAcls(existing: set<Grant>, acls: seq<Grant>): seq<Grant> {
    if acls == [] then []
    else (if acls[0] in existing then [] else [acls[0]]) + MissingAcls(existing, acls[1..])
  }

  function AddAcls(name: string, acls: seq<Grant>): seq<Command> {
    if acls == [] then [] else [AddRoleAcl(name, acls[0])] + AddAcls(name, acls[1..])
  }

  function RolePlan(b: Broker, name: string, acls: seq<Grant>): seq<Command> {
    if name in b.roles then AddAcls(name, MissingAcls(b.roles[name], acls))
    else [CreateRole(name)] + AddAcls(name, acls)
  }

  function Holders(b: Broker): seq<Holder> {
    seq(|b.clients|, i requires 0 <= i < |b.clients| => Client(b.clients[i]))
    + seq(|b.groups|, i requires 0 <= i < |b.groups| => Group(b.groups[i]))
  }

  function HolderPlan(b: Broker, h: Holder): seq<Command> {
    if h !in b.held || LEGACY !in b.held[h] then []
    else if READ_WRITE_ALL in b.held[h] then [RemoveHolderRole(h, LEGACY)]
    else [AddHolderRole(h, READ_WRITE_ALL, b.held[h][LEGACY]), RemoveHolderRole(h, LEGACY)]
  }

  function HoldersPlan(b: Broker, hs: seq<Holder>): seq<Command> {
    if hs == [] then [] else HolderPlan(b, hs[0]) + HoldersPlan(b, hs[1..])
  }

  function MigrationPlan(b: Broker): seq<Command> {
    if LEGACY !in b.roles then [] else HoldersPlan(b, Holders(b)) + [DeleteRole(LEGACY)]
  }

  function ManagedPlan(b: Broker, setAsDefault: bool): seq<Command> {
    RolePlan(b, READ_ALL, READ_ALL_ACLS)
    + RolePlan(b, READ_WRITE_ALL, READ_WRITE_ALL_ACLS)
    + MigrationPlan(b)
    + (if setAsDefault then [SetClientDefaults(READ_ALL, 0)] else [])
    + [MarkInitialized]
  }

  predicate HasCustomRoles(b: Broker) {
    exists name :: name in b.roles && name !in RESERVED_ROLES
  }

  predicate StoresManagedDefault(s: Settings) {
    s.defaultRoleName == Some(READ_ALL) || s.defaultRoleName == Some(LEGACY)
  }

  /** Whether ensureBootstrapDefaultRole reaches ensureManagedBootstrapRoles. */
  predicate TakesManagedPath(w: World) {
    || StoresManagedDefault(w.settings)
    || LEGACY in w.broker.roles
    || (!w.settings.initialized && w.settings.defaultRoleName == None && !HasCustomRoles(w.broker))
  }

  predicate SetsDefault(w: World) {
    if w.settings.defaultRoleName == Some(LEGACY) || LEGACY in w.broker.roles
    then w.settings.defaultRoleName == Some(LEGACY) || (w.settings.defaultRoleName == None && !HasCustomRoles(w.broker))
    else true
  }

  function Plan(w: World): seq<Command> {
    if TakesManagedPath(w) then ManagedPlan(w.broker, SetsDefault(w))
    else if w.settings.initialized then []
    else [MarkInitialized]
  }

  // ---- Execution that may stop: a budget of commands that still succeed ----

  datatype Session = Session(world: World, budget: nat, failed: bool)

  function Issue(s: Session, c: Command): Session {
    if s.failed then s
    else if s.budget == 0 then s.(failed := true)
    else Session(Apply(s.world, c), s.budget - 1, false)
  }

  function IssueAll(s: Session, cs: seq<Command>): Session
    decreases |cs|
  {
    if cs == [] then s else IssueAll(Issue(s, cs[0]), cs[1..])
  }

  lemma {:induction false} IssueAllAppend(s: Session, a: seq<Command>, b: seq<Command>)
    ensures IssueAll(s, a + b) == IssueAll(IssueAll(s, a), b)
    decreases |a|
  {
    if a == [] {
      assert a + b == b;
    } else {
      assert (a + b)[1..] == a[1..] + b;
      IssueAllAppend(Issue(s, a[0]), a[1..], b);
    }
  }

  /** A run that can issue n commands leaves the world as the first n commands of its plan do. */
  lemma {:induction false} IssueAllIsPrefix(s: Session, cs: seq<Command>)
    requires !s.failed
    ensures var n := Min(s.budget, |cs|);
            IssueAll(s, cs) == Session(Exec(s.world, cs[..n]), s.budget - n, s.budget < |cs|)
    decreases |cs|
  {
    if cs == [] {
    } else if s.budget == 0 {
      FailedStays(s.(failed := true), cs[1..]);
    } else {
      IssueAllIsPrefix(Issue(s, cs[0]), cs[1..]);
      var n := Min(s.budget, |cs|);
      assert cs[..n][1..] == cs[1..][..n - 1];
    }
  }

  lemma {:induction false} FailedStays(s: Session, cs: seq<Command>)
    requires s.failed
    ensures IssueAll(s, cs) == s
  {
    if cs != [] { FailedStays(s, cs[1..]); }
  }

  lemma {:induction false} ExecAppend(w: World, a: seq<Command>, b: seq<Command>)
    ensures Exec(w, a + b) == Exec(Exec(w, a), b)
    decreases |a|
  {
    if a == [] {
      assert a + b == b;
    } else {
      assert (a + b)[1..] == a[1..] + b;
      ExecAppend(Apply(w, a[0]), a[1..], b);
    }
  }

  // ---- Safety of every command where it is executed ----

  ghost predicate RoleReady(b: Broker, name: string, acls: seq<Grant>) {
    name in b.roles && forall acl :: acl in acls ==> acl in b.roles[name]
  }

  ghost predicate Holds(b: Broker, h: Holder, name: string) {
    h in b.held && name in b.held[h]
  }

  /** Both managed roles carry their ACLs and the legacy role is gone. */
  ghost predicate Managed(b: Broker) {
    && RoleReady(b, READ_ALL, READ_ALL_ACLS)
    && RoleReady(b, READ_WRITE_ALL, READ_WRITE_ALL_ACLS)
    && LEGACY !in b.roles
  }

  /** ... and so is every reference to it. */
  ghost predicate Converged(b: Broker) {
    Managed(b) && NobodyHoldsLegacy(b)
  }

  /** Nobody refers to the legacy role when it does not exist. */
  ghost predicate NoDangling(b: Broker) {
    LEGACY in b.roles || NobodyHoldsLegacy(b)
  }

  ghost predicate NobodyHoldsLegacy(b: Broker) {
    forall h :: h in b.held ==> LEGACY !in b.held[h]
  }

  /** The ACLs that bootstrap is meant to grant, and no others. */
  predicate Required(name: string, acl: Grant) {
    (name == READ_ALL && acl in READ_ALL_ACLS) || (name == READ_WRITE_ALL && acl in READ_WRITE_ALL_ACLS)
  }

  /** What must be true of the world in which a command is executed. */
  ghost predicate SafeCommand(w: World, c: Command) {
    var b := w.broker;
    match c
    case CreateRole(name) => name !in b.roles && (name == READ_ALL || name == READ_WRITE_ALL)
    case AddRoleAcl(name, acl) => name in b.roles && Required(name, acl)
    case AddHolderRole(h, name, priority) =>
      && name == READ_WRITE_ALL && RoleReady(b, READ_WRITE_ALL, READ_WRITE_ALL_ACLS)
      && Holds(b, h, LEGACY) && b.held[h][LEGACY] == priority && !Holds(b, h, READ_WRITE_ALL)
    case RemoveHolderRole(h, name) =>
      && name == LEGACY && LEGACY in b.roles
      && Holds(b, h, READ_WRITE_ALL) && RoleReady(b, READ_WRITE_ALL, READ_WRITE_ALL_ACLS)
    case DeleteRole(name) =>
      && name == LEGACY && NobodyHoldsLegacy(b)
      && RoleReady(b, READ_ALL, READ_ALL_ACLS) && RoleReady(b, READ_WRITE_ALL, READ_WRITE_ALL_ACLS)
    case SetClientDefaults(name, _) => name == READ_ALL && RoleReady(b, READ_ALL, READ_ALL_ACLS)
    case MarkInitialized => TakesManagedPath(w) ==> Managed(b)
  }

  ghost predicate AllSafe(w: World, cs: seq<Command>)
    decreases |cs|
  {
    cs == [] || (SafeCommand(w, cs[0]) && AllSafe(Apply(w, cs[0]), cs[1..]))
  }

  lemma {:induction false} AllSafeAppend(w: World, a: seq<Command>, b: seq<Command>)
    requires AllSafe(w, a) && AllSafe(Exec(w, a), b)
    ensures AllSafe(w, a + b)
    decreases |a|
  {
    if a == [] {
      assert a + b == b;
    } else {
      assert (a + b)[1..] == a[1..] + b;
      AllSafeAppend(Apply(w, a[0]), a[1..], b);
    }
  }

  lemma {:induction false} AllSafePrefix(w: World, cs: seq<Command>, k: nat)
    requires AllSafe(w, cs) && k <= |cs|
    ensures AllSafe(w, cs[..k])
    decreases |cs|
  {
    if k > 0 {
      AllSafePrefix(Apply(w, cs[0]), cs[1..], k - 1);
      assert cs[..k][1..] == cs[1..][..k - 1];
    }
  }

  /** The listed clients and groups are those the broker has, each listed once. */
  ghost predicate Listed(b: Broker) {
    && (forall h :: h in b.held <==> h in Holders(b))
    && (forall i, j :: 0 <= i < j < |b.clients| ==> b.clients[i] != b.clients[j])
    && (forall i, j :: 0 <= i < j < |b.groups| ==> b.groups[i] != b.groups[j])
  }

  ghost function WithAcls(b: Broker, name: string, acls: seq<Grant>): Broker
    requires name in b.roles
  {
    b.(roles := b.roles[name := b.roles[name] + set acl | acl in acls])
  }

  lemma WithNoAcls(b: Broker, name: string)
    requires name in b.roles
    ensures WithAcls(b, name, []) == b
  {
    assert b.roles[name] + (set acl | acl in []) == b.roles[name];
    assert b.roles[name := b.roles[name]] == b.roles;
  }

  lemma WithOneMoreAcl(b: Broker, name: string, acls: seq<Grant>)
    requires name in b.roles && acls != []
    ensures WithAcls(ApplyToBroker(b, AddRoleAcl(name, acls[0])), name, acls[1..]) == WithAcls(b, name, acls)
  {
    var all, rest := set acl | acl in acls, set acl | acl in acls[1..];
    assert acls == [acls[0]] + acls[1..];
    assert all == {acls[0]} + rest;
    assert b.roles[name] + {acls[0]} + rest == b.roles[name] + all;
    assert b.roles[name := b.roles[name] + {acls[0]}][name := b.roles[name] + all]
        == b.roles[name := b.roles[name] + all];
  }

  lemma {:induction false} AddAclsEffect(w: World, name: string, acls: seq<Grant>)
    requires name in w.broker.roles && forall acl :: acl in acls ==> Required(name, acl)
    ensures AllSafe(w, AddAcls(name, acls))
    ensures Exec(w, AddAcls(name, acls)) == w.(broker := WithAcls(w.broker, name, acls))
    decreases |acls|
  {
    if acls == [] {
      WithNoAcls(w.broker, name);
    } else {
      assert AddAcls(name, acls)[1..] == AddAcls(name, acls[1..]);
      AddAclsEffect(Apply(w, AddRoleAcl(name, acls[0])), name, acls[1..]);
      WithOneMoreAcl(w.broker, name, acls);
    }
  }

  lemma {:induction false} MissingAclsComplete(existing: set<Grant>, acls: seq<Grant>)
    ensures forall acl :: acl in acls ==> acl in existing || acl in MissingAcls(existing, acls)
    ensures forall acl :: acl in MissingAcls(existing, acls) ==> acl in acls && acl !in existing
  {
    if acls != [] { MissingAclsComplete(existing, acls[1..]); }
  }

  /** One role got exactly these ACLs besides those it had; nothing else changed. */
  ghost predicate Granted(w: World, after: World, name: string, acls: seq<Grant>) {
    && name in after.broker.roles
    && after == w.(broker := w.broker.(roles := w.broker.roles[name := after.broker.roles[name]]))
    && after.broker.roles[name]
       == (if name in w.broker.roles then w.broker.roles[name] else {}) + (set acl | acl in acls)
  }

  lemma {:induction false} AddMissing(w: World, name: string, acls: seq<Grant>)
    requires name in w.broker.roles && forall acl :: acl in acls ==> Required(name, acl)
    ensures AllSafe(w, AddAcls(name, MissingAcls(w.broker.roles[name], acls)))
    ensures Granted(w, Exec(w, AddAcls(name, MissingAcls(w.broker.roles[name], acls))), name, acls)
  {
    var existing := w.broker.roles[name];
    var missing := MissingAcls(existing, acls);
    MissingAclsComplete(existing, acls);
    AddAclsEffect(w, name, missing);
    assert existing + (set acl | acl in missing) == existing + (set acl | acl in acls);
  }

  lemma {:induction false} CreateAndAdd(w: World, name: string, acls: seq<Grant>)
    requires name !in w.broker.roles && forall acl :: acl in acls ==> Required(name, acl)
    requires name == READ_ALL || name == READ_WRITE_ALL
    ensures AllSafe(w, [CreateRole(name)] + AddAcls(name, acls))
    ensures Granted(w, Exec(w, [CreateRole(name)] + AddAcls(name, acls)), name, acls)
  {
    var created, granted := Apply(w, CreateRole(name)), set acl | acl in acls;
    AddAclsEffect(created, name, acls);
    assert ([CreateRole(name)] + AddAcls(name, acls))[1..] == AddAcls(name, acls);
    assert w.broker.roles[name := {}][name := granted] == w.broker.roles[name := granted];
    assert {} + granted == granted;
  }

  /** Ensuring a role adds exactly the required ACLs to that role, and touches no other. */
  lemma {:induction false} RolePlanEffect(w: World, name: string, acls: seq<Grant>)
    requires (name == READ_ALL && acls == READ_ALL_ACLS) || (name == READ_WRITE_ALL && acls == READ_WRITE_ALL_ACLS)
    ensures AllSafe(w, RolePlan(w.broker, name, acls))
    ensures var after := Exec(w, RolePlan(w.broker, name, acls));
            && Granted(w, after, name, acls) && RoleReady(after.broker, name, acls)
            && after.broker.roles.Keys == w.broker.roles.Keys + {name}
  {
    if name in w.broker.roles { AddMissing(w, name, acls); } else { CreateAndAdd(w, name, acls); }
  }

  /** What becomes of the roles of one holder: the read-write role takes the place of the legacy one, at its priority
      unless the holder already has it. */
  function Migrated(roles: map<string, int>): map<string, int> {
    if LEGACY !in roles then roles
    else if READ_WRITE_ALL in roles then roles - {LEGACY}
    else (roles - {LEGACY})[READ_WRITE_ALL := roles[LEGACY]]
  }

  /** One holder moves to the read-write role before it loses the legacy one; nothing else changes. */
  lemma {:induction false} HolderPlanEffect(w: World, b: Broker, h: Holder)
    requires RoleReady(w.broker, READ_WRITE_ALL, READ_WRITE_ALL_ACLS) && LEGACY in w.broker.roles
    requires h in b.held <==> h in w.broker.held
    requires h in b.held ==> w.broker.held[h] == b.held[h]
    ensures AllSafe(w, HolderPlan(b, h))
    ensures Exec(w, HolderPlan(b, h)) ==
              if h in w.broker.held
              then w.(broker := w.broker.(held := w.broker.held[h := Migrated(w.broker.held[h])])) else w
  {
    NamesDiffer();
    var plan := HolderPlan(b, h);
    if h !in w.broker.held || LEGACY !in w.broker.held[h] {
      assert h in w.broker.held ==> w.broker.held[h := w.broker.held[h]] == w.broker.held;
    } else if READ_WRITE_ALL in b.held[h] {
      assert Exec(w, plan) == Apply(w, plan[0]);
    } else {
      var mid, was := Apply(w, plan[0]), w.broker.held[h];
      assert plan[1..] == [plan[1]];
      assert Exec(mid, plan[1..]) == Apply(mid, plan[1]);
      assert SafeCommand(mid, plan[1]);
      assert was[READ_WRITE_ALL := was[LEGACY]] - {LEGACY} == (was - {LEGACY})[READ_WRITE_ALL := was[LEGACY]];
    }
  }

  lemma {:induction false} HoldersPlanEffect(w: World, b: Broker, hs: seq<Holder>)
    requires RoleReady(w.broker, READ_WRITE_ALL, READ_WRITE_ALL_ACLS) && LEGACY in w.broker.roles
    requires b.held.Keys == w.broker.held.Keys
    requires forall h :: h in hs && h in b.held ==> w.broker.held[h] == b.held[h]
    requires forall i, j :: 0 <= i < j < |hs| ==> hs[i] != hs[j]
    ensures AllSafe(w, HoldersPlan(b, hs))
    ensures var w' := Exec(w, HoldersPlan(b, hs));
            && w'.settings == w.settings
            && w'.broker == w.broker.(held := w'.broker.held)
            && w'.broker.held.Keys == w.broker.held.Keys
            && (forall h :: h in w.broker.held ==>
                  w'.broker.held[h] == if h in hs then Migrated(w.broker.held[h]) else w.broker.held[h])
    decreases |hs|
  {
    if hs == [] {
    } else {
      HolderPlanEffect(w, b, hs[0]);
      var mid := Exec(w, HolderPlan(b, hs[0]));
      assert hs[0] !in hs[1..];
      HoldersPlanEffect(mid, b, hs[1..]);
      AllSafeAppend(w, HolderPlan(b, hs[0]), HoldersPlan(b, hs[1..]));
      ExecAppend(w, HolderPlan(b, hs[0]), HoldersPlan(b, hs[1..]));
      assert hs == [hs[0]] + hs[1..];
    }
  }

  // ---- Whole runs ----

  lemma HoldersDistinct(b: Broker)
    requires Listed(b)
    ensures forall i, j :: 0 <= i < j < |Holders(b)| ==> Holders(b)[i] != Holders(b)[j]
  {
  }

  lemma {:induction false} RolesPlanEffect(w: World)
    ensures var plan := RolePlan(w.broker, READ_ALL, READ_ALL_ACLS)
                        + RolePlan(w.broker, READ_WRITE_ALL, READ_WRITE_ALL_ACLS);
            var w' := Exec(w, plan);
            && AllSafe(w, plan)
            && RoleReady(w'.broker, READ_ALL, READ_ALL_ACLS)
            && RoleReady(w'.broker, READ_WRITE_ALL, READ_WRITE_ALL_ACLS)
            && w'.settings == w.settings
            && w'.broker == w.broker.(roles := w'.broker.roles)
            && w'.broker.roles.Keys == w.broker.roles.Keys + {READ_ALL, READ_WRITE_ALL}
  {
    var p := RolePlan(w.broker, READ_ALL, READ_ALL_ACLS);
    var q := RolePlan(w.broker, READ_WRITE_ALL, READ_WRITE_ALL_ACLS);
    NamesDiffer();
    RolePlanEffect(w, READ_ALL, READ_ALL_ACLS);
    var mid := Exec(w, p);
    assert RolePlan(mid.broker, READ_WRITE_ALL, READ_WRITE_ALL_ACLS) == q;
    RolePlanEffect(mid, READ_WRITE_ALL, READ_WRITE_ALL_ACLS);
    AllSafeAppend(w, p, q);
    ExecAppend(w, p, q);
  }

  lemma NamesDiffer()
    ensures READ_ALL != READ_WRITE_ALL && READ_ALL != LEGACY && READ_WRITE_ALL != LEGACY
  {
    assert |READ_ALL| == 8 && |READ_WRITE_ALL| == 14 && |LEGACY| == 15;
  }

  /** With the holders moved nobody refers to the legacy role any more. */
  lemma HoldersMigrated(w: World, b: Broker)
    requires Listed(w.broker) && LEGACY in w.broker.roles
    requires RoleReady(w.broker, READ_WRITE_ALL, READ_WRITE_ALL_ACLS)
    requires b.clients == w.broker.clients && b.groups == w.broker.groups && b.held == w.broker.held
    ensures AllSafe(w, HoldersPlan(b, Holders(b)))
    ensures var w' := Exec(w, HoldersPlan(b, Holders(b)));
            && NobodyHoldsLegacy(w'.broker) && Listed(w'.broker)
            && w'.settings == w.settings && w'.broker.roles == w.broker.roles
  {
    var hs := Holders(b);
    assert hs == Holders(w.broker);
    HoldersDistinct(w.broker);
    HoldersPlanEffect(w, b, hs);
    var mid := Exec(w, HoldersPlan(b, hs));
    SameListing(w.broker, mid.broker);
    forall h | h in mid.broker.held ensures LEGACY !in mid.broker.held[h] {
      assert h in hs;
      MigratedHasNoLegacy(w.broker.held[h]);
    }
  }

  lemma SameListing(a: Broker, b: Broker)
    requires Listed(a) && a.clients == b.clients && a.groups == b.groups && a.held.Keys == b.held.Keys
    ensures Listed(b)
  {
    assert Holders(a) == Holders(b);
    assert forall h :: h in a.held <==> h in b.held;
  }

  lemma MigratedHasNoLegacy(roles: map<string, int>)
    ensures LEGACY !in Migrated(roles)
  {
    NamesDiffer();
  }

  lemma DeleteLast(w: World)
    requires Listed(w.broker) && NobodyHoldsLegacy(w.broker)
    requires RoleReady(w.broker, READ_ALL, READ_ALL_ACLS)
    requires RoleReady(w.broker, READ_WRITE_ALL, READ_WRITE_ALL_ACLS)
    ensures AllSafe(w, [DeleteRole(LEGACY)])
    ensures Exec(w, [DeleteRole(LEGACY)]) == w.(broker := w.broker.(roles := w.broker.roles - {LEGACY}))
    ensures Managed(Exec(w, [DeleteRole(LEGACY)]).broker) && Listed(Exec(w, [DeleteRole(LEGACY)]).broker)
  {
    NamesDiffer();
    var w' := Apply(w, DeleteRole(LEGACY));
    assert Exec(w, [DeleteRole(LEGACY)]) == w';
    assert Holders(w'.broker) == Holders(w.broker);
  }

  lemma {:induction false} MigrationPlanEffect(w: World, b: Broker)
    requires Listed(w.broker)
    requires RoleReady(w.broker, READ_ALL, READ_ALL_ACLS)
    requires RoleReady(w.broker, READ_WRITE_ALL, READ_WRITE_ALL_ACLS)
    requires b.clients == w.broker.clients && b.groups == w.broker.groups && b.held == w.broker.held
    requires LEGACY in b.roles <==> LEGACY in w.broker.roles
    ensures AllSafe(w, MigrationPlan(b))
    ensures var w' := Exec(w, MigrationPlan(b));
            && Managed(w'.broker) && w'.settings == w.settings && Listed(w'.broker)
            && w'.broker.roles == w.broker.roles - {LEGACY}
  {
    if LEGACY in b.roles {
      HoldersMigrated(w, b);
      DeleteLast(Exec(w, HoldersPlan(b, Holders(b))));
      AllSafeAppend(w, HoldersPlan(b, Holders(b)), [DeleteRole(LEGACY)]);
      ExecAppend(w, HoldersPlan(b, Holders(b)), [DeleteRole(LEGACY)]);
    } else {
      assert w.broker.roles == w.broker.roles - {LEGACY};
    }
  }

  function RolesAndMigration(b: Broker): seq<Command> {
    RolePlan(b, READ_ALL, READ_ALL_ACLS) + RolePlan(b, READ_WRITE_ALL, READ_WRITE_ALL_ACLS) + MigrationPlan(b)
  }

  function SettingWrites(setAsDefault: bool): seq<Command> {
    (if setAsDefault then [SetClientDefaults(READ_ALL, 0)] else []) + [MarkInitialized]
  }

  lemma {:induction false} BrokerPartEffect(w: World)
    requires Listed(w.broker)
    ensures AllSafe(w, RolesAndMigration(w.broker))
    ensures var w' := Exec(w, RolesAndMigration(w.broker));
            && Managed(w'.broker) && w'.settings == w.settings && Listed(w'.broker)
            && w'.broker.roles.Keys == w.broker.roles.Keys + {READ_ALL, READ_WRITE_ALL} - {LEGACY}
  {
    var p := RolePlan(w.broker, READ_ALL, READ_ALL_ACLS) + RolePlan(w.broker, READ_WRITE_ALL, READ_WRITE_ALL_ACLS);
    NamesDiffer();
    RolesPlanEffect(w);
    var mid := Exec(w, p);
    assert Holders(mid.broker) == Holders(w.broker);
    MigrationPlanEffect(mid, w.broker);
    AllSafeAppend(w, p, MigrationPlan(w.broker));
    ExecAppend(w, p, MigrationPlan(w.broker));
  }

  lemma SettingWritesEffect(w: World, setAsDefault: bool)
    requires Managed(w.broker)
    ensures AllSafe(w, SettingWrites(setAsDefault))
    ensures Exec(w, SettingWrites(setAsDefault)) == World(w.broker, Settings(
              if setAsDefault then Some(READ_ALL) else w.settings.defaultRoleName,
              if setAsDefault then 0 else w.settings.defaultRolePriority,
              true))
  {
    var writes := SettingWrites(setAsDefault);
    if setAsDefault {
      var next := Apply(w, writes[0]);
      assert writes[1..] == [MarkInitialized];
      assert Exec(next, [MarkInitialized]) == Apply(next, MarkInitialized);
    } else {
      assert Exec(w, [MarkInitialized]) == Apply(w, MarkInitialized);
    }
  }

  lemma ManagedPlanParts(b: Broker, setAsDefault: bool)
    ensures ManagedPlan(b, setAsDefault) == RolesAndMigration(b) + SettingWrites(setAsDefault)
  {
    assert forall a, d, m: seq<Command>, e: seq<Command>, f: seq<Command> ::
      a + d + m + e + f == a + d + m + (e + f);
  }

  /** No safe command leaves a reference dangling or tidies up one that dangles already. */
  lemma SafeCommandKeepsDangling(w: World, c: Command)
    requires SafeCommand(w, c)
    ensures NoDangling(Apply(w, c).broker) <==> NoDangling(w.broker)
  {
    NamesDiffer();
    if !NoDangling(w.broker) {
      var h :| h in w.broker.held && LEGACY in w.broker.held[h];
      assert LEGACY in Apply(w, c).broker.held[h];
    }
  }

  lemma {:induction false} SafeCommandsKeepDangling(w: World, cs: seq<Command>)
    requires AllSafe(w, cs)
    ensures NoDangling(Exec(w, cs).broker) <==> NoDangling(w.broker)
    decreases |cs|
  {
    if cs != [] {
      SafeCommandKeepsDangling(w, cs[0]);
      SafeCommandsKeepDangling(Apply(w, cs[0]), cs[1..]);
    }
  }

  /** A complete run of the managed path leaves both roles ready and no legacy role; it converges exactly if no
      reference to a missing legacy role was there before. Every command of it is safe where it executes. */
  lemma ManagedRun(w: World, setAsDefault: bool)
    requires Listed(w.broker)
    ensures AllSafe(w, ManagedPlan(w.broker, setAsDefault))
    ensures var w' := Exec(w, ManagedPlan(w.broker, setAsDefault));
            && Managed(w'.broker)
            && (Converged(w'.broker) <==> NoDangling(w.broker))
            && w'.settings.initialized
            && w'.settings.defaultRoleName == if setAsDefault then Some(READ_ALL) else w.settings.defaultRoleName
  {
    var p, q := RolesAndMigration(w.broker), SettingWrites(setAsDefault);
    BrokerPartEffect(w);
    SettingWritesEffect(Exec(w, p), setAsDefault);
    ManagedPlanParts(w.broker, setAsDefault);
    AllSafeAppend(w, p, q);
    ExecAppend(w, p, q);
    SafeCommandsKeepDangling(w, p + q);
  }

  lemma PlanIsSafe(w: World)
    requires Listed(w.broker)
    ensures AllSafe(w, Plan(w))
  {
    if TakesManagedPath(w) { ManagedRun(w, SetsDefault(w)); }
  }

  /** What holds of one client or group, relative to the start, however far the runs have come. */
  ghost predicate KeepsAccess(b0: Broker, b: Broker, h: Holder)
    requires h in b0.held && h in b.held
  {
    var was, now := b0.held[h], b.held[h];
    // nobody loses access
    && (LEGACY in was ==>
          LEGACY in now || (READ_WRITE_ALL in now && RoleReady(b, READ_WRITE_ALL, READ_WRITE_ALL_ACLS)))
    // the new role is given only to those who held the legacy one, at that priority, and only when ready
    && (READ_WRITE_ALL in now && READ_WRITE_ALL !in was ==>
          && RoleReady(b, READ_WRITE_ALL, READ_WRITE_ALL_ACLS)
          && LEGACY in was && now[READ_WRITE_ALL] == was[LEGACY])
    && (READ_WRITE_ALL in was ==> READ_WRITE_ALL in now && now[READ_WRITE_ALL] == was[READ_WRITE_ALL])
    && (LEGACY in now ==> LEGACY in was && now[LEGACY] == was[LEGACY])
    // every other assignment is untouched
    && now - {LEGACY, READ_WRITE_ALL} == was - {LEGACY, READ_WRITE_ALL}
  }

  /** No ACL of a role other than the legacy one is lost, and only the managed roles gain any: the required ones. */
  ghost predicate KeepsRoles(b0: Broker, b: Broker) {
    && (forall name :: name in b0.roles && name != LEGACY ==> name in b.roles && b0.roles[name] <= b.roles[name])
    && (forall name :: name in b.roles && name != READ_ALL && name != READ_WRITE_ALL ==>
          name in b0.roles && b.roles[name] == b0.roles[name])
    && (forall name, acl :: name in b.roles && acl in b.roles[name] ==>
          (name in b0.roles && acl in b0.roles[name]) || Required(name, acl))
  }

  ghost predicate Preserves(b0: Broker, b: Broker) {
    && b.held.Keys == b0.held.Keys
    && (forall h :: h in b0.held ==> KeepsAccess(b0, b, h))
    && KeepsRoles(b0, b)
  }

  lemma SafeCommandKeepsReady(w: World, c: Command)
    requires SafeCommand(w, c) && RoleReady(w.broker, READ_WRITE_ALL, READ_WRITE_ALL_ACLS)
    ensures RoleReady(Apply(w, c).broker, READ_WRITE_ALL, READ_WRITE_ALL_ACLS)
  {
    NamesDiffer();
  }

  lemma SafeCommandKeepsAccess(b0: Broker, w: World, c: Command, h: Holder)
    requires h in b0.held && h in w.broker.held && KeepsAccess(b0, w.broker, h) && SafeCommand(w, c)
    ensures h in Apply(w, c).broker.held && KeepsAccess(b0, Apply(w, c).broker, h)
  {
    NamesDiffer();
    if RoleReady(w.broker, READ_WRITE_ALL, READ_WRITE_ALL_ACLS) { SafeCommandKeepsReady(w, c); }
    var b := Apply(w, c).broker;
    assert b.held[h] - {LEGACY, READ_WRITE_ALL} == w.broker.held[h] - {LEGACY, READ_WRITE_ALL};
  }

  lemma SafeCommandPreserves(b0: Broker, w: World, c: Command)
    requires Preserves(b0, w.broker) && SafeCommand(w, c)
    ensures Preserves(b0, Apply(w, c).broker)
  {
    forall h | h in b0.held ensures h in Apply(w, c).broker.held && KeepsAccess(b0, Apply(w, c).broker, h) {
      SafeCommandKeepsAccess(b0, w, c, h);
    }
    assert KeepsRoles(b0, Apply(w, c).broker) by { NamesDiffer(); }
  }

  lemma SafeCommandListed(w: World, c: Command)
    requires Listed(w.broker) && SafeCommand(w, c)
    ensures Listed(Apply(w, c).broker)
  {
    NamesDiffer();
    assert Holders(Apply(w, c).broker) == Holders(w.broker);
  }

  lemma {:induction false} SafeCommandsPreserve(b0: Broker, w: World, cs: seq<Command>)
    requires Preserves(b0, w.broker) && Listed(w.broker) && AllSafe(w, cs)
    ensures Preserves(b0, Exec(w, cs).broker) && Listed(Exec(w, cs).broker)
    decreases |cs|
  {
    if cs != [] {
      SafeCommandPreserves(b0, w, cs[0]);
      SafeCommandListed(w, cs[0]);
      SafeCommandsPreserve(b0, Apply(w, cs[0]), cs[1..]);
    }
  }

  /** Runs that each read the state afresh and stop after the given number of commands. */
  function Attempts(w: World, cuts: seq<nat>): World {
    if cuts == [] then w
    else
      var before := Attempts(w, cuts[..|cuts| - 1]);
      Exec(before, Plan(before)[..Min(cuts[|cuts| - 1], |Plan(before)|)])
  }

  /** Stopping after any command of any attempt leaves everybody with the access they started with. */
  lemma {:induction false} SafeAtEveryPrefix(w: World, cuts: seq<nat>)
    requires Listed(w.broker)
    ensures Preserves(w.broker, Attempts(w, cuts).broker) && Listed(Attempts(w, cuts).broker)
  {
    if cuts != [] {
      SafeAtEveryPrefix(w, cuts[..|cuts| - 1]);
      var before := Attempts(w, cuts[..|cuts| - 1]);
      var n := Min(cuts[|cuts| - 1], |Plan(before)|);
      PlanIsSafe(before);
      AllSafePrefix(before, Plan(before), n);
      SafeCommandsPreserve(w.broker, before, Plan(before)[..n]);
    }
  }

  // ---- Which installations are managed ----

  /** A managed default is stored, or nothing has been set up yet. */
  predicate MustSelect(w: World) {
    || StoresManagedDefault(w.settings)
    || (!w.settings.initialized && w.settings.defaultRoleName == None && !HasCustomRoles(w.broker))
  }

  /** ... or the legacy role is still there. */
  predicate IsManaged(w: World) {
    MustSelect(w) || LEGACY in w.broker.roles
  }

  lemma {:induction false} MarkOnly(w: World, n: nat)
    requires n <= 1
    ensures Exec(w, [MarkInitialized][..n]).broker == w.broker
    ensures Exec(w, [MarkInitialized][..n]).settings
         == w.settings.(initialized := w.settings.initialized || n == 1)
  {
    if n == 1 {
      assert [MarkInitialized][..1][1..] == [];
      assert Exec(w, [MarkInitialized][..1]) == Apply(w, MarkInitialized);
    }
  }

  /** Every other installation is left alone, however many runs there are: its roles, its assignments and its default
      stay as they are. The first complete run marks it. */
  lemma {:induction false} OthersLeftAlone(w: World, cuts: seq<nat>)
    requires !IsManaged(w)
    ensures var b := Attempts(w, cuts);
      && b.broker == w.broker && b.settings == w.settings.(initialized := b.settings.initialized)
      && (w.settings.initialized ==> b == w)
      && !IsManaged(b)
      && Exec(b, Plan(b)).settings.initialized && Exec(b, Plan(b)).broker == w.broker
  {
    if cuts != [] {
      OthersLeftAlone(w, cuts[..|cuts| - 1]);
      var before := Attempts(w, cuts[..|cuts| - 1]);
      if !before.settings.initialized { MarkOnly(before, Min(cuts[|cuts| - 1], 1)); }
    }
    var b := Attempts(w, cuts);
    if !b.settings.initialized {
      MarkOnly(b, 1);
      assert [MarkInitialized][..1] == [MarkInitialized];
    }
  }

  // ---- Convergence ----

  /** The next run will do the managed work, or there is none left to do. */
  ghost predicate OnTrack(w: World) {
    TakesManagedPath(w) || Managed(w.broker)
  }

  lemma SafeCommandStaysOnTrack(w: World, c: Command)
    requires OnTrack(w) && Listed(w.broker) && SafeCommand(w, c)
    ensures OnTrack(Apply(w, c))
  {
    NamesDiffer();
    var w' := Apply(w, c);
    assert READ_ALL in RESERVED_ROLES && READ_WRITE_ALL in RESERVED_ROLES;
    if HasCustomRoles(w'.broker) {
      var name :| name in w'.broker.roles && name !in RESERVED_ROLES;
      assert name in w.broker.roles;
    }
  }

  lemma {:induction false} SafeCommandsStayOnTrack(w: World, cs: seq<Command>)
    requires OnTrack(w) && Listed(w.broker) && AllSafe(w, cs)
    ensures OnTrack(Exec(w, cs)) && Listed(Exec(w, cs).broker)
    decreases |cs|
  {
    if cs != [] {
      SafeCommandStaysOnTrack(w, cs[0]);
      SafeCommandListed(w, cs[0]);
      SafeCommandsStayOnTrack(Apply(w, cs[0]), cs[1..]);
    }
  }

  lemma {:induction false} AttemptsStayOnTrack(w: World, cuts: seq<nat>)
    requires TakesManagedPath(w) && Listed(w.broker)
    ensures OnTrack(Attempts(w, cuts)) && Listed(Attempts(w, cuts).broker)
  {
    if cuts != [] {
      AttemptsStayOnTrack(w, cuts[..|cuts| - 1]);
      var before := Attempts(w, cuts[..|cuts| - 1]);
      var n := Min(cuts[|cuts| - 1], |Plan(before)|);
      PlanIsSafe(before);
      AllSafePrefix(before, Plan(before), n);
      SafeCommandsStayOnTrack(before, Plan(before)[..n]);
    }
  }

  lemma {:induction false} NothingMissing(existing: set<Grant>, acls: seq<Grant>)
    requires forall acl :: acl in acls ==> acl in existing
    ensures MissingAcls(existing, acls) == []
  {
    if acls != [] { NothingMissing(existing, acls[1..]); }
  }

  /** Once the roles are ready and the legacy one is gone, a run issues no broker command. */
  lemma ManagedIsQuiet(w: World)
    requires Managed(w.broker)
    ensures forall c :: c in Plan(w) ==> !c.ForBroker()
  {
    NothingMissing(w.broker.roles[READ_ALL], READ_ALL_ACLS);
    NothingMissing(w.broker.roles[READ_WRITE_ALL], READ_WRITE_ALL_ACLS);
    assert RolePlan(w.broker, READ_ALL, READ_ALL_ACLS) == [];
    assert RolePlan(w.broker, READ_WRITE_ALL, READ_WRITE_ALL_ACLS) == [];
    assert MigrationPlan(w.broker) == [];
  }

  lemma {:induction false} QuietKeepsBroker(w: World, cs: seq<Command>)
    requires forall c :: c in cs ==> !c.ForBroker()
    ensures Exec(w, cs).broker == w.broker
    decreases |cs|
  {
    if cs != [] { assert cs[0] in cs; QuietKeepsBroker(Apply(w, cs[0]), cs[1..]); }
  }

  lemma {:induction false} ManagedForever(w: World, cuts: seq<nat>)
    requires Managed(w.broker)
    ensures Attempts(w, cuts).broker == w.broker
    ensures forall c :: c in Plan(Attempts(w, cuts)) ==> !c.ForBroker()
  {
    if cuts != [] {
      ManagedForever(w, cuts[..|cuts| - 1]);
      var before := Attempts(w, cuts[..|cuts| - 1]);
      QuietKeepsBroker(before, Plan(before)[..Min(cuts[|cuts| - 1], |Plan(before)|)]);
    }
    ManagedIsQuiet(Attempts(w, cuts));
  }

  lemma {:induction false} AttemptsKeepDangling(w: World, cuts: seq<nat>)
    requires Listed(w.broker)
    ensures NoDangling(Attempts(w, cuts).broker) <==> NoDangling(w.broker)
  {
    if cuts != [] {
      var before := Attempts(w, cuts[..|cuts| - 1]);
      AttemptsKeepDangling(w, cuts[..|cuts| - 1]);
      SafeAtEveryPrefix(w, cuts[..|cuts| - 1]);
      var n := Min(cuts[|cuts| - 1], |Plan(before)|);
      PlanIsSafe(before);
      AllSafePrefix(before, Plan(before), n);
      SafeCommandsKeepDangling(before, Plan(before)[..n]);
    }
  }

  /** A complete run, on whichever path, of an installation that was on track. */
  lemma CompleteRun(w: World)
    requires OnTrack(w) && Listed(w.broker)
    ensures Managed(Exec(w, Plan(w)).broker)
    ensures Converged(Exec(w, Plan(w)).broker) <==> NoDangling(w.broker)
  {
    if TakesManagedPath(w) {
      ManagedRun(w, SetsDefault(w));
    } else {
      ManagedIsQuiet(w);
      QuietKeepsBroker(w, Plan(w));
    }
  }

  /** However many attempts stop early, the first complete one leaves both roles ready and no legacy role, and no later
      attempt issues a broker command or changes the broker. References to the legacy role are gone too exactly if none
      pointed at a missing legacy role at the start. */
  lemma BootstrapConverges(w: World, cuts: seq<nat>, later: seq<nat>)
    requires IsManaged(w) && Listed(w.broker)
    ensures var before := Attempts(w, cuts);
            var done := Exec(before, Plan(before));
            && Managed(done.broker)
            && (Converged(done.broker) <==> NoDangling(w.broker))
            && Attempts(done, later).broker == done.broker
            && (forall c :: c in Plan(Attempts(done, later)) ==> !c.ForBroker())
  {
    AttemptsStayOnTrack(w, cuts);
    AttemptsKeepDangling(w, cuts);
    CompleteRun(Attempts(w, cuts));
    ManagedForever(Exec(Attempts(w, cuts), Plan(Attempts(w, cuts))), later);
  }

  // ---- When the default role is selected whatever stops ----

  /** The first complete run after runs that stopped early. */
  function CompletedAfter(w: World, cuts: seq<nat>): World {
    Exec(Attempts(w, cuts), Plan(Attempts(w, cuts)))
  }

  ghost predicate DefaultAlwaysSelected(w: World) {
    forall cuts :: CompletedAfter(w, cuts).settings.defaultRoleName == Some(READ_ALL)
  }

  lemma {:induction false} BrokerCommandsKeepSettings(w: World, cs: seq<Command>)
    requires forall c :: c in cs ==> c.ForBroker()
    ensures Exec(w, cs).settings == w.settings
    decreases |cs|
  {
    if cs != [] { assert cs[0] in cs; BrokerCommandsKeepSettings(Apply(w, cs[0]), cs[1..]); }
  }

  lemma {:induction false} HoldersPlanIsForBroker(b: Broker, hs: seq<Holder>)
    ensures forall c :: c in HoldersPlan(b, hs) ==> c.ForBroker()
  {
    if hs != [] { HoldersPlanIsForBroker(b, hs[1..]); }
  }

  lemma {:induction false} AddAclsIsForBroker(name: string, acls: seq<Grant>)
    ensures forall c :: c in AddAcls(name, acls) ==> c.ForBroker()
  {
    if acls != [] { AddAclsIsForBroker(name, acls[1..]); }
  }

  lemma RolePlanIsForBroker(b: Broker, name: string, acls: seq<Grant>)
    ensures forall c :: c in RolePlan(b, name, acls) ==> c.ForBroker()
  {
    AddAclsIsForBroker(name, acls);
    if name in b.roles { AddAclsIsForBroker(name, MissingAcls(b.roles[name], acls)); }
  }

  lemma RolesAndMigrationIsForBroker(b: Broker)
    ensures forall c :: c in RolesAndMigration(b) ==> c.ForBroker()
  {
    RolePlanIsForBroker(b, READ_ALL, READ_ALL_ACLS);
    RolePlanIsForBroker(b, READ_WRITE_ALL, READ_WRITE_ALL_ACLS);
    HoldersPlanIsForBroker(b, Holders(b));
  }

  lemma SafeCommandAddsNoCustomRole(w: World, c: Command)
    requires SafeCommand(w, c) && !HasCustomRoles(w.broker)
    ensures !HasCustomRoles(Apply(w, c).broker)
  {
    assert READ_ALL in RESERVED_ROLES && READ_WRITE_ALL in RESERVED_ROLES;
    assert forall name :: name in Apply(w, c).broker.roles && name !in RESERVED_ROLES ==> name in w.broker.roles;
  }

  lemma {:induction false} SafeCommandsAddNoCustomRole(w: World, cs: seq<Command>)
    requires AllSafe(w, cs) && !HasCustomRoles(w.broker)
    ensures !HasCustomRoles(Exec(w, cs).broker)
    decreases |cs|
  {
    if cs != [] {
      SafeCommandAddsNoCustomRole(w, cs[0]);
      SafeCommandsAddNoCustomRole(Apply(w, cs[0]), cs[1..]);
    }
  }

  /** A safe command writes no default but read-all, and never unmarks the installation. */
  lemma {:induction false} SafeCommandsWriteReadAll(w: World, cs: seq<Command>)
    requires AllSafe(w, cs)
    ensures var was, now := w.settings, Exec(w, cs).settings;
      && (now.defaultRoleName == was.defaultRoleName || now.defaultRoleName == Some(READ_ALL))
      && (was.initialized ==> now.initialized)
    decreases |cs|
  {
    if cs != [] { SafeCommandsWriteReadAll(Apply(w, cs[0]), cs[1..]); }
  }

  lemma FirstSettings(w: World, n: nat)
    requires n == 1 || n == 2
    ensures Exec(w, SettingWrites(true)[..n]).settings.defaultRoleName == Some(READ_ALL)
  {
    var writes := SettingWrites(true);
    assert writes == [SetClientDefaults(READ_ALL, 0), MarkInitialized];
    var one := Apply(w, writes[0]);
    if n == 1 {
      assert writes[..1][1..] == [];
    } else {
      assert writes[..2][1..] == [MarkInitialized] && [MarkInitialized][1..] == [];
      assert Exec(one, [MarkInitialized]) == Apply(one, MarkInitialized);
    }
  }

  /** A first run writes the default before it marks the installation, so it may stop anywhere. */
  lemma FirstRunMaySelectLater(w: World, k: nat)
    requires Listed(w.broker) && MustSelect(w) && w.settings.defaultRoleName == None && k <= |Plan(w)|
    ensures MustSelect(Exec(w, Plan(w)[..k]))
  {
    var part, writes := RolesAndMigration(w.broker), SettingWrites(true);
    ManagedPlanParts(w.broker, true);
    if k <= |part| {
      assert Plan(w)[..k] == part[..k];
      RolesAndMigrationIsForBroker(w.broker);
      BrokerCommandsKeepSettings(w, part[..k]);
      BrokerPartEffect(w);
      AllSafePrefix(w, part, k);
      SafeCommandsAddNoCustomRole(w, part[..k]);
    } else {
      assert Plan(w)[..k] == part + writes[..k - |part|];
      ExecAppend(w, part, writes[..k - |part|]);
      FirstSettings(Exec(w, part), k - |part|);
    }
  }

  lemma MustSelectStays(w: World, k: nat)
    requires Listed(w.broker) && MustSelect(w) && k <= |Plan(w)|
    ensures MustSelect(Exec(w, Plan(w)[..k]))
  {
    if w.settings.defaultRoleName == None {
      FirstRunMaySelectLater(w, k);
    } else {
      PlanIsSafe(w);
      AllSafePrefix(w, Plan(w), k);
      SafeCommandsWriteReadAll(w, Plan(w)[..k]);
    }
  }

  lemma {:induction false} AttemptsMustSelect(w: World, cuts: seq<nat>)
    requires Listed(w.broker) && MustSelect(w)
    ensures Listed(Attempts(w, cuts).broker) && MustSelect(Attempts(w, cuts))
  {
    SafeAtEveryPrefix(w, cuts);
    if cuts != [] {
      AttemptsMustSelect(w, cuts[..|cuts| - 1]);
      var before := Attempts(w, cuts[..|cuts| - 1]);
      MustSelectStays(before, Min(cuts[|cuts| - 1], |Plan(before)|));
    }
  }

  lemma {:induction false} CompleteRunSelects(w: World)
    requires Listed(w.broker) && MustSelect(w)
    ensures Exec(w, Plan(w)).settings.defaultRoleName == Some(READ_ALL)
  {
    ManagedRun(w, SetsDefault(w));
  }

  /** Another stored default, or custom roles without one, are left alone by a complete run. */
  lemma {:induction false} CompleteRunKeepsChoice(w: World)
    requires Listed(w.broker) && !StoresManagedDefault(w.settings)
    requires w.settings.defaultRoleName.Some? || HasCustomRoles(w.broker)
    ensures Exec(w, Plan(w)).settings.defaultRoleName == w.settings.defaultRoleName
  {
    if TakesManagedPath(w) {
      ManagedRun(w, SetsDefault(w));
    } else if !w.settings.initialized {
      assert Exec(w, [MarkInitialized]) == Apply(w, MarkInitialized);
    }
  }

  lemma {:induction false} NothingLeftToDo(w: World, later: seq<nat>)
    requires Plan(w) == []
    ensures Attempts(w, later) == w
  {
    if later != [] { NothingLeftToDo(w, later[..|later| - 1]); }
  }

  /** On an installation marked initialized, without custom roles or a stored default, a complete run would select
      read-all; if the first run stops right after it deletes the legacy role, none ever does. */
  lemma StoppedAfterDelete(w: World, later: seq<nat>)
    requires Listed(w.broker) && LEGACY in w.broker.roles
    requires w.settings.defaultRoleName == None && !HasCustomRoles(w.broker) && w.settings.initialized
    ensures CompletedAfter(w, []).settings.defaultRoleName == Some(READ_ALL)
    ensures var part := RolesAndMigration(w.broker);
      var stopped := Attempts(w, [|part|]);
      && part != [] && part[|part| - 1] == DeleteRole(LEGACY) && part <= Plan(w)
      && Plan(stopped) == []
      && Attempts(stopped, later) == stopped
      && CompletedAfter(stopped, later).settings.defaultRoleName == None
  {
    var part := RolesAndMigration(w.broker);
    ManagedPlanParts(w.broker, SetsDefault(w));
    ManagedRun(w, SetsDefault(w));
    OneAttempt(w, |part|);
    assert Plan(w)[..|part|] == part;
    BrokerPartEffect(w);
    assert AllSafe(w, part);
    SafeCommandsAddNoCustomRole(w, part);
    NothingLeftToDo(Attempts(w, [|part|]), later);
  }

  lemma OneAttempt(w: World, n: nat)
    requires n <= |Plan(w)|
    ensures Attempts(w, [n]) == Exec(w, Plan(w)[..n])
  {
    assert [n][..0] == [];
    assert Attempts(w, []) == w;
  }

  /** However many attempts stop early, the first complete one leaves read-all as the default role, exactly if a managed
      default is stored or the installation is not marked initialized, has no default and no custom role. */
  lemma DefaultSelectionCrashSafety(w: World)
    requires Listed(w.broker)
    ensures DefaultAlwaysSelected(w) <==> MustSelect(w)
  {
    if MustSelect(w) {
      forall cuts ensures CompletedAfter(w, cuts).settings.defaultRoleName == Some(READ_ALL) {
        AttemptsMustSelect(w, cuts);
        CompleteRunSelects(Attempts(w, cuts));
      }
    } else {
      SometimesNotSelected(w);
    }
  }

  lemma SometimesNotSelected(w: World)
    requires Listed(w.broker) && !MustSelect(w)
    ensures !DefaultAlwaysSelected(w)
  {
    if w.settings.defaultRoleName.Some? || HasCustomRoles(w.broker) {
      CompleteRunKeepsChoice(w);
      assert CompletedAfter(w, []).settings.defaultRoleName != Some(READ_ALL);
    } else if LEGACY in w.broker.roles {
      StoppedAfterDelete(w, []);
      assert CompletedAfter(w, [|RolesAndMigration(w.broker)|]).settings.defaultRoleName == None;
    } else {
      assert CompletedAfter(w, []).settings.defaultRoleName == None;
    }
  }

  /** An installation that was marked initialized with nothing selected, at some later moment. */
  predicate Unselected(w: World) {
    && w.settings.initialized && !HasCustomRoles(w.broker)
    && (w.settings.defaultRoleName == None || w.settings.defaultRoleName == Some(READ_ALL))
  }

  lemma {:induction false} AttemptsStayUnselected(w: World, cuts: seq<nat>)
    requires Listed(w.broker) && Unselected(w)
    ensures Listed(Attempts(w, cuts).broker) && Unselected(Attempts(w, cuts))
  {
    SafeAtEveryPrefix(w, cuts);
    if cuts != [] {
      AttemptsStayUnselected(w, cuts[..|cuts| - 1]);
      SafeAtEveryPrefix(w, cuts[..|cuts| - 1]);
      var before := Attempts(w, cuts[..|cuts| - 1]);
      var n := Min(cuts[|cuts| - 1], |Plan(before)|);
      PlanIsSafe(before);
      AllSafePrefix(before, Plan(before), n);
      SafeCommandsAddNoCustomRole(before, Plan(before)[..n]);
      SafeCommandsWriteReadAll(before, Plan(before)[..n]);
    }
  }

  ghost predicate NeverSelected(w: World) {
    forall later :: Attempts(w, later).settings.defaultRoleName == None
  }

  /** Wherever its attempts stopped, an initialized installation has lost the selection for good exactly if the legacy
      role is gone and no default is stored. */
  lemma {:induction false} SelectionLostExactly(w: World, cuts: seq<nat>)
    requires Listed(w.broker) && w.settings.initialized && !HasCustomRoles(w.broker)
    requires w.settings.defaultRoleName == None
    ensures var b := Attempts(w, cuts);
      NeverSelected(b) <==> LEGACY !in b.broker.roles && b.settings.defaultRoleName == None
  {
    AttemptsStayUnselected(w, cuts);
    var b := Attempts(w, cuts);
    if b.settings.defaultRoleName == Some(READ_ALL) {
      assert Attempts(b, []).settings.defaultRoleName == Some(READ_ALL);
    } else if LEGACY in b.broker.roles {
      ManagedRun(b, SetsDefault(b));
      OneAttempt(b, |Plan(b)|);
      assert Plan(b)[..|Plan(b)|] == Plan(b);
      assert Attempts(b, [|Plan(b)|]).settings.defaultRoleName == Some(READ_ALL);
    } else {
      forall later ensures Attempts(b, later).settings.defaultRoleName == None { NothingLeftToDo(b, later); }
    }
  }

  // ---- The retries ----

  datatype Status = Idle | Pending

  /** What one pass of the startup retry loop meets: an agent whose broker is down, a failing health
      call, or a bootstrap run that can issue `budget` commands before an error. */
  datatype Attempt =
    | BrokerDown
    | HealthFails(retryable: bool)
    | Bootstrap(budget: nat, retryable: bool)

  predicate EndsLoop(a: Attempt) {
    (a.HealthFails? || a.Bootstrap?) && !a.retryable
  }

  function AfterAttempt(w: World, a: Attempt): World {
    if a.Bootstrap? then Exec(w, Plan(w)[..Min(a.budget, |Plan(w)|)]) else w
  }

  predicate Completes(w: World, a: Attempt) {
    a.Bootstrap? && a.budget >= |Plan(w)|
  }

  /** How many commands each of the first i attempts that reached the broker could issue. */
  function CutsOf(outcomes: seq<Attempt>, i: nat): (cuts: seq<nat>)
    requires i <= |outcomes|
    ensures |cuts| <= i
  {
    if i == 0 then [] else CutsWith(CutsOf(outcomes, i - 1), outcomes[i - 1])
  }

  function CutsWith(cuts: seq<nat>, a: Attempt): seq<nat> {
    if a.Bootstrap? then cuts + [a.budget] else cuts
  }

  predicate CompletesAt(start: World, outcomes: seq<Attempt>, i: nat) {
    i < |outcomes| && Completes(Attempts(start, CutsOf(outcomes, i)), outcomes[i])
  }

  predicate GoesOnAfter(outcomes: seq<Attempt>, i: nat) {
    i < |outcomes| ==> !EndsLoop(outcomes[i])
  }

  /** Some attempt completes, and no earlier one ends the loop. */
  ghost predicate Succeeds(start: World, outcomes: seq<Attempt>) {
    exists n: nat :: CompletesAt(start, outcomes, n) && forall i: nat :: i < n ==> GoesOnAfter(outcomes, i)
  }

  ghost predicate NoneDecided(start: World, tried: seq<Attempt>, i: nat) {
    forall j: nat :: j < i ==> !CompletesAt(start, tried, j) && GoesOnAfter(tried, j)
  }

  /** Where the loop stands before attempt i. */
  ghost predicate Underway(start: World, w: World, tried: seq<Attempt>, i: nat) {
    i <= |tried| && w == Attempts(start, CutsOf(tried, i)) && NoneDecided(start, tried, i)
  }

  /** How the loop ends after n attempts: it succeeded exactly if some attempt completed in time, and then it has
      finished the job. */
  ghost predicate Concluded(start: World, w: World, n: nat, tried: seq<Attempt>, ok: bool) {
    && n <= |tried| && w == Attempts(start, CutsOf(tried, n))
    && (ok ==> Finished(start, w))
    && (ok <==> Succeeds(start, tried))
  }

  lemma {:induction false} NoneTried(w: World, tried: seq<Attempt>)
    ensures Underway(w, w, tried, 0)
  {
  }

  lemma {:induction false} NoneLeft(start: World, w: World, tried: seq<Attempt>)
    requires Underway(start, w, tried, |tried|)
    ensures Concluded(start, w, |tried|, tried, false)
  {
  }

  lemma {:induction false} CutsAfter(w: World, cuts: seq<nat>, a: Attempt)
    ensures Attempts(w, CutsWith(cuts, a)) == AfterAttempt(Attempts(w, cuts), a)
  {
    if a.Bootstrap? { OneMoreAttempt(w, cuts, a.budget); }
  }

  lemma {:induction false} CompletedInTime(start: World, tried: seq<Attempt>, i: nat)
    requires NoneDecided(start, tried, i) && CompletesAt(start, tried, i)
    ensures Succeeds(start, tried)
  {
  }

  lemma {:induction false} GivenUp(start: World, tried: seq<Attempt>, i: nat)
    requires i < |tried| && NoneDecided(start, tried, i) && !CompletesAt(start, tried, i) && EndsLoop(tried[i])
    ensures !Succeeds(start, tried)
  {
    assert !GoesOnAfter(tried, i);
    forall n: nat | CompletesAt(start, tried, n) ensures i < n {
      assert n != i && !(n < i);
    }
  }

  lemma {:induction false} NextDecided(start: World, tried: seq<Attempt>, i: nat)
    requires i < |tried| && NoneDecided(start, tried, i) && !CompletesAt(start, tried, i) && !EndsLoop(tried[i])
    ensures NoneDecided(start, tried, i + 1)
  {
    forall j: nat | j < i + 1 ensures !CompletesAt(start, tried, j) && GoesOnAfter(tried, j) {
      assert j == i || j < i;
    }
  }

  lemma {:induction false} Proceed(start: World, w: World, tried: seq<Attempt>, i: nat)
    requires i < |tried| && Underway(start, w, tried, i)
    ensures var next := Attempts(start, CutsOf(tried, i + 1));
      && next == AfterAttempt(w, tried[i])
      && if Completes(w, tried[i]) then Concluded(start, next, i + 1, tried, true)
         else if EndsLoop(tried[i]) then Concluded(start, next, i + 1, tried, false)
         else Underway(start, next, tried, i + 1)
  {
    CutsAfter(start, CutsOf(tried, i), tried[i]);
    if CompletesAt(start, tried, i) {
      CompletedInTime(start, tried, i);
      CompleteAttempt(start, CutsOf(tried, i), tried[i]);
    } else if EndsLoop(tried[i]) {
      GivenUp(start, tried, i);
    } else {
      NextDecided(start, tried, i);
    }
  }

  /** A budget for the whole plan, whatever earlier attempts have done. */
  ghost predicate EnoughFor(w: World, a: Attempt) {
    a.Bootstrap? && forall cuts :: |Plan(Attempts(w, cuts))| <= a.budget
  }

  /** While errors are of the kind that is retried, one attempt that meets none is enough: the loop ends with success
      whatever failed before, at whatever command. */
  lemma {:induction false} RetriesSucceed(w: World, outcomes: seq<Attempt>, n: nat)
    requires n < |outcomes| && (forall i :: 0 <= i < n ==> !EndsLoop(outcomes[i])) && EnoughFor(w, outcomes[n])
    ensures Succeeds(w, outcomes)
  {
    assert |Plan(Attempts(w, CutsOf(outcomes, n)))| <= outcomes[n].budget;
    assert CompletesAt(w, outcomes, n);
  }

  // ---- The service object ----

  lemma IssueAllOne(s: Session, c: Command)
    ensures IssueAll(s, [c]) == Issue(s, c)
  {
    assert [c][1..] == [];
    assert IssueAll(Issue(s, c), []) == Issue(s, c);
  }

  lemma {:induction false} AddAclsStep(name: string, acls: seq<Grant>, i: nat)
    requires i < |acls|
    ensures AddAcls(name, acls[..i + 1]) == AddAcls(name, acls[..i]) + [AddRoleAcl(name, acls[i])]
  {
    if i == 0 {
      assert acls[..1] == [acls[0]] && acls[..1][1..] == [];
    } else {
      AddAclsStep(name, acls[1..], i - 1);
      assert acls[..i + 1][1..] == acls[1..][..i] && acls[..i][1..] == acls[1..][..i - 1];
    }
  }

  lemma {:induction false} AddAclsSplit(name: string, acls: seq<Grant>, i: nat)
    requires i <= |acls|
    ensures AddAcls(name, acls) == AddAcls(name, acls[..i]) + AddAcls(name, acls[i..])
  {
    if i > 0 {
      AddAclsSplit(name, acls[1..], i - 1);
      assert acls[..i][1..] == acls[1..][..i - 1] && acls[1..][i - 1..] == acls[i..];
    }
  }

  lemma {:induction false} HoldersPlanSplit(b: Broker, hs: seq<Holder>, i: nat)
    requires i <= |hs|
    ensures HoldersPlan(b, hs) == HoldersPlan(b, hs[..i]) + HoldersPlan(b, hs[i..])
  {
    if i > 0 {
      HoldersPlanSplit(b, hs[1..], i - 1);
      assert hs[..i][1..] == hs[1..][..i - 1] && hs[1..][i - 1..] == hs[i..];
    }
  }

  lemma HoldersPlanStep(b: Broker, hs: seq<Holder>, i: nat)
    requires i < |hs|
    ensures HoldersPlan(b, hs[..i + 1]) == HoldersPlan(b, hs[..i]) + HolderPlan(b, hs[i])
  {
    HoldersPlanSplit(b, hs[..i + 1], i);
    assert hs[..i + 1][..i] == hs[..i] && hs[..i + 1][i..] == [hs[i]];
    assert HoldersPlan(b, [hs[i]]) == HolderPlan(b, hs[i]);
  }

  /** A run that has failed inside a first part is where the whole leaves it. */
  lemma FailedInside(s: Session, a: seq<Command>, b: seq<Command>)
    requires IssueAll(s, a).failed
    ensures IssueAll(s, a + b) == IssueAll(s, a)
  {
    IssueAllAppend(s, a, b);
    FailedStays(IssueAll(s, a), b);
  }

  class DynsecService {
    var world: World
    var budget: nat
    var status: Status

    constructor (world: World)
      ensures this.world == world && status == Idle
    {
      this.world, budget, status := world, 0, Idle;
    }

    ghost function Now(): Session
      reads this
    {
      Session(world, budget, false)
    }

    ghost function Outcome(ok: bool): Session
      reads this
    {
      Session(world, budget, !ok)
    }

    method RunCommand(c: Command) returns (ok: bool)
      modifies this`world, this`budget
      ensures Outcome(ok) == Issue(old(Now()), c)
    {
      ok := budget > 0;
      if ok { world, budget := Apply(world, c), budget - 1; }
    }

    method AddRoleAclCommands(name: string, acls: seq<Grant>) returns (ok: bool)
      modifies this`world, this`budget
      ensures Outcome(ok) == IssueAll(old(Now()), AddAcls(name, acls))
    {
      ok := true;
      for i := 0 to |acls|
        invariant ok && Now() == IssueAll(old(Now()), AddAcls(name, acls[..i]))
      {
        var command := AddRoleAcl(name, acls[i]);
        ok := RunCommand(command);
        AddAclsStep(name, acls, i);
        IssueAllAppend(old(Now()), AddAcls(name, acls[..i]), [command]);
        IssueAllOne(IssueAll(old(Now()), AddAcls(name, acls[..i])), command);
        if !ok {
          AddAclsSplit(name, acls, i + 1);
          FailedInside(old(Now()), AddAcls(name, acls[..i + 1]), AddAcls(name, acls[i + 1..]));
          return;
        }
      }
      assert acls[..|acls|] == acls;
    }

    method EnsureBootstrapRole(name: string, acls: seq<Grant>, state: Broker) returns (ok: bool)
      modifies this`world, this`budget
      ensures Outcome(ok) == IssueAll(old(Now()), RolePlan(state, name, acls))
    {
      if name in state.roles {
        ok := AddRoleAclCommands(name, MissingAcls(state.roles[name], acls));
        return;
      }
      IssueAllOne(Now(), CreateRole(name));
      IssueAllAppend(Now(), [CreateRole(name)], AddAcls(name, acls));
      ok := RunCommand(CreateRole(name));
      if !ok {
        FailedStays(Outcome(ok), AddAcls(name, acls));
        return;
      }
      ok := AddRoleAclCommands(name, acls);
    }

    method MigrateHolder(state: Broker, h: Holder) returns (ok: bool)
      modifies this`world, this`budget
      ensures Outcome(ok) == IssueAll(old(Now()), HolderPlan(state, h))
    {
      ok := true;
      if h !in state.held || LEGACY !in state.held[h] { return; }
      if READ_WRITE_ALL !in state.held[h] {
        var assign := AddHolderRole(h, READ_WRITE_ALL, state.held[h][LEGACY]);
        IssueAllOne(Now(), assign);
        IssueAllAppend(Now(), [assign], [RemoveHolderRole(h, LEGACY)]);
        ok := RunCommand(assign);
        if !ok {
          FailedStays(Outcome(ok), [RemoveHolderRole(h, LEGACY)]);
          return;
        }
      }
      IssueAllOne(Now(), RemoveHolderRole(h, LEGACY));
      ok := RunCommand(RemoveHolderRole(h, LEGACY));
    }

    /** The loop over the clients followed by the identical loop over the groups. */
    method MigrateHolders(state: Broker, hs: seq<Holder>) returns (ok: bool)
      modifies this`world, this`budget
      ensures Outcome(ok) == IssueAll(old(Now()), HoldersPlan(state, hs))
    {
      ok := true;
      for i := 0 to |hs|
        invariant ok && Now() == IssueAll(old(Now()), HoldersPlan(state, hs[..i]))
      {
        HoldersPlanStep(state, hs, i);
        IssueAllAppend(old(Now()), HoldersPlan(state, hs[..i]), HolderPlan(state, hs[i]));
        ok := MigrateHolder(state, hs[i]);
        if !ok {
          HoldersPlanSplit(state, hs, i + 1);
          FailedInside(old(Now()), HoldersPlan(state, hs[..i + 1]), HoldersPlan(state, hs[i + 1..]));
          return;
        }
      }
      assert hs[..|hs|] == hs;
    }

    method MigrateLegacyBootstrapRole(state: Broker) returns (ok: bool)
      modifies this`world, this`budget
      ensures Outcome(ok) == IssueAll(old(Now()), MigrationPlan(state))
    {
      ok := true;
      if LEGACY !in state.roles { return; }
      ghost var plan := HoldersPlan(state, Holders(state));
      IssueAllAppend(Now(), plan, [DeleteRole(LEGACY)]);
      ok := MigrateHolders(state, Holders(state));
      if !ok {
        FailedStays(Outcome(ok), [DeleteRole(LEGACY)]);
        return;
      }
      IssueAllOne(Now(), DeleteRole(LEGACY));
      ok := RunCommand(DeleteRole(LEGACY));
    }

    method EnsureManagedBootstrapRoles(state: Broker, setAsDefault: bool) returns (ok: bool)
      modifies this`world, this`budget
      ensures Outcome(ok) == IssueAll(old(Now()), RolesAndMigration(state)
                + (if setAsDefault then [SetClientDefaults(READ_ALL, 0)] else []))
    {
      ghost var p, q, m := RolePlan(state, READ_ALL, READ_ALL_ACLS),
                           RolePlan(state, READ_WRITE_ALL, READ_WRITE_ALL_ACLS), MigrationPlan(state);
      ghost var d := if setAsDefault then [SetClientDefaults(READ_ALL, 0)] else [];
      IssueAllAppend(Now(), p, q);
      IssueAllAppend(Now(), p + q, m);
      IssueAllAppend(Now(), p + q + m, d);
      ok := EnsureBootstrapRole(READ_ALL, READ_ALL_ACLS, state);
      if !ok {
        FailedStays(Outcome(ok), q);
        FailedStays(Outcome(ok), m);
        FailedStays(Outcome(ok), d);
        return;
      }
      ok := EnsureBootstrapRole(READ_WRITE_ALL, READ_WRITE_ALL_ACLS, state);
      if !ok {
        FailedStays(Outcome(ok), m);
        FailedStays(Outcome(ok), d);
        return;
      }
      ok := MigrateLegacyBootstrapRole(state);
      if !ok {
        FailedStays(Outcome(ok), d);
        return;
      }
      if setAsDefault {
        IssueAllOne(Now(), SetClientDefaults(READ_ALL, 0));
        ok := RunCommand(SetClientDefaults(READ_ALL, 0));
      }
    }

    method EnsureManagedThenMark(state: Broker, setAsDefault: bool) returns (ok: bool)
      modifies this`world, this`budget
      ensures Outcome(ok) == IssueAll(old(Now()), ManagedPlan(state, setAsDefault))
    {
      ghost var first := RolesAndMigration(state) + (if setAsDefault then [SetClientDefaults(READ_ALL, 0)] else []);
      assert ManagedPlan(state, setAsDefault) == first + [MarkInitialized];
      IssueAllAppend(Now(), first, [MarkInitialized]);
      ok := EnsureManagedBootstrapRoles(state, setAsDefault);
      if !ok {
        FailedStays(Outcome(ok), [MarkInitialized]);
        return;
      }
      IssueAllOne(Now(), MarkInitialized);
      ok := RunCommand(MarkInitialized);
    }

    /** One run: read the settings and the state, choose the path, issue its commands until one fails. */
    method EnsureBootstrapDefaultRole() returns (ok: bool)
      modifies this`world, this`budget
      ensures Outcome(ok) == IssueAll(old(Now()), Plan(old(world)))
    {
      var state, s := world.broker, world.settings;
      var storesBootstrap := s.defaultRoleName == Some(READ_ALL);
      var storesLegacy := s.defaultRoleName == Some(LEGACY);
      var hasLegacy := LEGACY in state.roles;
      var hasCustom := HasCustomRoles(state);
      NamesDiffer();
      ok := true;
      if s.initialized && !storesBootstrap && !storesLegacy && !hasLegacy {
        return;
      }
      if s.defaultRoleName.Some? && !storesBootstrap && !storesLegacy && !hasLegacy {
        IssueAllOne(Now(), MarkInitialized);
        ok := RunCommand(MarkInitialized);
        return;
      }
      if s.initialized && s.defaultRoleName.None? && !hasLegacy {
        return;
      }
      if storesLegacy || hasLegacy {
        ok := EnsureManagedThenMark(state, storesLegacy || (s.defaultRoleName.None? && !hasCustom));
        return;
      }
      if storesBootstrap {
        ok := EnsureManagedThenMark(state, true);
        return;
      }
      if hasCustom {
        IssueAllOne(Now(), MarkInitialized);
        ok := RunCommand(MarkInitialized);
        return;
      }
      ok := EnsureManagedThenMark(state, true);
    }

    /** One pass of the retry loop; again: whether what failed is worth another pass. */
    method TryOnce(attempt: Attempt) returns (ok: bool, again: bool)
      modifies this`world, this`budget
      ensures ok <==> Completes(old(world), attempt)
      ensures again <==> !ok && !EndsLoop(attempt)
      ensures world == AfterAttempt(old(world), attempt)
    {
      match attempt
      case BrokerDown => return false, true;
      case HealthFails(retryable) => return false, retryable;
      case Bootstrap(budget, retryable) =>
        this.budget := budget;
        IssueAllIsPrefix(Now(), Plan(world));
        ok := EnsureBootstrapDefaultRole();
        again := !ok && retryable;
    }

    /** ... as attempt i of the loop. */
    method TryNext(outcomes: seq<Attempt>, i: nat, ghost start: World) returns (ok: bool, again: bool)
      requires i < |outcomes| && Underway(start, world, outcomes, i)
      modifies this`world, this`budget
      ensures !ok && again ==> Underway(start, world, outcomes, i + 1)
      ensures ok || !again ==> Concluded(start, world, i + 1, outcomes, ok)
    {
      Proceed(start, world, outcomes, i);
      ok, again := TryOnce(outcomes[i]);
    }

    /** The startup retry loop, which gives up on the last attempt or on an error it does not retry. */
    method TryEach(outcomes: seq<Attempt>) returns (ok: bool, ghost n: nat)
      modifies this`world, this`budget
      ensures Concluded(old(world), world, n, outcomes, ok)
    {
      n := |outcomes|;
      ok := false;
      ghost var start := world;
      NoneTried(start, outcomes);
      for i := 0 to |outcomes|
        invariant !ok && n == |outcomes| && Underway(start, world, outcomes, i)
      {
        var again;
        ok, again := TryNext(outcomes, i, start);
        if ok || !again {
          n := i + 1;
          return;
        }
      }
      NoneLeft(start, world, outcomes);
    }

    /** Without an agent there is only one attempt. cuts: how many commands each attempt could issue. */
    method EnsureWithRetries(agentConfigured: bool, outcomes: seq<Attempt>) returns (ok: bool, ghost cuts: seq<nat>)
      requires outcomes != [] && (!agentConfigured ==> outcomes[0].Bootstrap?)
      modifies this
      ensures world == Attempts(old(world), cuts) && |cuts| <= if agentConfigured then |outcomes| else 1
      ensures Listed(old(world).broker) ==> Preserves(old(world).broker, world.broker)
      ensures ok ==> Finished(old(world), world)
      ensures ok <==> Succeeds(old(world), if agentConfigured then outcomes else outcomes[..1])
      ensures status == if ok then Idle else Pending
    {
      status := Pending;
      ghost var tried := if agentConfigured then outcomes else outcomes[..1];
      ghost var n;
      ok, n := TryEach(if agentConfigured then outcomes else outcomes[..1]);
      cuts := CutsOf(tried, n);
      if ok { status := Idle; }
      if Listed(old(world).broker) { SafeAtEveryPrefix(old(world), cuts); }
    }
  }

  lemma OneMoreAttempt(w: World, cuts: seq<nat>, budget: nat)
    ensures var before := Attempts(w, cuts);
      Attempts(w, cuts + [budget]) == Exec(before, Plan(before)[..Min(budget, |Plan(before)|)])
  {
    assert (cuts + [budget])[..|cuts|] == cuts;
  }

  /** What a complete run leaves of an installation that is managed: both roles ready, no legacy role, and no reference
      to it exactly if none dangled before. */
  ghost predicate Finished(start: World, w: World) {
    Listed(start.broker) && IsManaged(start) ==>
      Managed(w.broker) && (Converged(w.broker) <==> NoDangling(start.broker))
  }

  /** An attempt with room for its whole plan is a complete run. */
  lemma {:induction false} CompleteAttempt(w: World, cuts: seq<nat>, a: Attempt)
    ensures Completes(Attempts(w, cuts), a) ==> Finished(w, AfterAttempt(Attempts(w, cuts), a))
  {
    var before := Attempts(w, cuts);
    if Completes(before, a) && Listed(w.broker) && IsManaged(w) {
      assert Plan(before)[..|Plan(before)|] == Plan(before);
      BootstrapConverges(w, cuts, []);
    }
  }
}

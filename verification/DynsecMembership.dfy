/** normalizeState: the state file stores group membership twice, in the clients and in the groups; the
    two views are merged and each list is sorted by priority. Clients and groups are treated alike, as
    nodes that list nodes of the other kind. */
module DynsecMembership {
  import opened Basics
  import opened Options
  import opened Sorting
  import DynsecAcls

  datatype Ref = Ref(name: string, priority: int)

  /** A client with its roles and groups, or a group with its roles and clients. */
  datatype Node = Node(name: string, roles: seq<Ref>, refs: seq<Ref>)

  datatype Role = Role(name: string, acls: seq<DynsecAcls.Acl>)

  datatype State = State(clients: seq<Node>, groups: seq<Node>, roles: seq<Role>)

  // ---- Insertion-ordered Map<string, number>, as its list of entries ----

  function Names(m: seq<Ref>): (names: seq<string>)
    ensures |names| == |m|
    ensures forall i :: 0 <= i < |m| ==> names[i] == m[i].name
  {
    seq(|m|, i requires 0 <= i < |m| => m[i].name)
  }

  function Lookup(m: seq<Ref>, name: string): Option<int> {
    var i := IndexOf(Names(m), name);
    if i < |m| then Some(m[i].priority) else None
  }

  function MaxOption(a: Option<int>, b: Option<int>): Option<int> {
    if a.None? then b else if b.None? then a else Some(Max(a.value, b.value))
  }

  /** set: an existing key keeps its position. */
  function Set(m: seq<Ref>, r: Ref): seq<Ref> {
    var i := IndexOf(Names(m), r.name);
    if i < |m| then m[i := r] else m + [r]
  }

  /** set with the larger of the old and the new priority. */
  function Merge(m: seq<Ref>, r: Ref): seq<Ref> {
    var i := IndexOf(Names(m), r.name);
    if i < |m| then m[i := Ref(r.name, Max(m[i].priority, r.priority))] else m + [r]
  }

  function FromEntries(refs: seq<Ref>): seq<Ref> {
    if refs == [] then [] else Set(FromEntries(refs[..|refs| - 1]), refs[|refs| - 1])
  }

  function MergeAll(m: seq<Ref>, refs: seq<Ref>): seq<Ref> {
    if refs == [] then m else Merge(MergeAll(m, refs[..|refs| - 1]), refs[|refs| - 1])
  }

  function PriorityDescending(): (Ref, Ref) -> bool {
    (left: Ref, right: Ref) => left.priority >= right.priority
  }

  function SortByPriorityDesc(refs: seq<Ref>): seq<Ref> {
    Sort(refs, PriorityDescending())
  }

  function AclPriorityDescending(): (DynsecAcls.Acl, DynsecAcls.Acl) -> bool {
    (left: DynsecAcls.Acl, right: DynsecAcls.Acl) => left.priority >= right.priority
  }

  function SortedRoles(roles: seq<Role>): (r: seq<Role>)
    ensures |r| == |roles|
  {
    seq(|roles|, i requires 0 <= i < |roles| => Role(roles[i].name, Sort(roles[i].acls, AclPriorityDescending())))
  }

  lemma SortedRolesAgain(roles: seq<Role>)
    ensures SortedRoles(SortedRoles(roles)) == SortedRoles(roles)
    ensures forall i :: 0 <= i < |roles| ==> Sorted(SortedRoles(roles)[i].acls, AclPriorityDescending())
  {
    var order, once := AclPriorityDescending(), SortedRoles(roles);
    forall i | 0 <= i < |roles|
      ensures Sorted(once[i].acls, order) && SortedRoles(once)[i] == once[i]
    {
      SortSorts(roles[i].acls, order);
      SortOfSorted(once[i].acls, order);
    }
  }

  // ---- The merge ----

  /** The references of one node to `target`, seen from the target's side. */
  function MentionsIn(name: string, refs: seq<Ref>, target: string): seq<Ref> {
    if refs == [] then []
    else
      MentionsIn(name, refs[..|refs| - 1], target)
      + (if refs[|refs| - 1].name == target then [Ref(name, refs[|refs| - 1].priority)] else [])
  }

  function Mentions(nodes: seq<Node>, target: string): seq<Ref> {
    if nodes == [] then []
    else
      var last := nodes[|nodes| - 1];
      Mentions(nodes[..|nodes| - 1], target) + MentionsIn(last.name, last.refs, target)
  }

  function Parsed(n: Node): Node {
    Node(n.name, SortByPriorityDesc(n.roles), SortByPriorityDesc(n.refs))
  }

  function ParsedAll(nodes: seq<Node>): (r: seq<Node>)
    ensures |r| == |nodes|
  {
    seq(|nodes|, i requires 0 <= i < |nodes| => Parsed(nodes[i]))
  }

  function MergedRefs(n: Node, others: seq<Node>): seq<Ref> {
    SortByPriorityDesc(MergeAll(FromEntries(n.refs), MergeAll([], Mentions(others, n.name))))
  }

  function MergedAll(nodes: seq<Node>, others: seq<Node>): (r: seq<Node>)
    ensures |r| == |nodes|
  {
    seq(|nodes|, i requires 0 <= i < |nodes| => nodes[i].(refs := MergedRefs(nodes[i], others)))
  }

  function NormalizeState(raw: State): State {
    var clients, groups := ParsedAll(raw.clients), ParsedAll(raw.groups);
    State(MergedAll(clients, groups), MergedAll(groups, clients), SortedRoles(raw.roles))
  }

  // ---- The program's loops ----

  /** byTarget holds what the given nodes, and the given references of one more, say of each target. */
  ghost predicate Collected(byTarget: map<string, seq<Ref>>, nodes: seq<Node>, name: string, refs: seq<Ref>) {
    forall t :: Holds(byTarget, t, Said(nodes, name, refs, t))
  }

  /** What byTarget holds for one target, given everything said of it. */
  predicate Holds(byTarget: map<string, seq<Ref>>, t: string, said: seq<Ref>) {
    if said == [] then t !in byTarget else t in byTarget && byTarget[t] == MergeAll([], said)
  }

  function Said(nodes: seq<Node>, name: string, refs: seq<Ref>, target: string): seq<Ref> {
    Mentions(nodes, target) + MentionsIn(name, refs, target)
  }

  /** The program's update for one reference. */
  function CollectOne(byTarget: map<string, seq<Ref>>, name: string, ref: Ref): map<string, seq<Ref>> {
    var memberships := if ref.name in byTarget then byTarget[ref.name] else [];
    byTarget[ref.name := Merge(memberships, Ref(name, ref.priority))]
  }

  lemma CollectRef(byTarget: map<string, seq<Ref>>, nodes: seq<Node>, name: string, refs: seq<Ref>, ref: Ref)
    requires Collected(byTarget, nodes, name, refs)
    ensures Collected(CollectOne(byTarget, name, ref), nodes, name, refs + [ref])
  {
    forall t ensures Holds(CollectOne(byTarget, name, ref), t, Said(nodes, name, refs + [ref], t)) {
      assert Holds(byTarget, t, Said(nodes, name, refs, t));
      SaidStep(nodes, name, refs, ref, t);
      HoldsOneMore(byTarget, t, Said(nodes, name, refs, t), name, ref);
    }
  }

  lemma HoldsOneMore(byTarget: map<string, seq<Ref>>, t: string, said: seq<Ref>, name: string, ref: Ref)
    requires Holds(byTarget, t, said)
    ensures Holds(CollectOne(byTarget, name, ref), t, said + if t == ref.name then [Ref(name, ref.priority)] else [])
  {
    MergeAllStep([], said, Ref(name, ref.priority));
    assert said + [] == said;
  }

  lemma SaidStep(nodes: seq<Node>, name: string, refs: seq<Ref>, ref: Ref, t: string)
    ensures Said(nodes, name, refs + [ref], t)
         == Said(nodes, name, refs, t) + if t == ref.name then [Ref(name, ref.priority)] else []
  {
    assert (refs + [ref])[..|refs|] == refs;
  }

  lemma MergeAllStep(m: seq<Ref>, refs: seq<Ref>, r: Ref)
    ensures MergeAll(m, refs + [r]) == Merge(MergeAll(m, refs), r)
  {
    assert (refs + [r])[..|refs|] == refs;
  }

  lemma CollectNode(byTarget: map<string, seq<Ref>>, nodes: seq<Node>, node: Node)
    requires Collected(byTarget, nodes, node.name, node.refs)
    ensures Collected(byTarget, nodes + [node], "", [])
  {
    assert (nodes + [node])[..|nodes|] == nodes;
    forall t ensures Holds(byTarget, t, Said(nodes + [node], "", [], t)) {
      assert Holds(byTarget, t, Said(nodes, node.name, node.refs, t));
      assert Said(nodes + [node], "", [], t) == Said(nodes, node.name, node.refs, t);
    }
  }

  lemma StartNode(byTarget: map<string, seq<Ref>>, nodes: seq<Node>, name: string)
    requires Collected(byTarget, nodes, "", [])
    ensures Collected(byTarget, nodes, name, [])
  {
    forall t ensures Holds(byTarget, t, Said(nodes, name, [], t)) {
      assert Holds(byTarget, t, Said(nodes, "", [], t));
      assert Said(nodes, name, [], t) == Said(nodes, "", [], t);
    }
  }

  /** The inner loop: what one more node says of each target. */
  method CollectRefs(collected: map<string, seq<Ref>>, ghost nodes: seq<Node>, name: string, refs: seq<Ref>)
    returns (byTarget: map<string, seq<Ref>>)
    requires Collected(collected, nodes, name, [])
    ensures Collected(byTarget, nodes, name, refs)
  {
    byTarget := collected;
    for k := 0 to |refs|
      invariant Collected(byTarget, nodes, name, refs[..k])
    {
      CollectRef(byTarget, nodes, name, refs[..k], refs[k]);
      assert refs[..k + 1] == refs[..k] + [refs[k]];
      byTarget := CollectOne(byTarget, name, refs[k]);
    }
    assert refs[..|refs|] == refs;
  }

  lemma AllCollected(byTarget: map<string, seq<Ref>>, nodes: seq<Node>)
    requires Collected(byTarget, nodes, "", [])
    ensures forall t :: t in byTarget ==> byTarget[t] == MergeAll([], Mentions(nodes, t))
    ensures forall t :: t !in byTarget ==> Mentions(nodes, t) == []
  {
    forall t ensures Holds(byTarget, t, Mentions(nodes, t)) {
      assert Holds(byTarget, t, Said(nodes, "", [], t));
      assert Said(nodes, "", [], t) == Mentions(nodes, t);
    }
    assert forall t :: Holds(byTarget, t, Mentions(nodes, t)) ==> (t !in byTarget ==> Mentions(nodes, t) == []);
  }

  /** The loop that fills groupMembershipsByClient, and likewise clientMembershipsByGroup. */
  method CollectMemberships(nodes: seq<Node>) returns (byTarget: map<string, seq<Ref>>)
    ensures forall t :: t in byTarget ==> byTarget[t] == MergeAll([], Mentions(nodes, t))
    ensures forall t :: t !in byTarget ==> Mentions(nodes, t) == []
  {
    byTarget := map[];
    for i := 0 to |nodes|
      invariant Collected(byTarget, nodes[..i], "", [])
    {
      StartNode(byTarget, nodes[..i], nodes[i].name);
      byTarget := CollectRefs(byTarget, nodes[..i], nodes[i].name, nodes[i].refs);
      CollectNode(byTarget, nodes[..i], nodes[i]);
      assert nodes[..i + 1] == nodes[..i] + [nodes[i]];
    }
    assert nodes[..|nodes|] == nodes;
    AllCollected(byTarget, nodes);
  }

  method MergeEach(own: seq<Ref>, memberships: seq<Ref>) returns (merged: seq<Ref>)
    ensures merged == MergeAll(own, memberships)
  {
    merged := own;
    for k := 0 to |memberships|
      invariant merged == MergeAll(own, memberships[..k])
    {
      assert memberships[..k + 1] == memberships[..k] + [memberships[k]];
      MergeAllStep(own, memberships[..k], memberships[k]);
      merged := Merge(merged, memberships[k]);
    }
    assert memberships[..|memberships|] == memberships;
  }

  /** One node's list: its own entries, then the other side's, then the sort. */
  method MergeNode(node: Node, others: seq<Node>, byTarget: map<string, seq<Ref>>) returns (merged: Node)
    requires forall t :: t in byTarget ==> byTarget[t] == MergeAll([], Mentions(others, t))
    requires forall t :: t !in byTarget ==> Mentions(others, t) == []
    ensures merged == node.(refs := MergedRefs(node, others))
  {
    var memberships := if node.name in byTarget then byTarget[node.name] else [];
    var mergedRefs := MergeEach(FromEntries(node.refs), memberships);
    merged := node.(refs := SortByPriorityDesc(mergedRefs));
  }

  method MergeSide(nodes: seq<Node>, others: seq<Node>) returns (merged: seq<Node>)
    ensures merged == MergedAll(nodes, others)
  {
    var byTarget := CollectMemberships(others);
    merged := [];
    for i := 0 to |nodes|
      invariant |merged| == i
      invariant forall j :: 0 <= j < i ==> merged[j] == nodes[j].(refs := MergedRefs(nodes[j], others))
    {
      var next := MergeNode(nodes[i], others, byTarget);
      merged := merged + [next];
    }
  }

  method Normalize(raw: State) returns (s: State)
    ensures s == NormalizeState(raw)
  {
    var clients := ParsedAll(raw.clients);
    var groups := ParsedAll(raw.groups);
    var mergedClients := MergeSide(clients, groups);
    var mergedGroups := MergeSide(groups, clients);
    s := State(mergedClients, mergedGroups, SortedRoles(raw.roles));
  }

  // ---- What merging means ----

  ghost predicate DistinctNames(refs: seq<Ref>) {
    forall i, j :: 0 <= i < j < |refs| ==> refs[i].name != refs[j].name
  }

  /** The highest priority any of the references gives the name. */
  function MaxOf(refs: seq<Ref>, name: string): Option<int> {
    if refs == [] then None
    else
      var last := refs[|refs| - 1];
      MaxOption(MaxOf(refs[..|refs| - 1], name), if last.name == name then Some(last.priority) else None)
  }

  lemma LookupMember(m: seq<Ref>, name: string)
    requires DistinctNames(m)
    ensures forall p :: Lookup(m, name) == Some(p) <==> Ref(name, p) in m
  {
    forall p | Ref(name, p) in m ensures Lookup(m, name) == Some(p) {
      var i :| 0 <= i < |m| && m[i] == Ref(name, p);
      var k := IndexOf(Names(m), name);
      assert m[k].name == m[i].name;
      assert k == i;
    }
  }

  lemma LookupUpdate(m: seq<Ref>, i: nat, r: Ref, name: string)
    requires DistinctNames(m) && i < |m| && m[i].name == r.name
    ensures DistinctNames(m[i := r])
    ensures Lookup(m[i := r], name) == if name == r.name then Some(r.priority) else Lookup(m, name)
  {
    var next := m[i := r];
    LookupMember(m, name);
    LookupMember(next, name);
    if name == r.name {
      assert next[i] == Ref(name, r.priority);
    } else if IndexOf(Names(m), name) < |m| {
      assert next[IndexOf(Names(m), name)] == m[IndexOf(Names(m), name)];
    } else {
      assert forall k :: 0 <= k < |next| ==> next[k].name == m[k].name;
    }
  }

  lemma LookupAppend(m: seq<Ref>, r: Ref, name: string)
    requires DistinctNames(m) && IndexOf(Names(m), r.name) == |m|
    ensures DistinctNames(m + [r])
    ensures Lookup(m + [r], name) == if name == r.name then Some(r.priority) else Lookup(m, name)
  {
    var next := m + [r];
    LookupMember(m, name);
    LookupMember(next, name);
    if name == r.name {
      assert next[|m|] == Ref(name, r.priority);
    } else if IndexOf(Names(m), name) < |m| {
      assert next[IndexOf(Names(m), name)] == m[IndexOf(Names(m), name)];
    } else {
      assert forall k :: 0 <= k < |m| ==> next[k] == m[k];
    }
  }

  lemma LookupMerge(m: seq<Ref>, r: Ref, name: string)
    requires DistinctNames(m)
    ensures DistinctNames(Merge(m, r))
    ensures Lookup(Merge(m, r), name)
         == MaxOption(Lookup(m, name), if r.name == name then Some(r.priority) else None)
  {
    var i := IndexOf(Names(m), r.name);
    if i < |m| {
      LookupUpdate(m, i, Ref(r.name, Max(m[i].priority, r.priority)), name);
    } else {
      LookupAppend(m, r, name);
    }
  }

  /** Merging a list into a map gives every name the maximum of what both say. */
  lemma {:induction false} LookupMergeAll(m: seq<Ref>, refs: seq<Ref>, name: string)
    requires DistinctNames(m)
    ensures DistinctNames(MergeAll(m, refs))
    ensures Lookup(MergeAll(m, refs), name) == MaxOption(Lookup(m, name), MaxOf(refs, name))
  {
    if refs != [] {
      var rest, last := refs[..|refs| - 1], refs[|refs| - 1];
      LookupMergeAll(m, rest, name);
      LookupMerge(MergeAll(m, rest), last, name);
    }
  }

  lemma {:induction false} MaxOfDistinct(m: seq<Ref>, name: string)
    requires DistinctNames(m)
    ensures MaxOf(m, name) == Lookup(m, name)
  {
    if m != [] {
      var rest, last := m[..|m| - 1], m[|m| - 1];
      MaxOfDistinct(rest, name);
      assert m == rest + [last];
      assert IndexOf(Names(rest), last.name) == |rest|;
      LookupAppend(rest, last, name);
    }
  }

  lemma {:induction false} FromDistinctEntries(refs: seq<Ref>)
    requires DistinctNames(refs)
    ensures FromEntries(refs) == refs
  {
    if refs != [] {
      var rest, last := refs[..|refs| - 1], refs[|refs| - 1];
      FromDistinctEntries(rest);
      assert IndexOf(Names(rest), last.name) == |rest|;
      assert refs == rest + [last];
    }
  }

  lemma SortKeepsLookup(m: seq<Ref>, name: string)
    requires DistinctNames(m)
    ensures DistinctNames(SortByPriorityDesc(m))
    ensures Lookup(SortByPriorityDesc(m), name) == Lookup(m, name)
  {
    var sorted := SortByPriorityDesc(m);
    SortDistinct(m, PriorityDescending());
    forall i, j | 0 <= i < j < |sorted| ensures sorted[i].name != sorted[j].name {
      assert sorted[i] in m && sorted[j] in m && sorted[i] != sorted[j];
      var a :| 0 <= a < |m| && m[a] == sorted[i];
      var b :| 0 <= b < |m| && m[b] == sorted[j];
      assert a < b || b < a;
    }
    LookupMember(m, name);
    LookupMember(sorted, name);
    if Lookup(m, name).Some? {
      assert Ref(name, Lookup(m, name).value) in sorted;
    } else if Lookup(sorted, name).Some? {
      assert Ref(name, Lookup(sorted, name).value) in m;
    }
  }

  // ---- Agreement of the two views ----

  ghost predicate UniqueNodes(nodes: seq<Node>) {
    forall i, j :: 0 <= i < j < |nodes| ==> nodes[i].name != nodes[j].name
  }

  ghost predicate DistinctRefs(nodes: seq<Node>) {
    forall i :: 0 <= i < |nodes| ==> DistinctNames(nodes[i].refs)
  }

  /** What the broker keeps: unique names, and no reference listed twice. */
  ghost predicate WellFormed(s: State) {
    UniqueNodes(s.clients) && UniqueNodes(s.groups) && DistinctRefs(s.clients) && DistinctRefs(s.groups)
  }

  predicate Lists(nodes: seq<Node>, name: string) {
    exists i :: 0 <= i < |nodes| && nodes[i].name == name
  }

  /** The references of the node called a; none when there is no such node. */
  function RefsOf(nodes: seq<Node>, a: string): seq<Ref> {
    if nodes == [] then []
    else
      var last := nodes[|nodes| - 1];
      if last.name == a then last.refs else RefsOf(nodes[..|nodes| - 1], a)
  }

  /** The priority at which the node called a lists b, if it does. */
  function Side(nodes: seq<Node>, a: string, b: string): Option<int> {
    Lookup(RefsOf(nodes, a), b)
  }

  lemma {:induction false} RefsAt(nodes: seq<Node>, i: nat)
    requires UniqueNodes(nodes) && i < |nodes|
    ensures RefsOf(nodes, nodes[i].name) == nodes[i].refs
  {
    if i < |nodes| - 1 { RefsAt(nodes[..|nodes| - 1], i); }
  }

  lemma {:induction false} RefsNone(nodes: seq<Node>, a: string)
    requires forall i :: 0 <= i < |nodes| ==> nodes[i].name != a
    ensures RefsOf(nodes, a) == []
  {
    if nodes != [] { RefsNone(nodes[..|nodes| - 1], a); }
  }

  lemma {:induction false} MaxOfAppend(a: seq<Ref>, b: seq<Ref>, name: string)
    ensures MaxOf(a + b, name) == MaxOption(MaxOf(a, name), MaxOf(b, name))
  {
    if b == [] {
      assert a + b == a;
    } else {
      assert (a + b)[..|a + b| - 1] == a + b[..|b| - 1];
      MaxOfAppend(a, b[..|b| - 1], name);
    }
  }

  lemma {:induction false} MaxOfMentionsIn(from: string, refs: seq<Ref>, target: string, name: string)
    ensures MaxOf(MentionsIn(from, refs, target), name) == if name == from then MaxOf(refs, target) else None
  {
    if refs != [] {
      var rest, last := refs[..|refs| - 1], refs[|refs| - 1];
      MaxOfMentionsIn(from, rest, target, name);
      MaxOfAppend(MentionsIn(from, rest, target), if last.name == target then [Ref(from, last.priority)] else [], name);
    }
  }

  /** With unique names the other side mentions a node at the highest priority its namesake lists it at. */
  lemma {:induction false} MaxOfMentions(nodes: seq<Node>, target: string, name: string)
    requires UniqueNodes(nodes)
    ensures MaxOf(Mentions(nodes, target), name) == MaxOf(RefsOf(nodes, name), target)
  {
    if nodes != [] {
      var rest, last := nodes[..|nodes| - 1], nodes[|nodes| - 1];
      MaxOfMentions(rest, target, name);
      MaxOfAppend(Mentions(rest, target), MentionsIn(last.name, last.refs, target), name);
      MaxOfMentionsIn(last.name, last.refs, target, name);
      if last.name == name { RefsNone(rest, name); }
    }
  }

  // ---- Repeated references ----

  function MinOption(a: Option<int>, b: Option<int>): Option<int> {
    if a.None? then b else if b.None? then a else Some(if a.value < b.value then a.value else b.value)
  }

  function MinOf(refs: seq<Ref>, name: string): Option<int> {
    if refs == [] then None
    else
      var last := refs[|refs| - 1];
      MinOption(MinOf(refs[..|refs| - 1], name), if last.name == name then Some(last.priority) else None)
  }

  function LastOf(refs: seq<Ref>, name: string): Option<int> {
    if refs == [] then None
    else
      var last := refs[|refs| - 1];
      if last.name == name then Some(last.priority) else LastOf(refs[..|refs| - 1], name)
  }

  /** MinOf and MaxOf are the extremes of the priorities at which the name occurs. */
  lemma {:induction false} Extremes(refs: seq<Ref>, name: string)
    ensures MinOf(refs, name).Some? <==> MaxOf(refs, name).Some?
    ensures MinOf(refs, name).Some? ==>
              Ref(name, MinOf(refs, name).value) in refs && Ref(name, MaxOf(refs, name).value) in refs
    ensures forall r :: r in refs && r.name == name ==>
              && MinOf(refs, name).Some? && MaxOf(refs, name).Some?
              && MinOf(refs, name).value <= r.priority <= MaxOf(refs, name).value
  {
    if refs != [] {
      var rest, last := refs[..|refs| - 1], refs[|refs| - 1];
      Extremes(rest, name);
      assert refs == rest + [last];
      assert last.name == name ==> last == Ref(name, last.priority);
    }
  }

  lemma SortKeepsExtremes(refs: seq<Ref>, name: string)
    ensures MinOf(SortByPriorityDesc(refs), name) == MinOf(refs, name)
    ensures MaxOf(SortByPriorityDesc(refs), name) == MaxOf(refs, name)
  {
    Extremes(refs, name);
    Extremes(SortByPriorityDesc(refs), name);
  }

  /** new Map(entries) keeps the last of repeated entries. */
  lemma {:induction false} FromEntriesLookup(refs: seq<Ref>, name: string)
    ensures DistinctNames(FromEntries(refs))
    ensures Lookup(FromEntries(refs), name) == LastOf(refs, name)
  {
    if refs != [] {
      var m, last := FromEntries(refs[..|refs| - 1]), refs[|refs| - 1];
      FromEntriesLookup(refs[..|refs| - 1], name);
      var i := IndexOf(Names(m), last.name);
      if i < |m| { LookupUpdate(m, i, last, name); } else { LookupAppend(m, last, name); }
    }
  }

  /** In a list sorted by falling priority the last is the lowest. */
  lemma {:induction false} LastOfSorted(refs: seq<Ref>, name: string)
    requires Sorted(refs, PriorityDescending())
    ensures LastOf(refs, name) == MinOf(refs, name)
  {
    if refs != [] {
      var rest, last := refs[..|refs| - 1], refs[|refs| - 1];
      LastOfSorted(rest, name);
      Extremes(rest, name);
      if MinOf(rest, name).Some? {
        var k :| 0 <= k < |rest| && rest[k] == Ref(name, MinOf(rest, name).value);
        assert PriorityDescending()(refs[k], last);
      }
    }
  }

  /** What a merged list says: the node's own lowest priority or the other side's highest. */
  lemma {:induction false} MergedRefsValue(n: Node, others: seq<Node>, name: string)
    requires UniqueNodes(others) && Sorted(n.refs, PriorityDescending())
    ensures DistinctNames(MergedRefs(n, others))
    ensures Lookup(MergedRefs(n, others), name)
         == MaxOption(MinOf(n.refs, name), MaxOf(RefsOf(others, name), n.name))
  {
    var mentions := Mentions(others, n.name);
    var memberships := MergeAll([], mentions);
    FromEntriesLookup(n.refs, name);
    LastOfSorted(n.refs, name);
    LookupMergeAll([], mentions, name);
    MaxOfDistinct(memberships, name);
    MaxOfMentions(others, n.name, name);
    LookupMergeAll(FromEntries(n.refs), memberships, name);
    SortKeepsLookup(MergeAll(FromEntries(n.refs), memberships), name);
  }

  lemma ParsedRefs(nodes: seq<Node>, a: string)
    requires UniqueNodes(nodes)
    ensures UniqueNodes(ParsedAll(nodes))
    ensures RefsOf(ParsedAll(nodes), a) == SortByPriorityDesc(RefsOf(nodes, a))
  {
    if Lists(nodes, a) {
      var i :| 0 <= i < |nodes| && nodes[i].name == a;
      RefsAt(nodes, i);
      RefsAt(ParsedAll(nodes), i);
    } else {
      RefsNone(nodes, a);
      RefsNone(ParsedAll(nodes), a);
    }
  }

  lemma {:induction false} NormalizedValue(nodes: seq<Node>, others: seq<Node>, a: string, b: string)
    requires UniqueNodes(nodes) && UniqueNodes(others) && Lists(nodes, a)
    ensures Side(MergedAll(ParsedAll(nodes), ParsedAll(others)), a, b)
         == MaxOption(MinOf(RefsOf(nodes, a), b), MaxOf(RefsOf(others, b), a))
  {
    var parsed, merged := ParsedAll(nodes), MergedAll(ParsedAll(nodes), ParsedAll(others));
    var i :| 0 <= i < |nodes| && nodes[i].name == a;
    RefsAt(nodes, i);
    ParsedRefs(nodes, a);
    ParsedRefs(others, b);
    RefsAt(parsed, i);
    RefsAt(merged, i);
    PriorityOrderTotal();
    SortSorts(nodes[i].refs, PriorityDescending());
    MergedRefsValue(parsed[i], ParsedAll(others), b);
    SortKeepsExtremes(nodes[i].refs, b);
    SortKeepsExtremes(RefsOf(others, b), a);
  }

  predicate Higher(a: Option<int>, b: Option<int>) {
    a.Some? && (b.None? || a.value > b.value)
  }

  predicate Ordered(low: Option<int>, high: Option<int>) {
    (low.Some? <==> high.Some?) && (low.Some? ==> low.value <= high.value)
  }

  lemma LowAndHigh(refs: seq<Ref>, name: string)
    ensures Ordered(MinOf(refs, name), MaxOf(refs, name))
  {
    Extremes(refs, name);
  }

  lemma CrossedMaxima(a: Option<int>, A: Option<int>, b: Option<int>, B: Option<int>)
    requires Ordered(a, A) && Ordered(b, B)
    ensures MaxOption(a, B) == MaxOption(b, A) <==> (Higher(A, B) ==> a == A) && (Higher(B, A) ==> b == B)
  {
  }

  /** Exactly when the two views agree although references may repeat: the side that names the strictly
      higher priority does not also list the other at a lower one. */
  lemma ViewsAgreeExactly(raw: State, client: string, group: string)
    requires UniqueNodes(raw.clients) && UniqueNodes(raw.groups)
    requires Lists(raw.clients, client) && Lists(raw.groups, group)
    ensures var s := NormalizeState(raw);
            var c, g := RefsOf(raw.clients, client), RefsOf(raw.groups, group);
            Side(s.clients, client, group) == Side(s.groups, group, client) <==>
            && (Higher(MaxOf(c, group), MaxOf(g, client)) ==> MinOf(c, group) == MaxOf(c, group))
            && (Higher(MaxOf(g, client), MaxOf(c, group)) ==> MinOf(g, client) == MaxOf(g, client))
  {
    NormalizedValue(raw.clients, raw.groups, client, group);
    NormalizedValue(raw.groups, raw.clients, group, client);
    var c, g := RefsOf(raw.clients, client), RefsOf(raw.groups, group);
    LowAndHigh(c, group);
    LowAndHigh(g, client);
    CrossedMaxima(MinOf(c, group), MaxOf(c, group), MinOf(g, client), MaxOf(g, client));
  }

  lemma PriorityOrderTotal()
    ensures TotalPreorder(PriorityDescending())
  {
  }

  lemma ParsedKeeps(nodes: seq<Node>)
    requires UniqueNodes(nodes) && DistinctRefs(nodes)
    ensures UniqueNodes(ParsedAll(nodes)) && DistinctRefs(ParsedAll(nodes))
    ensures forall a, b :: Side(ParsedAll(nodes), a, b) == Side(nodes, a, b)
  {
    forall i | 0 <= i < |nodes| ensures DistinctNames(ParsedAll(nodes)[i].refs) {
      SortKeepsLookup(nodes[i].refs, "");
    }
    forall a, b ensures Side(ParsedAll(nodes), a, b) == Side(nodes, a, b) {
      ParsedRefs(nodes, a);
      DistinctRefsOf(nodes, a);
      SortKeepsLookup(RefsOf(nodes, a), b);
    }
  }

  lemma {:induction false} DistinctRefsOf(nodes: seq<Node>, a: string)
    requires DistinctRefs(nodes)
    ensures DistinctNames(RefsOf(nodes, a))
  {
    if nodes != [] { DistinctRefsOf(nodes[..|nodes| - 1], a); }
  }

  lemma MergedRefsLookup(n: Node, others: seq<Node>, name: string)
    requires DistinctNames(n.refs) && UniqueNodes(others) && DistinctRefs(others)
    ensures DistinctNames(MergedRefs(n, others))
    ensures Lookup(MergedRefs(n, others), name) == MaxOption(Lookup(n.refs, name), Side(others, name, n.name))
  {
    var mentions := Mentions(others, n.name);
    var memberships := MergeAll([], mentions);
    FromDistinctEntries(n.refs);
    LookupMergeAll([], mentions, name);
    MaxOfDistinct(memberships, name);
    MaxOfMentions(others, n.name, name);
    DistinctRefsOf(others, name);
    MaxOfDistinct(RefsOf(others, name), n.name);
    LookupMergeAll(n.refs, memberships, name);
    SortKeepsLookup(MergeAll(n.refs, memberships), name);
  }

  lemma MergedAllSide(nodes: seq<Node>, others: seq<Node>)
    requires UniqueNodes(nodes) && DistinctRefs(nodes) && UniqueNodes(others) && DistinctRefs(others)
    ensures UniqueNodes(MergedAll(nodes, others)) && DistinctRefs(MergedAll(nodes, others))
    ensures forall a, b :: Lists(nodes, a) ==>
              Side(MergedAll(nodes, others), a, b) == MaxOption(Side(nodes, a, b), Side(others, b, a))
  {
    var merged := MergedAll(nodes, others);
    forall i | 0 <= i < |nodes| ensures DistinctNames(merged[i].refs) {
      MergedRefsLookup(nodes[i], others, "");
    }
    forall a, b | Lists(nodes, a) ensures Side(merged, a, b) == MaxOption(Side(nodes, a, b), Side(others, b, a)) {
      var i :| 0 <= i < |nodes| && nodes[i].name == a;
      RefsAt(nodes, i);
      RefsAt(merged, i);
      MergedRefsLookup(nodes[i], others, b);
    }
  }

  /** After normalisation a listed client and a listed group agree on their membership and its priority,
      which is the larger of what the two raw sides said. */
  lemma ViewsAgree(raw: State, client: string, group: string)
    requires WellFormed(raw) && Lists(raw.clients, client) && Lists(raw.groups, group)
    ensures var s := NormalizeState(raw);
            var agreed := MaxOption(Side(raw.clients, client, group), Side(raw.groups, group, client));
            Side(s.clients, client, group) == agreed && Side(s.groups, group, client) == agreed
    ensures WellFormed(NormalizeState(raw))
  {
    NormalizedSides(raw);
    var clients, groups := ParsedAll(raw.clients), ParsedAll(raw.groups);
    ParsedNames(raw.clients);
    ParsedNames(raw.groups);
  }

  lemma ParsedNames(nodes: seq<Node>)
    ensures forall a :: Lists(ParsedAll(nodes), a) <==> Lists(nodes, a)
  {
    forall a ensures Lists(ParsedAll(nodes), a) <==> Lists(nodes, a) {
      if Lists(nodes, a) {
        var i :| 0 <= i < |nodes| && nodes[i].name == a;
        assert ParsedAll(nodes)[i].name == a;
      }
    }
  }

  lemma NormalizedSides(raw: State)
    requires WellFormed(raw)
    ensures var s := NormalizeState(raw);
            && WellFormed(s)
            && (forall a, b :: Lists(ParsedAll(raw.clients), a) ==>
                  Side(s.clients, a, b) == MaxOption(Side(raw.clients, a, b), Side(raw.groups, b, a)))
            && (forall a, b :: Lists(ParsedAll(raw.groups), a) ==>
                  Side(s.groups, a, b) == MaxOption(Side(raw.groups, a, b), Side(raw.clients, b, a)))
  {
    ParsedKeeps(raw.clients);
    ParsedKeeps(raw.groups);
    MergedAllSide(ParsedAll(raw.clients), ParsedAll(raw.groups));
    MergedAllSide(ParsedAll(raw.groups), ParsedAll(raw.clients));
  }

  // ---- Normalising twice ----

  lemma {:induction false} MergeNothingNew(m: seq<Ref>, refs: seq<Ref>)
    requires DistinctNames(m)
    requires forall r :: r in refs ==> Lookup(m, r.name) == Some(r.priority)
    ensures MergeAll(m, refs) == m
  {
    if refs != [] {
      var last := refs[|refs| - 1];
      assert forall r :: r in refs[..|refs| - 1] ==> r in refs;
      MergeNothingNew(m, refs[..|refs| - 1]);
      assert last in refs;
      assert m[IndexOf(Names(m), last.name) := last] == m;
    }
  }

  /** Each node of one side already lists what the other side says of it. */
  ghost predicate Absorbed(nodes: seq<Node>, others: seq<Node>) {
    forall a, b :: Lists(nodes, a) && Side(others, b, a).Some? ==> Side(nodes, a, b) == Side(others, b, a)
  }

  lemma MergeAgain(nodes: seq<Node>, others: seq<Node>, i: nat)
    requires UniqueNodes(nodes) && DistinctRefs(nodes) && UniqueNodes(others) && DistinctRefs(others)
    requires Absorbed(nodes, others) && i < |nodes|
    requires Sorted(nodes[i].refs, PriorityDescending())
    ensures MergedRefs(nodes[i], others) == nodes[i].refs
  {
    var n := nodes[i];
    var mentions := Mentions(others, n.name);
    var memberships := MergeAll([], mentions);
    FromDistinctEntries(n.refs);
    LookupMergeAll([], mentions, "");
    forall r | r in memberships ensures Lookup(n.refs, r.name) == Some(r.priority) {
      LookupMember(memberships, r.name);
      assert Ref(r.name, r.priority) in memberships;
      LookupMergeAll([], mentions, r.name);
      MaxOfMentions(others, n.name, r.name);
      DistinctRefsOf(others, r.name);
      MaxOfDistinct(RefsOf(others, r.name), n.name);
      RefsAt(nodes, i);
      assert nodes[i].name == n.name && Lists(nodes, n.name);
      assert Side(others, r.name, n.name) == Some(r.priority);
      assert Side(nodes, n.name, r.name) == Some(r.priority);
    }
    MergeNothingNew(n.refs, memberships);
    SortOfSorted(n.refs, PriorityDescending());
  }

  lemma NormalizedIsSorted(raw: State)
    ensures forall i :: 0 <= i < |raw.clients| ==>
              Sorted(NormalizeState(raw).clients[i].refs, PriorityDescending())
              && Sorted(NormalizeState(raw).clients[i].roles, PriorityDescending())
    ensures forall i :: 0 <= i < |raw.groups| ==>
              Sorted(NormalizeState(raw).groups[i].refs, PriorityDescending())
              && Sorted(NormalizeState(raw).groups[i].roles, PriorityDescending())
    ensures forall i :: 0 <= i < |raw.roles| ==>
              Sorted(NormalizeState(raw).roles[i].acls, AclPriorityDescending())
  {
    SortedRolesAgain(raw.roles);
    PriorityOrderTotal();
    var clients, groups := ParsedAll(raw.clients), ParsedAll(raw.groups);
    var order := PriorityDescending();
    forall i | 0 <= i < |raw.clients|
      ensures Sorted(NormalizeState(raw).clients[i].refs, order) && Sorted(NormalizeState(raw).clients[i].roles, order)
    {
      SortSorts(raw.clients[i].roles, order);
      SortSorts(MergeAll(FromEntries(clients[i].refs), MergeAll([], Mentions(groups, clients[i].name))), order);
    }
    forall i | 0 <= i < |raw.groups|
      ensures Sorted(NormalizeState(raw).groups[i].refs, order) && Sorted(NormalizeState(raw).groups[i].roles, order)
    {
      SortSorts(raw.groups[i].roles, order);
      SortSorts(MergeAll(FromEntries(groups[i].refs), MergeAll([], Mentions(clients, groups[i].name))), order);
    }
  }

  function RefAt(priority: int): Ref -> bool {
    (r: Ref) => r.priority == priority
  }

  function AclAt(priority: int): DynsecAcls.Acl -> bool {
    (acl: DynsecAcls.Acl) => acl.priority == priority
  }

  /** Nothing is lost, added or changed, the priorities fall, and entries of equal priority keep their order. */
  ghost predicate Rearranged(before: seq<Ref>, after: seq<Ref>) {
    && multiset(after) == multiset(before)
    && (forall i, j :: 0 <= i < j < |after| ==> after[i].priority >= after[j].priority)
    && (forall p :: Filter(after, RefAt(p)) == Filter(before, RefAt(p)))
  }

  ghost predicate AclsRearranged(before: seq<DynsecAcls.Acl>, after: seq<DynsecAcls.Acl>) {
    && multiset(after) == multiset(before)
    && (forall i, j :: 0 <= i < j < |after| ==> after[i].priority >= after[j].priority)
    && (forall p :: Filter(after, AclAt(p)) == Filter(before, AclAt(p)))
  }

  lemma SortRearranges(refs: seq<Ref>)
    ensures Rearranged(refs, SortByPriorityDesc(refs))
  {
    var order := PriorityDescending();
    PriorityOrderTotal();
    SortKeeps(refs, order);
    SortSorts(refs, order);
    forall i, j | 0 <= i < j < |refs| ensures Sort(refs, order)[i].priority >= Sort(refs, order)[j].priority {
      assert order(Sort(refs, order)[i], Sort(refs, order)[j]);
    }
    forall p ensures Filter(Sort(refs, order), RefAt(p)) == Filter(refs, RefAt(p)) {
      SortIsStable(refs, order, RefAt(p));
    }
  }

  lemma {:induction false} SortRearrangesAcls(acls: seq<DynsecAcls.Acl>)
    ensures AclsRearranged(acls, Sort(acls, AclPriorityDescending()))
  {
    var order := AclPriorityDescending();
    SortKeeps(acls, order);
    SortSorts(acls, order);
    forall i, j | 0 <= i < j < |acls| ensures Sort(acls, order)[i].priority >= Sort(acls, order)[j].priority {
      assert order(Sort(acls, order)[i], Sort(acls, order)[j]);
    }
    forall p ensures Filter(Sort(acls, order), AclAt(p)) == Filter(acls, AclAt(p)) {
      SortIsStable(acls, order, AclAt(p));
    }
  }

  /** The same nodes in the same order, each with its roles, rearranged. */
  ghost predicate NodesKept(before: seq<Node>, after: seq<Node>) {
    && |after| == |before|
    && (forall i :: 0 <= i < |before| ==>
          after[i].name == before[i].name && Rearranged(before[i].roles, after[i].roles))
  }

  lemma MergedKeepsNodes(nodes: seq<Node>, others: seq<Node>)
    ensures NodesKept(nodes, MergedAll(ParsedAll(nodes), ParsedAll(others)))
  {
    forall i | 0 <= i < |nodes| { SortRearranges(nodes[i].roles); }
  }

  /** Normalisation keeps every client, group and role in its place, and every role reference and ACL; it only
      rearranges them, stably, by falling priority. */
  lemma NormalizeKeeps(raw: State)
    ensures var s := NormalizeState(raw);
      && NodesKept(raw.clients, s.clients) && NodesKept(raw.groups, s.groups)
      && |s.roles| == |raw.roles|
      && (forall i :: 0 <= i < |raw.roles| ==>
            s.roles[i].name == raw.roles[i].name && AclsRearranged(raw.roles[i].acls, s.roles[i].acls))
  {
    MergedKeepsNodes(raw.clients, raw.groups);
    MergedKeepsNodes(raw.groups, raw.clients);
    forall i | 0 <= i < |raw.roles| { SortRearrangesAcls(raw.roles[i].acls); }
  }

  lemma ParsedAgain(nodes: seq<Node>)
    requires forall i :: 0 <= i < |nodes| ==>
      Sorted(nodes[i].refs, PriorityDescending()) && Sorted(nodes[i].roles, PriorityDescending())
    ensures ParsedAll(nodes) == nodes
  {
    forall i | 0 <= i < |nodes| ensures Parsed(nodes[i]) == nodes[i] {
      SortOfSorted(nodes[i].refs, PriorityDescending());
      SortOfSorted(nodes[i].roles, PriorityDescending());
    }
  }

  /** Normalising a normalised state returns the same lists in the same order. */
  lemma NormalizeIdempotent(raw: State)
    requires WellFormed(raw)
    ensures NormalizeState(NormalizeState(raw)) == NormalizeState(raw)
  {
    var s := NormalizeState(raw);
    var clients, groups := ParsedAll(raw.clients), ParsedAll(raw.groups);
    NormalizedAbsorbed(raw);
    NormalizedIsSorted(raw);
    ParsedAgain(s.clients);
    ParsedAgain(s.groups);
    MergedAgain(s.clients, s.groups);
    MergedAgain(s.groups, s.clients);
    SortedRolesAgain(raw.roles);
  }

  lemma MergedAgain(nodes: seq<Node>, others: seq<Node>)
    requires UniqueNodes(nodes) && DistinctRefs(nodes) && UniqueNodes(others) && DistinctRefs(others)
    requires Absorbed(nodes, others)
    requires forall i :: 0 <= i < |nodes| ==> Sorted(nodes[i].refs, PriorityDescending())
    ensures MergedAll(nodes, others) == nodes
  {
    forall i | 0 <= i < |nodes| ensures MergedRefs(nodes[i], others) == nodes[i].refs {
      MergeAgain(nodes, others, i);
    }
  }

  lemma NormalizedAbsorbed(raw: State)
    requires WellFormed(raw)
    ensures var s := NormalizeState(raw);
            WellFormed(s) && Absorbed(s.clients, s.groups) && Absorbed(s.groups, s.clients)
  {
    var s := NormalizeState(raw);
    NormalizedSides(raw);
    SameNames(ParsedAll(raw.clients), s.clients);
    SameNames(ParsedAll(raw.groups), s.groups);
    AbsorbedOnce(s.clients, s.groups);
    AbsorbedOnce(s.groups, s.clients);
  }

  lemma SameNames(a: seq<Node>, b: seq<Node>)
    requires |a| == |b| && forall i :: 0 <= i < |a| ==> a[i].name == b[i].name
    ensures forall name :: Lists(a, name) <==> Lists(b, name)
  {
    forall name ensures Lists(a, name) <==> Lists(b, name) {
      if Lists(a, name) { var i :| 0 <= i < |a| && a[i].name == name; assert b[i].name == name; }
      if Lists(b, name) { var i :| 0 <= i < |b| && b[i].name == name; assert a[i].name == name; }
    }
  }

  lemma AbsorbedOnce(nodes: seq<Node>, others: seq<Node>)
    requires forall a, b :: Lists(nodes, a) && Lists(others, b) ==> Side(nodes, a, b) == Side(others, b, a)
    ensures Absorbed(nodes, others)
  {
    forall a, b | Lists(nodes, a) && Side(others, b, a).Some? ensures Side(nodes, a, b) == Side(others, b, a) {
      if !Lists(others, b) { RefsNone(others, b); }
    }
  }

  lemma TwoRefs(name: string, first: int, second: int)
    requires second < first
    ensures var refs := [Ref(name, first), Ref(name, second)];
      MinOf(refs, name) == Some(second) && MaxOf(refs, name) == Some(first)
  {
    var refs := [Ref(name, first), Ref(name, second)];
    var one := refs[..1];
    assert one == [Ref(name, first)] && one[..0] == [];
    assert MinOf(one[..0], name) == None && MaxOf(one[..0], name) == None;
    assert MinOf(one, name) == Some(first) && MaxOf(one, name) == Some(first);
  }

  lemma OnlyNode(n: Node)
    ensures UniqueNodes([n]) && Lists([n], n.name) && RefsOf([n], n.name) == n.refs
  {
    assert [n][0].name == n.name;
  }

  /** Why references must not repeat: a client listing a group twice keeps the lower priority itself,
      while the group takes the higher one. */
  lemma RepeatedReferencesDisagree(client: string, group: string, high: int, low: int)
    requires low < high
    ensures var raw := State([Node(client, [], [Ref(group, high), Ref(group, low)])], [Node(group, [], [])],
                             []);
            var s := NormalizeState(raw);
            Side(s.clients, client, group) == Some(low) && Side(s.groups, group, client) == Some(high)
  {
    var refs := [Ref(group, high), Ref(group, low)];
    var c, g := Node(client, [], refs), Node(group, [], []);
    OnlyNode(c);
    OnlyNode(g);
    TwoRefs(group, high, low);
    NormalizedValue([c], [g], client, group);
    NormalizedValue([g], [c], group, client);
  }
}

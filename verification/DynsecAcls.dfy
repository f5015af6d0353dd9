/** resolveEffectiveAcls: folding the ACLs a client collects from its roles and groups into one entry per
    (type, topic). The dynsec service and the MQTT page carry the same code. */
module DynsecAcls {
  import opened Basics
  import opened Options
  import opened Sorting

  datatype Acl = Acl(
    acltype: string,
    topic: string,
    priority: int,
    allow: bool,
    name: Option<string>,
    description: Option<string>)

  /** The part of an ACL that decides access; the key is the lookup key of the program's Map. */
  datatype Rule = Rule(key: string, priority: int, allow: bool)

  const SEPARATOR: string := ":"

  function Key(acl: Acl): string {
    acl.acltype + SEPARATOR + acl.topic
  }

  function RuleOf(acl: Acl): Rule {
    Rule(Key(acl), acl.priority, acl.allow)
  }

  function Rules(acls: seq<Acl>): (r: seq<Rule>)
    ensures |r| == |acls|
  {
    seq(|acls|, i requires 0 <= i < |acls| => RuleOf(acls[i]))
  }

  // ---- The fold ----

  /** The Map from keys to ACLs is the list of its entries in insertion order. */
  function Keys(effective: seq<Acl>): (keys: seq<string>)
    ensures |keys| == |effective|
    ensures forall i :: 0 <= i < |effective| ==> keys[i] == Key(effective[i])
  {
    seq(|effective|, i requires 0 <= i < |effective| => Key(effective[i]))
  }

  predicate Overrides(acl: Acl, current: Acl) {
    acl.priority > current.priority || (acl.priority == current.priority && current.allow && !acl.allow)
  }

  function Put(effective: seq<Acl>, acl: Acl): seq<Acl> {
    var i := IndexOf(Keys(effective), Key(acl));
    if i == |effective| then effective + [acl]
    else if Overrides(acl, effective[i]) then effective[i := acl]
    else effective
  }

  function Fold(acls: seq<Acl>): seq<Acl> {
    if acls == [] then [] else Put(Fold(acls[..|acls| - 1]), acls[|acls| - 1])
  }

  /** Priority descending, deny before allow, then the key; keyLeq stands for localeCompare. */
  function ByPriorityAndEffect(keyLeq: (string, string) -> bool): (Acl, Acl) -> bool {
    (left: Acl, right: Acl) =>
      if left.priority != right.priority then right.priority < left.priority
      else if left.allow != right.allow then !left.allow
      else keyLeq(Key(left), Key(right))
  }

  function ResolveEffectiveAcls(acls: seq<Acl>, keyLeq: (string, string) -> bool): seq<Acl> {
    Sort(Fold(acls), ByPriorityAndEffect(keyLeq))
  }

  /** The loop of the program, as written: look up, then set or keep. */
  method Resolve(value: seq<Acl>, keyLeq: (string, string) -> bool) returns (resolved: seq<Acl>)
    ensures resolved == ResolveEffectiveAcls(value, keyLeq)
  {
    var effective: seq<Acl> := [];
    for n := 0 to |value|
      invariant effective == Fold(value[..n])
    {
      assert value[..n + 1][..n] == value[..n];
      var acl := value[n];
      var i := IndexOf(Keys(effective), Key(acl));
      if i == |effective| {
        effective := effective + [acl];
        continue;
      }
      var current := effective[i];
      if acl.priority > current.priority {
        effective := effective[i := acl];
        continue;
      }
      if acl.priority == current.priority && current.allow && !acl.allow {
        effective := effective[i := acl];
      }
    }
    assert value[..|value|] == value;
    resolved := Sort(effective, ByPriorityAndEffect(keyLeq));
  }

  // ---- What the fold means ----

  /** o gives way to r: it has another key, a lower priority, or the same priority without denying what
      r allows. */
  predicate Yields(o: Rule, r: Rule) {
    o.key != r.key || o.priority < r.priority || (o.priority == r.priority && (r.allow ==> o.allow))
  }

  /** A rule wins among the given ones: no rule for its key has a higher priority, and it allows only if
      every rule for its key at its priority allows. */
  ghost predicate Wins(r: Rule, rules: seq<Rule>) {
    r in rules && forall o :: o in rules ==> Yields(o, r)
  }

  ghost predicate DistinctKeys(acls: seq<Acl>) {
    forall i, j :: 0 <= i < j < |acls| ==> Key(acls[i]) != Key(acls[j])
  }

  /** For each key present, exactly its winning rule, carried by one of the given ACLs. */
  ghost predicate IsResolution(effective: seq<Acl>, acls: seq<Acl>) {
    && DistinctKeys(effective)
    && (forall e :: e in effective ==> e in acls && Wins(RuleOf(e), Rules(acls)))
    && (forall a :: a in acls ==> IndexOf(Keys(effective), Key(a)) < |effective|)
  }

  lemma RuleIn(acls: seq<Acl>, a: Acl)
    requires a in acls
    ensures RuleOf(a) in Rules(acls)
  {
    var i :| 0 <= i < |acls| && acls[i] == a;
    assert Rules(acls)[i] == RuleOf(a);
  }

  lemma SourceOf(acls: seq<Acl>, r: Rule) returns (a: Acl)
    requires r in Rules(acls)
    ensures a in acls && RuleOf(a) == r
  {
    var i :| 0 <= i < |acls| && Rules(acls)[i] == r;
    a := acls[i];
  }

  lemma RulesAppend(a: seq<Acl>, b: seq<Acl>)
    ensures Rules(a + b) == Rules(a) + Rules(b)
  {
  }

  lemma PutKeys(effective: seq<Acl>, acl: Acl, key: string)
    requires IndexOf(Keys(effective), key) < |effective| || key == Key(acl)
    ensures IndexOf(Keys(Put(effective, acl)), key) < |Put(effective, acl)|
  {
    var next, i, k := Put(effective, acl), IndexOf(Keys(effective), Key(acl)), IndexOf(Keys(effective), key);
    if k < |effective| { assert Key(next[k]) == key; } else { assert Key(next[i]) == key; }
  }

  lemma PutWins(effective: seq<Acl>, acls: seq<Acl>, acl: Acl, e: Acl)
    requires IsResolution(effective, acls) && e in Put(effective, acl)
    ensures e in acls + [acl] && Wins(RuleOf(e), Rules(acls + [acl]))
  {
    var i := IndexOf(Keys(effective), Key(acl));
    RulesAppend(acls, [acl]);
    assert Rules([acl]) == [RuleOf(acl)];
    if i < |effective| { assert effective[i] in effective; }
    if e == acl {
      forall o | o in Rules(acls) ensures Yields(o, RuleOf(acl)) {
        var a := SourceOf(acls, o);
        if i < |effective| {
          assert Yields(o, RuleOf(effective[i]));
          assert !Overrides(acl, effective[i]) ==> acl in effective;
        }
      }
    } else {
      assert e in effective;
      if Key(e) == Key(acl) {
        var k :| 0 <= k < |effective| && effective[k] == e;
        assert k == i || k < i || i < k;
        assert !Overrides(acl, e);
      }
    }
  }

  lemma PutDistinct(effective: seq<Acl>, acl: Acl)
    requires DistinctKeys(effective)
    ensures DistinctKeys(Put(effective, acl))
  {
    var next, i := Put(effective, acl), IndexOf(Keys(effective), Key(acl));
    assert forall k :: 0 <= k < |effective| ==> Key(next[k]) == Key(effective[k]);
    assert i == |effective| ==> forall k :: 0 <= k < |effective| ==> Key(next[k]) != Key(acl);
  }

  lemma PutResolves(effective: seq<Acl>, acls: seq<Acl>, acl: Acl)
    requires IsResolution(effective, acls)
    ensures IsResolution(Put(effective, acl), acls + [acl])
  {
    PutDistinct(effective, acl);
    forall e | e in Put(effective, acl) ensures e in acls + [acl] && Wins(RuleOf(e), Rules(acls + [acl])) {
      PutWins(effective, acls, acl, e);
    }
    forall a | a in acls + [acl] ensures IndexOf(Keys(Put(effective, acl)), Key(a)) < |Put(effective, acl)| {
      PutKeys(effective, acl, Key(a));
    }
  }

  lemma {:induction false} FoldResolves(acls: seq<Acl>)
    ensures IsResolution(Fold(acls), acls)
  {
    if acls != [] {
      var rest, last := acls[..|acls| - 1], acls[|acls| - 1];
      FoldResolves(rest);
      Rejoined(acls);
      PutResolves(Fold(rest), rest, last);
    }
  }

  lemma Rejoined<T>(s: seq<T>)
    requires s != []
    ensures s[..|s| - 1] + [s[|s| - 1]] == s
  {
  }

  // ---- Canonical form ----

  /** localeCompare as a total order on keys. */
  ghost predicate KeyOrder(keyLeq: (string, string) -> bool) {
    && (forall x, y :: keyLeq(x, y) || keyLeq(y, x))
    && (forall x, y, z :: keyLeq(x, y) && keyLeq(y, z) ==> keyLeq(x, z))
    && (forall x, y :: keyLeq(x, y) && keyLeq(y, x) ==> x == y)
  }

  function RuleOrder(keyLeq: (string, string) -> bool): (Rule, Rule) -> bool {
    (left: Rule, right: Rule) =>
      if left.priority != right.priority then right.priority < left.priority
      else if left.allow != right.allow then !left.allow
      else keyLeq(left.key, right.key)
  }

  /** The rules of a resolution: distinct, exactly the winners, in the display order. */
  ghost predicate IsCanonical(rules: seq<Rule>, given: seq<Rule>, keyLeq: (string, string) -> bool) {
    && Distinct(rules)
    && Sorted(rules, RuleOrder(keyLeq))
    && (forall r :: r in rules <==> Wins(r, given))
  }

  lemma AclOrderTotal(keyLeq: (string, string) -> bool)
    requires KeyOrder(keyLeq)
    ensures TotalPreorder(ByPriorityAndEffect(keyLeq))
  {
    var leq := ByPriorityAndEffect(keyLeq);
    forall x, y ensures leq(x, y) || leq(y, x) {
      assert keyLeq(Key(x), Key(y)) || keyLeq(Key(y), Key(x));
    }
    forall x, y, z | leq(x, y) && leq(y, z) ensures leq(x, z) {
      assert keyLeq(Key(x), Key(y)) && keyLeq(Key(y), Key(z)) ==> keyLeq(Key(x), Key(z));
    }
  }

  /** One entry per key present, holding that key's highest priority and denying if any rule there denies;
      listed by priority, then deny first, then key. */
  lemma ResolutionIsCanonical(acls: seq<Acl>, keyLeq: (string, string) -> bool)
    requires KeyOrder(keyLeq)
    ensures IsCanonical(Rules(ResolveEffectiveAcls(acls, keyLeq)), Rules(acls), keyLeq)
    ensures IsResolution(ResolveEffectiveAcls(acls, keyLeq), acls)
  {
    var folded, resolved := Fold(acls), ResolveEffectiveAcls(acls, keyLeq);
    var order := ByPriorityAndEffect(keyLeq);
    FoldResolves(acls);
    AclOrderTotal(keyLeq);
    SortSorts(folded, order);
    SortDistinct(folded, order);
    SortKeepsKeys(folded, resolved);
    var rules := Rules(resolved);
    forall i, j | 0 <= i < j < |rules| ensures RuleOrder(keyLeq)(rules[i], rules[j]) && rules[i] != rules[j] {
      assert order(resolved[i], resolved[j]) && Key(resolved[i]) != Key(resolved[j]);
    }
    forall r | r in rules ensures Wins(r, Rules(acls)) {
      var e := SourceOf(resolved, r);
    }
    forall r | Wins(r, Rules(acls)) ensures r in rules {
      WinnerIsListed(folded, acls, r);
      var e := SourceOf(folded, r);
      RuleIn(resolved, e);
    }
    forall a | a in acls ensures IndexOf(Keys(resolved), Key(a)) < |resolved| {
      var e := folded[IndexOf(Keys(folded), Key(a))];
      assert e in resolved;
    }
  }

  lemma WinnerIsListed(effective: seq<Acl>, acls: seq<Acl>, r: Rule)
    requires IsResolution(effective, acls) && Wins(r, Rules(acls))
    ensures r in Rules(effective)
  {
    var a := SourceOf(acls, r);
    var e := effective[IndexOf(Keys(effective), Key(a))];
    RuleIn(effective, e);
    assert Wins(RuleOf(e), Rules(acls));
    assert Yields(r, RuleOf(e)) && Yields(RuleOf(e), r);
  }

  lemma SortKeepsKeys(folded: seq<Acl>, resolved: seq<Acl>)
    requires DistinctKeys(folded) && Distinct(resolved) && SameElements(folded, resolved)
    ensures DistinctKeys(resolved)
  {
    forall i, j | 0 <= i < j < |resolved| ensures Key(resolved[i]) != Key(resolved[j]) {
      assert resolved[i] in folded && resolved[j] in folded && resolved[i] != resolved[j];
      var a :| 0 <= a < |folded| && folded[a] == resolved[i];
      var b :| 0 <= b < |folded| && folded[b] == resolved[j];
      assert a < b || b < a;
    }
  }

  /** Lists of rules with the same winners resolve to the same list. */
  lemma SameWinnersSameResolution(a: seq<Acl>, b: seq<Acl>, keyLeq: (string, string) -> bool)
    requires KeyOrder(keyLeq)
    requires forall r :: Wins(r, Rules(a)) <==> Wins(r, Rules(b))
    ensures Rules(ResolveEffectiveAcls(a, keyLeq)) == Rules(ResolveEffectiveAcls(b, keyLeq))
  {
    ResolutionIsCanonical(a, keyLeq);
    ResolutionIsCanonical(b, keyLeq);
    SortedUnique(Rules(ResolveEffectiveAcls(a, keyLeq)), Rules(ResolveEffectiveAcls(b, keyLeq)), RuleOrder(keyLeq));
  }

  /** The order in which roles and groups contribute their ACLs does not matter, nor do repetitions. */
  lemma PermutationInvariant(a: seq<Acl>, b: seq<Acl>, keyLeq: (string, string) -> bool)
    requires KeyOrder(keyLeq) && SameElements(a, b)
    ensures Rules(ResolveEffectiveAcls(a, keyLeq)) == Rules(ResolveEffectiveAcls(b, keyLeq))
  {
    forall r ensures r in Rules(a) <==> r in Rules(b) {
      if r in Rules(a) { var x := SourceOf(a, r); RuleIn(b, x); }
      if r in Rules(b) { var x := SourceOf(b, r); RuleIn(a, x); }
    }
    SameWinnersSameResolution(a, b, keyLeq);
  }

  /** Every rule yields to some winner for its key. */
  lemma WinnerFor(acls: seq<Acl>, r: Rule) returns (w: Rule)
    requires r in Rules(acls)
    ensures Wins(w, Rules(acls)) && w.key == r.key
  {
    FoldResolves(acls);
    var a := SourceOf(acls, r);
    w := RuleOf(Fold(acls)[IndexOf(Keys(Fold(acls)), Key(a))]);
  }

  /** Dropping rules that do not win among a part leaves the winners of the whole. */
  lemma WinnersOfPart(a: seq<Acl>, part: seq<Rule>, rest: seq<Rule>, r: Rule)
    requires forall w :: w in part <==> Wins(w, Rules(a))
    ensures Wins(r, part + rest) <==> Wins(r, Rules(a) + rest)
  {
    if Wins(r, part + rest) {
      forall o | o in Rules(a) ensures Yields(o, r) {
        var w := WinnerFor(a, o);
        assert w in part + rest && Yields(w, r) && Yields(o, w);
      }
    }
    if Wins(r, Rules(a) + rest) && r in Rules(a) {
      assert forall o :: o in Rules(a) ==> o in Rules(a) + rest;
      assert Wins(r, Rules(a));
    }
  }

  /** Resolving part of the list first changes nothing, so resolution can be applied incrementally. */
  lemma ResolveIncrementally(a: seq<Acl>, b: seq<Acl>, keyLeq: (string, string) -> bool)
    requires KeyOrder(keyLeq)
    ensures Rules(ResolveEffectiveAcls(ResolveEffectiveAcls(a, keyLeq) + b, keyLeq))
         == Rules(ResolveEffectiveAcls(a + b, keyLeq))
  {
    var part := ResolveEffectiveAcls(a, keyLeq);
    ResolutionIsCanonical(a, keyLeq);
    RulesAppend(part, b);
    RulesAppend(a, b);
    forall r ensures Wins(r, Rules(part + b)) <==> Wins(r, Rules(a + b)) {
      WinnersOfPart(a, Rules(part), Rules(b), r);
    }
    SameWinnersSameResolution(part + b, a + b, keyLeq);
  }

  /** The key separates (type, topic) pairs as long as types have no colon; dynsec's six types have none. */
  lemma KeySeparates(a: Acl, b: Acl)
    requires ':' !in a.acltype && ':' !in b.acltype
    ensures Key(a) == Key(b) <==> a.acltype == b.acltype && a.topic == b.topic
  {
    if Key(a) == Key(b) {
      FirstColon(a);
      FirstColon(b);
      var n := |a.acltype|;
      assert a.acltype == Key(a)[..n] && b.acltype == Key(b)[..n];
      assert a.topic == Key(a)[n + 1..] && b.topic == Key(b)[n + 1..];
    }
  }

  lemma FirstColon(a: Acl)
    requires ':' !in a.acltype
    ensures IndexOf(Key(a), ':') == |a.acltype|
  {
    assert Key(a)[|a.acltype|] == ':';
    assert forall j :: 0 <= j < |a.acltype| ==> Key(a)[j] == a.acltype[j];
  }
}

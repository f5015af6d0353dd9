/** topicMatchesFilter against the topic matching rules of section 4.7 of OASIS MQTT Version 3.1.1. */
module TopicFilter {
  import opened Basics

  const MULTI: string := "#"
  const SINGLE: string := "+"

  /** split('/') */
  function Levels(t: string): (r: seq<string>)
    ensures |r| >= 1
  {
    var i := IndexOf(t, '/');
    if i == |t| then [t] else [t[..i]] + Levels(t[i + 1..])
  }

  predicate StartsWithDollar(t: string) {
    t != "" && t[0] == '$'
  }

  // ---- The standard's relation ----

  /** Topics beginning with '$' are hidden from filters beginning with a wildcard (section 4.7.2). */
  predicate HiddenFromWildcard(f: seq<string>, t: seq<string>)
    requires f != [] && t != []
  {
    StartsWithDollar(t[0]) && (f[0] == MULTI || f[0] == SINGLE)
  }

  predicate LevelMatches(f: string, t: string) {
    f == SINGLE || f == t
  }

  /** A filter ending in '#' matches its parent level and everything below (section 4.7.1.2); otherwise the
      numbers of levels agree; '+' stands for exactly one level (section 4.7.1.3). */
  ghost predicate StandardMatch(f: seq<string>, t: seq<string>)
    requires f != [] && t != []
  {
    var multi := f[|f| - 1] == MULTI;
    var n := if multi then |f| - 1 else |f|;
    && !HiddenFromWildcard(f, t)
    && (if multi then n <= |t| else n == |t|)
    && (forall i :: 0 <= i < n && i < |t| ==> LevelMatches(f[i], t[i]))
  }

  /** '#' only as the last level, and wildcards only as whole levels. */
  ghost predicate WellFormed(f: seq<string>) {
    && (forall i :: 0 <= i < |f| && '#' in f[i] ==> f[i] == MULTI && i == |f| - 1)
    && (forall i :: 0 <= i < |f| && '+' in f[i] ==> f[i] == SINGLE)
  }

  // ---- The program ----

  /** What the loop returns from level `index` on. */
  function MatchFrom(f: seq<string>, t: seq<string>, index: nat): bool
    requires index <= |f|
    decreases |f| - index
  {
    if index == |f| then |f| == |t|
    else if f[index] == MULTI then index == |f| - 1
    else if index >= |t| then false
    else if f[index] != SINGLE && f[index] != t[index] then false
    else MatchFrom(f, t, index + 1)
  }

  function TopicMatches(filter: string, topic: string): bool {
    var f, t := Levels(filter), Levels(topic);
    if StartsWithDollar(topic) && (f[0] == MULTI || f[0] == SINGLE) then false else MatchFrom(f, t, 0)
  }

  method TopicMatchesFilter(filter: string, topic: string) returns (r: bool)
    ensures r == TopicMatches(filter, topic)
  {
    var filterLevels := Levels(filter);
    var topicLevels := Levels(topic);
    if StartsWithDollar(topic) && (filterLevels[0] == MULTI || filterLevels[0] == SINGLE) { return false; }
    for index := 0 to |filterLevels|
      invariant MatchFrom(filterLevels, topicLevels, 0) == MatchFrom(filterLevels, topicLevels, index)
    {
      var filterLevel := filterLevels[index];
      if filterLevel == MULTI { return index == |filterLevels| - 1; }
      if index >= |topicLevels| { return false; }
      if filterLevel == SINGLE { continue; }
      if filterLevel != topicLevels[index] { return false; }
    }
    return |filterLevels| == |topicLevels|;
  }

  // ---- Agreement ----

  ghost predicate MultiOnlyLast(f: seq<string>, from: nat) {
    forall i :: from <= i < |f| - 1 ==> f[i] != MULTI
  }

  lemma {:induction false} MatchFromMeaning(f: seq<string>, t: seq<string>, index: nat)
    requires f != [] && index <= |f|
    requires index == |f| ==> f[|f| - 1] != MULTI
    ensures var multi := f[|f| - 1] == MULTI;
            var n := if multi then |f| - 1 else |f|;
            MatchFrom(f, t, index) <==>
              && MultiOnlyLast(f, index)
              && (if multi then n <= |t| || index >= n else n == |t|)
              && (forall i :: index <= i < n && i < |t| ==> LevelMatches(f[i], t[i]))
    decreases |f| - index
  {
    if index < |f| && f[index] != MULTI && index < |t| {
      MatchFromMeaning(f, t, index + 1);
    }
  }

  lemma FirstLevel(t: string)
    ensures StartsWithDollar(Levels(t)[0]) <==> StartsWithDollar(t)
  {
  }

  lemma LevelsMatchExactly(f: seq<string>, t: seq<string>)
    requires f != [] && t != []
    ensures MatchFrom(f, t, 0) && !HiddenFromWildcard(f, t) <==> MultiOnlyLast(f, 0) && StandardMatch(f, t)
  {
    MatchFromMeaning(f, t, 0);
  }

  /** For every filter and topic the program's answer is the standard's relation, a '#' before the last
      level never matching anything. */
  lemma MatchesExactly(filter: string, topic: string)
    ensures TopicMatches(filter, topic) <==>
              MultiOnlyLast(Levels(filter), 0) && StandardMatch(Levels(filter), Levels(topic))
  {
    FirstLevel(topic);
    LevelsMatchExactly(Levels(filter), Levels(topic));
  }

  /** For well-formed filters it is exactly the standard's relation. */
  lemma WellFormedMatchesStandard(filter: string, topic: string)
    requires WellFormed(Levels(filter))
    ensures TopicMatches(filter, topic) <==> StandardMatch(Levels(filter), Levels(topic))
  {
    MatchesExactly(filter, topic);
    assert '#' in MULTI;
  }

  // ---- Levels are the pieces between the slashes ----

  function JoinLevels(levels: seq<string>): string
    requires levels != []
  {
    if |levels| == 1 then levels[0] else levels[0] + "/" + JoinLevels(levels[1..])
  }

  lemma JoinFirst(level: string, rest: seq<string>)
    requires rest != []
    ensures JoinLevels([level] + rest) == level + "/" + JoinLevels(rest)
  {
    assert ([level] + rest)[1..] == rest;
  }

  /** Splitting loses nothing and leaves no slash inside a level. */
  lemma {:induction false} LevelsOfText(t: string)
    ensures JoinLevels(Levels(t)) == t
    ensures forall i :: 0 <= i < |Levels(t)| ==> '/' !in Levels(t)[i]
    decreases |t|
  {
    var i := IndexOf(t, '/');
    if i < |t| {
      LevelsOfText(t[i + 1..]);
      JoinFirst(t[..i], Levels(t[i + 1..]));
      assert t == t[..i] + "/" + t[i + 1..];
    } else {
      assert Levels(t) == [t];
    }
  }
}

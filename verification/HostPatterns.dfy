// internal/proxy/handler.go and rewriter.go: the ordered list of host patterns
// built from the registry, and the rule a request is routed to. Go ranges over
// maps in random order, so the list is any one that satisfies IsOrder.
module HostPatterns {
  import opened Options
  import opened Registry

  datatype HostPatternEntry = HostPatternEntry(pattern: Pattern, rules: seq<Rule>)

  // Whether a pattern matches a path: regexp is left open.
  type Matcher = (Pattern, string) -> bool

  const MODES: int := 5   // distroModesOrder is 1, 2, 3, 4, 5

  predicate Eligible(d: Distribution) {
    d.urlPattern.Some? && d.cacheRules != []
  }

  function EntryOf(d: Distribution): HostPatternEntry
    requires Eligible(d)
  {
    HostPatternEntry(d.urlPattern.value, d.cacheRules)
  }

  // The eligible distribution of a mode, if any.
  function OfMode(t: Tables, mode: int): seq<string> {
    if mode in t.types && t.types[mode] in t.distributions && Eligible(t.distributions[t.types[mode]])
    then [t.types[mode]] else []
  }

  function Known(t: Tables, modes: nat): seq<string> {
    if modes == 0 then [] else Known(t, modes - 1) + OfMode(t, modes)
  }

  function Others(t: Tables): set<string> {
    set id | id in t.distributions && Eligible(t.distributions[id]) && !(1 <= t.distributions[id].kind <= MODES)
  }

  ghost predicate Distinct(ids: seq<string>) {
    forall i, j :: 0 <= i < j < |ids| ==> ids[i] != ids[j]
  }

  ghost predicate IsListOf(ids: seq<string>, s: set<string>) {
    Distinct(ids) && (forall id :: id in ids <==> id in s)
  }

  // The known modes in order, then everything else in some order.
  ghost predicate IsOrder(t: Tables, ids: seq<string>) {
    Known(t, MODES) <= ids && IsListOf(ids[|Known(t, MODES)|..], Others(t))
  }

  predicate AllEligible(t: Tables, ids: seq<string>) {
    forall i :: 0 <= i < |ids| ==> ids[i] in t.distributions && Eligible(t.distributions[ids[i]])
  }

  function Entries(t: Tables, ids: seq<string>): seq<HostPatternEntry>
    requires AllEligible(t, ids)
  {
    seq(|ids|, i requires 0 <= i < |ids| => EntryOf(t.distributions[ids[i]]))
  }

  lemma {:induction false} KnownShape(t: Tables, modes: nat)
    requires Inverse(t)
    ensures AllEligible(t, Known(t, modes))
    ensures forall i :: 0 <= i < |Known(t, modes)| ==> 1 <= t.distributions[Known(t, modes)[i]].kind <= modes
    ensures Distinct(Known(t, modes))
    ensures forall id :: id in Known(t, modes) <==>
      id in t.distributions && Eligible(t.distributions[id]) && 1 <= t.distributions[id].kind <= modes
  {
    if modes > 0 {
      KnownShape(t, modes - 1);
    }
  }

  lemma OrderEligible(t: Tables, ids: seq<string>)
    requires Inverse(t) && IsOrder(t, ids)
    ensures AllEligible(t, ids)
  {
    KnownShape(t, MODES);
    var n := |Known(t, MODES)|;
    forall i | 0 <= i < |ids|
      ensures ids[i] in t.distributions && Eligible(t.distributions[ids[i]])
    {
      if i < n {
        assert ids[i] == Known(t, MODES)[i];
      } else {
        assert ids[i] == ids[n..][i - n] && ids[i] in ids[n..];
      }
    }
  }

  // ----- Building the list -----

  // The list built so far, for the ids collected so far.
  ghost predicate Building(t: Tables, ids: seq<string>, out: seq<HostPatternEntry>, seen: set<string>) {
    AllEligible(t, ids) && out == Entries(t, ids) && forall id :: id in seen ==> id in ids
  }

  lemma BuildNext(t: Tables, ids: seq<string>, out: seq<HostPatternEntry>, seen: set<string>, id: string)
    requires Building(t, ids, out, seen) && id in t.distributions && Eligible(t.distributions[id])
    ensures Building(t, ids + [id], out + [EntryOf(t.distributions[id])], seen)
    ensures Building(t, ids + [id], out + [EntryOf(t.distributions[id])], seen + {id})
  {
  }

  lemma OnlyOneOfMode(t: Tables, mode: int, id: string)
    requires Inverse(t) && mode != 0 && id in t.distributions
    ensures t.distributions[id].kind == mode && Eligible(t.distributions[id]) <==> OfMode(t, mode) == [id]
    ensures id in OfMode(t, mode) <==> OfMode(t, mode) == [id]
  {
  }

  method HostPatternsFromRegistry(reg: Registry?) returns (out: seq<HostPatternEntry>, ghost ids: seq<string>)
    requires reg != null ==> reg.Valid()
    ensures reg == null ==> out == []
    ensures reg != null ==>
      IsOrder(reg.State(), ids) && AllEligible(reg.State(), ids) && out == Entries(reg.State(), ids)
  {
    out, ids := [], [];
    if reg == null {
      return;
    }
    ghost var t := reg.State();
    var seen: set<string> := {};
    for mode := 1 to MODES + 1
      invariant ids == Known(t, mode - 1) && Building(t, ids, out, seen)
      invariant forall id :: id in ids ==> id in seen
    {
      out, seen, ids := AppendMode(t, reg.distributions, mode, out, seen, ids);
    }
    out, ids := AppendRest(t, reg.distributions, out, seen, ids);
  }

  // One round of the first loop: the distributions of one mode, in any map order.
  method AppendMode(ghost t: Tables, all: map<string, Distribution>, mode: int,
                    before: seq<HostPatternEntry>, seenBefore: set<string>, ghost idsBefore: seq<string>)
    returns (out: seq<HostPatternEntry>, seen: set<string>, ghost ids: seq<string>)
    requires Inverse(t) && all == t.distributions && mode != 0
    requires Building(t, idsBefore, before, seenBefore) && forall id :: id in idsBefore ==> id in seenBefore
    ensures ids == idsBefore + OfMode(t, mode) && Building(t, ids, out, seen)
    ensures forall id :: id in ids ==> id in seen
  {
    out, seen, ids := before, seenBefore, idsBefore;
    ghost var found: seq<string> := [];
    var todo := all.Keys;
    while todo != {}
      invariant todo <= all.Keys
      invariant ids == idsBefore + found && Building(t, ids, out, seen)
      invariant forall id :: id in ids ==> id in seen
      invariant found == [] || found == OfMode(t, mode)
      invariant forall id :: id in all && id !in todo && id in OfMode(t, mode) ==> found == [id]
      invariant forall id :: id in found ==> id !in todo
      decreases todo
    {
      var id :| id in todo;
      todo := todo - {id};
      var d := all[id];
      OnlyOneOfMode(t, mode, id);
      assert found != [] ==> found[0] in found && found[0] != id;
      if d.kind != mode || d.urlPattern.None? || |d.cacheRules| == 0 {
        continue;
      }
      BuildNext(t, ids, out, seen, id);
      out := out + [HostPatternEntry(d.urlPattern.value, d.cacheRules)];
      seen := seen + {id};
      ids, found := ids + [id], [id];
    }
    assert OfMode(t, mode) != [] ==> OfMode(t, mode)[0] in all;
  }

  // The second loop: everything not seen yet, in any map order.
  method AppendRest(ghost t: Tables, all: map<string, Distribution>,
                    before: seq<HostPatternEntry>, seen: set<string>, ghost known: seq<string>)
    returns (out: seq<HostPatternEntry>, ghost ids: seq<string>)
    requires Inverse(t) && all == t.distributions
    requires known == Known(t, MODES) && Building(t, known, before, seen) && forall id :: id in known ==> id in seen
    ensures IsOrder(t, ids) && AllEligible(t, ids) && out == Entries(t, ids)
  {
    out, ids := before, known;
    KnownShape(t, MODES);
    ghost var rest: seq<string> := [];
    var todo := all.Keys;
    while todo != {}
      invariant todo <= all.Keys
      invariant ids == known + rest && Building(t, ids, out, {})
      invariant Distinct(rest) && forall id :: id in rest <==> id in Others(t) && id !in todo
      decreases todo
    {
      var id :| id in todo;
      todo := todo - {id};
      var d := all[id];
      if id in seen || d.urlPattern.None? || |d.cacheRules| == 0 {
        continue;
      }
      BuildNext(t, ids, out, {}, id);
      out := out + [HostPatternEntry(d.urlPattern.value, d.cacheRules)];
      rest := rest + [id];
      ids := ids + [id];
    }
    assert ids[|known|..] == rest;
  }

  // ----- Any two lists -----

  lemma {:induction false} CountInList(ids: seq<string>, id: string)
    requires Distinct(ids)
    ensures multiset(ids)[id] == if id in ids then 1 else 0
  {
    if ids != [] {
      var init, last := ids[..|ids| - 1], ids[|ids| - 1];
      assert ids == init + [last];
      CountInList(init, id);
      assert last !in init;
    }
  }

  lemma OrderIsList(t: Tables, ids: seq<string>)
    requires Inverse(t) && IsOrder(t, ids)
    ensures IsListOf(ids, set id | id in t.distributions && Eligible(t.distributions[id]))
  {
    KnownShape(t, MODES);
    var known := Known(t, MODES);
    var rest := ids[|known|..];
    assert ids == known + rest;
    forall i, j | 0 <= i < j < |ids|
      ensures ids[i] != ids[j]
    {
      if i < |known| <= j {
        assert ids[i] in known && rest[j - |known|] in rest;
      } else if |known| <= i {
        assert ids[i] == rest[i - |known|] && ids[j] == rest[j - |known|];
      }
    }
  }

  // Whatever the enumeration orders: every eligible distribution appears exactly
  // once, and the known modes form the same prefix.
  lemma OrdersAgree(t: Tables, a: seq<string>, b: seq<string>)
    requires Inverse(t) && IsOrder(t, a) && IsOrder(t, b)
    ensures multiset(a) == multiset(b)
    ensures forall id :: id in t.distributions && Eligible(t.distributions[id]) ==> multiset(a)[id] == 1
    ensures |a| == |b| >= |Known(t, MODES)| && a[..|Known(t, MODES)|] == b[..|Known(t, MODES)|] == Known(t, MODES)
  {
    OrderIsList(t, a);
    OrderIsList(t, b);
    forall id
      ensures multiset(a)[id] == multiset(b)[id]
      ensures id in t.distributions && Eligible(t.distributions[id]) ==> multiset(a)[id] == 1
    {
      CountInList(a, id);
      CountInList(b, id);
    }
    assert multiset(a) == multiset(b);
    assert |a| == |multiset(a)| && |b| == |multiset(b)|;
  }

  // Ubuntu, Ubuntu ports, Debian, CentOS and Alpine.
  predicate OfKnownKind(d: Distribution) {
    1 <= d.kind <= 5
  }

  // The types of the listed distributions rise, up to a bound.
  predicate Rising(t: Tables, ids: seq<string>, bound: int) {
    && AllEligible(t, ids)
    && (forall i :: 0 <= i < |ids| ==> t.distributions[ids[i]].kind <= bound)
    && (forall i, j :: 0 <= i < j < |ids| ==> t.distributions[ids[i]].kind < t.distributions[ids[j]].kind)
  }

  lemma RisingAppend(t: Tables, ids: seq<string>, bound: int, next: seq<string>)
    requires Rising(t, ids, bound) && |next| <= 1 && AllEligible(t, next)
    requires forall id <- next :: id in t.distributions && t.distributions[id].kind == bound + 1
    ensures Rising(t, ids + next, bound + 1)
  {
    if next != [] {
      assert next[0] in next;
    }
  }

  lemma {:induction false} KnownRises(t: Tables, modes: nat)
    requires Inverse(t)
    ensures Rising(t, Known(t, modes), modes)
  {
    if modes > 0 {
      KnownRises(t, modes - 1);
      RisingAppend(t, Known(t, modes - 1), modes - 1, OfMode(t, modes));
    }
  }

  // A distribution is listed exactly when it has a pattern and rules, and what
  // its entry says are these.
  lemma ListedIff(t: Tables, ids: seq<string>, id: string)
    requires Inverse(t) && IsOrder(t, ids)
    ensures id in ids <==>
      id in t.distributions && t.distributions[id].urlPattern.Some? && |t.distributions[id].cacheRules| > 0
    ensures AllEligible(t, ids) && |Entries(t, ids)| == |ids|
    ensures forall i :: 0 <= i < |ids| ==>
      && Some(Entries(t, ids)[i].pattern) == t.distributions[ids[i]].urlPattern
      && Entries(t, ids)[i].rules == t.distributions[ids[i]].cacheRules
  {
    OrderIsList(t, ids);
    OrderEligible(t, ids);
  }

  // Known modes come first, in rising order of their types.
  lemma OrderByKind(t: Tables, ids: seq<string>, i: nat, j: nat)
    requires Inverse(t) && IsOrder(t, ids) && AllEligible(t, ids) && i < |ids| && j < |ids|
    requires var a, b := t.distributions[ids[i]], t.distributions[ids[j]];
      OfKnownKind(a) && (a.kind < b.kind || !OfKnownKind(b))
    ensures i < j
  {
    var known := Known(t, MODES);
    KnownShape(t, MODES);
    KnownRises(t, MODES);
    InOthers(t, ids, i);
    InOthers(t, ids, j);
  }

  lemma InOthers(t: Tables, ids: seq<string>, i: nat)
    requires Inverse(t) && IsOrder(t, ids) && AllEligible(t, ids) && i < |ids|
    ensures i < |Known(t, MODES)| ==> ids[i] == Known(t, MODES)[i]
    ensures i < |Known(t, MODES)| <==> OfKnownKind(t.distributions[ids[i]])
  {
    var known := Known(t, MODES);
    KnownShape(t, MODES);
    if i < |known| {
      assert ids[i] == known[i] && ids[i] in known;
    } else {
      assert ids[i] == ids[|known|..][i - |known|] && ids[i] in ids[|known|..];
    }
  }

  // ----- Routing -----

  function FirstRule(matches: Matcher, path: string, rules: seq<Rule>): Option<Rule> {
    if rules == [] then None
    else if matches(rules[0].pattern, path) then Some(rules[0])
    else FirstRule(matches, path, rules[1..])
  }

  // The rule of the first entry whose pattern matches; no rule if none does or
  // if no rule of that entry matches.
  function Route(matches: Matcher, path: string, entries: seq<HostPatternEntry>): Option<Rule> {
    if entries == [] then None
    else if matches(entries[0].pattern, path) then FirstRule(matches, path, entries[0].rules)
    else Route(matches, path, entries[1..])
  }

  method MatchingRule(matches: Matcher, path: string, rules: seq<Rule>) returns (r: Option<Rule>)
    ensures r == FirstRule(matches, path, rules)
    ensures r.Some? ==>
      exists i :: 0 <= i < |rules| && r.value == rules[i] && matches(rules[i].pattern, path)
                  && forall j :: 0 <= j < i ==> !matches(rules[j].pattern, path)
    ensures r.None? ==> forall i :: 0 <= i < |rules| ==> !matches(rules[i].pattern, path)
  {
    for i := 0 to |rules|
      invariant FirstRule(matches, path, rules) == FirstRule(matches, path, rules[i..])
      invariant forall j :: 0 <= j < i ==> !matches(rules[j].pattern, path)
    {
      if matches(rules[i].pattern, path) {
        return Some(rules[i]);
      }
      assert rules[i..][1..] == rules[i + 1..];
    }
    return None;
  }

  method HandleExternalURLs(matches: Matcher, path: string, entries: seq<HostPatternEntry>) returns (r: Option<Rule>)
    ensures r == Route(matches, path, entries)
  {
    for i := 0 to |entries|
      invariant Route(matches, path, entries) == Route(matches, path, entries[i..])
    {
      if matches(entries[i].pattern, path) {
        r := MatchingRule(matches, path, entries[i].rules);
        return;
      }
      assert entries[i..][1..] == entries[i + 1..];
    }
    return None;
  }

  predicate Hits(matches: Matcher, path: string, t: Tables, id: string)
    requires id in t.distributions
  {
    t.distributions[id].urlPattern.Some? && matches(t.distributions[id].urlPattern.value, path)
  }

  function RuleFor(matches: Matcher, path: string, t: Tables, id: string): Option<Rule>
    requires id in t.distributions
  {
    FirstRule(matches, path, t.distributions[id].cacheRules)
  }

  lemma {:induction false} RouteFirst(matches: Matcher, path: string, t: Tables, ids: seq<string>, i: nat)
    requires AllEligible(t, ids) && i < |ids| && Hits(matches, path, t, ids[i])
    requires forall j :: 0 <= j < i ==> !Hits(matches, path, t, ids[j])
    ensures Route(matches, path, Entries(t, ids)) == RuleFor(matches, path, t, ids[i])
    decreases i
  {
    var entries := Entries(t, ids);
    if i > 0 {
      assert !Hits(matches, path, t, ids[0]);
      assert entries[1..] == Entries(t, ids[1..]);
      RouteFirst(matches, path, t, ids[1..], i - 1);
    }
  }

  lemma {:induction false} RouteNone(matches: Matcher, path: string, t: Tables, ids: seq<string>)
    requires AllEligible(t, ids) && forall i :: 0 <= i < |ids| ==> !Hits(matches, path, t, ids[i])
    ensures Route(matches, path, Entries(t, ids)) == None
    decreases |ids|
  {
    if ids != [] {
      assert Entries(t, ids)[1..] == Entries(t, ids[1..]);
      RouteNone(matches, path, t, ids[1..]);
    }
  }

  lemma {:induction false} FirstHit(matches: Matcher, path: string, t: Tables, ids: seq<string>) returns (i: nat)
    requires AllEligible(t, ids)
    ensures i <= |ids| && (forall j :: 0 <= j < i ==> !Hits(matches, path, t, ids[j]))
    ensures i < |ids| ==> Hits(matches, path, t, ids[i])
  {
    i := 0;
    while i < |ids| && !Hits(matches, path, t, ids[i])
      invariant i <= |ids| && forall j :: 0 <= j < i ==> !Hits(matches, path, t, ids[j])
    {
      i := i + 1;
    }
  }

  // The path matches the pattern of a known mode.
  ghost predicate KnownHit(matches: Matcher, path: string, t: Tables) {
    exists id :: id in t.distributions && Eligible(t.distributions[id])
      && 1 <= t.distributions[id].kind <= MODES && Hits(matches, path, t, id)
  }

  lemma NoKnownHit(matches: Matcher, path: string, t: Tables, ids: seq<string>)
    requires Inverse(t) && IsOrder(t, ids) && AllEligible(t, ids)
    requires forall j :: 0 <= j < |Known(t, MODES)| ==> !Hits(matches, path, t, ids[j])
    ensures !KnownHit(matches, path, t)
  {
    KnownShape(t, MODES);
    var known := Known(t, MODES);
    forall id | id in known
      ensures id in t.distributions && !Hits(matches, path, t, id)
    {
      var j :| 0 <= j < |known| && known[j] == id;
      assert ids[j] == known[j];
    }
  }

  lemma HitInOrder(matches: Matcher, path: string, t: Tables, ids: seq<string>, i: nat)
    requires Inverse(t) && IsOrder(t, ids) && AllEligible(t, ids) && i <= |ids|
    requires forall j :: 0 <= j < i ==> !Hits(matches, path, t, ids[j])
    requires i < |ids| ==> Hits(matches, path, t, ids[i])
    ensures KnownHit(matches, path, t) <==> i < |Known(t, MODES)|
    ensures |Known(t, MODES)| <= i < |ids| ==> ids[i] in Others(t)
  {
    if i < |ids| {
      InOthers(t, ids, i);
    }
    if i >= |Known(t, MODES)| {
      NoKnownHit(matches, path, t, ids);
    }
  }

  lemma RouteOfOrder(matches: Matcher, path: string, t: Tables, ids: seq<string>) returns (i: nat)
    requires Inverse(t) && IsOrder(t, ids)
    ensures AllEligible(t, ids) && i <= |ids| && (forall j :: 0 <= j < i ==> !Hits(matches, path, t, ids[j]))
    ensures i < |ids| ==> Hits(matches, path, t, ids[i])
    ensures Route(matches, path, Entries(t, ids)) == if i < |ids| then RuleFor(matches, path, t, ids[i]) else None
    ensures KnownHit(matches, path, t) <==> i < |Known(t, MODES)|
    ensures |Known(t, MODES)| <= i < |ids| ==> ids[i] in Others(t)
  {
    OrderEligible(t, ids);
    i := FirstHit(matches, path, t, ids);
    if i < |ids| {
      RouteFirst(matches, path, t, ids, i);
    } else {
      RouteNone(matches, path, t, ids);
    }
    HitInOrder(matches, path, t, ids, i);
  }

  // A request that matches a known mode's pattern gets the same rule whatever
  // the enumeration orders were.
  lemma KnownRouteDeterministic(matches: Matcher, path: string, t: Tables, a: seq<string>, b: seq<string>)
    requires Inverse(t) && IsOrder(t, a) && IsOrder(t, b) && KnownHit(matches, path, t)
    ensures AllEligible(t, a) && AllEligible(t, b)
    ensures Route(matches, path, Entries(t, a)) == Route(matches, path, Entries(t, b))
  {
    var i := RouteOfOrder(matches, path, t, a);
    var j := RouteOfOrder(matches, path, t, b);
    var known := Known(t, MODES);
    assert forall k :: 0 <= k < |known| ==> a[k] == known[k] && b[k] == known[k];
  }

  // The rules are those of the matching known mode of least type.
  lemma LeastKindWins(matches: Matcher, path: string, t: Tables, ids: seq<string>, id: string)
    requires Inverse(t) && IsOrder(t, ids)
    requires id in ids && id in t.distributions && OfKnownKind(t.distributions[id]) && Hits(matches, path, t, id)
    requires forall x :: x in ids && x in t.distributions && Hits(matches, path, t, x) && x != id ==>
      !OfKnownKind(t.distributions[x]) || t.distributions[id].kind <= t.distributions[x].kind
    ensures AllEligible(t, ids)
    ensures Route(matches, path, Entries(t, ids)) == RuleFor(matches, path, t, id)
  {
    var i := RouteOfOrder(matches, path, t, ids);
    var j :| 0 <= j < |ids| && ids[j] == id;
    if ids[i] != id {
      SameKindSameId(t, ids[i], id);
      OrderByKind(t, ids, j, i);
    }
  }

  lemma SameKindSameId(t: Tables, a: string, b: string)
    requires Inverse(t) && a in t.distributions && b in t.distributions && t.distributions[b].kind != 0
    ensures t.distributions[a].kind == t.distributions[b].kind ==> a == b
  {
  }

  lemma {:induction false} ListSet(s: set<string>) returns (ids: seq<string>)
    ensures IsListOf(ids, s)
    decreases s
  {
    if s == {} {
      ids := [];
    } else {
      var id :| id in s;
      var rest := ListSet(s - {id});
      ids := [id] + rest;
    }
  }

  // There is an enumeration order that puts any chosen other distribution first.
  lemma OrderStartingWith(t: Tables, id: string) returns (ids: seq<string>)
    requires id in Others(t)
    ensures IsOrder(t, ids) && |ids| > |Known(t, MODES)| && ids[|Known(t, MODES)|] == id
  {
    var rest := ListSet(Others(t) - {id});
    var known := Known(t, MODES);
    ids := known + ([id] + rest);
    assert ids[|known|..] == [id] + rest;
  }

  lemma RouteStartingWith(matches: Matcher, path: string, t: Tables, id: string) returns (ids: seq<string>)
    requires Inverse(t) && id in Others(t) && Hits(matches, path, t, id) && !KnownHit(matches, path, t)
    ensures IsOrder(t, ids) && AllEligible(t, ids)
    ensures Route(matches, path, Entries(t, ids)) == RuleFor(matches, path, t, id)
  {
    ids := OrderStartingWith(t, id);
    var i := RouteOfOrder(matches, path, t, ids);
  }

  ghost predicate RouteDeterministic(matches: Matcher, path: string, t: Tables) {
    forall a, b :: IsOrder(t, a) && IsOrder(t, b) && AllEligible(t, a) && AllEligible(t, b) ==>
      Route(matches, path, Entries(t, a)) == Route(matches, path, Entries(t, b))
  }

  // Beyond the known modes routing is not deterministic: it is exactly when a
  // known pattern matches or all other matching distributions give the same rule.
  lemma RouteDeterministicIff(matches: Matcher, path: string, t: Tables)
    requires Inverse(t)
    ensures RouteDeterministic(matches, path, t) <==>
      KnownHit(matches, path, t)
      || forall x, y :: x in Others(t) && y in Others(t) && Hits(matches, path, t, x) && Hits(matches, path, t, y) ==>
           RuleFor(matches, path, t, x) == RuleFor(matches, path, t, y)
  {
    if KnownHit(matches, path, t) {
      forall a, b | IsOrder(t, a) && IsOrder(t, b) && AllEligible(t, a) && AllEligible(t, b)
        ensures Route(matches, path, Entries(t, a)) == Route(matches, path, Entries(t, b))
      {
        KnownRouteDeterministic(matches, path, t, a, b);
      }
    } else {
      if RouteDeterministic(matches, path, t) {
        forall x, y | x in Others(t) && y in Others(t) && Hits(matches, path, t, x) && Hits(matches, path, t, y)
          ensures RuleFor(matches, path, t, x) == RuleFor(matches, path, t, y)
        {
          var a := RouteStartingWith(matches, path, t, x);
          var b := RouteStartingWith(matches, path, t, y);
        }
      } else {
        var a, b :| IsOrder(t, a) && IsOrder(t, b) && AllEligible(t, a) && AllEligible(t, b)
          && Route(matches, path, Entries(t, a)) != Route(matches, path, Entries(t, b));
        OrdersHitTogether(matches, path, t, a, b);
      }
    }
  }

  lemma OrdersHitTogether(matches: Matcher, path: string, t: Tables, a: seq<string>, b: seq<string>)
    requires Inverse(t) && IsOrder(t, a) && IsOrder(t, b) && AllEligible(t, a) && AllEligible(t, b)
    requires !KnownHit(matches, path, t)
    requires Route(matches, path, Entries(t, a)) != Route(matches, path, Entries(t, b))
    ensures exists x, y ::
              x in Others(t) && y in Others(t) && Hits(matches, path, t, x) && Hits(matches, path, t, y)
              && RuleFor(matches, path, t, x) != RuleFor(matches, path, t, y)
  {
    var i := RouteOfOrder(matches, path, t, a);
    var j := RouteOfOrder(matches, path, t, b);
    OrderIsList(t, a);
    OrderIsList(t, b);
    if i < |a| {
      assert a[i] in b;
    }
    if j < |b| {
      assert b[j] in a;
    }
  }

  // ----- The cached list -----

  class PackageStruct {
    const registry: Registry?
    const defaults: seq<HostPatternEntry>
    var hostPatternCache: Option<seq<HostPatternEntry>>

    constructor (registry: Registry?, defaults: seq<HostPatternEntry>)
      ensures this.registry == registry && this.defaults == defaults && hostPatternCache == None
    {
      this.registry, this.defaults, hostPatternCache := registry, defaults, None;
    }

    // A non-empty cached list is used as it is; otherwise the registry's list is
    // cached, and the defaults stand in, uncached, for an empty one.
    method HostPatterns() returns (r: seq<HostPatternEntry>, ghost ids: seq<string>)
      requires registry != null ==> registry.Valid()
      modifies this`hostPatternCache
      ensures old(hostPatternCache).Some? && old(hostPatternCache.value) != [] ==>
        r == old(hostPatternCache.value) && hostPatternCache == old(hostPatternCache)
      ensures old(hostPatternCache).None? || old(hostPatternCache.value) == [] ==>
        if registry == null || (IsOrder(registry.State(), ids) && ids == []) then
          r == defaults && hostPatternCache == old(hostPatternCache)
        else
          IsOrder(registry.State(), ids) && AllEligible(registry.State(), ids)
          && r == Entries(registry.State(), ids) && hostPatternCache == Some(r)
    {
      ids := [];
      if hostPatternCache.Some? && |hostPatternCache.value| > 0 {
        return hostPatternCache.value, [];
      }
      r, ids := HostPatternsFromRegistry(registry);
      if |r| == 0 {
        r := defaults;
        return;
      }
      hostPatternCache := Some(r);
    }

    method InvalidateHostPatterns()
      modifies this`hostPatternCache
      ensures hostPatternCache == None
    {
      hostPatternCache := None;
    }
  }
}

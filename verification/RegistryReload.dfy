// internal/distro/registry.go, Reload: what the registry holds after a reload, told
// from the built-ins and the entries of the file.
module RegistryReload {
  import opened Options
  import opened Mirrors
  import opened Registry

  // ----- What an entry says -----

  predicate MirrorDescribes(url: string, official: bool, m: Mirror) {
    && m.url == url && m.official == official && m.alias == AliasOf(url)
    && (m.scheme == "http" <==> "http://" <= url) && (m.scheme == "https" <==> "https://" <= url)
  }

  predicate RuleDescribes(kind: int, c: RuleConfig, r: Rule) {
    r.os == kind && r.pattern == c.pattern && r.cacheControl == c.cacheControl && r.rewrite == c.rewrite
  }

  // The distribution is the entry's, field by field; official mirrors come first.
  predicate Describes(c: DistributionConfig, d: Distribution) {
    && d.id == c.id && d.name == c.name && d.kind == c.kind && d.urlPattern == Some(c.urlPattern)
    && d.benchmarkURL == c.benchmarkURL && d.geoMirrorAPI == c.geoMirrorAPI && d.aliases == c.aliases
    && |d.cacheRules| == |c.cacheRules|
    && (forall i :: 0 <= i < |c.cacheRules| ==> RuleDescribes(c.kind, c.cacheRules[i], d.cacheRules[i]))
    && |d.mirrors| == |c.official| + |c.custom|
    && (forall i :: 0 <= i < |c.official| ==> MirrorDescribes(c.official[i], true, d.mirrors[i]))
    && (forall i :: 0 <= i < |c.custom| ==> MirrorDescribes(c.custom[i], false, d.mirrors[|c.official| + i]))
  }

  lemma SchemeIs(url: string, official: bool)
    ensures MirrorDescribes(url, official, MirrorItem(url, official))
  {
    assert "http://"[4] == ':' && "https://"[4] == 's';
  }

  lemma BuiltDescribes(c: DistributionConfig)
    ensures Describes(c, Built(c))
  {
    var d := Built(c);
    forall i | 0 <= i < |c.official|
      ensures MirrorDescribes(c.official[i], true, d.mirrors[i])
    {
      SchemeIs(c.official[i], true);
    }
    forall i | 0 <= i < |c.custom|
      ensures MirrorDescribes(c.custom[i], false, d.mirrors[|c.official| + i])
    {
      SchemeIs(c.custom[i], false);
    }
  }

  // The entry could be registered in an empty registry.
  predicate Loadable(compiles: Pattern -> bool, c: DistributionConfig) {
    && compiles(c.urlPattern) && (forall i :: 0 <= i < |c.cacheRules| ==> compiles(c.cacheRules[i].pattern))
    && c.id != "" && (c.kind == 0 ==> c.id == "all")
  }

  // In this registry another id has the entry's type, or its id another type.
  ghost predicate Conflicts(t: Tables, c: DistributionConfig) {
    || (c.id in t.distributions && t.distributions[c.id].kind != c.kind)
    || (c.kind != 0 && exists id :: id in t.distributions && id != c.id && t.distributions[id].kind == c.kind)
  }

  lemma OutcomeIff(compiles: Pattern -> bool, t: Tables, c: DistributionConfig)
    requires Inverse(t)
    ensures LoadOutcome(compiles, t, c) == Ok <==> Loadable(compiles, c) && !Conflicts(t, c)
    ensures LoadOutcome(compiles, t, c) == BadPattern <==>
      !compiles(c.urlPattern) || exists i :: 0 <= i < |c.cacheRules| && !compiles(c.cacheRules[i].pattern)
  {
    if c.kind in t.types && t.types[c.kind] != c.id {
      assert t.distributions[t.types[c.kind]].kind == c.kind;
    }
  }

  // ----- Where distributions come from -----

  lemma {:induction false} FromList(ds: seq<Distribution>, id: string)
    requires id in RegisterUntil(Empty, ds).distributions
    ensures exists i :: 0 <= i < |ds| && ds[i].id == id && RegisterUntil(Empty, ds).distributions[id] == ds[i]
  {
    if ds != [] {
      var before, last := RegisterUntil(Empty, ds[..|ds| - 1]), ds[|ds| - 1];
      RegisterEffect(before, last);
      if id in before.distributions && RegisterUntil(Empty, ds).distributions[id] == before.distributions[id] {
        FromList(ds[..|ds| - 1], id);
      }
    }
  }

  // It was there before, or a loadable entry of that id has been built.
  ghost predicate ComesFrom(compiles: Pattern -> bool, t: Tables, cs: seq<DistributionConfig>,
                            id: string, d: Distribution)
  {
    || (id in t.distributions && t.distributions[id] == d)
    || exists k :: 0 <= k < |cs| && Loadable(compiles, cs[k]) && cs[k].id == id && Built(cs[k]) == d
  }

  lemma LoadEffect(compiles: Pattern -> bool, t: Tables, c: DistributionConfig)
    requires Inverse(t)
    ensures var t' := LoadSpec(compiles, t, c);
      if Loadable(compiles, c) && !Conflicts(t, c) then
        && t'.distributions == t.distributions[c.id := Built(c)] && (c.kind != 0 ==> c.kind in t'.types)
      else t' == t
  {
    OutcomeIff(compiles, t, c);
    RegisterEffect(t, Built(c));
  }

  lemma {:induction false} LoadedComesFrom(compiles: Pattern -> bool, t: Tables, cs: seq<DistributionConfig>,
                                           id: string)
    requires Inverse(t) && id in LoadAll(compiles, t, cs).distributions
    ensures ComesFrom(compiles, t, cs, id, LoadAll(compiles, t, cs).distributions[id])
  {
    if cs != [] {
      var init, last := cs[..|cs| - 1], cs[|cs| - 1];
      var before := LoadAll(compiles, t, init);
      LoadAllInverse(compiles, t, init);
      LoadEffect(compiles, before, last);
      if LoadAll(compiles, t, cs).distributions[id] != Built(last) || last.id != id || !Loadable(compiles, last) {
        LoadedComesFrom(compiles, t, init, id);
      }
    }
  }

  // ----- What is registered -----

  // Nobody claims one of the entry's id and type without the other.
  ghost predicate Unrivalled(builtins: seq<Distribution>, compiles: Pattern -> bool, cs: seq<DistributionConfig>,
                             c: DistributionConfig)
  {
    && (forall i :: 0 <= i < |builtins| ==> (builtins[i].id == c.id <==> builtins[i].kind == c.kind))
    && (forall k :: 0 <= k < |cs| && Loadable(compiles, cs[k]) ==> (cs[k].id == c.id <==> cs[k].kind == c.kind))
  }

  lemma UnrivalledFits(builtins: seq<Distribution>, compiles: Pattern -> bool, cs: seq<DistributionConfig>,
                       c: DistributionConfig)
    requires IsBuiltinTable(builtins) && Unrivalled(builtins, compiles, cs, c)
    ensures !Conflicts(LoadAll(compiles, RegisterUntil(Empty, builtins), cs), c)
  {
    var base := RegisterUntil(Empty, builtins);
    var t := LoadAll(compiles, base, cs);
    RegisterUntilInverse(Empty, builtins);
    forall id | id in t.distributions
      ensures id == c.id <==> t.distributions[id].kind == c.kind
    {
      LoadedComesFrom(compiles, base, cs, id);
      if id in base.distributions && base.distributions[id] == t.distributions[id] {
        FromList(builtins, id);
      }
    }
  }

  // Later entries leave it alone unless they have its id.
  lemma {:induction false} StaysLoaded(compiles: Pattern -> bool, t: Tables, cs: seq<DistributionConfig>, j: nat)
    requires Inverse(t) && j < |cs| && Loadable(compiles, cs[j])
    requires !Conflicts(LoadAll(compiles, t, cs[..j]), cs[j])
    requires forall k :: j < k < |cs| && Loadable(compiles, cs[k]) ==> cs[k].id != cs[j].id
    ensures var t' := LoadAll(compiles, t, cs);
      cs[j].id in t'.distributions && t'.distributions[cs[j].id] == Built(cs[j])
    decreases |cs|
  {
    var init, last := cs[..|cs| - 1], cs[|cs| - 1];
    LoadAllInverse(compiles, t, init);
    LoadEffect(compiles, LoadAll(compiles, t, init), last);
    if j < |cs| - 1 {
      assert init[..j] == cs[..j];
      StaysLoaded(compiles, t, init, j);
    }
  }

  // An entry that can be loaded, and that shares its id and its type with a
  // built-in or another entry only together, is registered after the reload if no
  // later one has its id: under its id and, unless it is zero, its type. So a new
  // distribution is added and a repeated one, built-in or not, is replaced.
  lemma ReloadRegisters(builtins: seq<Distribution>, compiles: Pattern -> bool, t: Tables,
                        cs: seq<DistributionConfig>, j: nat)
    requires IsBuiltinTable(builtins) && j < |cs| && Loadable(compiles, cs[j])
    requires Unrivalled(builtins, compiles, cs, cs[j])
    requires forall k :: j < k < |cs| && Loadable(compiles, cs[k]) ==> cs[k].id != cs[j].id
    ensures var t' := ReloadSpec(builtins, compiles, t, Loaded(cs));
      var c := cs[j];
      && c.id in t'.distributions && Describes(c, t'.distributions[c.id])
      && (c.kind != 0 ==> c.kind in t'.types && t'.types[c.kind] == c.id)
  {
    var base := RegisterUntil(Empty, builtins);
    RegisterUntilInverse(Empty, builtins);
    LoadAllInverse(compiles, base, cs);
    UnrivalledFits(builtins, compiles, cs[..j], cs[j]);
    StaysLoaded(compiles, base, cs, j);
    BuiltDescribes(cs[j]);
  }

  // Whatever is registered after a reload is a built-in or what a loadable entry
  // says, and no built-in id is missing.
  lemma ReloadOnly(builtins: seq<Distribution>, compiles: Pattern -> bool, t: Tables,
                   cs: seq<DistributionConfig>, id: string)
    requires IsBuiltinTable(builtins)
    ensures var t' := ReloadSpec(builtins, compiles, t, Loaded(cs));
      && (id in t'.distributions ==>
           || (exists i :: 0 <= i < 5 && builtins[i].id == id && t'.distributions[id] == builtins[i])
           || (exists k :: 0 <= k < |cs| && Loadable(compiles, cs[k]) && cs[k].id == id
                 && Describes(cs[k], t'.distributions[id])))
      && (forall i :: 0 <= i < 5 ==> builtins[i].id in t'.distributions)
  {
    var base := RegisterUntil(Empty, builtins);
    var t' := ReloadSpec(builtins, compiles, t, Loaded(cs));
    ReloadKeepsBuiltins(builtins, compiles, Empty, Loaded(cs));
    assert forall i :: 0 <= i < 5 ==> Resolves(t', i + 1, builtins[i].id);
    RegisterUntilInverse(Empty, builtins);
    if id in t'.distributions {
      LoadedComesFrom(compiles, base, cs, id);
      if id in base.distributions && base.distributions[id] == t'.distributions[id] {
        FromList(builtins, id);
      } else {
        var k :| 0 <= k < |cs| && Loadable(compiles, cs[k]) && cs[k].id == id && Built(cs[k]) == t'.distributions[id];
        BuiltDescribes(cs[k]);
      }
    }
  }

  // Without a file, or with an empty one, the registry holds just the built-ins.
  lemma ReloadBuiltinsOnly(builtins: seq<Distribution>, compiles: Pattern -> bool, t: Tables)
    requires IsBuiltinTable(builtins)
    ensures var t' := ReloadSpec(builtins, compiles, t, NoConfig);
      && t' == ReloadSpec(builtins, compiles, t, Loaded([]))
      && (forall i :: 0 <= i < 5 ==>
           Resolves(t', i + 1, builtins[i].id) && t'.distributions[builtins[i].id] == builtins[i])
      && (forall id :: id in t'.distributions ==> exists i :: 0 <= i < 5 && builtins[i].id == id)
  {
    var t' := RegisterUntil(Empty, builtins);
    BuiltinsRegister(builtins);
    BuiltinsFit(builtins);
    forall id | id in t'.distributions
      ensures exists i :: 0 <= i < 5 && builtins[i].id == id && t'.distributions[id] == builtins[i]
    {
      FromList(builtins, id);
    }
  }

  // ----- What is reported -----

  // The entry could not be registered when its turn came.
  ghost predicate TurnedDown(compiles: Pattern -> bool, t: Tables, cs: seq<DistributionConfig>, j: nat)
    requires j < |cs|
  {
    !Loadable(compiles, cs[j]) || Conflicts(LoadAll(compiles, t, cs[..j]), cs[j])
  }

  // turns lists the entries turned down, in order.
  ghost predicate TurnsOf(compiles: Pattern -> bool, t: Tables, cs: seq<DistributionConfig>, turns: seq<nat>) {
    && (forall a, b :: 0 <= a < b < |turns| ==> turns[a] < turns[b])
    && (forall a :: 0 <= a < |turns| ==> turns[a] < |cs| && TurnedDown(compiles, t, cs, turns[a]))
    && (forall j: nat :: j < |cs| && TurnedDown(compiles, t, cs, j) ==> j in turns)
  }

  lemma TurnedDownEarlier(compiles: Pattern -> bool, t: Tables, cs: seq<DistributionConfig>, j: nat)
    requires cs != [] && j < |cs| - 1
    ensures TurnedDown(compiles, t, cs, j) <==> TurnedDown(compiles, t, cs[..|cs| - 1], j)
  {
    assert cs[..|cs| - 1][..j] == cs[..j];
  }

  lemma TurnsNext(compiles: Pattern -> bool, t: Tables, cs: seq<DistributionConfig>, before: seq<nat>)
    returns (turns: seq<nat>)
    requires cs != [] && TurnsOf(compiles, t, cs[..|cs| - 1], before)
    ensures TurnsOf(compiles, t, cs, turns)
    ensures turns == if TurnedDown(compiles, t, cs, |cs| - 1) then before + [|cs| - 1] else before
  {
    var n := |cs| - 1;
    forall j: nat | j < n
      ensures TurnedDown(compiles, t, cs, j) <==> TurnedDown(compiles, t, cs[..n], j)
    {
      TurnedDownEarlier(compiles, t, cs, j);
    }
    turns := if TurnedDown(compiles, t, cs, n) then before + [n] else before;
    forall j: nat | j < |cs| && TurnedDown(compiles, t, cs, j)
      ensures j in turns
    {
      if j < n {
        assert j in before;
      }
    }
  }

  // The ids a reload reports are those of the entries turned down, in order and
  // each as often as that.
  lemma {:induction false} FailuresExact(compiles: Pattern -> bool, t: Tables, cs: seq<DistributionConfig>)
    returns (turns: seq<nat>)
    requires Inverse(t)
    ensures TurnsOf(compiles, t, cs, turns) && |Failures(compiles, t, cs)| == |turns|
    ensures forall a :: 0 <= a < |turns| ==> Failures(compiles, t, cs)[a] == cs[turns[a]].id
  {
    if cs == [] {
      turns := [];
    } else {
      var n := |cs| - 1;
      var before := FailuresExact(compiles, t, cs[..n]);
      LoadAllInverse(compiles, t, cs[..n]);
      OutcomeIff(compiles, LoadAll(compiles, t, cs[..n]), cs[n]);
      turns := TurnsNext(compiles, t, cs, before);
    }
  }
}

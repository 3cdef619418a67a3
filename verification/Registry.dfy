// internal/distro/registry.go: distributions by id, and the map from types back
// to ids that must stay its inverse.
module Registry {
  import opened Options
  import opened Mirrors

  // A regular expression is its source text; what it matches is left open.
  type Pattern = string

  datatype Rule = Rule(os: int, pattern: Pattern, cacheControl: string, rewrite: bool)

  datatype Distribution = Distribution(
    id: string, name: string, kind: int, urlPattern: Option<Pattern>, benchmarkURL: string,
    geoMirrorAPI: string, cacheRules: seq<Rule>, mirrors: seq<Mirror>, aliases: map<string, string>)

  datatype RuleConfig = RuleConfig(pattern: Pattern, cacheControl: string, rewrite: bool)

  datatype DistributionConfig = DistributionConfig(
    id: string, name: string, kind: int, urlPattern: Pattern, benchmarkURL: string, geoMirrorAPI: string,
    cacheRules: seq<RuleConfig>, official: seq<string>, custom: seq<string>, aliases: map<string, string>)

  datatype Outcome = Ok | MissingID | ZeroType | TypeTaken | OtherType | NotFound | BadPattern

  // What the loader makes of the configuration file.
  datatype Load = LoadFailed | NoConfig | Loaded(entries: seq<DistributionConfig>)

  datatype ReloadResult = LoadError | Reloaded(failures: seq<string>)

  datatype Tables = Tables(distributions: map<string, Distribution>, types: map<int, string>)

  const Empty := Tables(map[], map[])

  // ----- The operations on the two maps -----

  function RegisterOutcome(t: Tables, d: Distribution): Outcome {
    if d.id == "" then MissingID
    else if d.kind == 0 && d.id != "all" then ZeroType
    else if d.kind in t.types && t.types[d.kind] != d.id then TypeTaken
    else if d.id in t.distributions && t.distributions[d.id].kind != d.kind then OtherType
    else Ok
  }

  function RegisterSpec(t: Tables, d: Distribution): Tables {
    if RegisterOutcome(t, d) != Ok then t
    else Tables(t.distributions[d.id := d], if d.kind != 0 then t.types[d.kind := d.id] else t.types)
  }

  function UnregisterSpec(t: Tables, id: string): Tables {
    if id !in t.distributions then t
    else
      var kind := t.distributions[id].kind;
      Tables(t.distributions - {id}, if kind != 0 then t.types - {kind} else t.types)
  }

  // Registering in turn, up to and without the first failure.
  function RegisterUntil(t: Tables, ds: seq<Distribution>): Tables {
    if ds == [] then t
    else
      var before := RegisterUntil(t, ds[..|ds| - 1]);
      if AllRegister(t, ds[..|ds| - 1]) then RegisterSpec(before, ds[|ds| - 1]) else before
  }

  predicate AllRegister(t: Tables, ds: seq<Distribution>) {
    ds == [] ||
    (AllRegister(t, ds[..|ds| - 1]) && RegisterOutcome(RegisterUntil(t, ds[..|ds| - 1]), ds[|ds| - 1]) == Ok)
  }

  function MirrorItems(c: DistributionConfig): seq<Mirror> {
    Items(c.official, true) + Items(c.custom, false)
  }

  function Items(urls: seq<string>, official: bool): seq<Mirror> {
    seq(|urls|, i requires 0 <= i < |urls| => MirrorItem(urls[i], official))
  }

  predicate PatternsCompile(compiles: Pattern -> bool, c: DistributionConfig) {
    compiles(c.urlPattern) && forall i :: 0 <= i < |c.cacheRules| ==> compiles(c.cacheRules[i].pattern)
  }

  function RuleOf(c: DistributionConfig, r: RuleConfig): Rule {
    Rule(c.kind, r.pattern, r.cacheControl, r.rewrite)
  }

  lemma ItemsNext(urls: seq<string>, n: nat, official: bool)
    requires n < |urls|
    ensures Items(urls[..n + 1], official) == Items(urls[..n], official) + [MirrorItem(urls[n], official)]
  {
  }

  function RulesOf(c: DistributionConfig): seq<Rule> {
    seq(|c.cacheRules|, i requires 0 <= i < |c.cacheRules| => RuleOf(c, c.cacheRules[i]))
  }

  function Built(c: DistributionConfig): Distribution {
    Distribution(c.id, c.name, c.kind, Some(c.urlPattern), c.benchmarkURL, c.geoMirrorAPI,
                 RulesOf(c), MirrorItems(c), c.aliases)
  }

  function LoadOutcome(compiles: Pattern -> bool, t: Tables, c: DistributionConfig): Outcome {
    if PatternsCompile(compiles, c) then RegisterOutcome(t, Built(c)) else BadPattern
  }

  function LoadSpec(compiles: Pattern -> bool, t: Tables, c: DistributionConfig): Tables {
    if PatternsCompile(compiles, c) then RegisterSpec(t, Built(c)) else t
  }

  // Registering entries in turn, skipping failures.
  function LoadAll(compiles: Pattern -> bool, t: Tables, cs: seq<DistributionConfig>): Tables {
    if cs == [] then t else LoadSpec(compiles, LoadAll(compiles, t, cs[..|cs| - 1]), cs[|cs| - 1])
  }

  // The ids of the entries that failed, in order.
  function Failures(compiles: Pattern -> bool, t: Tables, cs: seq<DistributionConfig>): seq<string> {
    if cs == [] then []
    else
      var before := Failures(compiles, t, cs[..|cs| - 1]);
      if LoadOutcome(compiles, LoadAll(compiles, t, cs[..|cs| - 1]), cs[|cs| - 1]) == Ok then before
      else before + [cs[|cs| - 1].id]
  }

  // The five compile-time distributions; their patterns, rules and mirrors may be anything.
  predicate IsBuiltinTable(ds: seq<Distribution>) {
    && |ds| == 5
    && ds[0].id == "ubuntu" && ds[0].kind == 1
    && ds[1].id == "ubuntu-ports" && ds[1].kind == 2
    && ds[2].id == "debian" && ds[2].kind == 3
    && ds[3].id == "centos" && ds[3].kind == 4
    && ds[4].id == "alpine" && ds[4].kind == 5
  }

  function ReloadSpec(builtins: seq<Distribution>, compiles: Pattern -> bool, t: Tables, load: Load): Tables {
    match load
    case LoadFailed => t
    case NoConfig => RegisterUntil(Empty, builtins)
    case Loaded(entries) => LoadAll(compiles, RegisterUntil(Empty, builtins), entries)
  }

  // ----- The maps are inverse -----

  ghost predicate Inverse(t: Tables) {
    && (forall id :: id in t.distributions ==>
         id != "" && t.distributions[id].id == id && (t.distributions[id].kind == 0 ==> id == "all"))
    && (forall id :: id in t.distributions && t.distributions[id].kind != 0 ==>
         t.distributions[id].kind in t.types && t.types[t.distributions[id].kind] == id)
    && (forall kind :: kind in t.types ==>
         kind != 0 && t.types[kind] in t.distributions && t.distributions[t.types[kind]].kind == kind)
  }

  // A registration puts the distribution under its id, new or not, and its type
  // under that; everything else stays, and a refused one changes nothing.
  lemma RegisterEffect(t: Tables, d: Distribution)
    ensures var t' := RegisterSpec(t, d);
      if RegisterOutcome(t, d) == Ok then
        && t'.distributions.Keys == t.distributions.Keys + {d.id} && t'.distributions[d.id] == d
        && (forall id :: id in t.distributions && id != d.id ==> t'.distributions[id] == t.distributions[id])
        && (d.kind != 0 ==> d.kind in t'.types && t'.types[d.kind] == d.id)
        && (forall kind :: kind != d.kind || kind == 0 ==>
             (kind in t'.types <==> kind in t.types) && (kind in t.types ==> t'.types[kind] == t.types[kind]))
      else t' == t
  {
  }

  lemma RegisterInverse(t: Tables, d: Distribution)
    requires Inverse(t)
    ensures Inverse(RegisterSpec(t, d))
  {
  }

  lemma UnregisterInverse(t: Tables, id: string)
    requires Inverse(t)
    ensures Inverse(UnregisterSpec(t, id))
  {
  }

  // Unregistering undoes the registration of a new id.
  lemma UnregisterUndoes(t: Tables, d: Distribution)
    requires Inverse(t) && d.id !in t.distributions && RegisterOutcome(t, d) == Ok
    ensures UnregisterSpec(RegisterSpec(t, d), d.id) == t
  {
    var t' := UnregisterSpec(RegisterSpec(t, d), d.id);
    assert t'.distributions == t.distributions;
    assert t'.types == t.types;
  }

  lemma {:induction false} RegisterUntilInverse(t: Tables, ds: seq<Distribution>)
    requires Inverse(t)
    ensures Inverse(RegisterUntil(t, ds))
  {
    if ds != [] {
      RegisterUntilInverse(t, ds[..|ds| - 1]);
      RegisterInverse(RegisterUntil(t, ds[..|ds| - 1]), ds[|ds| - 1]);
    }
  }

  // A registered type keeps its id, and the id its type, through any loading.
  predicate Resolves(t: Tables, kind: int, id: string) {
    kind in t.types && t.types[kind] == id && id in t.distributions && t.distributions[id].kind == kind
  }

  lemma {:induction false} LoadAllKeeps(compiles: Pattern -> bool, t: Tables, cs: seq<DistributionConfig>,
                                        kind: int, id: string)
    requires Inverse(t) && Resolves(t, kind, id)
    ensures Inverse(LoadAll(compiles, t, cs)) && Resolves(LoadAll(compiles, t, cs), kind, id)
  {
    if cs != [] {
      LoadAllKeeps(compiles, t, cs[..|cs| - 1], kind, id);
      RegisterInverse(LoadAll(compiles, t, cs[..|cs| - 1]), Built(cs[|cs| - 1]));
    }
  }

  // ----- Reachable registries -----

  // The calls that change a registry. Interleaved reloads are sequences of their
  // locked steps: a clear, registrations of built-ins, loads of entries.
  datatype RegistryOp =
    | RegisterOp(d: Distribution)
    | UnregisterOp(id: string)
    | ClearOp
    | LoadOp(c: DistributionConfig)
    | BuiltinsOp
    | ReloadOp(load: Load)

  function Applied(builtins: seq<Distribution>, compiles: Pattern -> bool, t: Tables, op: RegistryOp): Tables {
    match op
    case RegisterOp(d) => RegisterSpec(t, d)
    case UnregisterOp(id) => UnregisterSpec(t, id)
    case ClearOp => Empty
    case LoadOp(c) => LoadSpec(compiles, t, c)
    case BuiltinsOp => RegisterUntil(t, builtins)
    case ReloadOp(load) => ReloadSpec(builtins, compiles, t, load)
  }

  function After(builtins: seq<Distribution>, compiles: Pattern -> bool, ops: seq<RegistryOp>): Tables {
    if ops == [] then Empty
    else Applied(builtins, compiles, After(builtins, compiles, ops[..|ops| - 1]), ops[|ops| - 1])
  }

  lemma {:induction false} LoadAllInverse(compiles: Pattern -> bool, t: Tables, cs: seq<DistributionConfig>)
    requires Inverse(t)
    ensures Inverse(LoadAll(compiles, t, cs))
  {
    if cs != [] {
      LoadAllInverse(compiles, t, cs[..|cs| - 1]);
      RegisterInverse(LoadAll(compiles, t, cs[..|cs| - 1]), Built(cs[|cs| - 1]));
    }
  }

  lemma AppliedInverse(builtins: seq<Distribution>, compiles: Pattern -> bool, t: Tables, op: RegistryOp)
    requires Inverse(t)
    ensures Inverse(Applied(builtins, compiles, t, op))
  {
    match op
    case RegisterOp(d) => RegisterInverse(t, d);
    case UnregisterOp(id) => UnregisterInverse(t, id);
    case ClearOp =>
    case LoadOp(c) => RegisterInverse(t, Built(c));
    case BuiltinsOp => RegisterUntilInverse(t, builtins);
    case ReloadOp(load) =>
      RegisterUntilInverse(Empty, builtins);
      if load.Loaded? {
        LoadAllInverse(compiles, RegisterUntil(Empty, builtins), load.entries);
      }
  }

  lemma {:induction false} AlwaysInverse(builtins: seq<Distribution>, compiles: Pattern -> bool, ops: seq<RegistryOp>)
    ensures Inverse(After(builtins, compiles, ops))
  {
    if ops != [] {
      AlwaysInverse(builtins, compiles, ops[..|ops| - 1]);
      AppliedInverse(builtins, compiles, After(builtins, compiles, ops[..|ops| - 1]), ops[|ops| - 1]);
    }
  }

  // After any calls: a type resolves to an id exactly when it is not zero and
  // the id is registered with it, so no two ids share a type.
  lemma TypeResolves(builtins: seq<Distribution>, compiles: Pattern -> bool, ops: seq<RegistryOp>,
                     kind: int, id: string)
    ensures var t := After(builtins, compiles, ops);
      && (kind in t.types && t.types[kind] == id <==>
          kind != 0 && id in t.distributions && t.distributions[id].kind == kind)
      && (id in t.distributions ==> id != "" && t.distributions[id].id == id)
  {
    AlwaysInverse(builtins, compiles, ops);
  }

  // After any calls, without mention of the type map: a registration succeeds
  // exactly when no other id has the type and the id does not have another one.
  lemma RegisterMeaning(builtins: seq<Distribution>, compiles: Pattern -> bool, ops: seq<RegistryOp>, d: Distribution)
    ensures var t := After(builtins, compiles, ops);
      RegisterOutcome(t, d) == Ok <==>
      && d.id != "" && (d.kind == 0 ==> d.id == "all")
      && (d.id in t.distributions ==> t.distributions[d.id].kind == d.kind)
      && (d.kind != 0 ==> forall id :: id in t.distributions && t.distributions[id].kind == d.kind ==> id == d.id)
    ensures var t := After(builtins, compiles, ops);
      && (RegisterOutcome(t, d) == MissingID <==> d.id == "")
      && (RegisterOutcome(t, d) == ZeroType <==> d.id != "" && d.kind == 0 && d.id != "all")
      && (RegisterOutcome(t, d) == TypeTaken <==> d.id != "" && d.kind != 0 && exists id ::
            id in t.distributions && t.distributions[id].kind == d.kind && id != d.id)
  {
    AlwaysInverse(builtins, compiles, ops);
  }

  // ----- Built-ins -----

  predicate Distinct(ds: seq<Distribution>) {
    forall i, j :: 0 <= i < j < |ds| ==> ds[i].id != ds[j].id && ds[i].kind != ds[j].kind
  }

  predicate NewTo(ds: seq<Distribution>, d: Distribution) {
    forall i :: 0 <= i < |ds| ==> ds[i].id != d.id && ds[i].kind != d.kind
  }

  lemma {:induction false} OutcomeUnaffected(t: Tables, ds: seq<Distribution>, d: Distribution)
    requires NewTo(ds, d)
    ensures RegisterOutcome(RegisterUntil(t, ds), d) == RegisterOutcome(t, d)
  {
    if ds != [] {
      OutcomeUnaffected(t, ds[..|ds| - 1], d);
    }
  }

  // Registering a list of distinct distributions succeeds exactly when each of
  // them could be registered on its own.
  lemma {:induction false} AllRegisterIff(t: Tables, ds: seq<Distribution>)
    requires Distinct(ds)
    ensures AllRegister(t, ds) <==> forall i :: 0 <= i < |ds| ==> RegisterOutcome(t, ds[i]) == Ok
  {
    if ds != [] {
      AllRegisterIff(t, ds[..|ds| - 1]);
      OutcomeUnaffected(t, ds[..|ds| - 1], ds[|ds| - 1]);
    }
  }

  lemma {:induction false} AllRegisterResolves(t: Tables, ds: seq<Distribution>, i: nat)
    requires Distinct(ds) && AllRegister(t, ds) && i < |ds| && ds[i].kind != 0
    ensures Resolves(RegisterUntil(t, ds), ds[i].kind, ds[i].id)
  {
    if i < |ds| - 1 {
      AllRegisterResolves(t, ds[..|ds| - 1], i);
    }
  }

  lemma BuiltinsFit(builtins: seq<Distribution>)
    requires IsBuiltinTable(builtins)
    ensures Distinct(builtins)
    ensures forall i :: 0 <= i < 5 ==> builtins[i].kind == i + 1 && RegisterOutcome(Empty, builtins[i]) == Ok
  {
  }

  lemma BuiltinsRegister(builtins: seq<Distribution>)
    requires IsBuiltinTable(builtins)
    ensures AllRegister(Empty, builtins) && Inverse(RegisterUntil(Empty, builtins))
    ensures forall i :: 0 <= i < 5 ==> Resolves(RegisterUntil(Empty, builtins), i + 1, builtins[i].id)
  {
    BuiltinsFit(builtins);
    AllRegisterIff(Empty, builtins);
    RegisterUntilInverse(Empty, builtins);
    forall i | 0 <= i < 5
      ensures Resolves(RegisterUntil(Empty, builtins), i + 1, builtins[i].id)
    {
      AllRegisterResolves(Empty, builtins, i);
    }
  }

  // However a reload turns out, the maps stay inverse; and once one has gone
  // past the file, all five built-in types resolve to their built-in ids.
  lemma ReloadKeepsBuiltins(builtins: seq<Distribution>, compiles: Pattern -> bool, t: Tables, load: Load)
    requires IsBuiltinTable(builtins) && Inverse(t)
    ensures var t' := ReloadSpec(builtins, compiles, t, load);
      && Inverse(t')
      && (load.LoadFailed? ==> t' == t)
      && (!load.LoadFailed? ==> forall i :: 0 <= i < 5 ==> Resolves(t', i + 1, builtins[i].id))
  {
    BuiltinsRegister(builtins);
    if load.Loaded? {
      forall i | 0 <= i < 5
        ensures Resolves(ReloadSpec(builtins, compiles, t, load), i + 1, builtins[i].id)
      {
        LoadAllKeeps(compiles, RegisterUntil(Empty, builtins), load.entries, i + 1, builtins[i].id);
      }
      LoadAllKeeps(compiles, RegisterUntil(Empty, builtins), load.entries, 1, builtins[0].id);
    }
  }

  // The registry has given the distribution's type to another id, or its id another type.
  predicate Claimed(t: Tables, d: Distribution) {
    (d.kind in t.types && t.types[d.kind] != d.id)
    || (d.id in t.distributions && t.distributions[d.id].kind != d.kind)
  }

  // RegisterBuiltins panics exactly when the registry it finds has a built-in's
  // type or id claimed otherwise.
  lemma BuiltinsPanicIff(builtins: seq<Distribution>, t: Tables)
    requires IsBuiltinTable(builtins) && Inverse(t)
    ensures AllRegister(t, builtins) <==> forall i :: 0 <= i < 5 ==> !Claimed(t, builtins[i])
  {
    AllRegisterIff(t, builtins);
  }

  // Reload takes the lock step by step. If a second reload clears the registry
  // between the first one's built-ins and an entry claiming a built-in type,
  // the entry is accepted and the second reload's RegisterBuiltins panics;
  // without the interleaving the same entry is turned down.
  lemma InterleavedReloadsPanic(builtins: seq<Distribution>, d: Distribution, i: nat)
    requires IsBuiltinTable(builtins) && i < 5
    requires d.id != "" && d.id != builtins[i].id && d.kind == i + 1
    ensures RegisterOutcome(Empty, d) == Ok && !AllRegister(RegisterSpec(Empty, d), builtins)
    ensures RegisterOutcome(RegisterUntil(Empty, builtins), d) == TypeTaken
  {
    BuiltinsRegister(builtins);
    assert Resolves(RegisterUntil(Empty, builtins), i + 1, builtins[i].id);
    AloneClaims(builtins, d, i);
    RegisterInverse(Empty, d);
    BuiltinsPanicIff(builtins, RegisterSpec(Empty, d));
  }

  lemma AloneClaims(builtins: seq<Distribution>, d: Distribution, i: nat)
    requires IsBuiltinTable(builtins) && i < 5
    requires d.id != "" && d.id != builtins[i].id && d.kind == i + 1
    ensures RegisterOutcome(Empty, d) == Ok && Claimed(RegisterSpec(Empty, d), builtins[i])
  {
  }

  // ----- The registry object -----

  class Registry {
    const builtins: seq<Distribution>
    const compiles: Pattern -> bool
    var distributions: map<string, Distribution>
    var types: map<int, string>

    ghost function State(): Tables
      reads this
    {
      Tables(distributions, types)
    }

    ghost predicate Valid()
      reads this
    {
      IsBuiltinTable(builtins) && Inverse(State())
    }

    constructor (builtins: seq<Distribution>, compiles: Pattern -> bool)
      requires IsBuiltinTable(builtins)
      ensures Valid() && State() == Empty && this.builtins == builtins && this.compiles == compiles
    {
      this.builtins, this.compiles := builtins, compiles;
      distributions, types := map[], map[];
    }

    method Register(d: Distribution) returns (r: Outcome)
      requires Valid()
      modifies this
      ensures Valid()
      ensures State() == RegisterSpec(old(State()), d) && r == RegisterOutcome(old(State()), d)
    {
      if d.id == "" {
        return MissingID;
      }
      if d.kind == 0 && d.id != "all" {
        return ZeroType;
      }
      if d.kind in types && types[d.kind] != d.id {
        return TypeTaken;
      }
      if d.id in distributions && distributions[d.id].kind != d.kind {
        return OtherType;
      }
      RegisterInverse(State(), d);
      distributions := distributions[d.id := d];
      if d.kind != 0 {
        types := types[d.kind := d.id];
      }
      return Ok;
    }

    method Unregister(id: string) returns (r: Outcome)
      requires Valid()
      modifies this
      ensures Valid()
      ensures State() == UnregisterSpec(old(State()), id)
      ensures r == if id in old(distributions) then Ok else NotFound
    {
      if id !in distributions {
        return NotFound;
      }
      UnregisterInverse(State(), id);
      var d := distributions[id];
      distributions := distributions - {id};
      if d.kind != 0 {
        types := types - {d.kind};
      }
      return Ok;
    }

    method Clear()
      requires Valid()
      modifies this
      ensures Valid() && State() == Empty
    {
      distributions, types := map[], map[];
    }

    // The distribution of a type: the one registered with it, if any.
    method GetByType(kind: int) returns (r: Option<Distribution>)
      requires Valid()
      ensures r.Some? <==> kind != 0 && exists id :: id in distributions && distributions[id].kind == kind
      ensures r.Some? ==> r.value.kind == kind && r.value.id in distributions && distributions[r.value.id] == r.value
    {
      if kind !in types {
        return None;
      }
      var id := types[kind];
      if id !in distributions {
        return None;
      }
      return Some(distributions[id]);
    }

    // A failing built-in registration is a panic.
    method RegisterBuiltins() returns (panicked: bool)
      requires Valid()
      modifies this
      ensures Valid()
      ensures State() == RegisterUntil(old(State()), builtins)
      ensures panicked <==> !AllRegister(old(State()), builtins)
    {
      panicked := false;
      for i := 0 to |builtins|
        invariant Valid() && AllRegister(old(State()), builtins[..i])
        invariant State() == RegisterUntil(old(State()), builtins[..i])
      {
        assert builtins[..i + 1][..i] == builtins[..i];
        var r := Register(builtins[i]);
        if r != Ok {
          StopsAt(old(State()), builtins, i);
          return true;
        }
      }
      assert builtins[..|builtins|] == builtins;
    }

    method LoadFromConfig(c: DistributionConfig) returns (r: Outcome)
      requires Valid()
      modifies this
      ensures Valid()
      ensures State() == LoadSpec(compiles, old(State()), c) && r == LoadOutcome(compiles, old(State()), c)
    {
      if !compiles(c.urlPattern) {
        return BadPattern;
      }
      var ok, cacheRules := CompileRules(c);
      if !ok {
        return BadPattern;
      }
      var mirrors := BuildMirrors(c);
      r := Register(Distribution(c.id, c.name, c.kind, Some(c.urlPattern), c.benchmarkURL, c.geoMirrorAPI,
                                 cacheRules, mirrors, c.aliases));
    }

    // The loop over the rules, up to the first pattern that does not compile.
    method CompileRules(c: DistributionConfig) returns (ok: bool, cacheRules: seq<Rule>)
      ensures ok <==> forall i :: 0 <= i < |c.cacheRules| ==> compiles(c.cacheRules[i].pattern)
      ensures ok ==> cacheRules == RulesOf(c)
    {
      cacheRules := [];
      for i := 0 to |c.cacheRules|
        invariant forall j :: 0 <= j < i ==> compiles(c.cacheRules[j].pattern)
        invariant cacheRules == RulesOf(c)[..i]
      {
        var rule := c.cacheRules[i];
        if !compiles(rule.pattern) {
          return false, cacheRules;
        }
        cacheRules := cacheRules + [Rule(c.kind, rule.pattern, rule.cacheControl, rule.rewrite)];
      }
      ok := true;
    }

    method BuildMirrors(c: DistributionConfig) returns (mirrors: seq<Mirror>)
      ensures mirrors == MirrorItems(c)
    {
      var official := AppendItems([], c.official, true);
      mirrors := AppendItems(official, c.custom, false);
    }

    method AppendItems(before: seq<Mirror>, urls: seq<string>, official: bool) returns (mirrors: seq<Mirror>)
      ensures mirrors == before + Items(urls, official)
    {
      mirrors := before;
      for i := 0 to |urls|
        invariant mirrors == before + Items(urls[..i], official)
      {
        ItemsNext(urls, i, official);
        mirrors := mirrors + [MirrorItem(urls[i], official)];
      }
      assert urls[..|urls|] == urls;
    }

    // One reload, not interleaved with another. The error is nil for Reloaded([]),
    // and otherwise names the entries that failed.
    method Reload(load: Load) returns (r: ReloadResult)
      requires Valid()
      modifies this
      ensures Valid()
      ensures State() == ReloadSpec(builtins, compiles, old(State()), load)
      ensures r == match load
                   case LoadFailed => LoadError
                   case NoConfig => Reloaded([])
                   case Loaded(entries) => Reloaded(Failures(compiles, RegisterUntil(Empty, builtins), entries))
    {
      if load.LoadFailed? {
        return LoadError;
      }
      Clear();
      BuiltinsRegister(builtins);
      var panicked := RegisterBuiltins();
      assert !panicked;
      if load.NoConfig? {
        return Reloaded([]);
      }
      var failures := LoadEntries(load.entries);
      r := Reloaded(failures);
    }

    // The loop of Reload over the entries of the file.
    method LoadEntries(entries: seq<DistributionConfig>) returns (failures: seq<string>)
      requires Valid()
      modifies this
      ensures Valid()
      ensures State() == LoadAll(compiles, old(State()), entries)
      ensures failures == Failures(compiles, old(State()), entries)
    {
      failures := [];
      for i := 0 to |entries|
        invariant Valid()
        invariant State() == LoadAll(compiles, old(State()), entries[..i])
        invariant failures == Failures(compiles, old(State()), entries[..i])
      {
        assert entries[..i + 1][..i] == entries[..i];
        var r := LoadFromConfig(entries[i]);
        if r != Ok {
          failures := failures + [entries[i].id];
        }
      }
      assert entries[..|entries|] == entries;
    }
  }

  lemma {:induction false} StopsAt(t: Tables, ds: seq<Distribution>, n: nat)
    requires n < |ds| && AllRegister(t, ds[..n]) && RegisterOutcome(RegisterUntil(t, ds[..n]), ds[n]) != Ok
    ensures !AllRegister(t, ds) && RegisterUntil(t, ds) == RegisterUntil(t, ds[..n])
    decreases |ds|
  {
    if |ds| == n + 1 {
    } else {
      assert ds[..|ds| - 1][..n] == ds[..n];
      StopsAt(t, ds[..|ds| - 1], n);
    }
  }
}

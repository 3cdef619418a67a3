// internal/distro/registry.go: reloads of the registry that run at the same time.
// A reload takes the registry's lock once for its Clear, once for each built-in it
// registers and once for each entry of the file; every such step is atomic.
module ReloadRace {
  import opened Registry

  type Tid = nat

  // The entries of a configuration file; none if there is no file.
  type File = seq<DistributionConfig>

  // What the reloads work with: the built-in table, what compiles, and the
  // contents the file has while they run.
  datatype World = World(builtins: seq<Distribution>, compiles: Pattern -> bool, files: set<File>)

  // A reload that has loaded a file, and how many of its steps it has taken.
  datatype Reload = Reload(file: File, at: nat)

  // panicked tells whether a registration of a built-in has failed.
  datatype State = State(tables: Tables, reloads: map<Tid, Reload>, panicked: bool)

  datatype Event = Start(t: Tid, file: File) | Step(t: Tid)

  // The registry starts with its built-ins.
  function Init(w: World): State {
    State(RegisterUntil(Empty, w.builtins), map[], false)
  }

  predicate Enabled(w: World, s: State, e: Event) {
    !s.panicked &&
    match e
    case Start(t, file) => t !in s.reloads && file in w.files
    case Step(t) => t in s.reloads && !AtEnd(w, s.reloads[t])
  }

  predicate AtEnd(w: World, l: Reload) {
    l.at >= 1 + |w.builtins| + |l.file|
  }

  // The step of Reload at a position: Clear, the built-ins, the entries.
  function Stepped(w: World, t: Tables, l: Reload): Tables
    requires !AtEnd(w, l)
  {
    if l.at == 0 then Empty
    else if l.at <= |w.builtins| then RegisterSpec(t, w.builtins[l.at - 1])
    else LoadSpec(w.compiles, t, l.file[l.at - 1 - |w.builtins|])
  }

  // RegisterBuiltins panics on any failure; a failing entry is only reported.
  predicate Panics(w: World, t: Tables, at: nat) {
    1 <= at <= |w.builtins| && RegisterOutcome(t, w.builtins[at - 1]) != Ok
  }

  function Do(w: World, s: State, e: Event): State
    requires Enabled(w, s, e)
  {
    match e
    case Start(t, file) => s.(reloads := s.reloads[t := Reload(file, 0)])
    case Step(t) =>
      var l := s.reloads[t];
      State(Stepped(w, s.tables, l), s.reloads[t := l.(at := l.at + 1)], Panics(w, s.tables, l.at))
  }

  ghost predicate Runs(w: World, s: State, events: seq<Event>, s': State)
    decreases |events|
  {
    if events == [] then s' == s
    else Enabled(w, s, events[0]) && Runs(w, Do(w, s, events[0]), events[1..], s')
  }

  // No interleaving of any number of reloads panics.
  ghost predicate NeverPanics(w: World) {
    forall events, s :: Runs(w, Init(w), events, s) ==> !s.panicked
  }

  // ----- The condition on the file -----

  // The entry could be registered at all, and has the type or the id of a
  // built-in but not both.
  predicate Usurps(w: World, c: DistributionConfig, i: nat)
    requires i < |w.builtins|
  {
    && PatternsCompile(w.compiles, c) && RegisterOutcome(Empty, Built(c)) == Ok
    && (c.kind == w.builtins[i].kind) != (c.id == w.builtins[i].id)
  }

  predicate HarmlessFile(w: World, file: File) {
    forall j, i :: 0 <= j < |file| && 0 <= i < |w.builtins| ==> !Usurps(w, file[j], i)
  }

  predicate Harmless(w: World) {
    forall file :: file in w.files ==> HarmlessFile(w, file)
  }

  // ----- A harmless file -----

  // No built-in's type or id is claimed otherwise.
  predicate Unclaimed(w: World, t: Tables) {
    forall i :: 0 <= i < |w.builtins| ==> !Claimed(t, w.builtins[i])
  }

  lemma UnclaimedRegisters(w: World, t: Tables, i: nat)
    requires IsBuiltinTable(w.builtins) && Unclaimed(w, t) && i < 5
    ensures RegisterOutcome(t, w.builtins[i]) == Ok
  {
    BuiltinsFit(w.builtins);
  }

  lemma RegisterUnclaimed(w: World, t: Tables, d: Distribution)
    requires Unclaimed(w, t)
    requires RegisterOutcome(t, d) == Ok ==>
      forall i :: 0 <= i < |w.builtins| ==> (d.kind == w.builtins[i].kind <==> d.id == w.builtins[i].id)
    ensures Unclaimed(w, RegisterSpec(t, d))
  {
  }

  lemma SteppedUnclaimed(w: World, t: Tables, l: Reload)
    requires IsBuiltinTable(w.builtins) && HarmlessFile(w, l.file) && Unclaimed(w, t) && !AtEnd(w, l)
    ensures Unclaimed(w, Stepped(w, t, l)) && !Panics(w, t, l.at)
  {
    if 1 <= l.at <= 5 {
      UnclaimedRegisters(w, t, l.at - 1);
      BuiltinsFit(w.builtins);
      RegisterUnclaimed(w, t, w.builtins[l.at - 1]);
    } else if l.at > 5 {
      var c := l.file[l.at - 6];
      if PatternsCompile(w.compiles, c) {
        forall i | 0 <= i < |w.builtins| && RegisterOutcome(t, Built(c)) == Ok
          ensures c.kind == w.builtins[i].kind <==> c.id == w.builtins[i].id
        {
          assert !Usurps(w, c, i);
        }
        RegisterUnclaimed(w, t, Built(c));
      }
    }
  }

  // The reloads under way have harmless files, and nothing is claimed.
  ghost predicate Safe(w: World, s: State) {
    !s.panicked && Unclaimed(w, s.tables) && forall t :: t in s.reloads ==> HarmlessFile(w, s.reloads[t].file)
  }

  lemma SafeStep(w: World, s: State, e: Event)
    requires IsBuiltinTable(w.builtins) && Harmless(w) && Safe(w, s) && Enabled(w, s, e)
    ensures Safe(w, Do(w, s, e))
  {
    if e.Step? {
      SteppedUnclaimed(w, s.tables, s.reloads[e.t]);
    }
  }

  lemma {:induction false} SafeRun(w: World, s: State, events: seq<Event>, s': State)
    requires IsBuiltinTable(w.builtins) && Harmless(w) && Safe(w, s) && Runs(w, s, events, s')
    ensures Safe(w, s')
    decreases |events|
  {
    if events != [] {
      SafeStep(w, s, events[0]);
      SafeRun(w, Do(w, s, events[0]), events[1..], s');
    }
  }

  lemma InitUnclaimed(w: World)
    requires IsBuiltinTable(w.builtins)
    ensures Unclaimed(w, Init(w).tables)
  {
    BuiltinsRegister(w.builtins);
    BuiltinsFit(w.builtins);
    forall i | 0 <= i < 5
      ensures !Claimed(Init(w).tables, w.builtins[i])
    {
      assert Resolves(RegisterUntil(Empty, w.builtins), i + 1, w.builtins[i].id);
    }
  }

  // ----- A usurping entry -----

  lemma {:induction false} RunsThen(w: World, s: State, events: seq<Event>, m: State, e: Event)
    requires Runs(w, s, events, m) && Enabled(w, m, e)
    ensures Runs(w, s, events + [e], Do(w, m, e))
    decreases |events|
  {
    if events == [] {
      assert ([] + [e])[1..] == [];
    } else {
      assert (events + [e])[1..] == events[1..] + [e];
      RunsThen(w, Do(w, s, events[0]), events[1..], m, e);
    }
  }

  // What a reload that nothing interleaves with finds at its next step.
  predicate InOrder(w: World, t: Tables, l: Reload) {
    if l.at == 0 then true
    else if l.at <= 1 + |w.builtins| then t == RegisterUntil(Empty, w.builtins[..l.at - 1])
    else
      var n := l.at - 1 - |w.builtins|;
      n <= |l.file| && t == LoadAll(w.compiles, RegisterUntil(Empty, w.builtins), l.file[..n])
  }

  lemma InOrderStep(w: World, t: Tables, l: Reload)
    requires IsBuiltinTable(w.builtins) && InOrder(w, t, l) && !AtEnd(w, l)
    ensures InOrder(w, Stepped(w, t, l), l.(at := l.at + 1)) && !Panics(w, t, l.at)
  {
    if 1 <= l.at <= 5 {
      PrefixRegisters(w.builtins, l.at);
    } else if l.at > 5 {
      var n := l.at - 6;
      assert w.builtins[..5] == w.builtins;
      assert l.file[..n + 1][..n] == l.file[..n];
      assert l.file[..0] == [];
    }
  }

  lemma InOrderAtEnd(w: World, t: Tables, l: Reload, any: Tables)
    requires IsBuiltinTable(w.builtins) && InOrder(w, t, l) && l.at == 6 + |l.file|
    ensures t == ReloadSpec(w.builtins, w.compiles, any, Loaded(l.file))
  {
    assert w.builtins[..5] == w.builtins && l.file[..|l.file|] == l.file;
  }

  // One reload on its own gets past its built-ins without panic; another waits.
  lemma {:induction false} FirstAlone(w: World, file: File, n: nat) returns (events: seq<Event>, s: State)
    requires IsBuiltinTable(w.builtins) && file in w.files && n <= 6 + |file|
    ensures Runs(w, Init(w), events, s) && !s.panicked
    ensures s.reloads == map[0 := Reload(file, n), 1 := Reload(file, 0)] && InOrder(w, s.tables, s.reloads[0])
  {
    if n == 0 {
      var one := Do(w, Init(w), Start(0, file));
      s := Do(w, one, Start(1, file));
      assert Runs(w, Init(w), [], Init(w));
      RunsThen(w, Init(w), [], Init(w), Start(0, file));
      RunsThen(w, Init(w), [] + [Start(0, file)], one, Start(1, file));
      events := [] + [Start(0, file)] + [Start(1, file)];
    } else {
      var before, m := FirstAlone(w, file, n - 1);
      InOrderStep(w, m.tables, m.reloads[0]);
      s := Do(w, m, Step(0));
      RunsThen(w, Init(w), before, m, Step(0));
      events := before + [Step(0)];
    }
  }

  // The n-th built-in registers after the ones before it, on an empty registry.
  lemma PrefixRegisters(builtins: seq<Distribution>, n: nat)
    requires IsBuiltinTable(builtins) && 0 < n <= 5
    ensures RegisterOutcome(RegisterUntil(Empty, builtins[..n - 1]), builtins[n - 1]) == Ok
    ensures RegisterUntil(Empty, builtins[..n]) ==
      RegisterSpec(RegisterUntil(Empty, builtins[..n - 1]), builtins[n - 1])
  {
    BuiltinsFit(builtins);
    AllRegisterIff(Empty, builtins[..n]);
    assert builtins[..n][..n - 1] == builtins[..n - 1];
  }

  // A claim outlives the registration of other built-ins.
  lemma ClaimStays(w: World, t: Tables, i: nat, k: nat)
    requires IsBuiltinTable(w.builtins) && i < 5 && k < 5 && Claimed(t, w.builtins[i])
    ensures Claimed(RegisterSpec(t, w.builtins[k]), w.builtins[i])
  {
    BuiltinsFit(w.builtins);
  }

  // With built-in i claimed, a reload on its way through the built-ins panics.
  lemma {:induction false} ClaimPanics(w: World, s: State, i: nat, before: seq<Event>)
    returns (events: seq<Event>, s': State)
    requires IsBuiltinTable(w.builtins) && i < 5 && Claimed(s.tables, w.builtins[i])
    requires Runs(w, Init(w), before, s) && !s.panicked && 1 in s.reloads && 1 <= s.reloads[1].at <= i + 1
    ensures Runs(w, Init(w), events, s') && s'.panicked
    decreases i + 1 - s.reloads[1].at
  {
    var at := s.reloads[1].at;
    var next := Do(w, s, Step(1));
    RunsThen(w, Init(w), before, s, Step(1));
    if next.panicked {
      events, s' := before + [Step(1)], next;
    } else {
      ClaimStays(w, s.tables, i, at - 1);
      events, s' := ClaimPanics(w, next, i, before + [Step(1)]);
    }
  }

  lemma UsurperClaims(w: World, c: DistributionConfig, i: nat)
    requires IsBuiltinTable(w.builtins) && i < 5 && Usurps(w, c, i)
    ensures Claimed(LoadSpec(w.compiles, Empty, c), w.builtins[i])
  {
    BuiltinsFit(w.builtins);
  }

  // The second reload clears the registry just before the first one comes to the
  // entry, and then meets it on its way through the built-ins.
  lemma {:induction false} UsurperPanics(w: World, file: File, j: nat, i: nat) returns (events: seq<Event>, s: State)
    requires IsBuiltinTable(w.builtins) && file in w.files && j < |file| && i < 5 && Usurps(w, file[j], i)
    ensures Runs(w, Init(w), events, s) && s.panicked
  {
    var before, first := FirstAlone(w, file, 6 + j);
    var cleared := Do(w, first, Step(1));
    var taken := Do(w, cleared, Step(0));
    RunsThen(w, Init(w), before, first, Step(1));
    RunsThen(w, Init(w), before + [Step(1)], cleared, Step(0));
    UsurperClaims(w, file[j], i);
    events, s := ClaimPanics(w, taken, i, before + [Step(1)] + [Step(0)]);
  }

  // Reloads, however many and however interleaved, are safe from the panic exactly
  // when no entry of a file that could be registered has the type or the id of a
  // built-in without having both.
  lemma {:induction false} NeverPanicsIff(w: World)
    requires IsBuiltinTable(w.builtins)
    ensures NeverPanics(w) <==> Harmless(w)
  {
    if Harmless(w) {
      InitUnclaimed(w);
      forall events, s | Runs(w, Init(w), events, s)
        ensures !s.panicked
      {
        SafeRun(w, Init(w), events, s);
      }
    } else {
      var file :| file in w.files && !HarmlessFile(w, file);
      var j, i :| 0 <= j < |file| && 0 <= i < |w.builtins| && Usurps(w, file[j], i);
      var events, s := UsurperPanics(w, file, j, i);
    }
  }

  // ----- One reload at a time -----

  predicate Finished(w: World, s: State) {
    forall t :: t in s.reloads ==> AtEnd(w, s.reloads[t])
  }

  // A reload starts only when no other is under way.
  ghost predicate InTurn(w: World, s: State, events: seq<Event>)
    decreases |events|
  {
    events != [] && Enabled(w, s, events[0]) ==>
      (events[0].Start? ==> Finished(w, s)) && InTurn(w, Do(w, s, events[0]), events[1..])
  }

  // The one reload under way, if any, has what it has registered so far.
  ghost predicate Alone(w: World, s: State) {
    forall t :: t in s.reloads && !AtEnd(w, s.reloads[t]) ==>
      && (forall u :: u in s.reloads && u != t ==> AtEnd(w, s.reloads[u]))
      && InOrder(w, s.tables, s.reloads[t])
  }

  lemma AloneStep(w: World, s: State, e: Event)
    requires IsBuiltinTable(w.builtins) && Alone(w, s) && Enabled(w, s, e) && (e.Start? ==> Finished(w, s))
    ensures Alone(w, Do(w, s, e)) && !Do(w, s, e).panicked
  {
    if e.Step? {
      InOrderStep(w, s.tables, s.reloads[e.t]);
    }
  }

  lemma {:induction false} AloneRun(w: World, s: State, events: seq<Event>, s': State)
    requires IsBuiltinTable(w.builtins) && Alone(w, s) && !s.panicked
    requires Runs(w, s, events, s') && InTurn(w, s, events)
    ensures Alone(w, s') && !s'.panicked
    decreases |events|
  {
    if events != [] {
      AloneStep(w, s, events[0]);
      AloneRun(w, Do(w, s, events[0]), events[1..], s');
    }
  }

  // Whatever the file holds, reloads that take turns never panic, and each leaves
  // what a reload on its own does.
  lemma {:induction false} InTurnNeverPanics(w: World, events: seq<Event>, s: State, t: Tid, any: Tables)
    requires IsBuiltinTable(w.builtins) && Runs(w, Init(w), events, s) && InTurn(w, Init(w), events)
    ensures !s.panicked
    ensures Enabled(w, s, Step(t)) && s.reloads[t].at == 5 + |s.reloads[t].file| ==>
      Do(w, s, Step(t)).tables == ReloadSpec(w.builtins, w.compiles, any, Loaded(s.reloads[t].file))
  {
    AloneRun(w, Init(w), events, s);
    if Enabled(w, s, Step(t)) && s.reloads[t].at == 5 + |s.reloads[t].file| {
      InOrderStep(w, s.tables, s.reloads[t]);
      var s' := Do(w, s, Step(t));
      InOrderAtEnd(w, s'.tables, s'.reloads[t], any);
    }
  }
}

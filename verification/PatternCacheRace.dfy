// internal/proxy/handler.go: the cached pattern list when requests interleave with
// reloads. A request that finds no list takes a copy of the registry, builds one
// and stores it later; a reload changes the registry and invalidates later. Every
// step is atomic and takes one tick.
module PatternCacheRace {
  import opened Options
  import opened Registry
  import opened HostPatterns

  type Tid = nat

  datatype Cached = Cached(entries: seq<HostPatternEntry>, builtAt: nat, storedAt: nat)

  datatype Request =
    | Missed                                                   // the copy of the registry comes next
    | Built(entries: seq<HostPatternEntry>, builtAt: nat)      // the store comes next

  datatype State = State(
    clock: nat,
    tables: Tables,
    cache: Option<Cached>,
    requests: map<Tid, Request>,
    changed: Option<nat>,          // the last step that changed the registry
    invalidated: Option<nat>)      // the last invalidation

  datatype Event =
    | Load(r: Tid)
    | Build(r: Tid, ids: seq<string>)     // ids: the map orders met
    | Store(r: Tid)
    | Change(tables: Tables)              // any step of a reload under the registry's lock
    | Invalidate

  function Init(t: Tables): State {
    State(0, t, None, map[], None, None)
  }

  ghost predicate Enabled(s: State, e: Event) {
    match e
    case Load(r) => r !in s.requests
    case Build(r, ids) =>
      r in s.requests && s.requests[r].Missed? && IsOrder(s.tables, ids) && AllEligible(s.tables, ids)
    case Store(r) => r in s.requests && s.requests[r].Built?
    case Change(_) => true
    case Invalidate => true
  }

  predicate InUse(cache: Option<Cached>) {
    cache.Some? && cache.value.entries != []
  }

  function Act(s: State, e: Event): State
    requires Enabled(s, e)
  {
    match e
    case Load(r) => if InUse(s.cache) then s else s.(requests := s.requests[r := Missed])
    case Build(r, ids) =>
      // An empty list is not stored; the request takes the defaults.
      if ids == [] then s.(requests := s.requests - {r})
      else s.(requests := s.requests[r := Built(Entries(s.tables, ids), s.clock)])
    case Store(r) =>
      var Built(entries, builtAt) := s.requests[r];
      s.(cache := Some(Cached(entries, builtAt, s.clock)), requests := s.requests - {r})
    case Change(t) => if t == s.tables then s else s.(tables := t, changed := Some(s.clock))
    case Invalidate => s.(cache := None, invalidated := Some(s.clock))
  }

  function Do(s: State, e: Event): State
    requires Enabled(s, e)
  {
    Act(s, e).(clock := s.clock + 1)
  }

  ghost predicate Runs(s: State, events: seq<Event>, s': State)
    decreases |events|
  {
    if events == [] then s' == s
    else Enabled(s, events[0]) && Runs(Do(s, events[0]), events[1..], s')
  }

  // ----- What every interleaving keeps -----

  // A list the registry could have been turned into.
  ghost predicate ListsRegistry(t: Tables, entries: seq<HostPatternEntry>) {
    exists ids :: IsOrder(t, ids) && AllEligible(t, ids) && entries == Entries(t, ids)
  }

  predicate Before(a: Option<nat>, b: nat) {
    a.Some? ==> a.value < b
  }

  // A list built since the registry last changed is right.
  ghost predicate Sound(s: State, entries: seq<HostPatternEntry>, builtAt: nat) {
    && builtAt < s.clock && entries != []
    && (Before(s.changed, builtAt) ==> ListsRegistry(s.tables, entries))
    && s.changed != Some(builtAt) && s.invalidated != Some(builtAt)
  }

  ghost predicate Inv(s: State) {
    && Before(s.changed, s.clock) && Before(s.invalidated, s.clock)
    && (s.changed.Some? ==> s.changed != s.invalidated)
    && (forall r :: r in s.requests && s.requests[r].Built? ==>
         Sound(s, s.requests[r].entries, s.requests[r].builtAt))
    && (s.cache.Some? ==>
         && Sound(s, s.cache.value.entries, s.cache.value.builtAt)
         && s.cache.value.builtAt < s.cache.value.storedAt < s.clock
         && Before(s.invalidated, s.cache.value.storedAt))
  }

  lemma SoundStays(s: State, e: Event, entries: seq<HostPatternEntry>, builtAt: nat)
    requires Enabled(s, e) && Sound(s, entries, builtAt)
    ensures Sound(Do(s, e), entries, builtAt)
  {
  }

  lemma BuiltSound(s: State, e: Event)
    requires Inv(s) && Enabled(s, e) && e.Build? && e.ids != []
    ensures Sound(Do(s, e), Entries(s.tables, e.ids), s.clock)
  {
  }

  lemma StepInv(s: State, e: Event)
    requires Inv(s) && Enabled(s, e)
    ensures Inv(Do(s, e))
  {
    var s' := Do(s, e);
    forall r | r in s'.requests && s'.requests[r].Built?
      ensures Sound(s', s'.requests[r].entries, s'.requests[r].builtAt)
    {
      if r in s.requests && s'.requests[r] == s.requests[r] {
        SoundStays(s, e, s.requests[r].entries, s.requests[r].builtAt);
      } else {
        BuiltSound(s, e);
      }
    }
    if s'.cache.Some? {
      SoundStays(s, e, s'.cache.value.entries, s'.cache.value.builtAt);
    }
  }

  lemma {:induction false} RunInv(s: State, events: seq<Event>, s': State)
    requires Inv(s) && Runs(s, events, s')
    ensures Inv(s')
    decreases |events|
  {
    if events != [] {
      StepInv(s, events[0]);
      RunInv(Do(s, events[0]), events[1..], s');
    }
  }

  // No change of the registry still awaits an invalidation.
  predicate Refreshed(s: State) {
    s.changed.Some? ==> s.invalidated.Some? && s.changed.value < s.invalidated.value
  }

  // In every interleaving: a cached list that contradicts a registry with no
  // change awaiting invalidation was built before the last change and stored
  // after the last invalidation.
  lemma {:induction false} StaleOnlyByLateStore(t: Tables, events: seq<Event>, s: State)
    requires Runs(Init(t), events, s) && Refreshed(s)
    requires s.cache.Some? && !ListsRegistry(s.tables, s.cache.value.entries)
    ensures s.changed.Some? && s.invalidated.Some?
    ensures s.cache.value.builtAt < s.changed.value < s.invalidated.value < s.cache.value.storedAt
  {
    RunInv(Init(t), events, s);
  }

  // ----- When no request spans an invalidation -----

  ghost predicate Apart(s: State, events: seq<Event>)
    decreases |events|
  {
    events == [] || !Enabled(s, events[0]) ||
    ((events[0].Invalidate? ==> forall r :: r in s.requests ==> !s.requests[r].Built?)
     && Apart(Do(s, events[0]), events[1..]))
  }

  // Every list at hand was built after the last invalidation.
  ghost predicate Recent(s: State) {
    && Before(s.invalidated, s.clock)
    && (forall r :: r in s.requests && s.requests[r].Built? ==> Before(s.invalidated, s.requests[r].builtAt))
    && (s.cache.Some? ==> Before(s.invalidated, s.cache.value.builtAt))
  }

  lemma RecentStep(s: State, e: Event)
    requires Recent(s) && Enabled(s, e)
    requires e.Invalidate? ==> forall r :: r in s.requests ==> !s.requests[r].Built?
    ensures Recent(Do(s, e))
  {
  }

  lemma {:induction false} RecentRun(s: State, events: seq<Event>, s': State)
    requires Recent(s) && Runs(s, events, s') && Apart(s, events)
    ensures Recent(s')
    decreases |events|
  {
    if events != [] {
      RecentStep(s, events[0]);
      RecentRun(Do(s, events[0]), events[1..], s');
    }
  }

  // If no request has a list in hand when the cache is invalidated, the cached
  // list agrees with the registry whenever no change awaits invalidation.
  lemma {:induction false} CorrectWhenApart(t: Tables, events: seq<Event>, s: State)
    requires Runs(Init(t), events, s) && Apart(Init(t), events) && Refreshed(s) && s.cache.Some?
    ensures ListsRegistry(s.tables, s.cache.value.entries)
  {
    RunInv(Init(t), events, s);
    RecentRun(Init(t), events, s);
  }

  // ----- When the list is right from now on -----

  ghost predicate CacheRight(s: State) {
    s.cache.Some? ==> ListsRegistry(s.tables, s.cache.value.entries)
  }

  predicate Unchanged(events: seq<Event>) {
    forall i :: 0 <= i < |events| ==> !events[i].Change?
  }

  // Whatever requests and invalidations follow, a cached list agrees with the
  // registry as it is now.
  ghost predicate StaysRight(s: State) {
    forall events, s' :: Runs(s, events, s') && Unchanged(events) ==> CacheRight(s')
  }

  // The lists that requests have built and not yet stored agree with the registry.
  ghost predicate RightInHand(s: State) {
    forall r :: r in s.requests && s.requests[r].Built? ==> ListsRegistry(s.tables, s.requests[r].entries)
  }

  ghost predicate RightNow(s: State) {
    CacheRight(s) && RightInHand(s)
  }

  lemma RightStep(s: State, e: Event)
    requires RightNow(s) && Enabled(s, e) && !e.Change?
    ensures RightNow(Do(s, e))
  {
    var s' := Do(s, e);
    if e.Build? {
      assert ListsRegistry(s.tables, Entries(s.tables, e.ids));
    }
    forall r | r in s'.requests && s'.requests[r].Built?
      ensures ListsRegistry(s'.tables, s'.requests[r].entries)
    {
    }
  }

  lemma {:induction false} RightRun(s: State, events: seq<Event>, s': State)
    requires RightNow(s) && Runs(s, events, s') && Unchanged(events)
    ensures RightNow(s')
    decreases |events|
  {
    if events != [] {
      RightStep(s, events[0]);
      RightRun(Do(s, events[0]), events[1..], s');
    }
  }

  // The cached list is right until the registry changes again exactly when it is
  // right now and so is every list a request has built and not yet stored.
  lemma StaysRightIff(s: State)
    ensures StaysRight(s) <==> RightNow(s)
  {
    if RightNow(s) {
      forall events, s' | Runs(s, events, s') && Unchanged(events)
        ensures CacheRight(s')
      {
        RightRun(s, events, s');
      }
    } else {
      NotRightForLong(s);
    }
  }

  // So an invalidation makes requests rebuild the list, and no old list returns
  // before the next change, exactly when no request has a wrong list in hand.
  lemma InvalidationWorksIff(s: State)
    ensures StaysRight(Do(s, Invalidate)) <==> RightInHand(s)
  {
    StaysRightIff(Do(s, Invalidate));
  }

  lemma NotRightForLong(s: State)
    requires !RightNow(s)
    ensures !StaysRight(s)
  {
    if !CacheRight(s) {
      assert Runs(s, [], s);
    } else {
      var r :| r in s.requests && s.requests[r].Built? && !ListsRegistry(s.tables, s.requests[r].entries);
      var s' := Do(s, Store(r));
      assert [Store(r)][1..] == [] && Runs(s', [], s');
      assert Runs(s, [Store(r)], s') && !CacheRight(s');
    }
  }

  // ----- The late store -----

  // With a list in use and no request on the way, only a refresh changes the cache.
  lemma {:induction false} SettledStays(s: State, events: seq<Event>, s': State)
    requires InUse(s.cache) && s.requests == map[] && Runs(s, events, s') && Invalidate !in events
    ensures s'.cache == s.cache && s'.requests == map[]
    decreases |events|
  {
    if events != [] {
      assert events[0] in events;
      SettledStays(Do(s, events[0]), events[1..], s');
    }
  }

  lemma LateStore(t: Tables, ids: seq<string>, t': Tables) returns (events: seq<Event>, s: State)
    requires IsOrder(t, ids) && AllEligible(t, ids) && ids != []
    ensures Runs(Init(t), events, s) && Refreshed(s) && s.tables == t' && s.requests == map[]
    ensures s.cache.Some? && s.cache.value.entries == Entries(t, ids)
  {
    events := [Load(0), Build(0, ids), Change(t'), Invalidate, Store(0)];
    var s1 := Do(Init(t), Load(0));
    var s2 := Do(s1, Build(0, ids));
    var s3 := Do(s2, Change(t'));
    var s4 := Do(s3, Invalidate);
    s := Do(s4, Store(0));
    assert events[1..][1..][1..][1..][1..] == [];
    assert Runs(s4, events[4..], s);
    assert events[3..][1..] == events[4..] && events[2..][1..] == events[3..] && events[1..][1..] == events[2..];
    assert Runs(s3, events[3..], s);
    assert Runs(s2, events[2..], s);
    assert Runs(s1, events[1..], s);
  }

  // The failing case from the start. For any two registries, and any list of the
  // first that is none of the second: a reload from one to the other, with every request at rest, can leave the old
  // list in use, and nothing but another refresh will replace it.
  lemma LateStoreStays(t: Tables, ids: seq<string>, t': Tables)
    requires IsOrder(t, ids) && AllEligible(t, ids) && ids != [] && !ListsRegistry(t', Entries(t, ids))
    ensures exists events, s ::
              Runs(Init(t), events, s) && Refreshed(s) && s.tables == t' && LeftStale(s)
  {
    var events, s := LateStore(t, ids, t');
    forall more, s' | Runs(s, more, s') && Invalidate !in more
      ensures s'.cache == s.cache
    {
      SettledStays(s, more, s');
    }
  }

  ghost predicate LeftStale(s: State) {
    && s.requests == map[] && InUse(s.cache) && !ListsRegistry(s.tables, s.cache.value.entries)
    && forall more, s' :: Runs(s, more, s') && Invalidate !in more ==> s'.cache == s.cache
  }
}

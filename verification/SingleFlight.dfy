// internal/benchmarks/benchmark.go: the result cache behind a singleflight slot,
// as GetTheFastestMirrorWithCache and GetTheFastestMirrorAsync use it, with calls,
// clears and expiries in every interleaving. Each event is one step; the probe
// itself is the subject of Benchmark.
module SingleFlight {
  import opened Ids

  // ----- Slot keys -----

  const DIGITS := "0123456789"

  function Digits(n: nat): (s: string)
    ensures s != "" && forall c <- s :: c in DIGITS
  {
    if n < 10 then [DIGITS[n]] else Digits(n / 10) + [DIGITS[n % 10]]
  }

  // strconv.Itoa
  function Itoa(n: int): string {
    if n < 0 then "-" + Digits(-n) else Digits(n)
  }

  function Key(kind: int): string {
    "benchmark/" + Itoa(kind)
  }

  lemma DigitInjective(a: nat, b: nat)
    requires a < 10 && b < 10 && DIGITS[a] == DIGITS[b]
    ensures a == b
  {
  }

  lemma {:induction false} DigitsInjective(a: nat, b: nat)
    requires Digits(a) == Digits(b)
    ensures a == b
    decreases a + b
  {
    var s := Digits(a);
    DigitInjective(a % 10, b % 10) by {
      assert s[|s| - 1] == DIGITS[a % 10];
      assert Digits(b)[|s| - 1] == DIGITS[b % 10];
    }
    if a >= 10 && b >= 10 {
      assert s[..|s| - 1] == Digits(a / 10);
      assert Digits(b)[..|s| - 1] == Digits(b / 10);
      DigitsInjective(a / 10, b / 10);
    }
  }

  lemma ItoaSign(n: int)
    ensures Itoa(n) != "" && (Itoa(n)[0] == '-' <==> n < 0)
    ensures n < 0 ==> Itoa(n)[1..] == Digits(-n)
  {
    if n >= 0 {
      assert Digits(n)[0] in Digits(n);
    }
  }

  lemma SameSign(a: int, b: int)
    requires Itoa(a) == Itoa(b)
    ensures a < 0 <==> b < 0
    ensures a < 0 ==> Digits(-a) == Digits(-b)
  {
    ItoaSign(a);
    ItoaSign(b);
  }

  lemma ItoaInjective(a: int, b: int)
    requires Itoa(a) == Itoa(b)
    ensures a == b
  {
    SameSign(a, b);
    if a < 0 {
      DigitsInjective(-a, -b);
    } else {
      DigitsInjective(a, b);
    }
  }

  // Different distribution types never share a slot.
  lemma KeyInjective(a: int, b: int)
    ensures Key(a) == Key(b) ==> a == b
  {
    var n := |"benchmark/"|;
    assert Itoa(a) == Key(a)[n..] && Itoa(b) == Key(b)[n..];
    if Key(a) == Key(b) {
      ItoaInjective(a, b);
    }
  }

  // ----- State -----

  type Id = nat

  const DEFAULT_TTL: int := 86400000000000

  datatype CachedResult = CachedResult(mirror: string, cachedAt: int, ttl: int, maker: Id)

  datatype Outcome = Ok(mirror: string) | Err

  // Where an outcome comes from: the cache at one step, or a probe over a span of steps.
  datatype Source = FromCache(at: nat) | FromProbe(started: nat, ended: nat)

  // One execution of the function handed to group.Do.
  datatype Phase =
    | Rechecking
    | Ready
    | Probing(started: nat)
    | Storing(mirror: string, started: nat, ended: nat)
    | Leaving(outcome: Outcome, source: Source)
    | Over(outcome: Outcome, source: Source, left: nat)

  datatype Flight = Flight(kind: int, begun: nat, phase: Phase)

  datatype Pc =
    | Checking
    | Missed
    | InFlight(flight: Id)      // as the one that executes it or as one that waits for it
    | Returned(outcome: Outcome, source: Source, flight: Id, direct: bool)

  datatype Caller = Caller(kind: int, start: nat, pc: Pc)

  datatype State = State(
    step: nat,
    now: int,
    cache: map<int, CachedResult>,
    slots: map<string, Id>,
    flights: map<Id, Flight>,
    callers: map<Id, Caller>,
    history: seq<map<int, string>>)   // the valid cached results before each step

  datatype Event =
    | Call(c: Id, kind: int)
    | Check(c: Id)
    | Join(c: Id, f: Id)              // group.Do; f is the new flight, if one is needed
    | Recheck(f: Id)
    | StartProbe(f: Id)
    | EndProbe(f: Id, outcome: Outcome)
    | Store(f: Id)
    | Leave(f: Id)
    | Return(c: Id)
    | Clear
    | Tick(d: nat)

  predicate IsValid(r: CachedResult, now: int) {
    !(now - r.cachedAt > r.ttl)
  }

  predicate Holds(cache: map<int, CachedResult>, kind: int, now: int) {
    kind in cache && IsValid(cache[kind], now)
  }

  predicate Hit(s: State, kind: int) {
    Holds(s.cache, kind, s.now)
  }

  function ValidResults(s: State): map<int, string> {
    map kind | kind in s.cache && IsValid(s.cache[kind], s.now) :: s.cache[kind].mirror
  }

  function Stored(cache: map<int, CachedResult>, kind: int, mirror: string, ttl: int, now: int, maker: Id)
    : map<int, CachedResult>
  {
    cache[kind := CachedResult(mirror, now, ttl, maker)]
  }

  // The cache object; which flight made an entry is kept for the record only.
  class BenchmarkCache {
    var results: map<int, CachedResult>

    constructor ()
      ensures results == map[]
    {
      results := map[];
    }

    method GetCachedResult(distType: int, now: int) returns (mirror: string, ok: bool)
      ensures ok <==> Holds(results, distType, now)
      ensures mirror == if ok then results[distType].mirror else ""
    {
      if distType !in results || now - results[distType].cachedAt > results[distType].ttl {
        return "", false;
      }
      return results[distType].mirror, true;
    }

    method SetCachedResult(distType: int, fastestMirror: string, ttl: int, now: int, maker: Id)
      modifies this
      ensures results == Stored(old(results), distType, fastestMirror, ttl, now, maker)
    {
      results := results[distType := CachedResult(fastestMirror, now, ttl, maker)];
    }

    method ClearCache()
      modifies this
      ensures results == map[]
    {
      results := map[];
    }
  }

  predicate Enabled(s: State, e: Event) {
    match e
    case Call(c, _) => c !in s.callers
    case Check(c) => c in s.callers && s.callers[c].pc.Checking?
    case Join(c, f) => c in s.callers && s.callers[c].pc.Missed? && f !in s.flights
    case Recheck(f) => f in s.flights && s.flights[f].phase.Rechecking?
    case StartProbe(f) => f in s.flights && s.flights[f].phase.Ready?
    case EndProbe(f, _) => f in s.flights && s.flights[f].phase.Probing?
    case Store(f) => f in s.flights && s.flights[f].phase.Storing?
    case Leave(f) => f in s.flights && s.flights[f].phase.Leaving?
    case Return(c) => c in s.callers && s.callers[c].pc.InFlight? &&
      s.callers[c].pc.flight in s.flights && s.flights[s.callers[c].pc.flight].phase.Over?
    case Clear => true
    case Tick(_) => true
  }

  function SetCaller(s: State, c: Id, pc: Pc): State
    requires c in s.callers
  {
    s.(callers := s.callers[c := s.callers[c].(pc := pc)])
  }

  function SetPhase(s: State, f: Id, phase: Phase): State
    requires f in s.flights
  {
    s.(flights := s.flights[f := s.flights[f].(phase := phase)])
  }

  function Act(s: State, e: Event): State
    requires Enabled(s, e)
  {
    match e
    case Call(c, kind) => s.(callers := s.callers[c := Caller(kind, s.step, Checking)])
    case Check(c) =>
      var kind := s.callers[c].kind;
      if Hit(s, kind) then SetCaller(s, c, Returned(Ok(s.cache[kind].mirror), FromCache(s.step), 0, true))
      else SetCaller(s, c, Missed)
    case Join(c, f) =>
      var key := Key(s.callers[c].kind);
      if key in s.slots then SetCaller(s, c, InFlight(s.slots[key]))
      else SetCaller(s, c, InFlight(f)).(slots := s.slots[key := f],
                                         flights := s.flights[f := Flight(s.callers[c].kind, s.step, Rechecking)])
    case Recheck(f) =>
      var kind := s.flights[f].kind;
      SetPhase(s, f, if Hit(s, kind) then Leaving(Ok(s.cache[kind].mirror), FromCache(s.step)) else Ready)
    case StartProbe(f) => SetPhase(s, f, Probing(s.step))
    case EndProbe(f, outcome) =>
      var started := s.flights[f].phase.started;
      SetPhase(s, f, if outcome.Ok? then Storing(outcome.mirror, started, s.step)
                     else Leaving(Err, FromProbe(started, s.step)))
    case Store(f) =>
      var p := s.flights[f].phase;
      SetPhase(s, f, Leaving(Ok(p.mirror), FromProbe(p.started, p.ended)))
      .(cache := Stored(s.cache, s.flights[f].kind, p.mirror, DEFAULT_TTL, s.now, f))
    case Leave(f) =>
      var p := s.flights[f].phase;
      SetPhase(s, f, Over(p.outcome, p.source, s.step)).(slots := s.slots - {Key(s.flights[f].kind)})
    case Return(c) =>
      var f := s.callers[c].pc.flight;
      SetCaller(s, c, Returned(s.flights[f].phase.outcome, s.flights[f].phase.source, f, false))
    case Clear => s.(cache := map[])
    case Tick(d) => s.(now := s.now + d)
  }

  function Do(s: State, e: Event): State
    requires Enabled(s, e)
  {
    Act(s, e).(step := s.step + 1, history := s.history + [ValidResults(s)])
  }

  const Init := State(0, 0, map[], map[], map[], map[], [])

  ghost predicate Runs(s: State, events: seq<Event>, s': State)
    decreases |events|
  {
    if events == [] then s' == s
    else Enabled(s, events[0]) && Runs(Do(s, events[0]), events[1..], s')
  }

  // ----- The invariant -----

  predicate Settled(p: Phase) {
    p.Storing? || p.Leaving? || p.Over?
  }

  // The outcome a settled flight has, and where it comes from.
  function OutcomeOf(p: Phase): Outcome
    requires Settled(p)
  {
    if p.Storing? then Ok(p.mirror) else p.outcome
  }

  function SourceOf(p: Phase): Source
    requires Settled(p)
  {
    if p.Storing? then FromProbe(p.started, p.ended) else p.source
  }

  // The step at which the outcome was determined.
  function Moment(src: Source): nat {
    match src case FromCache(at) => at case FromProbe(_, ended) => ended
  }

  predicate Witnessed(history: seq<map<int, string>>, kind: int, outcome: Outcome, at: nat) {
    outcome.Ok? && at < |history| && kind in history[at] && history[at][kind] == outcome.mirror
  }

  // A source lies within the flight it belongs to; a cached one was valid then.
  predicate SourceSound(s: State, fl: Flight, outcome: Outcome, src: Source) {
    match src
    case FromCache(at) => fl.begun < at < s.step && Witnessed(s.history, fl.kind, outcome, at)
    case FromProbe(started, ended) => fl.begun < started < ended < s.step
  }

  predicate FlightSound(s: State, f: Id, fl: Flight) {
    && fl.begun < s.step
    && (!fl.phase.Over? ==> Key(fl.kind) in s.slots && s.slots[Key(fl.kind)] == f)
    && (fl.phase.Ready? || fl.phase.Probing? || fl.phase.Storing? ==> !Hit(s, fl.kind))
    && (fl.phase.Probing? ==> fl.begun < fl.phase.started < s.step)
    && (Settled(fl.phase) ==> SourceSound(s, fl, OutcomeOf(fl.phase), SourceOf(fl.phase)))
    && (fl.phase.Over? ==> Moment(fl.phase.source) < fl.phase.left < s.step)
  }

  // The cache holds only what a successful probe of that type found.
  predicate CacheSound(s: State, kind: int, r: CachedResult) {
    && r.ttl == DEFAULT_TTL && r.cachedAt <= s.now
    && r.maker in s.flights && s.flights[r.maker].kind == kind && Settled(s.flights[r.maker].phase)
    && OutcomeOf(s.flights[r.maker].phase) == Ok(r.mirror) && SourceOf(s.flights[r.maker].phase).FromProbe?
  }

  predicate CallerSound(s: State, c: Caller) {
    && c.start < s.step
    && match c.pc
       case InFlight(f) =>
         && f in s.flights && s.flights[f].kind == c.kind
         && (s.flights[f].phase.Over? ==> c.start < s.flights[f].phase.left)
       case Returned(outcome, src, f, direct) =>
         if direct then src.FromCache? && c.start < src.at < s.step && Witnessed(s.history, c.kind, outcome, src.at)
         else
           && f in s.flights && s.flights[f].kind == c.kind && s.flights[f].phase.Over?
           && c.start < s.flights[f].phase.left
           && s.flights[f].phase.outcome == outcome && s.flights[f].phase.source == src
       case _ => true
  }

  predicate SlotSound(s: State, key: string, f: Id) {
    f in s.flights && !s.flights[f].phase.Over? && key == Key(s.flights[f].kind)
  }

  ghost predicate Inv(s: State) {
    && |s.history| == s.step
    && (forall f :: f in s.flights ==> FlightSound(s, f, s.flights[f]))
    && (forall key :: key in s.slots ==> SlotSound(s, key, s.slots[key]))
    && (forall kind :: kind in s.cache ==> CacheSound(s, kind, s.cache[kind]))
    && (forall c :: c in s.callers ==> CallerSound(s, s.callers[c]))
  }

  // Two flights of one type are never under way together.
  lemma OneFlightPerKind(s: State, f: Id, g: Id)
    requires Inv(s) && f in s.flights && g in s.flights && s.flights[f].kind == s.flights[g].kind
    requires !s.flights[f].phase.Over? && !s.flights[g].phase.Over?
    ensures f == g
  {
    assert FlightSound(s, f, s.flights[f]) && FlightSound(s, g, s.flights[g]);
  }

  // How a flight may change in a step: it keeps type and beginning, an outcome
  // once determined stays, and it gives up its slot only now.
  predicate FlightGrows(s: State, a: Flight, b: Flight) {
    && a.kind == b.kind && a.begun == b.begun
    && (Settled(a.phase) ==>
         Settled(b.phase) && OutcomeOf(b.phase) == OutcomeOf(a.phase) && SourceOf(b.phase) == SourceOf(a.phase))
    && (a.phase.Over? ==> a == b)
    && (b.phase.Over? && !a.phase.Over? ==> b.phase.left == s.step)
  }

  ghost predicate Grows(s: State, s': State) {
    && s'.step == s.step + 1
    && s'.history == s.history + [ValidResults(s)]
    && (forall f :: f in s.flights ==> f in s'.flights && FlightGrows(s, s.flights[f], s'.flights[f]))
  }

  lemma StepGrows(s: State, e: Event)
    requires Enabled(s, e)
    ensures Grows(s, Do(s, e))
  {
  }

  lemma CallerKept(s: State, s': State, c: Caller)
    requires |s.history| == s.step && Grows(s, s') && CallerSound(s, c)
    ensures CallerSound(s', c)
  {
  }

  lemma CallerStep(s: State, e: Event, c: Id)
    requires Inv(s) && Enabled(s, e) && c in Do(s, e).callers
    ensures CallerSound(Do(s, e), Do(s, e).callers[c])
  {
    var s' := Do(s, e);
    StepGrows(s, e);
    if c in s.callers {
      CallerKept(s, s', s.callers[c]);
    }
    if e.Join? && e.c == c {
      JoinSound(s, e);
    }
  }

  lemma JoinSound(s: State, e: Event)
    requires Inv(s) && Enabled(s, e) && e.Join?
    ensures CallerSound(Do(s, e), Do(s, e).callers[e.c])
  {
    var kind := s.callers[e.c].kind;
    assert CallerSound(s, s.callers[e.c]);
    if Key(kind) in s.slots {
      assert SlotSound(s, Key(kind), s.slots[Key(kind)]);
      KeyInjective(kind, s.flights[s.slots[Key(kind)]].kind);
    }
  }

  // The clauses of FlightSound that only look back.
  predicate FlightDated(s: State, fl: Flight) {
    && fl.begun < s.step
    && (fl.phase.Probing? ==> fl.begun < fl.phase.started < s.step)
    && (Settled(fl.phase) ==> SourceSound(s, fl, OutcomeOf(fl.phase), SourceOf(fl.phase)))
    && (fl.phase.Over? ==> Moment(fl.phase.source) < fl.phase.left < s.step)
  }

  lemma SourceKept(s: State, s': State, fl: Flight, outcome: Outcome, src: Source)
    requires |s.history| == s.step && s'.step == s.step + 1 && s'.history == s.history + [ValidResults(s)]
    requires SourceSound(s, fl, outcome, src)
    ensures SourceSound(s', fl, outcome, src)
  {
  }

  // A recheck that hits: the value is what the history records for this step.
  lemma HitIsWitnessed(s: State, kind: int)
    requires |s.history| == s.step && Hit(s, kind)
    ensures Witnessed(s.history + [ValidResults(s)], kind, Ok(s.cache[kind].mirror), s.step)
  {
  }

  // Which phase follows which.
  predicate Follows(s: State, fl: Flight, p': Phase) {
    var p := fl.phase;
    || p' == p
    || (p.Rechecking? && p' == Ready)
    || (p.Rechecking? && Hit(s, fl.kind) && p' == Leaving(Ok(s.cache[fl.kind].mirror), FromCache(s.step)))
    || (p.Ready? && p' == Probing(s.step))
    || (p.Probing? && Settled(p') && !p'.Over? && SourceOf(p') == FromProbe(p.started, s.step))
    || (p.Storing? && p' == Leaving(Ok(p.mirror), FromProbe(p.started, p.ended)))
    || (p.Leaving? && p' == Over(p.outcome, p.source, s.step))
  }

  lemma OwnStep(s: State, e: Event, f: Id)
    requires Enabled(s, e) && f in s.flights
    ensures f in Do(s, e).flights
    ensures var p' := Do(s, e).flights[f].phase;
      Do(s, e).flights[f] == s.flights[f].(phase := p') && Follows(s, s.flights[f], p')
  {
  }

  lemma DatedNext(s: State, s': State, fl: Flight, p': Phase)
    requires |s.history| == s.step && s'.step == s.step + 1 && s'.history == s.history + [ValidResults(s)]
    requires FlightDated(s, fl) && Follows(s, fl, p')
    ensures FlightDated(s', fl.(phase := p'))
  {
    if Settled(fl.phase) {
      SourceKept(s, s', fl, OutcomeOf(fl.phase), SourceOf(fl.phase));
    }
    if Hit(s, fl.kind) {
      HitIsWitnessed(s, fl.kind);
    }
  }

  lemma FlightDatedStep(s: State, e: Event, f: Id)
    requires Inv(s) && Enabled(s, e) && f in Do(s, e).flights
    ensures FlightDated(Do(s, e), Do(s, e).flights[f])
  {
    if f in s.flights {
      assert FlightSound(s, f, s.flights[f]);
      OwnStep(s, e, f);
      DatedNext(s, Do(s, e), s.flights[f], Do(s, e).flights[f].phase);
    }
  }

  // A slot stays with its flight unless that flight leaves.
  lemma SlotStays(s: State, e: Event, f: Id)
    requires Inv(s) && Enabled(s, e) && f in s.flights && !s.flights[f].phase.Over? && !(e.Leave? && e.f == f)
    ensures var key := Key(s.flights[f].kind); key in Do(s, e).slots && Do(s, e).slots[key] == f
  {
    assert FlightSound(s, f, s.flights[f]);
    if e.Leave? {
      assert FlightSound(s, e.f, s.flights[e.f]);
    }
  }

  lemma FlightSlotStep(s: State, e: Event, f: Id)
    requires Inv(s) && Enabled(s, e) && f in Do(s, e).flights && !Do(s, e).flights[f].phase.Over?
    ensures var s' := Do(s, e); var key := Key(s'.flights[f].kind);
      key in s'.slots && s'.slots[key] == f
  {
    if f in s.flights {
      OwnStep(s, e, f);
      SlotStays(s, e, f);
    }
  }

  lemma FlightMissStep(s: State, e: Event, f: Id)
    requires Inv(s) && Enabled(s, e) && f in Do(s, e).flights
    requires var p := Do(s, e).flights[f].phase; p.Ready? || p.Probing? || p.Storing?
    ensures !Hit(Do(s, e), Do(s, e).flights[f].kind)
  {
    assert f in s.flights;
    assert FlightSound(s, f, s.flights[f]);
    var kind := s.flights[f].kind;
    OwnStep(s, e, f);
    if e.Store? {
      OtherKind(s, e.f, f);
    } else {
      if kind in s.cache {
        assert CacheSound(s, kind, s.cache[kind]);
      }
      MissStays(s, e, kind);
    }
  }

  lemma OtherKind(s: State, f: Id, g: Id)
    requires Inv(s) && f in s.flights && g in s.flights && f != g
    requires !s.flights[f].phase.Over? && !s.flights[g].phase.Over?
    ensures s.flights[f].kind != s.flights[g].kind
  {
    if s.flights[f].kind == s.flights[g].kind {
      OneFlightPerKind(s, f, g);
    }
  }

  // Only a store makes a valid result appear.
  lemma MissStays(s: State, e: Event, kind: int)
    requires Enabled(s, e) && !e.Store? && (kind in s.cache ==> CacheSound(s, kind, s.cache[kind]))
    ensures Hit(Do(s, e), kind) ==> Hit(s, kind)
  {
  }

  lemma FlightStep(s: State, e: Event, f: Id)
    requires Inv(s) && Enabled(s, e) && f in Do(s, e).flights
    ensures FlightSound(Do(s, e), f, Do(s, e).flights[f])
  {
    var p := Do(s, e).flights[f].phase;
    FlightDatedStep(s, e, f);
    if !p.Over? {
      FlightSlotStep(s, e, f);
    }
    if p.Ready? || p.Probing? || p.Storing? {
      FlightMissStep(s, e, f);
    }
  }

  lemma SlotStep(s: State, e: Event, key: string)
    requires Inv(s) && Enabled(s, e) && key in Do(s, e).slots
    ensures SlotSound(Do(s, e), key, Do(s, e).slots[key])
  {
    if key in s.slots {
      var f := s.slots[key];
      assert SlotSound(s, key, f);
      OwnStep(s, e, f);
      if e.Leave? {
        assert FlightSound(s, e.f, s.flights[e.f]);
      }
    }
  }

  lemma CacheStep(s: State, e: Event, kind: int)
    requires Inv(s) && Enabled(s, e) && kind in Do(s, e).cache
    ensures CacheSound(Do(s, e), kind, Do(s, e).cache[kind])
  {
    StepGrows(s, e);
    if !(e.Store? && kind == s.flights[e.f].kind) {
      assert CacheSound(s, kind, s.cache[kind]);
    }
  }

  lemma StepInv(s: State, e: Event)
    requires Inv(s) && Enabled(s, e)
    ensures Inv(Do(s, e))
  {
    var s' := Do(s, e);
    forall c | c in s'.callers
      ensures CallerSound(s', s'.callers[c])
    {
      CallerStep(s, e, c);
    }
    forall f | f in s'.flights
      ensures FlightSound(s', f, s'.flights[f])
    {
      FlightStep(s, e, f);
    }
    forall key | key in s'.slots
      ensures SlotSound(s', key, s'.slots[key])
    {
      SlotStep(s, e, key);
    }
    forall kind | kind in s'.cache
      ensures CacheSound(s', kind, s'.cache[kind])
    {
      CacheStep(s, e, kind);
    }
  }

  lemma {:induction false} RunInv(s: State, events: seq<Event>, s': State)
    requires Inv(s) && Runs(s, events, s')
    ensures Inv(s')
    decreases |events|
  {
    if events != [] {
      StepInv(s, events[0]);
      RunInv(Do(s, events[0]), events[1..], s');
    }
  }

  // ----- What every interleaving guarantees -----

  // Probes of one type never overlap.
  ghost predicate ProbesApart(s: State) {
    forall f, g :: f in s.flights && g in s.flights && f != g && s.flights[f].kind == s.flights[g].kind ==>
      !(s.flights[f].phase.Probing? && s.flights[g].phase.Probing?)
  }

  // No probe starts while a valid result is cached.
  ghost predicate ProbesNeeded(s: State) {
    forall f :: Enabled(s, StartProbe(f)) ==> !Hit(s, s.flights[f].kind)
  }

  // Every cached result was found by a successful probe of its type.
  ghost predicate CacheFromProbes(s: State) {
    forall kind :: kind in s.cache ==> FoundByProbe(s, kind, s.cache[kind].mirror)
  }

  // A cached result is served for a day, no longer.
  ghost predicate ResultsLastADay(s: State) {
    forall kind :: kind in s.cache ==> (Hit(s, kind) <==> 0 <= s.now - s.cache[kind].cachedAt <= 24 * 3600 * 1000000000)
  }

  ghost predicate FoundByProbe(s: State, kind: int, mirror: string) {
    exists f ::
      f in s.flights && s.flights[f].kind == kind && Settled(s.flights[f].phase)
      && OutcomeOf(s.flights[f].phase) == Ok(mirror) && SourceOf(s.flights[f].phase).FromProbe?
  }

  lemma {:induction false} ProbesAreGuarded(events: seq<Event>, s: State)
    requires Runs(Init, events, s)
    ensures ProbesApart(s) && ProbesNeeded(s) && CacheFromProbes(s) && ResultsLastADay(s)
  {
    RunInv(Init, events, s);
    forall f, g | f in s.flights && g in s.flights && f != g && s.flights[f].kind == s.flights[g].kind
      ensures !(s.flights[f].phase.Probing? && s.flights[g].phase.Probing?)
    {
      if s.flights[f].phase.Probing? && s.flights[g].phase.Probing? {
        OneFlightPerKind(s, f, g);
      }
    }
    forall f | Enabled(s, StartProbe(f))
      ensures !Hit(s, s.flights[f].kind)
    {
      assert FlightSound(s, f, s.flights[f]);
    }
    forall kind | kind in s.cache
      ensures FoundByProbe(s, kind, s.cache[kind].mirror)
    {
      assert CacheSound(s, kind, s.cache[kind]);
    }
  }

  // What a returned caller was given: a value cached and valid at a step of its
  // call, or the outcome of a flight of its own type that was still under way
  // after its call began, either valid in the cache at a step of that flight or
  // found by a probe within it.
  predicate Accounted(s: State, c: Caller)
    requires c.pc.Returned?
  {
    var Returned(outcome, src, f, direct) := c.pc;
    if direct then src.FromCache? && c.start < src.at && Witnessed(s.history, c.kind, outcome, src.at)
    else
      && f in s.flights && s.flights[f].kind == c.kind && s.flights[f].phase.Over?
      && c.start < s.flights[f].phase.left
      && match src
         case FromCache(at) =>
           s.flights[f].begun < at < s.flights[f].phase.left && Witnessed(s.history, c.kind, outcome, at)
         case FromProbe(started, ended) => s.flights[f].begun < started < ended < s.flights[f].phase.left
  }

  lemma {:induction false} ResultsAccounted(events: seq<Event>, s: State, c: Id)
    requires Runs(Init, events, s) && c in s.callers && s.callers[c].pc.Returned?
    ensures Accounted(s, s.callers[c])
  {
    RunInv(Init, events, s);
    assert CallerSound(s, s.callers[c]);
    if !s.callers[c].pc.direct {
      assert FlightSound(s, s.callers[c].pc.flight, s.flights[s.callers[c].pc.flight]);
    }
  }

  // ----- Where every result was found -----

  // A probe of a flight of this type has ended with this outcome.
  ghost predicate Probed(past: seq<Event>, s: State, kind: int, outcome: Outcome) {
    exists f :: f in s.flights && s.flights[f].kind == kind && EndProbe(f, outcome) in past
  }

  // What a flight says a probe found is what its probe's event says.
  ghost predicate FlightTraced(past: seq<Event>, f: Id, p: Phase) {
    Settled(p) && SourceOf(p).FromProbe? ==> EndProbe(f, OutcomeOf(p)) in past
  }

  // The values ever validly cached were found by probes.
  ghost predicate HistoryTraced(past: seq<Event>, s: State) {
    forall at, kind :: 0 <= at < |s.history| && kind in s.history[at] ==> Probed(past, s, kind, Ok(s.history[at][kind]))
  }

  ghost predicate Traced(past: seq<Event>, s: State) {
    (forall f :: f in s.flights ==> FlightTraced(past, f, s.flights[f].phase)) && HistoryTraced(past, s)
  }

  lemma FlightTracedStep(s: State, past: seq<Event>, e: Event, f: Id)
    requires Enabled(s, e) && f in Do(s, e).flights
    requires f in s.flights ==> FlightTraced(past, f, s.flights[f].phase)
    ensures FlightTraced(past + [e], f, Do(s, e).flights[f].phase)
  {
  }

  lemma ProbedStays(s: State, past: seq<Event>, e: Event, kind: int, outcome: Outcome)
    requires Enabled(s, e) && Probed(past, s, kind, outcome)
    ensures Probed(past + [e], Do(s, e), kind, outcome)
  {
    var f :| f in s.flights && s.flights[f].kind == kind && EndProbe(f, outcome) in past;
    OwnStep(s, e, f);
    assert EndProbe(f, outcome) in past + [e];
  }

  lemma CachedWasProbed(s: State, past: seq<Event>, kind: int)
    requires Inv(s) && Traced(past, s) && kind in s.cache
    ensures Probed(past, s, kind, Ok(s.cache[kind].mirror))
  {
    assert CacheSound(s, kind, s.cache[kind]);
    assert FlightTraced(past, s.cache[kind].maker, s.flights[s.cache[kind].maker].phase);
  }

  lemma TracedStep(s: State, past: seq<Event>, e: Event)
    requires Inv(s) && Traced(past, s) && Enabled(s, e)
    ensures Traced(past + [e], Do(s, e))
  {
    var s' := Do(s, e);
    forall f | f in s'.flights
      ensures FlightTraced(past + [e], f, s'.flights[f].phase)
    {
      FlightTracedStep(s, past, e, f);
    }
    forall at, kind | 0 <= at < |s'.history| && kind in s'.history[at]
      ensures Probed(past + [e], s', kind, Ok(s'.history[at][kind]))
    {
      if at == |s.history| {
        CachedWasProbed(s, past, kind);
      }
      ProbedStays(s, past, e, kind, Ok(s'.history[at][kind]));
    }
  }

  lemma {:induction false} TracedRun(s: State, past: seq<Event>, events: seq<Event>, s': State)
    requires Inv(s) && Traced(past, s) && Runs(s, events, s')
    ensures Inv(s') && Traced(past + events, s')
    decreases |events|
  {
    if events == [] {
      assert past + events == past;
    } else {
      StepInv(s, events[0]);
      TracedStep(s, past, events[0]);
      TracedRun(Do(s, events[0]), past + [events[0]], events[1..], s');
      assert past + [events[0]] + events[1..] == past + events;
    }
  }

  // Every result a caller is given, from the cache or not, is what a probe of its
  // type found.
  lemma {:induction false} ResultsWereProbed(events: seq<Event>, s: State, c: Id)
    requires Runs(Init, events, s) && c in s.callers && s.callers[c].pc.Returned?
    ensures Probed(events, s, s.callers[c].kind, s.callers[c].pc.outcome)
  {
    TracedRun(Init, [], events, s);
    assert [] + events == events;
    ResultsAccounted(events, s, c);
    var pc := s.callers[c].pc;
    if pc.source.FromProbe? {
      assert CallerSound(s, s.callers[c]);
      assert FlightTraced(events, pc.flight, s.flights[pc.flight].phase);
    }
  }

  // A call that finds a valid result cached returns it at once, joining nothing.
  lemma HitIsServed(s: State, c: Id)
    requires Enabled(s, Check(c))
    ensures var s', kind := Do(s, Check(c)), s.callers[c].kind;
      && s'.flights == s.flights && s'.slots == s.slots
      && (s'.callers[c].pc.Returned? <==> kind in ValidResults(s))
      && (kind in ValidResults(s) ==> s'.callers[c].pc.outcome == Ok(ValidResults(s)[kind]))
  {
  }

  // ----- Whether a result is good for its caller -----

  // Good for a call that began at start: the probe it comes from ended after
  // that, or the cache validly held it at a later step up to bound.
  ghost predicate Good(history: seq<map<int, string>>, kind: int, outcome: Outcome, src: Source,
                       start: nat, bound: nat)
  {
    || (src.FromProbe? && start < src.ended)
    || exists at: nat :: start < at <= bound && Witnessed(history, kind, outcome, at)
  }

  // What a returned caller was given: judged up to the step its flight was left.
  ghost predicate GoodResult(s: State, c: Caller) {
    c.pc.Returned? && (!c.pc.direct ==> c.pc.flight in s.flights && s.flights[c.pc.flight].phase.Over?) ==>
      Good(s.history, c.kind, c.pc.outcome, c.pc.source, c.start,
           if c.pc.direct then Moment(c.pc.source) else s.flights[c.pc.flight].phase.left)
  }

  // The history with the present moment added.
  function Now(s: State): seq<map<int, string>> {
    s.history + [ValidResults(s)]
  }

  // A flight that has its outcome and has not given up its slot can hand it to a
  // caller that began at start.
  ghost predicate Promised(s: State, p: Phase, kind: int, start: nat)
    requires p.Leaving?
  {
    Good(Now(s), kind, p.outcome, p.source, start, s.step)
  }

  // The caller is on the way to a good result.
  ghost predicate OnTrack(s: State, c: Id) {
    && c in s.callers
    && (forall f :: f in s.flights && s.flights[f].kind == s.callers[c].kind && s.flights[f].phase.Leaving? ==>
         Promised(s, s.flights[f].phase, s.callers[c].kind, s.callers[c].start))
    && (s.callers[c].pc.InFlight? ==> GoodOnceOver(s, s.callers[c], s.callers[c].pc.flight))
    && GoodResult(s, s.callers[c])
  }

  ghost predicate GoodOnceOver(s: State, c: Caller, f: Id) {
    f in s.flights && s.flights[f].phase.Over? ==>
      Good(s.history, c.kind, s.flights[f].phase.outcome, s.flights[f].phase.source, c.start, s.flights[f].phase.left)
  }

  lemma GoodStays(history: seq<map<int, string>>, more: map<int, string>, kind: int, outcome: Outcome, src: Source,
                  start: nat, bound: nat, later: nat)
    requires Good(history, kind, outcome, src, start, bound) && bound <= later
    ensures Good(history + [more], kind, outcome, src, start, later)
  {
    if !(src.FromProbe? && start < src.ended) {
      var at: nat :| start < at <= bound && Witnessed(history, kind, outcome, at);
      assert Witnessed(history + [more], kind, outcome, at);
    }
  }

  // A value validly cached now is good for every call that has begun.
  lemma HitIsGood(s: State, kind: int, src: Source, start: nat)
    requires |s.history| == s.step && Hit(s, kind) && start < s.step
    ensures Good(Now(s), kind, Ok(s.cache[kind].mirror), src, start, s.step)
  {
    HitIsWitnessed(s, kind);
  }

  lemma PromiseMade(s: State, e: Event, f: Id, start: nat)
    requires |s.history| == s.step && Enabled(s, e) && start < s.step
    requires f in s.flights && !s.flights[f].phase.Leaving? && Do(s, e).flights[f].phase.Leaving?
    ensures Promised(Do(s, e), Do(s, e).flights[f].phase, s.flights[f].kind, start)
  {
    var s', kind := Do(s, e), s.flights[f].kind;
    var p := s'.flights[f].phase;
    if e.Recheck? {
      HitIsGood(s, kind, p.source, start);
      GoodStays(s'.history, ValidResults(s'), kind, p.outcome, p.source, start, s.step, s'.step);
    } else if e.Store? {
      HitIsGood(s', kind, p.source, start);
    }
  }

  lemma PromiseStep(s: State, e: Event, c: Caller, f: Id)
    requires |s.history| == s.step && Enabled(s, e) && c.start < s.step
    requires f in s.flights && s.flights[f].kind == c.kind
    requires s.flights[f].phase.Leaving? ==> Promised(s, s.flights[f].phase, c.kind, c.start)
    ensures var p := Do(s, e).flights[f].phase; p.Leaving? ==> Promised(Do(s, e), p, c.kind, c.start)
    ensures !s.flights[f].phase.Over? ==> GoodOnceOver(Do(s, e), c, f)
  {
    OwnStep(s, e, f);
    var s' := Do(s, e);
    var p, p' := s.flights[f].phase, s'.flights[f].phase;
    if p'.Leaving? && p == p' {
      GoodStays(s'.history, ValidResults(s'), c.kind, p.outcome, p.source, c.start, s.step, s'.step);
    } else if p'.Leaving? {
      PromiseMade(s, e, f, c.start);
    }
  }

  lemma OverStep(s: State, e: Event, c: Caller, f: Id)
    requires Enabled(s, e) && f in s.flights && s.flights[f].phase.Over? && GoodOnceOver(s, c, f)
    ensures GoodOnceOver(Do(s, e), c, f)
  {
    var p := s.flights[f].phase;
    GoodStays(s.history, ValidResults(s), c.kind, p.outcome, p.source, c.start, p.left, p.left);
  }

  // A caller stays, misses, joins the flight in its type's slot, hits the cache,
  // or takes the outcome of a flight that is over.
  predicate PcFollows(s: State, kind: int, a: Pc, b: Pc) {
    || a == b
    || b.Missed?
    || (b.InFlight? && (b.flight !in s.flights || !s.flights[b.flight].phase.Over?))
    || (Hit(s, kind) && b == Returned(Ok(s.cache[kind].mirror), FromCache(s.step), 0, true))
    || (a.InFlight? && a.flight in s.flights && s.flights[a.flight].phase.Over?
        && var p := s.flights[a.flight].phase; b == Returned(p.outcome, p.source, a.flight, false))
  }

  lemma CallerMoves(s: State, e: Event, c: Id)
    requires Inv(s) && Enabled(s, e) && c in s.callers
    ensures c in Do(s, e).callers
    ensures var a, b := s.callers[c], Do(s, e).callers[c];
      b == a.(pc := b.pc) && PcFollows(s, a.kind, a.pc, b.pc)
  {
    if e.Join? && e.c == c && Key(s.callers[c].kind) in s.slots {
      assert SlotSound(s, Key(s.callers[c].kind), s.slots[Key(s.callers[c].kind)]);
    }
  }

  lemma ResultStep(s: State, e: Event, c: Id)
    requires Inv(s) && OnTrack(s, c) && Enabled(s, e)
    ensures c in Do(s, e).callers && GoodResult(Do(s, e), Do(s, e).callers[c])
  {
    var s' := Do(s, e);
    var a := s.callers[c];
    CallerMoves(s, e, c);
    assert CallerSound(s, a);
    var b := s'.callers[c];
    if b.pc.Returned? {
      if a.pc == b.pc {
        if b.pc.direct {
          var at := b.pc.source.at;
          GoodStays(s.history, ValidResults(s), a.kind, b.pc.outcome, b.pc.source, a.start, at, at);
        } else {
          OwnStep(s, e, b.pc.flight);
          var p := s.flights[b.pc.flight].phase;
          GoodStays(s.history, ValidResults(s), a.kind, p.outcome, p.source, a.start, p.left, p.left);
        }
      } else if b.pc.direct {
        HitIsGood(s, a.kind, b.pc.source, a.start);
      } else {
        OwnStep(s, e, b.pc.flight);
        OverStep(s, e, a, b.pc.flight);
      }
    }
  }

  lemma OnTrackStep(s: State, e: Event, c: Id)
    requires Inv(s) && OnTrack(s, c) && Enabled(s, e)
    ensures OnTrack(Do(s, e), c)
  {
    var s' := Do(s, e);
    var a := s.callers[c];
    assert CallerSound(s, a);
    CallerMoves(s, e, c);
    forall f | f in s'.flights && s'.flights[f].kind == a.kind && s'.flights[f].phase.Leaving?
      ensures Promised(s', s'.flights[f].phase, a.kind, a.start)
    {
      OwnStep(s, e, f);
      PromiseStep(s, e, a, f);
    }
    var pc := s'.callers[c].pc;
    if pc.InFlight? && pc.flight in s.flights {
      OwnStep(s, e, pc.flight);
      StepInv(s, e);
      assert CallerSound(s', s'.callers[c]);
      if s.flights[pc.flight].phase.Over? {
        OverStep(s, e, a, pc.flight);
      } else {
        PromiseStep(s, e, a, pc.flight);
      }
    }
    ResultStep(s, e, c);
  }

  lemma {:induction false} OnTrackRun(s: State, events: seq<Event>, s': State, c: Id)
    requires Inv(s) && OnTrack(s, c) && Runs(s, events, s')
    ensures OnTrack(s', c)
    decreases |events|
  {
    if events != [] {
      StepInv(s, events[0]);
      OnTrackStep(s, events[0], c);
      OnTrackRun(Do(s, events[0]), events[1..], s', c);
    }
  }

  // Whatever happens after a call begins here, its result is good.
  ghost predicate AlwaysGood(s: State, c: Id, kind: int)
    requires c !in s.callers
  {
    forall events, s' :: Runs(Do(s, Call(c, kind)), events, s') && c in s'.callers ==> GoodResult(s', s'.callers[c])
  }

  // A flight of the type is about to leave with an outcome the cache does not hold.
  predicate Stale(s: State, f: Id, kind: int) {
    && f in s.flights && s.flights[f].kind == kind && s.flights[f].phase.Leaving?
    && !(s.flights[f].phase.outcome.Ok? && Hit(s, kind) && s.cache[kind].mirror == s.flights[f].phase.outcome.mirror)
  }

  lemma CallOnTrack(s: State, c: Id, kind: int)
    requires Inv(s) && c !in s.callers && forall f :: !Stale(s, f, kind)
    ensures OnTrack(Do(s, Call(c, kind)), c)
  {
    var s' := Do(s, Call(c, kind));
    forall f | f in s'.flights && s'.flights[f].kind == kind && s'.flights[f].phase.Leaving?
      ensures Promised(s', s'.flights[f].phase, kind, s.step)
    {
      assert !Stale(s, f, kind);
      HitIsGood(s', kind, s'.flights[f].phase.source, s.step);
    }
  }

  lemma {:induction false} RunsCompose(s: State, a: seq<Event>, m: State, b: seq<Event>, s': State)
    requires Runs(s, a, m) && Runs(m, b, s')
    ensures Runs(s, a + b, s')
    decreases |a|
  {
    if a == [] {
      assert a + b == b;
    } else {
      assert (a + b)[1..] == a[1..] + b;
      RunsCompose(Do(s, a[0]), a[1..], m, b, s');
    }
  }

  lemma RunsThen(s: State, events: seq<Event>, m: State, e: Event)
    requires Runs(s, events, m) && Enabled(m, e)
    ensures Runs(s, events + [e], Do(m, e))
  {
    assert [e][1..] == [];
    assert Runs(m, [e], Do(m, e));
    RunsCompose(s, events, m, [e], Do(m, e));
  }

  // After the cache is cleared, the call misses.
  lemma StaleMiss(s: State, c: Id, kind: int) returns (events: seq<Event>, s': State)
    requires c !in s.callers
    ensures Runs(Do(s, Call(c, kind)), events, s')
    ensures s'.cache == map[] && s'.step == s.step + 3 && s'.slots == s.slots && s'.flights == s.flights
    ensures s'.history == s.history + [ValidResults(s), ValidResults(s), map[]]
    ensures c in s'.callers && s'.callers[c] == Caller(kind, s.step, Missed)
  {
    var s1 := Do(s, Call(c, kind));
    var s2 := Do(s1, Clear);
    s' := Do(s2, Check(c));
    assert ValidResults(s1) == ValidResults(s) && ValidResults(s2) == map[];
    RunsThen(s1, [], s1, Clear);
    RunsThen(s1, [] + [Clear], s2, Check(c));
    events := [] + [Clear] + [Check(c)];
  }

  // Then it joins the flight that is leaving.
  lemma StaleJoin(s: State, c: Id, kind: int, f: Id, spare: Id) returns (events: seq<Event>, s': State)
    requires Inv(s) && c !in s.callers && Stale(s, f, kind) && spare !in s.flights
    ensures Runs(Do(s, Call(c, kind)), events, s')
    ensures s'.cache == map[] && f in s'.flights && s'.flights[f] == s.flights[f]
    ensures s'.history == s.history + [ValidResults(s), ValidResults(s), map[], map[]]
    ensures c in s'.callers && s'.callers[c] == Caller(kind, s.step, InFlight(f))
  {
    assert FlightSound(s, f, s.flights[f]);
    var missed, s3 := StaleMiss(s, c, kind);
    s' := Do(s3, Join(c, spare));
    assert ValidResults(s3) == map[];
    RunsThen(Do(s, Call(c, kind)), missed, s3, Join(c, spare));
    events := missed + [Join(c, spare)];
  }

  lemma StaleLeave(s: State, c: Id, f: Id, s0: State, events: seq<Event>) returns (all: seq<Event>, s': State)
    requires Runs(s0, events, s) && s.cache == map[]
    requires f in s.flights && s.flights[f].phase.Leaving? && c in s.callers && s.callers[c].pc == InFlight(f)
    ensures Runs(s0, all, s')
    ensures s'.history == s.history + [map[], map[]]
    ensures c in s'.callers && s'.callers[c] ==
      s.callers[c].(pc := Returned(s.flights[f].phase.outcome, s.flights[f].phase.source, f, false))
    ensures f in s'.flights
    ensures s'.flights[f].phase == Over(s.flights[f].phase.outcome, s.flights[f].phase.source, s.step)
  {
    var left := Do(s, Leave(f));
    s' := Do(left, Return(c));
    assert ValidResults(s) == ValidResults(left) == map[];
    RunsThen(s0, events, s, Leave(f));
    RunsThen(s0, events + [Leave(f)], left, Return(c));
    all := events + [Leave(f)] + [Return(c)];
  }

  // Neither probed for nor validly cached at any step since the call began.
  ghost predicate NeverValid(s: State, c: Caller)
    requires c.pc.Returned?
  {
    && !(c.pc.source.FromProbe? && c.start < c.pc.source.ended)
    && forall at: nat :: c.start < at ==> !Witnessed(s.history, c.kind, c.pc.outcome, at)
  }

  lemma NeverWitnessed(before: seq<map<int, string>>, v: map<int, string>, after: nat, history: seq<map<int, string>>,
                       kind: int, outcome: Outcome)
    requires history == before + [v, v] + seq(after, _ => map[])
    requires !(outcome.Ok? && kind in v && v[kind] == outcome.mirror)
    ensures forall at: nat :: |before| < at ==> !Witnessed(history, kind, outcome, at)
  {
    forall at: nat | |before| < at < |history|
      ensures !Witnessed(history, kind, outcome, at)
    {
      assert history[at] == if at == |before| + 1 then v else map[];
    }
  }

  lemma NeverValidNotGood(s: State, c: Caller)
    requires c.pc.Returned? && NeverValid(s, c)
    requires c.pc.direct || (c.pc.flight in s.flights && s.flights[c.pc.flight].phase.Over?)
    ensures !GoodResult(s, c)
  {
  }

  lemma StaleTaken(s: State, c: Id, kind: int, f: Id) returns (events: seq<Event>, s': State)
    requires Inv(s) && c !in s.callers && Stale(s, f, kind)
    ensures Runs(Do(s, Call(c, kind)), events, s')
    ensures var p := s.flights[f].phase;
      && c in s'.callers && s'.callers[c] == Caller(kind, s.step, Returned(p.outcome, p.source, f, false))
      && f in s'.flights && s'.flights[f].phase.Over?
    ensures s'.history == s.history + [ValidResults(s), ValidResults(s)] + seq(4, _ => map[])
  {
    var joined, m := StaleJoin(s, c, kind, f, Above(s.flights.Keys));
    events, s' := StaleLeave(m, c, f, Do(s, Call(c, kind)), joined);
    SixSteps(s.history, ValidResults(s), m.history, s'.history);
  }

  lemma SixSteps(before: seq<map<int, string>>, v: map<int, string>, mid: seq<map<int, string>>,
                 after: seq<map<int, string>>)
    requires mid == before + [v, v, map[], map[]] && after == mid + [map[], map[]]
    ensures after == before + [v, v] + seq(4, _ => map[])
  {
  }

  // A call that begins while such a flight is leaving may get its outcome, which
  // was not valid at any step of the call.
  lemma StaleResult(s: State, c: Id, kind: int, f: Id) returns (events: seq<Event>, s': State)
    requires Inv(s) && c !in s.callers && Stale(s, f, kind)
    ensures Runs(Do(s, Call(c, kind)), events, s')
    ensures c in s'.callers && s'.callers[c].pc.Returned? && s'.callers[c].pc.outcome == s.flights[f].phase.outcome
    ensures s'.callers[c].kind == kind && !GoodResult(s', s'.callers[c]) && NeverValid(s', s'.callers[c])
  {
    assert FlightSound(s, f, s.flights[f]);
    events, s' := StaleTaken(s, c, kind, f);
    NeverWitnessed(s.history, ValidResults(s), 4, s'.history, kind, s.flights[f].phase.outcome);
    NeverValidNotGood(s', s'.callers[c]);
  }

  // A call is certain of a value cached and valid during it, or of a probe that
  // overlaps it, exactly when at its beginning every flight of its type that is
  // about to leave has a mirror the cache still validly holds.
  lemma GoodIff(s: State, c: Id, kind: int)
    requires Inv(s) && c !in s.callers
    ensures AlwaysGood(s, c, kind) <==> forall f :: !Stale(s, f, kind)
  {
    if f :| Stale(s, f, kind) {
      var events, s' := StaleResult(s, c, kind, f);
    } else {
      var s1 := Do(s, Call(c, kind));
      StepInv(s, Call(c, kind));
      CallOnTrack(s, c, kind);
      forall events, s' | Runs(s1, events, s') && c in s'.callers
        ensures GoodResult(s', s'.callers[c])
      {
        OnTrackRun(s1, events, s', c);
      }
    }
  }

  // One flight, of this type and in this phase, and one caller.
  predicate Alone(s: State, kind: int, phase: Phase) {
    s.callers.Keys == {0} && s.flights.Keys == {0} && s.flights[0].kind == kind && s.flights[0].phase == phase
  }

  lemma ReadyIsReached(kind: int) returns (events: seq<Event>, s: State)
    ensures Runs(Init, events, s) && Alone(s, kind, Ready) && s.step == 4
  {
    var s1 := Do(Init, Call(0, kind));
    var s2 := Do(s1, Check(0));
    var s3 := Do(s2, Join(0, 0));
    assert s3.flights[0] == Flight(kind, 2, Rechecking);
    s := Do(s3, Recheck(0));
    RunsThen(Init, [], Init, Call(0, kind));
    RunsThen(Init, [] + [Call(0, kind)], s1, Check(0));
    events := [] + [Call(0, kind)] + [Check(0)];
    RunsThen(Init, events, s2, Join(0, 0));
    RunsThen(Init, events + [Join(0, 0)], s3, Recheck(0));
    events := events + [Join(0, 0)] + [Recheck(0)];
  }

  lemma EndIsReached(kind: int, outcome: Outcome) returns (events: seq<Event>, s: State)
    ensures Runs(Init, events, s)
    ensures Alone(s, kind, if outcome.Ok? then Storing(outcome.mirror, 4, 5) else Leaving(Err, FromProbe(4, 5)))
  {
    var before, ready := ReadyIsReached(kind);
    var probing := Do(ready, StartProbe(0));
    s := Do(probing, EndProbe(0, outcome));
    RunsThen(Init, before, ready, StartProbe(0));
    RunsThen(Init, before + [StartProbe(0)], probing, EndProbe(0, outcome));
    events := before + [StartProbe(0)] + [EndProbe(0, outcome)];
  }

  // Such flights are reached from the start, with any mirror and with an error.
  lemma StaleIsReached(kind: int, outcome: Outcome) returns (events: seq<Event>, s: State)
    ensures Runs(Init, events, s) && Stale(s, 0, kind) && s.flights[0].phase.outcome == outcome && 1 !in s.callers
  {
    events, s := EndIsReached(kind, outcome);
    if outcome.Ok? {
      var stored := Do(s, Store(0));
      RunsThen(Init, events, s, Store(0));
      RunsThen(Init, events + [Store(0)], stored, Clear);
      events, s := events + [Store(0)] + [Clear], Do(stored, Clear);
    }
  }

  ghost predicate GotStale(s: State, c: Id, kind: int, outcome: Outcome) {
    && c in s.callers && s.callers[c].kind == kind && s.callers[c].pc.Returned?
    && s.callers[c].pc.outcome == outcome && NeverValid(s, s.callers[c])
  }

  lemma StaleCall(before: seq<Event>, s: State, kind: int, outcome: Outcome, c: Id, f: Id)
    returns (events: seq<Event>, s': State)
    requires Runs(Init, before, s) && Stale(s, f, kind) && s.flights[f].phase.outcome == outcome && c !in s.callers
    ensures Runs(Init, events, s') && GotStale(s', c, kind, outcome)
  {
    RunInv(Init, before, s);
    var after;
    after, s' := StaleResult(s, c, kind, f);
    var called := Do(s, Call(c, kind));
    RunsThen(Init, before, s, Call(c, kind));
    events := before + [Call(c, kind)] + after;
    RunsCompose(Init, before + [Call(c, kind)], called, after, s');
  }

  // So a caller can receive any mirror, or an error, that was neither valid in
  // the cache nor being probed at any step of its call.
  lemma NeverValidDuringCall(kind: int, outcome: Outcome)
    ensures exists events, s :: Runs(Init, events, s) && GotStale(s, 1, kind, outcome)
  {
    var before, s := StaleIsReached(kind, outcome);
    var events, s' := StaleCall(before, s, kind, outcome, 1, 0);
  }
}

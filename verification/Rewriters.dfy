// internal/proxy/rewriter.go: the rewriter slots, swapped by creation, refreshes
// and benchmark callbacks that may arrive at any later time.
module Rewriters {
  import opened Options

  // What a published URLRewriter says.
  datatype Pair = Pair(mirror: Option<string>, pattern: Option<string>)

  datatype Slot = Nil | Holding(pair: Pair)

  type Slots = map<int, Slot>

  const MODES: set<int> := {1, 2, 3, 4, 5}

  function ModesToInit(mode: int): seq<int> {
    if mode == 0 then [1, 2, 3, 4, 5] else [mode]
  }

  // The modes a configuration fills: those of ModesToInit that have a slot.
  function Configured(mode: int): set<int> {
    (set m | m in ModesToInit(mode)) * MODES
  }

  // Mode 0 fills every slot, the mode of a slot that one, and any other mode none.
  lemma ConfiguredIs(mode: int)
    ensures Configured(mode) == if mode == 0 then {1, 2, 3, 4, 5} else if 1 <= mode <= 5 then {mode} else {}
  {
    var modes := ModesToInit(0);
    assert modes[0] == 1 && modes[1] == 2 && modes[2] == 3 && modes[3] == 4 && modes[4] == 5;
  }

  // ----- Events, each under the write lock -----

  datatype Event =
    | Create(mode: int, pair: Pair)
    | Commit(pairs: map<int, Pair>)                     // the swap at the end of a refresh
    | Callback(mode: int, fastest: Option<string>)      // None: the benchmark or its URL failed

  const Empty: Slots := map m | m in MODES :: Nil

  function Do(slots: Slots, e: Event): Slots {
    match e
    case Create(m, pair) => if m in slots then slots[m := Holding(pair)] else slots
    case Commit(pairs) => map m | m in slots :: if m in pairs then Holding(pairs[m]) else slots[m]
    case Callback(m, fastest) =>
      if fastest.Some? && m in slots && slots[m].Holding? then slots[m := Holding(Pair(fastest, slots[m].pair.pattern))]
      else slots
  }

  function Run(events: seq<Event>): Slots {
    if events == [] then Empty else Do(Run(events[..|events| - 1]), events[|events| - 1])
  }

  // ----- What a slot must hold, read off the history -----

  // What the event publishes for the mode outright.
  function Publishes(e: Event, m: int): Option<Pair> {
    match e
    case Create(mode, pair) => if mode == m then Some(pair) else None
    case Commit(pairs) => if m in pairs then Some(pairs[m]) else None
    case Callback(_, _) => None
  }

  // The latest creation or refresh commit of the mode.
  function LatestPublished(events: seq<Event>, m: int): Option<Pair> {
    if events == [] then None
    else
      var p := Publishes(events[|events| - 1], m);
      if p.Some? then p else LatestPublished(events[..|events| - 1], m)
  }

  // The mirror of the latest creation, commit or successful callback of the mode.
  function LatestMirror(events: seq<Event>, m: int): Option<string> {
    if events == [] then None
    else
      var e := events[|events| - 1];
      if Publishes(e, m).Some? then Publishes(e, m).value.mirror
      else if e.Callback? && e.mode == m && e.fastest.Some? then e.fastest
      else LatestMirror(events[..|events| - 1], m)
  }

  // In every interleaving a slot is nil until its first creation or commit,
  // callbacks notwithstanding; from then on its pattern is that of the latest
  // creation or commit, and its mirror that of the latest event of all.
  lemma {:induction false} SlotsFollowHistory(events: seq<Event>, m: int)
    requires m in MODES
    ensures Run(events).Keys == MODES
    ensures Run(events)[m] ==
      match LatestPublished(events, m)
      case None => Nil
      case Some(pair) => Holding(Pair(LatestMirror(events, m), pair.pattern))
  {
    if events != [] {
      SlotsFollowHistory(events[..|events| - 1], m);
    }
  }

  // Slots outside the configured modes never change.
  lemma {:induction false} OtherSlotsUntouched(mode: int, events: seq<Event>, m: int)
    requires m in MODES && m !in Configured(mode)
    requires forall e <- events ::
      (e.Create? ==> e.mode in Configured(mode)) && (e.Commit? ==> e.pairs.Keys <= Configured(mode))
    ensures Run(events).Keys == MODES && Run(events)[m] == Nil
  {
    if events != [] {
      assert events[|events| - 1] in events;
      OtherSlotsUntouched(mode, events[..|events| - 1], m);
    }
  }

  // A callback that was already under way when a refresh committed still
  // replaces the mirror the refresh chose, but not its pattern.
  lemma LateCallbackKeepsPattern(events: seq<Event>, pairs: map<int, Pair>, m: int, stale: string)
    requires m in MODES && m in pairs
    ensures var slots := Run(events + [Commit(pairs), Callback(m, Some(stale))]);
      m in slots && slots[m] == Holding(Pair(Some(stale), pairs[m].pattern))
  {
    var all := events + [Commit(pairs), Callback(m, Some(stale))];
    var before := all[..|all| - 1];
    assert all[|all| - 1] == Callback(m, Some(stale));
    assert before[|before| - 1] == Commit(pairs);
    SlotsFollowHistory(all, m);
    assert LatestPublished(all, m) == LatestPublished(before, m) == Some(pairs[m]);
  }

  // ----- The slots as objects -----

  // Published objects are read outside the lock, so nothing may write to them:
  // no method below has them in its modifies clause.
  class URLRewriter {
    var mirror: Option<string>
    var pattern: Option<string>

    constructor (mirror: Option<string>, pattern: Option<string>)
      ensures this.mirror == mirror && this.pattern == pattern
    {
      this.mirror, this.pattern := mirror, pattern;
    }
  }

  ghost function ContentsOf(slots: map<int, URLRewriter?>): Slots
    reads slots.Values
  {
    map m | m in slots :: if slots[m] == null then Nil else Holding(Pair(slots[m].mirror, slots[m].pattern))
  }

  lemma CommitContents(was: map<int, URLRewriter?>, slots: map<int, URLRewriter?>,
                       modes: set<int>, newByMode: map<int, URLRewriter>)
    requires was.Keys == slots.Keys && modes <= newByMode.Keys
    requires forall m :: m in slots ==> slots[m] == if m in modes then newByMode[m] else was[m]
    ensures ContentsOf(slots) == Do(ContentsOf(was), Commit(
      map m | m in modes :: Pair(newByMode[m].mirror, newByMode[m].pattern)))
  {
    var a, b := ContentsOf(slots), ContentsOf(was);
    var pairs := map m | m in modes :: Pair(newByMode[m].mirror, newByMode[m].pattern);
    assert a.Keys == slots.Keys == b.Keys == Do(b, Commit(pairs)).Keys;
    forall m | m in a
      ensures a[m] == Do(b, Commit(pairs))[m]
    {
    }
  }

  class URLRewriters {
    var slots: map<int, URLRewriter?>

    ghost predicate Valid()
      reads this
    {
      slots.Keys == MODES
    }

    ghost function Contents(): Slots
      reads this, slots.Values
    {
      ContentsOf(slots)
    }

    constructor ()
      ensures Valid() && Contents() == Empty && forall m :: m in slots ==> slots[m] == null
    {
      slots := map m | m in MODES :: null;
    }

    method Assign(mode: int, r: URLRewriter)
      requires Valid()
      modifies this
      ensures Valid()
      ensures Contents() == Do(old(Contents()), Create(mode, Pair(r.mirror, r.pattern)))
      ensures slots == if mode in MODES then old(slots)[mode := r] else old(slots)
    {
      if mode in slots {
        slots := slots[mode := r];
      }
    }

    // The swap of RefreshRewritersWithEngine, over rewriters built beforehand.
    method CommitRefresh(mode: int, newByMode: map<int, URLRewriter>)
      requires Valid() && Configured(mode) <= newByMode.Keys
      modifies this
      ensures Valid()
      ensures Contents() == Do(old(Contents()), Commit(
        map m | m in Configured(mode) :: Pair(newByMode[m].mirror, newByMode[m].pattern)))
      ensures forall m :: m in slots ==> slots[m] == if m in Configured(mode) then newByMode[m] else old(slots)[m]
    {
      var modes := ModesToInit(mode);
      SwapIn(modes, newByMode);
      assert forall m :: m in MODES && m in modes ==> m in Configured(mode);
      CommitContents(old(slots), slots, Configured(mode), newByMode);
    }

    // The loop of the swap.
    method SwapIn(modes: seq<int>, newByMode: map<int, URLRewriter>)
      requires Valid() && forall m <- modes :: m in MODES ==> m in newByMode
      modifies this
      ensures Valid()
      ensures forall m :: m in slots ==> slots[m] == if m in modes then newByMode[m] else old(slots)[m]
    {
      for i := 0 to |modes|
        invariant Valid()
        invariant forall m :: m in slots ==> slots[m] == if m in modes[..i] then newByMode[m] else old(slots)[m]
      {
        if modes[i] in slots {
          slots := slots[modes[i] := newByMode[modes[i]]];
        }
      }
      assert modes[..|modes|] == modes;
    }

    // The callback of createRewriterAsync: a fresh object takes over the
    // current pattern; a nil slot stays nil.
    method OnBenchmark(mode: int, fastest: Option<string>)
      requires Valid()
      modifies this
      ensures Valid()
      ensures Contents() == Do(old(Contents()), Callback(mode, fastest))
      ensures forall m :: m in slots && m != mode ==> slots[m] == old(slots)[m]
      ensures mode in slots && slots[mode] != old(slots)[mode] ==> slots[mode] != null && fresh(slots[mode])
    {
      if fastest.None? {
        return;
      }
      if mode !in slots || slots[mode] == null {
        return;
      }
      var r := new URLRewriter(fastest, slots[mode].pattern);
      slots := slots[mode := r];
    }

    // What a request sees: mirror and pattern of one published object.
    method Snapshot(mode: int) returns (r: Slot)
      requires Valid()
      ensures r == if mode in MODES then Contents()[mode] else Nil
    {
      if mode !in slots || slots[mode] == null {
        return Nil;
      }
      return Holding(Pair(slots[mode].mirror, slots[mode].pattern));
    }
  }
}

// internal/cli/daemon.go, the reload machine of Server.Start: the main loop's
// variables, a debounce timer with its goroutine, and two channels of capacity one.
module Reload {

  // The variables of the loop. armed counts timers that have been set and have
  // neither fired nor been stopped; stopped counts live timers that Stop cancelled.
  datatype Loop = Loop(inFlight: bool, pending: bool, timerSet: bool, armed: nat, stopped: nat)

  function Schedule(l: Loop): Loop {
    if l.inFlight then l.(pending := true)
    else if l.timerSet then l.(inFlight := true, armed := 1, stopped := l.stopped + l.armed)
    else l.(inFlight := true, timerSet := true, armed := l.armed + 1)
  }

  function Finish(l: Loop): Loop {
    var freed := l.(inFlight := false);
    if freed.pending then Schedule(freed.(pending := false)) else freed
  }

  class ReloadLoop {
    var reloadInFlight: bool
    var reloadPending: bool
    var reloadTimerSet: bool
    var armed: nat
    var stopped: nat

    ghost function Vars(): Loop
      reads this
    {
      Loop(reloadInFlight, reloadPending, reloadTimerSet, armed, stopped)
    }

    constructor ()
      ensures Vars() == Loop(false, false, false, 0, 0)
    {
      reloadInFlight, reloadPending, reloadTimerSet, armed, stopped := false, false, false, 0, 0;
    }

    method ScheduleReload()
      modifies this
      ensures Vars() == Schedule(old(Vars()))
    {
      if reloadInFlight {
        reloadPending := true;
        return;
      }
      if reloadTimerSet {
        // reloadTimer.Stop()
        stopped := stopped + armed;
        armed := 0;
      }
      reloadInFlight := true;
      // reloadTimer = time.AfterFunc(...)
      reloadTimerSet := true;
      armed := armed + 1;
    }

    method OnReloadDone()
      modifies this
      ensures Vars() == Finish(old(Vars()))
    {
      reloadInFlight := false;
      if reloadPending {
        reloadPending := false;
        ScheduleReload();
      }
    }
  }

  // ----- The machine -----

  datatype State = State(
    loop: Loop,
    running: nat,     // timer goroutines inside reload()
    sending: nat,     // timer goroutines about to send on reloadDone
    done: nat,        // values in reloadDone
    sighup: bool,     // sighupChan holds a signal
    consumed: nat,    // signals the loop has taken
    started: nat,     // reloads started
    owed: bool)       // a SIGHUP has arrived since the last reload started

  datatype Event = Signal | TakeSignal | TimerFires | ReloadEnds | SendDone | TakeDone

  const Init := State(Loop(false, false, false, 0, 0), 0, 0, 0, false, 0, 0, false)

  predicate Enabled(s: State, e: Event) {
    match e
    case Signal => true
    case TakeSignal => s.sighup
    case TimerFires => s.loop.armed > 0
    case ReloadEnds => s.running > 0
    case SendDone => s.sending > 0 && s.done < 1
    case TakeDone => s.done > 0
  }

  function Do(s: State, e: Event): State
    requires Enabled(s, e)
  {
    match e
    // A full channel drops the signal.
    case Signal => s.(sighup := true, owed := true)
    case TakeSignal => s.(sighup := false, consumed := s.consumed + 1, loop := Schedule(s.loop))
    case TimerFires => s.(loop := s.loop.(armed := s.loop.armed - 1), running := s.running + 1,
                          started := s.started + 1, owed := false)
    case ReloadEnds => s.(running := s.running - 1, sending := s.sending + 1)
    case SendDone => s.(sending := s.sending - 1, done := s.done + 1)
    case TakeDone => s.(done := s.done - 1, loop := Finish(s.loop))
  }

  ghost predicate Runs(s: State, events: seq<Event>, s': State)
    decreases |events|
  {
    if events == [] then s' == s
    else Enabled(s, events[0]) && Runs(Do(s, events[0]), events[1..], s')
  }

  predicate Inv(s: State) {
    && s.loop.armed + s.running + s.sending + s.done == (if s.loop.inFlight then 1 else 0)
    && s.loop.stopped == 0
    && (s.loop.pending ==> s.loop.inFlight)
    && (s.owed ==> s.sighup || s.loop.pending || s.loop.armed > 0)
    && s.started + s.loop.armed + (if s.loop.pending then 1 else 0) <= s.consumed
  }

  lemma StepInv(s: State, e: Event)
    requires Inv(s) && Enabled(s, e)
    ensures Inv(Do(s, e))
  {
  }

  lemma {:induction false} RunInv(s: State, events: seq<Event>, s': State)
    requires Inv(s) && Runs(s, events, s')
    ensures Inv(s')
    decreases |events|
  {
    if events != [] {
      StepInv(s, events[0]);
      RunInv(Do(s, events[0]), events[1..], s');
    }
  }

  // At most one reload is scheduled or under way, Stop has never cancelled a
  // live timer, a goroutine that has finished its reload never blocks on
  // reloadDone, and reloads never outnumber the consumed signals.
  predicate Safe(s: State) {
    && s.loop.armed + s.running + s.sending + s.done <= 1
    && s.loop.stopped == 0
    && (s.sending > 0 ==> Enabled(s, SendDone))
    && s.started <= s.consumed
  }

  lemma InvSafe(s: State)
    requires Inv(s)
    ensures Safe(s) && StepsLeft(s) <= 13
  {
  }

  lemma {:induction false} ReloadSafety(events: seq<Event>, s: State)
    requires Runs(Init, events, s)
    ensures Safe(s)
  {
    RunInv(Init, events, s);
    InvSafe(s);
  }

  // ----- Every signal is served -----

  predicate Idle(s: State) {
    !Enabled(s, TakeSignal) && !Enabled(s, TimerFires) && !Enabled(s, ReloadEnds)
    && !Enabled(s, SendDone) && !Enabled(s, TakeDone)
  }

  // A bound on the steps left once no more signals arrive.
  function StepsLeft(s: State): nat {
    4 * s.loop.armed + 3 * s.running + 2 * s.sending + s.done
    + (if s.loop.pending then 4 else 0) + (if s.sighup then 5 else 0)
  }

  ghost predicate Quiet(events: seq<Event>) {
    Signal !in events
  }

  lemma QuietStep(s: State, e: Event)
    requires Inv(s) && Enabled(s, e) && e != Signal
    ensures StepsLeft(Do(s, e)) < StepsLeft(s)
  {
  }

  // Without new signals the machine comes to rest within 13 steps, whatever
  // their order.
  lemma {:induction false} QuietRunsEnd(s: State, events: seq<Event>, s': State)
    requires Inv(s) && Runs(s, events, s') && Quiet(events)
    ensures |events| + StepsLeft(s') <= StepsLeft(s) <= 13
    decreases |events|
  {
    InvSafe(s);
    if events != [] {
      assert events[0] in events;
      StepInv(s, events[0]);
      QuietStep(s, events[0]);
      QuietRunsEnd(Do(s, events[0]), events[1..], s');
    }
  }

  // At rest nothing is in flight, pending or unserved.
  lemma {:induction false} IdleIsClean(events: seq<Event>, s: State)
    requires Runs(Init, events, s) && Idle(s)
    ensures !s.loop.inFlight && !s.loop.pending && !s.sighup && !s.owed && StepsLeft(s) == 0
  {
    RunInv(Init, events, s);
  }

  lemma {:induction false} OwedUntilStart(s: State, events: seq<Event>, s': State)
    requires Runs(s, events, s') && s.owed && TimerFires !in events
    ensures s'.owed
    decreases |events|
  {
    if events != [] {
      assert events[0] in events;
      OwedUntilStart(Do(s, events[0]), events[1..], s');
    }
  }

  lemma {:induction false} RunsSplit(s: State, events: seq<Event>, n: nat, s': State) returns (m: State)
    requires Runs(s, events, s') && n <= |events|
    ensures Runs(s, events[..n], m) && Runs(m, events[n..], s')
    decreases |events|
  {
    if n == 0 {
      m := s;
      assert events[0..] == events;
    } else {
      m := RunsSplit(Do(s, events[0]), events[1..], n - 1, s');
      assert events[..n][1..] == events[1..][..n - 1];
      assert events[n..] == events[1..][n - 1..];
    }
  }

  // Every SIGHUP, dropped or not, is followed by a reload that starts after it
  // in every run that comes to rest.
  lemma {:induction false} EverySignalServed(events: seq<Event>, s: State, i: nat)
    requires Runs(Init, events, s) && Idle(s)
    requires i < |events| && events[i] == Signal
    ensures exists j :: i < j < |events| && events[j] == TimerFires
  {
    var m := RunsSplit(Init, events, i, s);
    assert events[i..][0] == Signal && events[i..][1..] == events[i + 1..];
    IdleIsClean(events, s);
    if TimerFires !in events[i + 1..] {
      OwedUntilStart(Do(m, Signal), events[i + 1..], s);
    } else {
      var k :| 0 <= k < |events[i + 1..]| && events[i + 1..][k] == TimerFires;
      assert events[i + 1 + k] == TimerFires;
    }
  }

  // ----- Signals that keep arriving -----

  // The steps that may pass before the next reload starts, arrivals of signals
  // not counted.
  function Distance(s: State): nat {
    if s.loop.armed > 0 then 0
    else if s.loop.inFlight then 1 + 3 * s.running + 2 * s.sending + s.done
    else 1
  }

  // A step that brings the next reload closer: anything but the arrival of a
  // signal or the loop noting one down because a reload is in flight.
  predicate Progresses(s: State, e: Event) {
    e != Signal && !(e.TakeSignal? && s.loop.inFlight)
  }

  function Progress(s: State, events: seq<Event>): nat
    decreases |events|
  {
    if events == [] || !Enabled(s, events[0]) then 0
    else (if Progresses(s, events[0]) then 1 else 0) + Progress(Do(s, events[0]), events[1..])
  }

  // While a signal is owed a reload, some such step can be taken.
  ghost predicate CanProgress(s: State) {
    exists e :: Enabled(s, e) && Progresses(s, e)
  }

  lemma OwedCanProgress(s: State)
    requires Inv(s) && s.owed
    ensures CanProgress(s)
  {
    if s.loop.armed > 0 {
      assert Enabled(s, TimerFires);
    } else if !s.loop.inFlight {
      assert Enabled(s, TakeSignal);
    } else if s.running > 0 {
      assert Enabled(s, ReloadEnds);
    } else if s.sending > 0 {
      assert Enabled(s, SendDone);
    } else {
      assert Enabled(s, TakeDone);
    }
  }

  lemma OwedStep(s: State, e: Event)
    requires Inv(s) && s.owed && Enabled(s, e) && e != TimerFires
    ensures Do(s, e).owed
    ensures Distance(Do(s, e)) + (if Progresses(s, e) then 1 else 0) <= Distance(s) <= 4
  {
  }

  lemma {:induction false} OwedRun(s: State, events: seq<Event>, s': State)
    requires Inv(s) && s.owed && Runs(s, events, s') && TimerFires !in events
    ensures Inv(s') && s'.owed && Progress(s, events) + Distance(s') <= Distance(s) <= 4
    decreases |events|
  {
    if events == [] {
      InvDistance(s);
    } else {
      assert events[0] in events;
      StepInv(s, events[0]);
      OwedStep(s, events[0]);
      OwedRun(Do(s, events[0]), events[1..], s');
    }
  }

  lemma InvDistance(s: State)
    requires Inv(s)
    ensures Distance(s) <= 4
  {
  }

  lemma {:induction false} SignalOwes(s: State, before: seq<Event>, m: State)
    requires Runs(s, before + [Signal], m)
    ensures m.owed
  {
    var all := before + [Signal];
    var b := RunsSplit(s, all, |before|, m);
    assert all[|before|..] == [Signal] && [Signal][1..] == [];
    assert Runs(Do(b, Signal), [], m);
  }

  // No stream of signals starves a reload: after any signal of any run, until a
  // reload starts, at most four steps are not about further signals, and such a
  // step can always be taken.
  lemma {:induction false} ServedUnderLoad(before: seq<Event>, m: State, after: seq<Event>, s: State)
    requires Runs(Init, before + [Signal], m) && Runs(m, after, s) && TimerFires !in after
    ensures s.owed && Progress(m, after) + Distance(s) <= Distance(m) <= 4 && CanProgress(s)
  {
    RunInv(Init, before + [Signal], m);
    SignalOwes(Init, before, m);
    OwedRun(m, after, s);
    OwedCanProgress(s);
  }

  // ----- How many reloads a burst causes -----

  function Due(s: State): nat {
    s.loop.armed + if s.loop.pending then 1 else 0
  }

  function AtMostTwo(n: nat): nat {
    if n < 2 then n else 2
  }

  // No signal is taken once a timer has fired.
  ghost predicate OneBurst(events: seq<Event>) {
    forall i, j :: 0 <= i < j < |events| && events[i] == TimerFires ==> events[j] != TakeSignal
  }

  // Until then the first signal arms the timer and all others make one reload pending.
  predicate Gathering(s: State) {
    && s.started == s.running == s.sending == s.done == 0
    && (s.loop.inFlight <==> s.consumed > 0) && (s.loop.pending <==> s.consumed > 1)
    && s.loop.armed == (if s.consumed > 0 then 1 else 0)
  }

  lemma GatheringStep(s: State, e: Event)
    requires Gathering(s) && Enabled(s, e)
    ensures e != TimerFires ==> Gathering(Do(s, e))
    ensures e == TimerFires ==> Do(s, e).started + Due(Do(s, e)) == AtMostTwo(Do(s, e).consumed)
  {
  }

  lemma SettledStep(s: State, e: Event)
    requires Inv(s) && Enabled(s, e) && e != TakeSignal
    ensures Do(s, e).started + Due(Do(s, e)) == s.started + Due(s) && Do(s, e).consumed == s.consumed
  {
  }

  lemma {:induction false} SettledRun(s: State, events: seq<Event>, s': State)
    requires Inv(s) && Runs(s, events, s') && TakeSignal !in events
    ensures s'.started + Due(s') == s.started + Due(s) && s'.consumed == s.consumed
    decreases |events|
  {
    if events != [] {
      assert events[0] in events;
      StepInv(s, events[0]);
      SettledStep(s, events[0]);
      SettledRun(Do(s, events[0]), events[1..], s');
    }
  }

  lemma OneBurstRest(events: seq<Event>)
    requires events != [] && OneBurst(events)
    ensures OneBurst(events[1..])
    ensures events[0] == TimerFires ==> TakeSignal !in events[1..]
  {
    assert forall k :: 0 <= k < |events| - 1 ==> events[1..][k] == events[k + 1];
  }

  lemma {:induction false} BurstRun(s: State, events: seq<Event>, s': State)
    requires Inv(s) && Gathering(s) && Runs(s, events, s') && OneBurst(events)
    ensures s'.started + Due(s') == AtMostTwo(s'.consumed)
    decreases |events|
  {
    if events != [] {
      var e, rest := events[0], events[1..];
      StepInv(s, e);
      GatheringStep(s, e);
      OneBurstRest(events);
      if e == TimerFires {
        SettledRun(Do(s, e), rest, s');
      } else {
        BurstRun(Do(s, e), rest, s');
      }
    }
  }

  lemma IdleIsDone(s: State)
    requires Inv(s) && Idle(s)
    ensures Due(s) == 0
  {
  }

  lemma {:induction false} BurstFrom(s: State, events: seq<Event>, s': State)
    requires Inv(s) && Gathering(s) && Runs(s, events, s') && Idle(s') && OneBurst(events)
    ensures s'.started == AtMostTwo(s'.consumed)
  {
    BurstRun(s, events, s');
    RunInv(s, events, s');
    IdleIsDone(s');
  }

  lemma InitGathers()
    ensures Inv(Init) && Gathering(Init)
  {
  }

  // Signals taken before the first reload starts, in any order with anything else
  // and however many of them, cause one reload if there is one and two if there
  // are more: the second finds a reload in flight.
  lemma {:induction false} BurstReloads(events: seq<Event>, s: State)
    requires Runs(Init, events, s) && Idle(s) && OneBurst(events)
    ensures s.started == AtMostTwo(s.consumed)
  {
    InitGathers();
    BurstFrom(Init, events, s);
  }
}

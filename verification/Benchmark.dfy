// internal/benchmarks/benchmark.go, GetTheFastestMirror: one worker per mirror, a
// semaphore, a closer, a collector and a drainer, in every interleaving. A
// probe's outcome and the moment of the timeout are arbitrary.
module Benchmark {

  const MAX_CONCURRENCY: nat := 8
  const WANTED: nat := 3

  datatype Result = Result(url: string, duration: int)

  // What a worker has put on a channel.
  datatype Sent = Nothing | AResult(duration: int) | AnError

  datatype Worker =
    | Waiting                      // at the select on semaphore and context
    | Probing
    | SendingResult(duration: int)
    | SendingError
    | Releasing(sent: Sent)        // before the deferred receive from the semaphore
    | Finishing(sent: Sent)        // before the deferred wg.Done
    | Exited(sent: Sent)

  datatype Closer = AtWait | ClosedResults | ClosedBoth

  datatype Collector =
    | Collecting
    | ReadingErrors
    | Sorting
    | ReturnedFastest(url: string)
    | ReturnedError

  datatype Drainer = NotStarted | DrainingResults | DrainingErrors | Drained

  datatype State = State(
    workers: seq<Worker>,
    sem: nat,              // tokens in the semaphore channel
    wg: nat,               // the wait group's counter
    cancelled: bool,
    results: seq<Result>,  // the buffered results channel, capacity |mirrors|
    errs: nat,             // the number of errors in the errs channel, same capacity
    closer: Closer,
    collector: Collector,
    gathered: seq<Result>, // collectedResults
    errsRead: nat,
    drainer: Drainer,
    drained: nat)          // results the drainer has thrown away

  datatype Event =
    | Acquire(i: nat)
    | Bail(i: nat)
    | ProbeOk(i: nat, duration: int)
    | ProbeFails(i: nat)
    | SendResult(i: nat)
    | SendError(i: nat)
    | Release(i: nat)
    | Done(i: nat)
    | CloseResults
    | CloseErrors
    | Receive
    | EndOfResults
    | ReadError
    | EndOfErrors
    | Pick(sorted: seq<Result>)
    | DrainResult
    | DrainOn
    | DrainError
    | DrainEnd
    | Timeout

  function MaxResults(mirrors: seq<string>): nat {
    if |mirrors| < WANTED then |mirrors| else WANTED
  }

  // What sort.Sort may leave behind: the same results, durations not decreasing.
  ghost predicate SortOf(rs: seq<Result>, sorted: seq<Result>) {
    && multiset(rs) == multiset(sorted)
    && forall i, j :: 0 <= i < j < |sorted| ==> sorted[i].duration <= sorted[j].duration
  }

  // ----- Steps -----

  ghost predicate Enabled(mirrors: seq<string>, s: State, e: Event) {
    match e
    case Acquire(i) => i < |s.workers| && s.workers[i].Waiting? && s.sem < MAX_CONCURRENCY
    case Bail(i) => i < |s.workers| && s.workers[i].Waiting? && s.cancelled
    case ProbeOk(i, _) => i < |s.workers| && s.workers[i].Probing?
    case ProbeFails(i) => i < |s.workers| && s.workers[i].Probing?
    // A send needs an open channel with room.
    case SendResult(i) => i < |s.workers| <= |mirrors| && s.workers[i].SendingResult?
                          && |s.results| < |mirrors| && s.closer.AtWait?
    case SendError(i) => i < |s.workers| && s.workers[i].SendingError? && s.errs < |mirrors| && !s.closer.ClosedBoth?
    case Release(i) => i < |s.workers| && s.workers[i].Releasing? && s.sem > 0
    case Done(i) => i < |s.workers| && s.workers[i].Finishing? && s.wg > 0
    case CloseResults => s.closer.AtWait? && s.wg == 0
    case CloseErrors => s.closer.ClosedResults?
    case Receive => s.collector.Collecting? && s.results != []
    case EndOfResults => s.collector.Collecting? && s.results == [] && !s.closer.AtWait?
    case ReadError => s.collector.ReadingErrors? && s.errs > 0
    case EndOfErrors => s.collector.ReadingErrors? && s.errs == 0 && s.closer.ClosedBoth?
    case Pick(sorted) => s.collector.Sorting? && SortOf(s.gathered, sorted) && sorted != []
    case DrainResult => s.drainer.DrainingResults? && s.results != []
    case DrainOn => s.drainer.DrainingResults? && s.results == [] && !s.closer.AtWait?
    case DrainError => s.drainer.DrainingErrors? && s.errs > 0
    case DrainEnd => s.drainer.DrainingErrors? && s.errs == 0 && s.closer.ClosedBoth?
    case Timeout => !s.cancelled
  }

  function Put(s: State, i: nat, w: Worker): State
    requires i < |s.workers|
  {
    s.(workers := s.workers[i := w])
  }

  ghost function Do(mirrors: seq<string>, s: State, e: Event): State
    requires Enabled(mirrors, s, e)
  {
    match e
    case Acquire(i) => Put(s, i, Probing).(sem := s.sem + 1)
    case Bail(i) => Put(s, i, Finishing(Nothing))
    case ProbeOk(i, duration) => Put(s, i, SendingResult(duration))
    case ProbeFails(i) => Put(s, i, SendingError)
    case SendResult(i) =>
      var duration := s.workers[i].duration;
      Put(s, i, Releasing(AResult(duration))).(results := s.results + [Result(mirrors[i], duration)])
    case SendError(i) => Put(s, i, Releasing(AnError)).(errs := s.errs + 1)
    case Release(i) => Put(s, i, Finishing(s.workers[i].sent)).(sem := s.sem - 1)
    case Done(i) => Put(s, i, Exited(s.workers[i].sent)).(wg := s.wg - 1)
    case CloseResults => s.(closer := ClosedResults)
    case CloseErrors => s.(closer := ClosedBoth)
    case Receive =>
      var s' := s.(gathered := s.gathered + [s.results[0]], results := s.results[1..]);
      if |s'.gathered| < MaxResults(mirrors) then s'
      else s'.(cancelled := true, collector := Sorting, drainer := DrainingResults)
    case EndOfResults => s.(collector := if s.gathered == [] then ReadingErrors else Sorting)
    case ReadError => s.(errs := s.errs - 1, errsRead := s.errsRead + 1)
    case EndOfErrors => s.(collector := ReturnedError, cancelled := true)
    case Pick(sorted) => s.(collector := ReturnedFastest(sorted[0].url), cancelled := true)
    case DrainResult => s.(results := s.results[1..], drained := s.drained + 1)
    case DrainOn => s.(drainer := DrainingErrors)
    case DrainError => s.(errs := s.errs - 1, errsRead := s.errsRead + 1)
    case DrainEnd => s.(drainer := Drained)
    case Timeout => s.(cancelled := true)
  }

  function Init(mirrors: seq<string>): State {
    State(seq(|mirrors|, _ => Waiting), 0, |mirrors|, false, [], 0, AtWait, Collecting, [], 0, NotStarted, 0)
  }

  ghost predicate Runs(mirrors: seq<string>, s: State, events: seq<Event>, s': State)
    decreases |events|
  {
    if events == [] then s' == s
    else Enabled(mirrors, s, events[0]) && Runs(mirrors, Do(mirrors, s, events[0]), events[1..], s')
  }

  // ----- Counting workers -----

  function Sum(ws: seq<Worker>, f: Worker -> nat): nat {
    if ws == [] then 0 else Sum(ws[..|ws| - 1], f) + f(ws[|ws| - 1])
  }

  lemma {:induction false} SumUpdate(ws: seq<Worker>, f: Worker -> nat, i: nat, w: Worker)
    requires i < |ws|
    ensures Sum(ws[i := w], f) + f(ws[i]) == Sum(ws, f) + f(w)
  {
    var init := ws[..|ws| - 1];
    if i == |ws| - 1 {
      assert ws[i := w][..|ws| - 1] == init;
    } else {
      SumUpdate(init, f, i, w);
      assert ws[i := w][..|ws| - 1] == init[i := w];
    }
  }

  lemma {:induction false} SumAtLeast(ws: seq<Worker>, f: Worker -> nat, i: nat)
    requires i < |ws|
    ensures f(ws[i]) <= Sum(ws, f)
  {
    if i < |ws| - 1 {
      SumAtLeast(ws[..|ws| - 1], f, i);
    }
  }

  // A worker that does not count leaves room under the number of workers.
  lemma {:induction false} SumBelow(ws: seq<Worker>, f: Worker -> nat, i: nat)
    requires i < |ws| && f(ws[i]) == 0 && forall w :: f(w) <= 1
    ensures Sum(ws, f) < |ws|
  {
    if i == |ws| - 1 {
      SumWithin(ws[..|ws| - 1], f);
    } else {
      SumBelow(ws[..|ws| - 1], f, i);
    }
  }

  lemma {:induction false} SumWithin(ws: seq<Worker>, f: Worker -> nat)
    requires forall w :: f(w) <= 1
    ensures Sum(ws, f) <= |ws|
  {
    if ws != [] {
      SumWithin(ws[..|ws| - 1], f);
    }
  }

  lemma {:induction false} SumOfEqual(ws: seq<Worker>, f: Worker -> nat, c: nat)
    requires forall i :: 0 <= i < |ws| ==> f(ws[i]) == c
    ensures Sum(ws, f) == c * |ws|
  {
    if ws != [] {
      SumOfEqual(ws[..|ws| - 1], f, c);
    }
  }

  lemma {:induction false} SumPointwise(ws: seq<Worker>, f: Worker -> nat, g: Worker -> nat)
    requires forall i :: 0 <= i < |ws| ==> f(ws[i]) <= g(ws[i])
    ensures Sum(ws, f) <= Sum(ws, g)
  {
    if ws != [] {
      SumPointwise(ws[..|ws| - 1], f, g);
    }
  }

  function Holds(w: Worker): nat {
    if w.Probing? || w.SendingResult? || w.SendingError? || w.Releasing? then 1 else 0
  }

  function Alive(w: Worker): nat {
    if w.Exited? then 0 else 1
  }

  function GaveResult(w: Worker): nat {
    if (w.Releasing? || w.Finishing? || w.Exited?) && w.sent.AResult? then 1 else 0
  }

  function GaveError(w: Worker): nat {
    if (w.Releasing? || w.Finishing? || w.Exited?) && w.sent.AnError? then 1 else 0
  }

  function Probes(w: Worker): nat {
    if w.Probing? then 1 else 0
  }

  // Steps a worker has left, counting the item it may still put on a channel.
  function StepsOf(w: Worker): nat {
    match w
    case Waiting => 6
    case Probing => 5
    case SendingResult(_) => 4
    case SendingError => 4
    case Releasing(_) => 2
    case Finishing(_) => 1
    case Exited(_) => 0
  }

  // The number of results, over the whole run, that workers have sent.
  function ResultsSent(s: State): nat {
    Sum(s.workers, GaveResult)
  }

  // ----- The invariant -----

  // A worker has sent this duration.
  predicate Gave(w: Worker, duration: int) {
    (w.Releasing? || w.Finishing? || w.Exited?) && w.sent == AResult(duration)
  }

  // A result carries the URL of a mirror and what that mirror's worker measured.
  ghost predicate Measured(mirrors: seq<string>, ws: seq<Worker>, r: Result) {
    exists i :: 0 <= i < |ws| <= |mirrors| && Gave(ws[i], r.duration) && r.url == mirrors[i]
  }

  ghost predicate AllMeasured(mirrors: seq<string>, ws: seq<Worker>, rs: seq<Result>) {
    forall r <- rs :: Measured(mirrors, ws, r)
  }

  // Tokens, counters and channel contents add up.
  predicate Balanced(mirrors: seq<string>, s: State) {
    && |s.workers| == |mirrors|
    && s.sem == Sum(s.workers, Holds) <= MAX_CONCURRENCY
    && s.wg == Sum(s.workers, Alive)
    && ResultsSent(s) == |s.results| + |s.gathered| + s.drained
    && Sum(s.workers, GaveError) == s.errs + s.errsRead
    && (!s.closer.AtWait? ==> s.wg == 0)
  }

  predicate BrokeEarly(s: State) {
    !s.drainer.NotStarted?
  }

  // Where collector and drainer can be.
  ghost predicate Phased(mirrors: seq<string>, s: State) {
    && AllMeasured(mirrors, s.workers, s.results) && AllMeasured(mirrors, s.workers, s.gathered)
    && (BrokeEarly(s) ==> s.cancelled && |s.gathered| == MaxResults(mirrors) > 0)
    && (s.collector.ReturnedFastest? || s.collector.ReturnedError? ==> s.cancelled)
    && (!BrokeEarly(s) ==> s.drained == 0 && (s.gathered == [] || |s.gathered| < MaxResults(mirrors)))
    && (!BrokeEarly(s) && !s.collector.Collecting? ==> s.results == [] && !s.closer.AtWait?)
    && (s.drainer.DrainingErrors? || s.drainer.Drained? ==> s.results == [] && !s.closer.AtWait?)
    && (s.collector.Collecting? || s.collector.ReadingErrors? || s.collector.ReturnedError? ==> !BrokeEarly(s))
    && (s.collector.ReadingErrors? || s.collector.ReturnedError? ==> s.gathered == [])
    && (s.collector.Sorting? || s.collector.ReturnedFastest? ==> s.gathered != [])
    && (s.collector.ReturnedFastest? ==> IsFastest(s.gathered, s.collector.url))
  }

  ghost predicate IsFastest(rs: seq<Result>, url: string) {
    exists r :: r in rs && r.url == url && forall other <- rs :: r.duration <= other.duration
  }

  ghost predicate Inv(mirrors: seq<string>, s: State) {
    Balanced(mirrors, s) && Phased(mirrors, s)
  }

  // How the sums change when worker i becomes w.
  lemma PutSums(s: State, i: nat, w: Worker)
    requires i < |s.workers|
    ensures var s' := Put(s, i, w);
      && Sum(s'.workers, Holds) + Holds(s.workers[i]) == Sum(s.workers, Holds) + Holds(w)
      && Sum(s'.workers, Alive) + Alive(s.workers[i]) == Sum(s.workers, Alive) + Alive(w)
      && Sum(s'.workers, GaveResult) + GaveResult(s.workers[i]) == Sum(s.workers, GaveResult) + GaveResult(w)
      && Sum(s'.workers, GaveError) + GaveError(s.workers[i]) == Sum(s.workers, GaveError) + GaveError(w)
  {
    SumUpdate(s.workers, Holds, i, w);
    SumUpdate(s.workers, Alive, i, w);
    SumUpdate(s.workers, GaveResult, i, w);
    SumUpdate(s.workers, GaveError, i, w);
  }

  predicate IsWorkerEvent(e: Event) {
    e.Acquire? || e.Bail? || e.ProbeOk? || e.ProbeFails? || e.SendResult? || e.SendError? || e.Release? || e.Done?
  }

  // The worker's next phase.
  ghost function Becomes(mirrors: seq<string>, s: State, e: Event): Worker
    requires IsWorkerEvent(e) && Enabled(mirrors, s, e)
  {
    Do(mirrors, s, e).workers[e.i]
  }

  // Tokens, counters and channels change by what the worker's counts change by.
  lemma StepCounts(mirrors: seq<string>, s: State, e: Event)
    requires IsWorkerEvent(e) && Enabled(mirrors, s, e)
    ensures var s', w, w' := Do(mirrors, s, e), s.workers[e.i], Becomes(mirrors, s, e);
      && s'.workers == s.workers[e.i := w']
      && s'.sem - s.sem == Holds(w') - Holds(w)
      && s'.wg - s.wg == Alive(w') - Alive(w)
      && |s'.results| - |s.results| == GaveResult(w') - GaveResult(w)
      && s'.errs - s.errs == GaveError(w') - GaveError(w)
  {
  }

  lemma StepFrame(mirrors: seq<string>, s: State, e: Event)
    requires IsWorkerEvent(e) && Enabled(mirrors, s, e)
    ensures var s' := Do(mirrors, s, e);
      && s'.gathered == s.gathered && s'.drained == s.drained && s'.errsRead == s.errsRead && s'.closer == s.closer
      && (s'.sem <= s.sem || s'.sem <= MAX_CONCURRENCY)
      && Alive(s.workers[e.i]) == 1
  {
  }

  lemma WorkerStepBalanced(mirrors: seq<string>, s: State, e: Event)
    requires Balanced(mirrors, s) && IsWorkerEvent(e) && Enabled(mirrors, s, e)
    ensures Balanced(mirrors, Do(mirrors, s, e))
  {
    StepCounts(mirrors, s, e);
    StepFrame(mirrors, s, e);
    PutSums(s, e.i, Becomes(mirrors, s, e));
    SumAtLeast(s.workers, Alive, e.i);
  }

  lemma OtherStepBalanced(mirrors: seq<string>, s: State, e: Event)
    requires Balanced(mirrors, s) && !IsWorkerEvent(e) && Enabled(mirrors, s, e)
    ensures Balanced(mirrors, Do(mirrors, s, e))
  {
    assert Do(mirrors, s, e).workers == s.workers;
  }

  // What a worker has sent it has sent for good.
  lemma MeasuredKept(mirrors: seq<string>, s: State, e: Event, r: Result)
    requires IsWorkerEvent(e) && Enabled(mirrors, s, e) && Measured(mirrors, s.workers, r)
    ensures Measured(mirrors, Do(mirrors, s, e).workers, r)
  {
    var i :| 0 <= i < |s.workers| <= |mirrors| && Gave(s.workers[i], r.duration) && r.url == mirrors[i];
    assert Gave(Do(mirrors, s, e).workers[i], r.duration);
  }

  lemma WorkerStepMeasured(mirrors: seq<string>, s: State, e: Event)
    requires Inv(mirrors, s) && IsWorkerEvent(e) && Enabled(mirrors, s, e)
    ensures var s' := Do(mirrors, s, e);
      AllMeasured(mirrors, s'.workers, s'.results) && AllMeasured(mirrors, s'.workers, s'.gathered)
  {
    var s' := Do(mirrors, s, e);
    forall r | r in s.results || r in s.gathered
      ensures Measured(mirrors, s'.workers, r)
    {
      MeasuredKept(mirrors, s, e, r);
    }
    if e.SendResult? {
      assert Gave(s'.workers[e.i], s.workers[e.i].duration);
    }
  }

  lemma WorkerStepPhased(mirrors: seq<string>, s: State, e: Event)
    requires Inv(mirrors, s) && IsWorkerEvent(e) && Enabled(mirrors, s, e)
    ensures Phased(mirrors, Do(mirrors, s, e))
  {
    WorkerStepMeasured(mirrors, s, e);
  }

  lemma HeadIsFastest(rs: seq<Result>, sorted: seq<Result>)
    requires SortOf(rs, sorted) && sorted != []
    ensures IsFastest(rs, sorted[0].url)
  {
    forall r | r in rs
      ensures sorted[0].duration <= r.duration
    {
      assert r in multiset(sorted);
      var i :| 0 <= i < |sorted| && sorted[i] == r;
    }
    assert sorted[0] in multiset(rs);
  }

  lemma OtherStepPhased(mirrors: seq<string>, s: State, e: Event)
    requires Inv(mirrors, s) && !IsWorkerEvent(e) && Enabled(mirrors, s, e)
    ensures Phased(mirrors, Do(mirrors, s, e))
  {
    if e.Pick? {
      HeadIsFastest(s.gathered, e.sorted);
    }
  }

  lemma StepInv(mirrors: seq<string>, s: State, e: Event)
    requires Inv(mirrors, s) && Enabled(mirrors, s, e)
    ensures Inv(mirrors, Do(mirrors, s, e))
  {
    if IsWorkerEvent(e) {
      WorkerStepBalanced(mirrors, s, e);
      WorkerStepPhased(mirrors, s, e);
    } else {
      OtherStepBalanced(mirrors, s, e);
      OtherStepPhased(mirrors, s, e);
    }
  }

  lemma InitInv(mirrors: seq<string>)
    ensures Inv(mirrors, Init(mirrors))
  {
    var ws := Init(mirrors).workers;
    SumOfEqual(ws, Holds, 0);
    SumOfEqual(ws, Alive, 1);
    SumOfEqual(ws, GaveResult, 0);
    SumOfEqual(ws, GaveError, 0);
  }

  lemma {:induction false} RunInv(mirrors: seq<string>, s: State, events: seq<Event>, s': State)
    requires Inv(mirrors, s) && Runs(mirrors, s, events, s')
    ensures Inv(mirrors, s')
    decreases |events|
  {
    if events != [] {
      StepInv(mirrors, s, events[0]);
      RunInv(mirrors, Do(mirrors, s, events[0]), events[1..], s');
    }
  }

  // ----- Nothing blocks, nothing hits a closed channel -----

  // A worker that wants to send, release or finish can do so at once.
  predicate Unblocked(mirrors: seq<string>, s: State) {
    forall i :: 0 <= i < |s.workers| ==>
      && (s.workers[i].SendingResult? ==> |s.results| < |mirrors| && s.closer.AtWait?)
      && (s.workers[i].SendingError? ==> s.errs < |mirrors| && s.closer.AtWait?)
      && (s.workers[i].Releasing? ==> s.sem > 0)
      && (s.workers[i].Finishing? ==> s.wg > 0)
  }

  lemma InvUnblocked(mirrors: seq<string>, s: State)
    requires Balanced(mirrors, s)
    ensures Unblocked(mirrors, s) && Sum(s.workers, Probes) <= MAX_CONCURRENCY
  {
    SumPointwise(s.workers, Probes, Holds);
    forall i | 0 <= i < |s.workers|
      ensures s.workers[i].SendingResult? ==> |s.results| < |mirrors| && s.closer.AtWait?
      ensures s.workers[i].SendingError? ==> s.errs < |mirrors| && s.closer.AtWait?
      ensures s.workers[i].Releasing? ==> s.sem > 0
      ensures s.workers[i].Finishing? ==> s.wg > 0
    {
      SumAtLeast(s.workers, Holds, i);
      SumAtLeast(s.workers, Alive, i);
      if s.workers[i].SendingResult? || s.workers[i].SendingError? {
        SumBelow(s.workers, GaveResult, i);
        SumBelow(s.workers, GaveError, i);
      }
    }
  }

  // In every interleaving at most eight probes run at once, and a waiting worker
  // can begin whenever fewer than eight have begun and not released; no send ever
  // blocks or hits a closed channel, and no deferred release or Done blocks.
  lemma {:induction false} NothingBlocks(mirrors: seq<string>, events: seq<Event>, s: State)
    requires Runs(mirrors, Init(mirrors), events, s)
    ensures Unblocked(mirrors, s) && Sum(s.workers, Probes) <= 8
    ensures forall i: nat :: i < |s.workers| && s.workers[i].Waiting? ==>
      (Enabled(mirrors, s, Acquire(i)) <==> Sum(s.workers, Holds) < 8)
  {
    InitInv(mirrors);
    RunInv(mirrors, Init(mirrors), events, s);
    InvUnblocked(mirrors, s);
  }

  // ----- Every goroutine finishes -----

  function StepsLeft(s: State): nat {
    Sum(s.workers, StepsOf) + |s.results| + s.errs + OthersLeft(s)
  }

  function OthersLeft(s: State): nat {
    (match s.closer case AtWait => 2 case ClosedResults => 1 case ClosedBoth => 0)
    + (match s.collector case Collecting => 6 case ReadingErrors => 1 case Sorting => 1 case _ => 0)
    + (match s.drainer case DrainingResults => 2 case DrainingErrors => 1 case _ => 0)
    + (if s.cancelled then 0 else 1)
  }

  lemma WorkerStepDecreases(mirrors: seq<string>, s: State, e: Event)
    requires IsWorkerEvent(e) && Enabled(mirrors, s, e)
    ensures StepsLeft(Do(mirrors, s, e)) < StepsLeft(s)
  {
    var w := Becomes(mirrors, s, e);
    SumUpdate(s.workers, StepsOf, e.i, w);
    assert Do(mirrors, s, e).workers == s.workers[e.i := w];
    StepUses(mirrors, s, e);
  }

  // What a worker puts on a channel is paid for by its own steps.
  lemma StepUses(mirrors: seq<string>, s: State, e: Event)
    requires IsWorkerEvent(e) && Enabled(mirrors, s, e)
    ensures var s' := Do(mirrors, s, e);
      && StepsOf(Becomes(mirrors, s, e)) + |s'.results| + s'.errs < StepsOf(s.workers[e.i]) + |s.results| + s.errs
      && OthersLeft(s') == OthersLeft(s)
  {
  }

  lemma OtherStepDecreases(mirrors: seq<string>, s: State, e: Event)
    requires Phased(mirrors, s) && !IsWorkerEvent(e) && Enabled(mirrors, s, e)
    ensures StepsLeft(Do(mirrors, s, e)) < StepsLeft(s)
  {
    assert Do(mirrors, s, e).workers == s.workers;
  }

  lemma StepDecreases(mirrors: seq<string>, s: State, e: Event)
    requires Inv(mirrors, s) && Enabled(mirrors, s, e)
    ensures StepsLeft(Do(mirrors, s, e)) < StepsLeft(s)
  {
    if IsWorkerEvent(e) {
      WorkerStepDecreases(mirrors, s, e);
    } else {
      OtherStepDecreases(mirrors, s, e);
    }
  }

  lemma {:induction false} RunsEnd(mirrors: seq<string>, s: State, events: seq<Event>, s': State)
    requires Inv(mirrors, s) && Runs(mirrors, s, events, s')
    ensures |events| + StepsLeft(s') <= StepsLeft(s)
    decreases |events|
  {
    if events != [] {
      StepInv(mirrors, s, events[0]);
      StepDecreases(mirrors, s, events[0]);
      RunsEnd(mirrors, Do(mirrors, s, events[0]), events[1..], s');
    }
  }

  predicate Finished(s: State) {
    && (forall i :: 0 <= i < |s.workers| ==> s.workers[i].Exited?)
    && s.closer.ClosedBoth?
    && (s.collector.ReturnedFastest? || s.collector.ReturnedError?)
    && (s.drainer.NotStarted? || s.drainer.Drained?)
  }

  ghost predicate Stuck(mirrors: seq<string>, s: State) {
    forall e :: Enabled(mirrors, s, e) ==> e.Timeout?
  }

  lemma StuckWorkers(mirrors: seq<string>, s: State)
    requires Inv(mirrors, s) && Stuck(mirrors, s)
    ensures forall i :: 0 <= i < |s.workers| ==> s.workers[i].Exited?
    ensures s.wg == 0
  {
    InvUnblocked(mirrors, s);
    forall i | 0 <= i < |s.workers|
      ensures Holds(s.workers[i]) == 0 && !s.workers[i].Finishing?
    {
      assert !Enabled(mirrors, s, ProbeFails(i));
      assert !Enabled(mirrors, s, SendResult(i)) && !Enabled(mirrors, s, SendError(i));
      assert !Enabled(mirrors, s, Release(i)) && !Enabled(mirrors, s, Done(i));
    }
    SumOfEqual(s.workers, Holds, 0);
    forall i | 0 <= i < |s.workers|
      ensures s.workers[i].Exited?
    {
      assert !Enabled(mirrors, s, Acquire(i));
    }
    SumOfEqual(s.workers, Alive, 0);
  }

  ghost predicate Rising(rs: seq<Result>) {
    forall i, j :: 0 <= i < j < |rs| ==> rs[i].duration <= rs[j].duration
  }

  lemma RisingAppend(rs: seq<Result>, r: Result)
    requires Rising(rs) && forall x <- rs :: x.duration <= r.duration
    ensures Rising(rs + [r])
  {
    assert forall i :: 0 <= i < |rs| ==> rs[i] in rs;
  }

  lemma {:induction false} Insert(rs: seq<Result>, r: Result) returns (sorted: seq<Result>)
    requires Rising(rs)
    ensures Rising(sorted) && multiset(sorted) == multiset(rs) + multiset{r}
    ensures forall x <- sorted :: x in rs || x == r
  {
    if rs == [] || rs[|rs| - 1].duration <= r.duration {
      RisingAppend(rs, r);
      sorted := rs + [r];
    } else {
      var init, last := rs[..|rs| - 1], rs[|rs| - 1];
      var before := Insert(init, r);
      RisingAppend(before, last);
      sorted := before + [last];
      assert rs == init + [last];
    }
  }

  lemma {:induction false} SortExists(rs: seq<Result>) returns (sorted: seq<Result>)
    ensures SortOf(rs, sorted) && |sorted| == |rs|
  {
    sorted := [];
    if rs != [] {
      sorted := SortExists(rs[..|rs| - 1]);
      assert rs == rs[..|rs| - 1] + [rs[|rs| - 1]];
      sorted := Insert(sorted, rs[|rs| - 1]);
    }
    assert |sorted| == |multiset(sorted)| == |multiset(rs)| == |rs|;
  }

  lemma StuckCloser(mirrors: seq<string>, s: State)
    requires Stuck(mirrors, s) && s.wg == 0
    ensures s.closer.ClosedBoth?
  {
    assert !Enabled(mirrors, s, CloseResults) && !Enabled(mirrors, s, CloseErrors);
  }

  lemma StuckCollector(mirrors: seq<string>, s: State)
    requires Phased(mirrors, s) && Stuck(mirrors, s) && s.closer.ClosedBoth?
    ensures s.collector.ReturnedFastest? || s.collector.ReturnedError?
  {
    assert !Enabled(mirrors, s, Receive) && !Enabled(mirrors, s, EndOfResults);
    assert !Enabled(mirrors, s, ReadError) && !Enabled(mirrors, s, EndOfErrors);
    var sorted := SortExists(s.gathered);
    assert !Enabled(mirrors, s, Pick(sorted));
  }

  lemma StuckDrainer(mirrors: seq<string>, s: State)
    requires Stuck(mirrors, s) && s.closer.ClosedBoth?
    ensures s.drainer.NotStarted? || s.drainer.Drained?
  {
    assert !Enabled(mirrors, s, DrainResult) && !Enabled(mirrors, s, DrainOn);
    assert !Enabled(mirrors, s, DrainError) && !Enabled(mirrors, s, DrainEnd);
  }

  // In every interleaving the steps run out, and they run out only when every
  // worker, the closer, the collector and any drainer have finished.
  lemma {:induction false} EveryoneFinishes(mirrors: seq<string>, events: seq<Event>, s: State)
    requires Runs(mirrors, Init(mirrors), events, s)
    ensures |events| <= 6 * |mirrors| + 9
    ensures Stuck(mirrors, s) ==> Finished(s)
  {
    InitInv(mirrors);
    RunInv(mirrors, Init(mirrors), events, s);
    RunsEnd(mirrors, Init(mirrors), events, s);
    SumOfEqual(Init(mirrors).workers, StepsOf, 6);
    if Stuck(mirrors, s) {
      StuckWorkers(mirrors, s);
      StuckCloser(mirrors, s);
      StuckCollector(mirrors, s);
      StuckDrainer(mirrors, s);
    }
  }

  // ----- What the probes found -----

  // What the events so far say of worker i's probe is what the worker holds or has sent.
  datatype Finding = NoFinding | Found(duration: int) | Failure

  function FindingOf(w: Worker): Finding {
    match w
    case SendingResult(duration) => Found(duration)
    case SendingError => Failure
    case Waiting => NoFinding
    case Probing => NoFinding
    case _ =>
      match w.sent
      case AResult(duration) => Found(duration)
      case AnError => Failure
      case Nothing => NoFinding
  }

  // A worker probes at most once, and has found what its probe's event says.
  ghost predicate Traced(events: seq<Event>, i: nat, w: Worker) {
    && (forall d :: ProbeOk(i, d) in events <==> FindingOf(w) == Found(d))
    && (ProbeFails(i) in events <==> FindingOf(w) == Failure)
  }

  ghost predicate AllTraced(events: seq<Event>, s: State) {
    forall i :: 0 <= i < |s.workers| ==> Traced(events, i, s.workers[i])
  }

  lemma TracedStep(mirrors: seq<string>, s: State, past: seq<Event>, e: Event, i: nat)
    requires Enabled(mirrors, s, e) && i < |s.workers| && Traced(past, i, s.workers[i])
    ensures |Do(mirrors, s, e).workers| == |s.workers| && Traced(past + [e], i, Do(mirrors, s, e).workers[i])
  {
    assert forall x :: x in past + [e] <==> x in past || x == e;
  }

  lemma AllTracedStep(mirrors: seq<string>, s: State, past: seq<Event>, e: Event)
    requires AllTraced(past, s) && Enabled(mirrors, s, e)
    ensures AllTraced(past + [e], Do(mirrors, s, e)) && |Do(mirrors, s, e).workers| == |s.workers|
  {
    WorkersKept(mirrors, s, e);
    forall i | 0 <= i < |s.workers|
      ensures Traced(past + [e], i, Do(mirrors, s, e).workers[i])
    {
      TracedStep(mirrors, s, past, e, i);
    }
  }

  lemma {:induction false} TracedRun(mirrors: seq<string>, s: State, past: seq<Event>, events: seq<Event>, s': State)
    requires AllTraced(past, s) && Runs(mirrors, s, events, s')
    ensures AllTraced(past + events, s') && |s'.workers| == |s.workers|
    decreases |events|
  {
    if events == [] {
      assert past + events == past;
    } else {
      var next := Do(mirrors, s, events[0]);
      AllTracedStep(mirrors, s, past, events[0]);
      TracedRun(mirrors, next, past + [events[0]], events[1..], s');
      assert past + [events[0]] + events[1..] == past + events;
    }
  }

  lemma WorkersKept(mirrors: seq<string>, s: State, e: Event)
    requires Enabled(mirrors, s, e)
    ensures |Do(mirrors, s, e).workers| == |s.workers|
  {
  }

  lemma {:induction false} RunTraced(mirrors: seq<string>, events: seq<Event>, s: State)
    requires Runs(mirrors, Init(mirrors), events, s)
    ensures AllTraced(events, s) && |s.workers| == |mirrors|
  {
    assert AllTraced([], Init(mirrors));
    TracedRun(mirrors, Init(mirrors), [], events, s);
    assert [] + events == events;
  }

  // ----- The order of the results -----

  // The duration in the last event that reports worker i's probe.
  function ProbedDuration(events: seq<Event>, i: nat): int {
    if events == [] then 0
    else
      var last := events[|events| - 1];
      if last.ProbeOk? && last.i == i then last.duration else ProbedDuration(events[..|events| - 1], i)
  }

  // The results in the order in which the workers sent them, read off the events alone.
  function Arrivals(mirrors: seq<string>, events: seq<Event>): seq<Result> {
    if events == [] then []
    else
      var past, last := events[..|events| - 1], events[|events| - 1];
      Arrivals(mirrors, past)
      + if last.SendResult? && last.i < |mirrors| then [Result(mirrors[last.i], ProbedDuration(past, last.i))] else []
  }

  lemma {:induction false} ProbedDurationIs(events: seq<Event>, i: nat, d: int)
    requires ProbeOk(i, d) in events && forall x :: ProbeOk(i, x) in events ==> x == d
    ensures ProbedDuration(events, i) == d
  {
    var last := events[|events| - 1];
    if last.ProbeOk? && last.i == i {
      assert last == ProbeOk(i, last.duration);
    } else {
      assert forall x :: x in events[..|events| - 1] ==> x in events;
      assert events == events[..|events| - 1] + [last];
      ProbedDurationIs(events[..|events| - 1], i, d);
    }
  }

  // The gathered results are the first to arrive, those in the channel the last,
  // and those between have been drained.
  predicate Parts(arrivals: seq<Result>, gathered: seq<Result>, drained: nat, results: seq<Result>) {
    && |arrivals| == |gathered| + drained + |results|
    && gathered <= arrivals && arrivals[|arrivals| - |results|..] == results
  }

  lemma PartsSend(arrivals: seq<Result>, gathered: seq<Result>, drained: nat, results: seq<Result>, r: Result)
    requires Parts(arrivals, gathered, drained, results)
    ensures Parts(arrivals + [r], gathered, drained, results + [r])
  {
  }

  lemma PartsTake(arrivals: seq<Result>, gathered: seq<Result>, drained: nat, results: seq<Result>)
    requires Parts(arrivals, gathered, drained, results) && results != []
    ensures Parts(arrivals, gathered, drained + 1, results[1..])
    ensures drained == 0 ==> Parts(arrivals, gathered + [results[0]], 0, results[1..])
  {
    var n := |arrivals| - |results|;
    assert arrivals[n + 1..] == results[1..] && arrivals[n] == results[0];
    assert arrivals[..n + 1] == arrivals[..n] + [arrivals[n]];
  }

  ghost predicate InOrder(arrivals: seq<Result>, s: State) {
    && Parts(arrivals, s.gathered, s.drained, s.results)
    && (s.drainer.NotStarted? ==> s.drained == 0)
    && (s.collector.Collecting? ==> s.drainer.NotStarted?)
  }

  lemma InOrderStep(mirrors: seq<string>, s: State, arrivals: seq<Result>, e: Event)
    requires Enabled(mirrors, s, e) && InOrder(arrivals, s)
    ensures InOrder(
      arrivals + (if e.SendResult? then [Result(mirrors[e.i], s.workers[e.i].duration)] else []), Do(mirrors, s, e))
  {
    if e.SendResult? {
      PartsSend(arrivals, s.gathered, s.drained, s.results, Result(mirrors[e.i], s.workers[e.i].duration));
    } else {
      assert arrivals + [] == arrivals;
      if e.Receive? || e.DrainResult? {
        PartsTake(arrivals, s.gathered, s.drained, s.results);
      } else {
        ResultsKept(mirrors, s, e);
      }
    }
  }

  lemma ResultsKept(mirrors: seq<string>, s: State, e: Event)
    requires Enabled(mirrors, s, e) && !e.SendResult? && !e.Receive? && !e.DrainResult?
    ensures var s' := Do(mirrors, s, e);
      && s'.gathered == s.gathered && s'.drained == s.drained && s'.results == s.results
      && (s'.drainer.NotStarted? <==> s.drainer.NotStarted?) && (s'.collector.Collecting? ==> s.collector.Collecting?)
  {
  }

  lemma ArrivalsStep(mirrors: seq<string>, s: State, past: seq<Event>, e: Event)
    requires |s.workers| == |mirrors| && AllTraced(past, s) && Enabled(mirrors, s, e)
    ensures Arrivals(mirrors, past + [e]) ==
      Arrivals(mirrors, past) + if e.SendResult? then [Result(mirrors[e.i], s.workers[e.i].duration)] else []
  {
    assert (past + [e])[..|past|] == past;
    if e.SendResult? {
      assert Traced(past, e.i, s.workers[e.i]);
      ProbedDurationIs(past, e.i, s.workers[e.i].duration);
    }
  }

  lemma InOrderNext(mirrors: seq<string>, s: State, past: seq<Event>, e: Event)
    requires |s.workers| == |mirrors| && AllTraced(past, s) && InOrder(Arrivals(mirrors, past), s)
    requires Enabled(mirrors, s, e)
    ensures var s' := Do(mirrors, s, e);
      |s'.workers| == |mirrors| && AllTraced(past + [e], s') && InOrder(Arrivals(mirrors, past + [e]), s')
  {
    AllTracedStep(mirrors, s, past, e);
    ArrivalsStep(mirrors, s, past, e);
    InOrderStep(mirrors, s, Arrivals(mirrors, past), e);
  }

  lemma {:induction false} InOrderRun(mirrors: seq<string>, s: State, past: seq<Event>, events: seq<Event>, s': State)
    requires |s.workers| == |mirrors| && AllTraced(past, s) && InOrder(Arrivals(mirrors, past), s)
    requires Runs(mirrors, s, events, s')
    ensures InOrder(Arrivals(mirrors, past + events), s')
    decreases |events|
  {
    if events == [] {
      assert past + events == past;
    } else {
      var e := events[0];
      InOrderNext(mirrors, s, past, e);
      InOrderRun(mirrors, Do(mirrors, s, e), past + [e], events[1..], s');
      assert past + [e] + events[1..] == past + events;
    }
  }

  // What is gathered is what arrived first, in the order in which the workers
  // sent it, each with its mirror's URL and the duration of that mirror's probe.
  lemma {:induction false} GatheredFirst(mirrors: seq<string>, events: seq<Event>, s: State)
    requires Runs(mirrors, Init(mirrors), events, s)
    ensures s.gathered <= Arrivals(mirrors, events)
    ensures |s.gathered| + s.drained + |s.results| == |Arrivals(mirrors, events)|
  {
    assert AllTraced([], Init(mirrors));
    InOrderRun(mirrors, Init(mirrors), [], events, s);
    assert [] + events == events;
  }

  // A probe of this mirror took this long.
  ghost predicate ProbeTook(mirrors: seq<string>, events: seq<Event>, r: Result) {
    exists i :: 0 <= i < |mirrors| && mirrors[i] == r.url && ProbeOk(i, r.duration) in events
  }

  lemma MeasuredWasProbed(mirrors: seq<string>, events: seq<Event>, s: State, r: Result)
    requires AllTraced(events, s) && Measured(mirrors, s.workers, r)
    ensures ProbeTook(mirrors, events, r)
  {
    var i :| 0 <= i < |s.workers| <= |mirrors| && Gave(s.workers[i], r.duration) && r.url == mirrors[i];
    assert Traced(events, i, s.workers[i]) && FindingOf(s.workers[i]) == Found(r.duration);
  }

  // Every gathered result is what the probe of its own mirror found.
  lemma {:induction false} GatheredWereProbed(mirrors: seq<string>, events: seq<Event>, s: State)
    requires Runs(mirrors, Init(mirrors), events, s)
    ensures forall r <- s.gathered :: ProbeTook(mirrors, events, r)
  {
    InitInv(mirrors);
    RunInv(mirrors, Init(mirrors), events, s);
    RunTraced(mirrors, events, s);
    forall r | r in s.gathered
      ensures ProbeTook(mirrors, events, r)
    {
      MeasuredWasProbed(mirrors, events, s, r);
    }
  }

  ghost predicate SomeProbeOk(events: seq<Event>) {
    exists i: nat, d :: ProbeOk(i, d) in events
  }

  lemma {:induction false} SomeResult(ws: seq<Worker>)
    requires Sum(ws, GaveResult) > 0
    ensures exists i :: 0 <= i < |ws| && GaveResult(ws[i]) > 0
  {
    if GaveResult(ws[|ws| - 1]) == 0 {
      SomeResult(ws[..|ws| - 1]);
      var i :| 0 <= i < |ws| - 1 && GaveResult(ws[..|ws| - 1][i]) > 0;
      assert GaveResult(ws[i]) > 0;
    }
  }

  lemma {:induction false} ProbesHaveWorkers(mirrors: seq<string>, s: State, events: seq<Event>, s': State)
    requires Runs(mirrors, s, events, s')
    ensures forall i: nat, d :: ProbeOk(i, d) in events ==> i < |s.workers|
    decreases |events|
  {
    if events != [] {
      WorkersKept(mirrors, s, events[0]);
      ProbesHaveWorkers(mirrors, Do(mirrors, s, events[0]), events[1..], s');
      assert forall e :: e in events ==> e == events[0] || e in events[1..];
    }
  }

  lemma FinishedSent(mirrors: seq<string>, events: seq<Event>, s: State)
    requires Runs(mirrors, Init(mirrors), events, s) && Finished(s)
    ensures ResultsSent(s) > 0 <==> SomeProbeOk(events)
  {
    RunTraced(mirrors, events, s);
    if ResultsSent(s) > 0 {
      SomeResult(s.workers);
      var i :| 0 <= i < |s.workers| && GaveResult(s.workers[i]) > 0;
      assert Traced(events, i, s.workers[i]) && FindingOf(s.workers[i]) == Found(s.workers[i].sent.duration);
    }
    if i: nat, d :| ProbeOk(i, d) in events {
      ProbesHaveWorkers(mirrors, Init(mirrors), events, s);
      assert Traced(events, i, s.workers[i]);
      SumAtLeast(s.workers, GaveResult, i);
    }
  }

  // ----- What is returned -----

  function Min(a: nat, b: nat): nat {
    if a < b then a else b
  }

  // The answer stands as soon as the collector returns: an input mirror of least
  // duration among the gathered results, each of which is what the probe of its
  // own mirror found. The context is cancelled by then.
  lemma {:induction false} AnswerIsFastest(mirrors: seq<string>, events: seq<Event>, s: State)
    requires Runs(mirrors, Init(mirrors), events, s) && s.collector.ReturnedFastest?
    ensures exists r :: r in s.gathered && r.url == s.collector.url && ProbeTook(mirrors, events, r)
              && forall other <- s.gathered :: ProbeTook(mirrors, events, other) && r.duration <= other.duration
    ensures 0 < |s.gathered| <= Min(3, |mirrors|) && s.cancelled
  {
    InitInv(mirrors);
    RunInv(mirrors, Init(mirrors), events, s);
    GatheredWereProbed(mirrors, events, s);
  }

  // As soon as enough results are gathered the context is cancelled, so workers
  // that have not begun can give up; the collector gathers no more.
  lemma {:induction false} EnoughCancels(mirrors: seq<string>, events: seq<Event>, s: State)
    requires Runs(mirrors, Init(mirrors), events, s) && |s.gathered| == Min(3, |mirrors|) > 0
    ensures s.cancelled && !Enabled(mirrors, s, Receive)
    ensures forall i: nat :: i < |s.workers| && s.workers[i].Waiting? ==> Enabled(mirrors, s, Bail(i))
  {
    InitInv(mirrors);
    RunInv(mirrors, Init(mirrors), events, s);
  }

  // Over a whole run the collector gathers as many results as were sent, up to
  // three and the number of mirrors; it returns an error exactly when no probe
  // succeeded.
  lemma {:induction false} GatheredExactly(mirrors: seq<string>, events: seq<Event>, s: State)
    requires Runs(mirrors, Init(mirrors), events, s) && Finished(s)
    ensures |s.gathered| == Min(Min(3, |mirrors|), |Arrivals(mirrors, events)|)
    ensures s.collector.ReturnedError? <==> !SomeProbeOk(events)
  {
    InitInv(mirrors);
    RunInv(mirrors, Init(mirrors), events, s);
    SumWithin(s.workers, GaveResult);
    GatheredFirst(mirrors, events, s);
    FinishedSent(mirrors, events, s);
  }
}

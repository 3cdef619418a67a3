// internal/proxy/transport.go: RoundTrip with retries. What the upstream, the
// context and GetBody do at each attempt is arbitrary.
module Retry {

  datatype Reply = Failure(err: int) | Response(status: int)

  // reply(k) answers attempt k; before retry k the context may be cancelled and
  // GetBody may fail.
  datatype World = World(reply: nat -> Reply, cancelled: nat -> bool, replays: nat -> bool)

  datatype Options = Options(maxRetries: int, retryError: int -> bool, retryStatus: int -> bool)

  datatype Request = Request(hasBody: bool, hasGetBody: bool)

  datatype Outcome =
    | Returned(attempt: nat)       // the response of that attempt, body open
    | Failed(err: int)
    | FailedAfterRetries(err: int)
    | Cancelled
    | ReplayFailed
    | NotReached                   // the code after the loop

  predicate CanRetry(req: Request) {
    !req.hasBody || req.hasGetBody
  }

  // Whether attempt k is followed by another one, as far as its own reply goes.
  predicate Retries(w: World, o: Options, req: Request, k: nat) {
    CanRetry(req) && k < o.maxRetries &&
    match w.reply(k)
    case Failure(err) => o.retryError(err)
    case Response(status) => o.retryStatus(status)
  }

  // Why the loop stopped after the given number of attempts.
  predicate Explains(w: World, o: Options, req: Request, attempts: nat, outcome: Outcome) {
    (attempts > 0 ==> o.maxRetries >= 0 || !CanRetry(req)) &&
    match outcome
    case NotReached => attempts == 0 && CanRetry(req) && o.maxRetries < 0
    case Cancelled => attempts > 0 && Retries(w, o, req, attempts - 1) && w.cancelled(attempts)
    case ReplayFailed => attempts > 0 && Retries(w, o, req, attempts - 1) && !w.cancelled(attempts)
                         && req.hasGetBody && !w.replays(attempts)
    case Returned(k) => attempts == k + 1 && !Retries(w, o, req, k) && w.reply(k).Response?
    case Failed(err) => attempts > 0 && w.reply(attempts - 1) == Failure(err) && (!CanRetry(req) || !o.retryError(err))
    case FailedAfterRetries(err) => attempts == o.maxRetries + 1 > 0 && w.reply(attempts - 1) == Failure(err)
                                    && CanRetry(req) && o.retryError(err)
  }

  // Attempt k may begin: it is the first, or the one before it asked for a retry
  // and neither the wait nor the replay failed.
  predicate Begins(w: World, o: Options, req: Request, k: nat) {
    k > 0 ==> Retries(w, o, req, k - 1) && !w.cancelled(k) && (req.hasGetBody ==> w.replays(k))
  }

  predicate WentOn(w: World, o: Options, req: Request, attempts: nat) {
    forall k: nat :: k < attempts ==> Begins(w, o, req, k)
  }

  // bodies[k] is the body attempt k sends: 0 for the caller's, k for the one
  // GetBody made before retry k. closed lists the attempts whose response body
  // has been closed.
  method RoundTrip(w: World, o: Options, req: Request)
    returns (outcome: Outcome, attempts: nat, bodies: seq<nat>, closed: seq<nat>)
    ensures WentOn(w, o, req, attempts) && Explains(w, o, req, attempts, outcome)
    ensures outcome == NotReached <==> CanRetry(req) && o.maxRetries < 0
    ensures o.maxRetries >= 0 || !CanRetry(req) ==> 1 <= attempts <= (if CanRetry(req) then o.maxRetries + 1 else 1)
    // Each retry of a request with GetBody sends a fresh body.
    ensures |bodies| == attempts
    ensures forall k :: 0 <= k < attempts ==> bodies[k] == if req.hasGetBody then k else 0
    // A response received is returned open, or closed exactly once.
    ensures forall i, j :: 0 <= i < j < |closed| ==> closed[i] < closed[j]
    ensures forall k: nat :: k in closed <==> k < attempts && w.reply(k).Response? && outcome != Returned(k)
  {
    attempts, bodies, closed := 0, [], [];
    var body := 0;
    var canRetry := !req.hasBody || req.hasGetBody;
    var maxAttempts := o.maxRetries + 1;
    if !canRetry {
      maxAttempts := 1;
    }
    var attempt: nat := 0;
    while attempt < maxAttempts
      invariant attempt <= maxAttempts || attempt == 0
      invariant attempts == attempt == |bodies|
      invariant attempt > 0 ==> Retries(w, o, req, attempt - 1)
      invariant WentOn(w, o, req, attempts)
      invariant attempt > 0 ==> body == bodies[attempt - 1]
      invariant attempt == 0 ==> body == 0
      invariant forall k :: 0 <= k < attempts ==> bodies[k] == if req.hasGetBody then k else 0
      invariant forall i, j :: 0 <= i < j < |closed| ==> closed[i] < closed[j]
      invariant forall i :: 0 <= i < |closed| ==> closed[i] < attempts
      invariant forall k: nat :: k in closed <==> k < attempts && w.reply(k).Response?
      decreases maxAttempts - attempt
    {
      if attempt > 0 {
        if w.cancelled(attempt) {
          outcome := Cancelled;
          return;
        }
        if req.hasGetBody {
          if !w.replays(attempt) {
            outcome := ReplayFailed;
            return;
          }
          body := attempt;
        }
      }
      assert Begins(w, o, req, attempt);
      bodies := bodies + [body];
      attempts := attempts + 1;
      match w.reply(attempt) {
        case Failure(err) =>
          if !canRetry || !o.retryError(err) {
            outcome := Failed(err);
            return;
          }
          if attempt >= o.maxRetries {
            outcome := FailedAfterRetries(err);
            return;
          }
        case Response(status) =>
          if canRetry && o.retryStatus(status) && attempt < o.maxRetries {
            closed := closed + [attempt];
          } else {
            outcome := Returned(attempt);
            return;
          }
      }
      attempt := attempt + 1;
    }
    outcome := NotReached;
  }

  // The explanation pins the result down: number of attempts and outcome are
  // determined by the world.
  lemma RoundTripDetermined(w: World, o: Options, req: Request, m: nat, a: Outcome, n: nat, b: Outcome)
    requires WentOn(w, o, req, m) && Explains(w, o, req, m, a)
    requires WentOn(w, o, req, n) && Explains(w, o, req, n, b)
    ensures m == n && a == b
  {
    if m < n {
      StopsOnce(w, o, req, m, a, n);
    } else if n < m {
      StopsOnce(w, o, req, n, b, m);
    }
  }

  // Whether the reply is one the options retry.
  predicate Wanted(o: Options, r: Reply) {
    (r.Failure? && o.retryError(r.err)) || (r.Response? && o.retryStatus(r.status))
  }

  predicate Followed(w: World, o: Options, req: Request, k: nat) {
    CanRetry(req) && k < o.maxRetries && Wanted(o, w.reply(k))
    && !w.cancelled(k + 1) && (req.hasGetBody ==> w.replays(k + 1))
  }

  // In plain terms: every attempt but the last got a reply the options retry, on a
  // request that can be sent again and before the retries ran out. The last one
  // decides: its response or error is handed out if the request cannot be sent
  // again, the options do not retry it or the retries have run out; otherwise the
  // wait was cancelled, or else the body could not be made again.
  lemma RoundTripMeaning(w: World, o: Options, req: Request, attempts: nat, outcome: Outcome)
    requires WentOn(w, o, req, attempts) && Explains(w, o, req, attempts, outcome) && attempts > 0
    ensures forall k: nat :: k + 1 < attempts ==> Followed(w, o, req, k)
    ensures var last, reply := attempts - 1, w.reply(attempts - 1);
      if CanRetry(req) && Wanted(o, reply) && last < o.maxRetries then
        outcome == if w.cancelled(attempts) then Cancelled else ReplayFailed
      else if reply.Response? then outcome == Returned(last)
      else
        outcome == if CanRetry(req) && o.retryError(reply.err) then FailedAfterRetries(reply.err) else Failed(reply.err)
    ensures outcome == ReplayFailed ==> req.hasGetBody && !w.replays(attempts)
  {
    forall k: nat | k + 1 < attempts
      ensures Followed(w, o, req, k)
    {
      assert Begins(w, o, req, k + 1);
    }
  }

  lemma StopsOnce(w: World, o: Options, req: Request, m: nat, a: Outcome, n: nat)
    requires Explains(w, o, req, m, a) && WentOn(w, o, req, n)
    requires n > 0 ==> o.maxRetries >= 0 || !CanRetry(req)
    ensures m >= n
  {
    assert m < n ==> Begins(w, o, req, m);
  }
}

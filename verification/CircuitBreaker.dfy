/**
 The circuit breaker in front of the payment gateway.  Calls overlap: one may begin, succeed
 or throw while others are out.  A reply with `success: false` is a reply, so it counts as a
 success; only a thrown error counts as a failure.  Time is in milliseconds.
 */
module CircuitBreaker {
  const CIRCUIT_FAILURE_THRESHOLD: nat := 5
  const CIRCUIT_RECOVERY_MS: nat := 60_000

  datatype CircuitState = Closed | HalfOpen | Open

  datatype Breaker = Breaker(state: CircuitState, failureCount: nat, successCount: nat, lastFailureTime: int)

  function FreshBreaker(): Breaker {
    Breaker(Closed, 0, 0, 0)
  }

  function Evaluated(b: Breaker, now: int): Breaker {
    if b.state == Open && now - b.lastFailureTime >= CIRCUIT_RECOVERY_MS then b.(state := HalfOpen) else b
  }

  function Succeeded(b: Breaker): Breaker {
    b.(state := if b.state == HalfOpen then Closed else b.state,
    failureCount := 0, successCount := b.successCount + 1)
  }

  function Failed(b: Breaker, now: int): Breaker {
    var n := b.failureCount + 1;
    b.(state := if b.state == HalfOpen || n >= CIRCUIT_FAILURE_THRESHOLD then Open else b.state,
    failureCount := n, lastFailureTime := now)
  }

  // ---- The breaker as written -----------------------------------------

  class CircuitBreaker {
    var state: CircuitState
    var failureCount: nat
    var successCount: nat
    var lastFailureTime: int

    function Value(): Breaker
      reads this
    {
      Breaker(state, failureCount, successCount, lastFailureTime)
    }

    constructor ()
      ensures Value() == FreshBreaker()
    {
      state, failureCount, successCount, lastFailureTime := Closed, 0, 0, 0;
    }

    method EvaluateState(now: int)
      modifies this`state
      ensures Value() == Evaluated(old(Value()), now)
    {
      if state != Open { return; }
      var elapsed := now - lastFailureTime;
      if elapsed >= CIRCUIT_RECOVERY_MS { state := HalfOpen; }
    }

    method GetState(now: int) returns (s: CircuitState)
      modifies this`state
      ensures Value() == Evaluated(old(Value()), now) && s == state
    {
      EvaluateState(now);
      s := state;
    }

    /** The first half of `execute`: true iff the call goes out. */
    method Enter(now: int) returns (admitted: bool)
      modifies this`state
      ensures Value() == Evaluated(old(Value()), now)
      ensures admitted <==> Evaluated(old(Value()), now).state != Open
    {
      EvaluateState(now);
      admitted := state != Open;
    }

    method OnSuccess()
      modifies this
      ensures Value() == Succeeded(old(Value()))
    {
      if state == HalfOpen {
        failureCount := 0;
        state := Closed;
      }
      successCount := successCount + 1;
      failureCount := 0;
    }

    method OnFailure(now: int)
      modifies this
      ensures Value() == Failed(old(Value()), now)
    {
      failureCount := failureCount + 1;
      lastFailureTime := now;
      if state == HalfOpen {
        state := Open;
        return;
      }
      if failureCount >= CIRCUIT_FAILURE_THRESHOLD { state := Open; }
    }
  }

  // ---- Every interleaving ---------------------------------------------

  /** Calls that begin, reply (with either verdict) or throw, in any order. */
  datatype CallEvent = Begins(now: int) | Replies(success: bool) | Throws(now: int)

  function Handle(b: Breaker, e: CallEvent): Breaker {
    match e
    case Begins(now) => Evaluated(b, now)
    case Replies(_) => Succeeded(b)
    case Throws(now) => Failed(b, now)
  }

  function Traffic(events: seq<CallEvent>): Breaker {
    if events == [] then FreshBreaker()
    else Handle(Traffic(events[..|events| - 1]), events[|events| - 1])
  }

  /** In every interleaving, a closed breaker has counted fewer than five failures. */
  lemma {:induction false} ClosedMeansFewFailures(events: seq<CallEvent>)
    ensures Traffic(events).state == Closed ==> Traffic(events).failureCount < 5
  {
    if events != [] { ClosedMeansFewFailures(events[..|events| - 1]); }
  }

  /** However many deposits the POS declines, a breaker that sees no thrown error never opens. */
  lemma {:induction false} DeclinesNeverOpen(events: seq<CallEvent>)
    requires forall i :: 0 <= i < |events| ==> !events[i].Throws?
    ensures Traffic(events).state == Closed && Traffic(events).failureCount == 0
  {
    if events != [] {
      assert forall i :: 0 <= i < |events| - 1 ==> events[..|events| - 1][i] == events[i];
      DeclinesNeverOpen(events[..|events| - 1]);
    }
  }

  lemma TrafficThen(events: seq<CallEvent>, e: CallEvent)
    ensures Traffic(events + [e]) == Handle(Traffic(events), e)
  {
    assert (events + [e])[..|events|] == events;
  }

  function Failures(now: int, n: nat): (events: seq<CallEvent>)
    ensures |events| == n && forall i :: 0 <= i < n ==> events[i] == Throws(now)
  {
    seq(n, i => Throws(now))
  }

  /** A closed breaker without failures opens at the fifth in a row and not before. */
  lemma {:induction false} OpensAtTheFifth(events: seq<CallEvent>, now: int, n: nat)
    requires Traffic(events).state == Closed && Traffic(events).failureCount == 0 && n <= 5
    ensures var b := Traffic(events + Failures(now, n));
            b.failureCount == n && b.state == (if n < 5 then Closed else Open)
  {
    if n == 0 {
      assert events + Failures(now, 0) == events;
    } else {
      OpensAtTheFifth(events, now, n - 1);
      assert events + Failures(now, n) == events + Failures(now, n - 1) + [Throws(now)];
      TrafficThen(events + Failures(now, n - 1), Throws(now));
    }
  }

  /** Recovery, after any interleaving that has left the breaker open.  A call that begins less than 60000 ms
      after the last failure is refused.  A later one is let out, and decides: any reply closes the breaker,
      which then takes five failures in a row to open again; an error opens it for another 60000 ms. */
  lemma RecoveryDecides(events: seq<CallEvent>, begin: int, success: bool, end: int, later: int, n: nat)
    requires Traffic(events).state == Open && n <= 5
    ensures var trial := events + [Begins(begin)];
            if begin < Traffic(events).lastFailureTime + 60_000 then Traffic(trial).state == Open
            else
              && Traffic(trial).state == HalfOpen
              && (Traffic(trial + [Replies(success)] + Failures(end, n)).state == if n < 5 then Closed else Open)
              && Traffic(trial + [Throws(end)]).state == Open
              && (Traffic(trial + [Throws(end), Begins(later)]).state == Open <==> later < end + 60_000)
  {
    var trial := events + [Begins(begin)];
    TrafficThen(events, Begins(begin));
    TrafficThen(trial, Replies(success));
    TrafficThen(trial, Throws(end));
    TrafficThen(trial + [Throws(end)], Begins(later));
    assert trial + [Throws(end), Begins(later)] == trial + [Throws(end)] + [Begins(later)];
    if begin >= Traffic(events).lastFailureTime + 60_000 { OpensAtTheFifth(trial + [Replies(success)], end, n); }
  }

  // ---- An outage ------------------------------------------------------

  /** A call made one after the other: when it was made and, if it went out, when it threw. */
  datatype Attempt = Attempt(begin: int, end: int)

  predicate Sequential(attempts: seq<Attempt>) {
    && (forall i :: 0 <= i < |attempts| ==> attempts[i].begin <= attempts[i].end)
    && (forall i :: 0 <= i < |attempts| - 1 ==> attempts[i].end <= attempts[i + 1].begin)
  }

  predicate GoesOut(b: Breaker, x: Attempt) {
    Evaluated(b, x.begin).state != Open
  }

  function Outage(attempts: seq<Attempt>): Breaker {
    if attempts == [] then FreshBreaker()
    else
      var b, x := Outage(attempts[..|attempts| - 1]), attempts[|attempts| - 1];
      if GoesOut(b, x) then Failed(Evaluated(b, x.begin), x.end) else Evaluated(b, x.begin)
  }

  /** How many of the calls reached the POS. */
  function Reached(attempts: seq<Attempt>): nat {
    if attempts == [] then 0
    else
      var k := |attempts| - 1;
      Reached(attempts[..k]) + if GoesOut(Outage(attempts[..k]), attempts[k]) then 1 else 0
  }

  /** After five calls the breaker is open, and each further call had to wait out the recovery time. */
  lemma {:induction false} OutageState(attempts: seq<Attempt>)
    requires Sequential(attempts)
    ensures var b, n := Outage(attempts), Reached(attempts);
            && b.failureCount == n
            && b.state == (if n < CIRCUIT_FAILURE_THRESHOLD then Closed else Open)
            && (n > 0 ==> |attempts| > 0 && b.lastFailureTime <= attempts[|attempts| - 1].end)
            && (n >= CIRCUIT_FAILURE_THRESHOLD ==>
                  |attempts| > 0 &&
                  b.lastFailureTime >= attempts[0].begin + (n - CIRCUIT_FAILURE_THRESHOLD) * CIRCUIT_RECOVERY_MS)
  {
    if attempts != [] {
      var k := |attempts| - 1;
      OutageState(attempts[..k]);
      BeginsRise(attempts, k);
      if k > 0 { assert attempts[..k][0] == attempts[0] && attempts[..k][k - 1] == attempts[k - 1]; }
    }
  }

  lemma {:induction false} BeginsRise(attempts: seq<Attempt>, i: nat)
    requires Sequential(attempts) && i < |attempts|
    ensures attempts[0].begin <= attempts[i].begin
  {
    if i > 0 { BeginsRise(attempts, i - 1); }
  }

  /** From a fresh breaker, if every call made within `span` milliseconds throws, at most
      5 + floor(span / 60000) of them reach the POS. */
  lemma OutageBound(attempts: seq<Attempt>, span: nat)
    requires Sequential(attempts)
    requires forall i :: 0 <= i < |attempts| ==> attempts[i].begin <= attempts[0].begin + span
    ensures Reached(attempts) <= 5 + span / 60_000
  {
    if Reached(attempts) > CIRCUIT_FAILURE_THRESHOLD {
      var k := LastReached(attempts);
      OutageState(attempts[..k]);
      assert attempts[..k][0] == attempts[0];
      var over := Reached(attempts) - CIRCUIT_FAILURE_THRESHOLD;
      assert attempts[k].begin >= attempts[0].begin + over * CIRCUIT_RECOVERY_MS;
    }
  }

  /** The last call that went out. */
  lemma {:induction false} LastReached(attempts: seq<Attempt>) returns (k: nat)
    requires Reached(attempts) > 0
    ensures k < |attempts| && GoesOut(Outage(attempts[..k]), attempts[k])
    ensures Reached(attempts[..k]) == Reached(attempts) - 1
  {
    k := |attempts| - 1;
    if !GoesOut(Outage(attempts[..k]), attempts[k]) {
      var n := k;
      k := LastReached(attempts[..n]);
      assert attempts[..n][..k] == attempts[..k];
    }
  }

  /** A caller that tries as soon as the breaker lets it. */
  function Persistent(n: nat): (attempts: seq<Attempt>)
    ensures |attempts| == n
    ensures forall i :: 0 <= i < n ==> attempts[i] == Attempt(Due(i), Due(i))
  {
    if n == 0 then [] else Persistent(n - 1) + [Attempt(Due(n - 1), Due(n - 1))]
  }

  function Due(i: nat): int {
    if i < CIRCUIT_FAILURE_THRESHOLD then 0 else (i - CIRCUIT_FAILURE_THRESHOLD + 1) * CIRCUIT_RECOVERY_MS
  }

  lemma OneMore(before: seq<Attempt>, x: Attempt)
    requires GoesOut(Outage(before), x)
    ensures Reached(before + [x]) == Reached(before) + 1
    ensures Outage(before + [x]).lastFailureTime == x.end
  {
    assert (before + [x])[..|before|] == before;
  }

  /** A call made as soon as it is due goes out. */
  lemma DueGoesOut(before: seq<Attempt>, n: nat)
    requires Sequential(before) && Reached(before) == n
    requires n > 0 ==> Outage(before).lastFailureTime == Due(n - 1)
    ensures GoesOut(Outage(before), Attempt(Due(n), Due(n)))
  {
    OutageState(before);
    if n >= CIRCUIT_FAILURE_THRESHOLD { assert Due(n) - Due(n - 1) == CIRCUIT_RECOVERY_MS; }
  }

  lemma {:induction false} PersistentSequential(n: nat)
    ensures Sequential(Persistent(n))
  {
    forall i | 0 <= i < n - 1 ensures Persistent(n)[i].end <= Persistent(n)[i + 1].begin {
      assert Persistent(n)[i].end == Due(i) && Persistent(n)[i + 1].begin == Due(i + 1);
    }
  }

  /** The bound is met exactly: every one of these calls reaches the POS, so after the first five one
      more does for every recovery time that has passed. */
  lemma {:induction false} BoundIsMet(n: nat)
    ensures Reached(Persistent(n)) == n
    ensures n > 0 ==> Outage(Persistent(n)).lastFailureTime == Due(n - 1)
  {
    if n > 0 {
      BoundIsMet(n - 1);
      PersistentSequential(n - 1);
      DueGoesOut(Persistent(n - 1), n - 1);
      OneMore(Persistent(n - 1), Attempt(Due(n - 1), Due(n - 1)));
    }
  }

  /** The outage bound is exact: for every span some calls made within it, all of which throw, reach the
      POS exactly 5 + floor(span / 60000) times. */
  lemma OutageBoundIsExact(span: nat)
    ensures var n := 5 + span / 60_000;
            && Sequential(Persistent(n)) && Reached(Persistent(n)) == n
            && forall i :: 0 <= i < n ==> Persistent(n)[i].begin <= Persistent(n)[0].begin + span
  {
    var n := CIRCUIT_FAILURE_THRESHOLD + span / CIRCUIT_RECOVERY_MS;
    PersistentSequential(n);
    BoundIsMet(n);
    forall i | 0 <= i < n ensures Persistent(n)[i].begin <= Persistent(n)[0].begin + span {
      assert Persistent(n)[i].begin == Due(i) && Persistent(n)[0].begin == Due(0) == 0;
      DueWithin(i, span);
    }
  }

  lemma DueWithin(i: nat, span: nat)
    requires i < CIRCUIT_FAILURE_THRESHOLD + span / CIRCUIT_RECOVERY_MS
    ensures Due(i) <= span
  {
    if i >= CIRCUIT_FAILURE_THRESHOLD {
      assert i - CIRCUIT_FAILURE_THRESHOLD + 1 <= span / CIRCUIT_RECOVERY_MS;
    }
  }
}

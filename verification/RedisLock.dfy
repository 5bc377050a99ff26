/**
 The Redis lock and the fixed-window rate limiter: each command is atomic, keys expire by the
 clock and are not evicted.  Time is in milliseconds.
 */
module RedisLock {
  import opened Wrappers

  type RedisKey = nat
  type Token = nat

  datatype Lease = Lease(token: Token, until: int)

  type Leases = map<RedisKey, Lease>

  /** GET: an expired key is absent. */
  function Holder(s: Leases, key: RedisKey, now: int): Option<Token> {
    if key in s && now < s[key].until then Some(s[key].token) else None
  }

  datatype LockCommand =
    | Acquire(key: RedisKey, token: Token, ttl: nat, now: int)
    | Release(key: RedisKey, token: Token, now: int)

  /** SET NX PX succeeds iff the key is absent; the release script deletes iff the token matches. */
  predicate Succeeds(s: Leases, e: LockCommand) {
    match e
    case Acquire(key, _, _, now) => Holder(s, key, now).None?
    case Release(key, token, now) => Holder(s, key, now) == Some(token)
  }

  function LockStep(s: Leases, e: LockCommand): Leases {
    if !Succeeds(s, e) then s
    else match e
      case Acquire(key, token, ttl, now) => s[key := Lease(token, now + ttl)]
      case Release(key, _, _) => s - {key}
  }

  function LockRun(trace: seq<LockCommand>): Leases {
    if trace == [] then map[] else LockStep(LockRun(trace[..|trace| - 1]), trace[|trace| - 1])
  }

  predicate Ordered(trace: seq<LockCommand>) {
    forall i, j :: 0 <= i <= j < |trace| ==> trace[i].now <= trace[j].now
  }

  /** Command `i` of the trace acquired the lock. */
  predicate Acquired(trace: seq<LockCommand>, i: nat)
    requires i < |trace|
  {
    trace[i].Acquire? && Succeeds(LockRun(trace[..i]), trace[i])
  }

  /** Between commands `i` and `j` somebody released the key with the token of command `i`. */
  predicate ReleasedBetween(trace: seq<LockCommand>, i: nat, j: nat)
    requires i < |trace| && j <= |trace|
  {
    exists r :: i < r < j && trace[r].Release? && trace[r].key == trace[i].key && trace[r].token == trace[i].token
  }

  lemma {:induction false} LeaseStands(trace: seq<LockCommand>, i: nat, j: nat)
    requires Ordered(trace) && i < j <= |trace| && Acquired(trace, i)
    requires trace[j - 1].now < trace[i].now + trace[i].ttl && !ReleasedBetween(trace, i, j)
    ensures var s := LockRun(trace[..j]);
            trace[i].key in s && s[trace[i].key] == Lease(trace[i].token, trace[i].now + trace[i].ttl)
  {
    assert trace[..j][..j - 1] == trace[..j - 1];
    if i < j - 1 {
      assert trace[j - 2].now <= trace[j - 1].now;
      LeaseStands(trace, i, j - 1);
      assert trace[i].now <= trace[j - 1].now;
    }
  }

  /** Mutual exclusion, as far as the lock goes: when a key is acquired a second time, the first lease
      has run out or was released with its own token. */
  lemma Exclusive(trace: seq<LockCommand>, i: nat, j: nat)
    requires Ordered(trace) && i < j < |trace|
    requires Acquired(trace, i) && Acquired(trace, j) && trace[i].key == trace[j].key
    ensures trace[j].now >= trace[i].now + trace[i].ttl || ReleasedBetween(trace, i, j)
  {
    if trace[j].now < trace[i].now + trace[i].ttl && !ReleasedBetween(trace, i, j) {
      assert trace[j - 1].now <= trace[j].now;
      LeaseStands(trace, i, j);
      assert false;
    }
  }

  /** A lease that is still good comes from an acquisition that nobody has released. */
  lemma {:induction false} LeaseComesFrom(trace: seq<LockCommand>, j: nat, key: RedisKey, now: int) returns (i: nat)
    requires Ordered(trace) && j <= |trace| && (j > 0 ==> trace[j - 1].now <= now)
    requires Holder(LockRun(trace[..j]), key, now).Some?
    ensures i < j && Acquired(trace, i) && trace[i].key == key && !ReleasedBetween(trace, i, j)
    ensures LockRun(trace[..j])[key] == Lease(trace[i].token, trace[i].now + trace[i].ttl)
  {
    var e, s := trace[j - 1], LockRun(trace[..j - 1]);
    assert trace[..j][..j - 1] == trace[..j - 1];
    if e.Acquire? && e.key == key && Succeeds(s, e) {
      i := j - 1;
    } else {
      assert key in s && s[key] == LockRun(trace[..j])[key];
      if j > 1 { assert trace[j - 2].now <= trace[j - 1].now; }
      i := LeaseComesFrom(trace, j - 1, key, now);
    }
  }

  /** Command `i` acquired the key, its lease is still good at `now`, and nobody has released it before `j`. */
  predicate StillLeased(trace: seq<LockCommand>, i: nat, j: nat, key: RedisKey, now: int)
    requires j <= |trace|
  {
    && i < j && Acquired(trace, i) && trace[i].key == key
    && now < trace[i].now + trace[i].ttl && !ReleasedBetween(trace, i, j)
  }

  /** Who holds a key, at any moment of any trace: the token of the one acquisition whose lease is still good. */
  lemma HolderIff(trace: seq<LockCommand>, j: nat, key: RedisKey, token: Token, now: int)
    requires Ordered(trace) && j <= |trace| && (j > 0 ==> trace[j - 1].now <= now)
    ensures Holder(LockRun(trace[..j]), key, now) == Some(token)
            <==> exists i: nat :: StillLeased(trace, i, j, key, now) && trace[i].token == token
  {
    if Holder(LockRun(trace[..j]), key, now) == Some(token) {
      var i := LeaseComesFrom(trace, j, key, now);
      assert StillLeased(trace, i, j, key, now);
    }
    if i: nat :| StillLeased(trace, i, j, key, now) && trace[i].token == token { LeaseStands(trace, i, j); }
  }

  /** An acquisition fails iff an earlier one still has its lease, and a release succeeds iff it has the token of
      the one that has: so a key that is free or expired can always be acquired. */
  lemma SucceedsIff(trace: seq<LockCommand>, j: nat)
    requires Ordered(trace) && j < |trace|
    ensures var e := trace[j];
            Succeeds(LockRun(trace[..j]), e)
            <==> if e.Acquire? then !exists i: nat :: StillLeased(trace, i, j, e.key, e.now)
                 else exists i: nat :: StillLeased(trace, i, j, e.key, e.now) && trace[i].token == e.token
  {
    hide LockRun, Acquired, ReleasedBetween;
    var e := trace[j];
    if j > 0 { assert trace[j - 1].now <= e.now; }
    forall token: Token ensures Holder(LockRun(trace[..j]), e.key, e.now) == Some(token)
                         <==> exists i: nat :: StillLeased(trace, i, j, e.key, e.now) && trace[i].token == token
    {
      HolderIff(trace, j, e.key, token, e.now);
    }
    if i: nat :| StillLeased(trace, i, j, e.key, e.now) {
      assert Holder(LockRun(trace[..j]), e.key, e.now) == Some(trace[i].token);
    }
  }

  /** A late release takes nothing from the next holder. */
  lemma ReleaseTakesOnlyItsOwn(s: Leases, key: RedisKey, token: Token, now: int, k: RedisKey)
    requires k != key || Holder(s, key, now) != Some(token)
    ensures Holder(LockStep(s, Release(key, token, now)), k, now) == Holder(s, k, now)
    ensures !Succeeds(LockStep(s, Release(key, token, now)), Release(key, token, now))
  {
  }

  // ---- The rate limiter -----------------------------------------------

  /** The counter of one key; `until` is when it expires. */
  datatype Counter = Counter(count: nat, until: int)

  /** INCR on an absent or expired key starts a new window, and only then is EXPIRE set. */
  function Count(c: Option<Counter>, now: int, window: nat): Counter {
    var stored := if c.Some? && now < c.value.until then c.value.count else 0;
    Counter(stored + 1, if stored == 0 then now + window else c.value.until)
  }

  /** The counter after requests at these times, and how many of those in [from, to) were admitted. */
  function CounterAfter(times: seq<int>, window: nat): Option<Counter> {
    if times == [] then None
    else Some(Count(CounterAfter(times[..|times| - 1], window), times[|times| - 1], window))
  }

  /** What the counter read after request `i`, and whether that let it through. */
  function CountAt(times: seq<int>, i: nat, window: nat): nat
    requires i < |times|
  {
    CounterAfter(times[..i + 1], window).value.count
  }

  predicate Admitted(times: seq<int>, i: nat, maxCount: nat, window: nat)
    requires i < |times|
  {
    CountAt(times, i, window) <= maxCount
  }

  function AdmittedIn(times: seq<int>, from: int, to: int, maxCount: nat, window: nat): nat {
    if times == [] then 0
    else
      var k := |times| - 1;
      AdmittedIn(times[..k], from, to, maxCount, window)
      + if from <= times[k] < to && CounterAfter(times, window).value.count <= maxCount then 1 else 0
  }

  predicate Rising(times: seq<int>) {
    forall i, j :: 0 <= i <= j < |times| ==> times[i] <= times[j]
  }

  function Least(x: nat, y: nat): nat {
    if x < y then x else y
  }

  /** The bound on what [from, from + window) has admitted, by the window now open: one that opened
      before `from` spent its first request there, and at most one opens inside. */
  function Allowance(c: Option<Counter>, from: int, maxCount: nat, window: nat): nat
    requires maxCount > 0
  {
    match c
    case None => 0
    case Some(Counter(count, until)) =>
      if until < from + window then Least(if count == 0 then 0 else count - 1, maxCount - 1)
      else if until < from + 2 * window then maxCount - 1 + Least(count, maxCount)
      else 2 * maxCount - 1
  }

  lemma {:induction false} WithinAllowance(times: seq<int>, from: int, maxCount: nat, window: nat)
    requires Rising(times) && maxCount > 0
    ensures AdmittedIn(times, from, from + window, maxCount, window)
         <= Allowance(CounterAfter(times, window), from, maxCount, window)
    ensures times != [] && times[|times| - 1] < from ==>
              AdmittedIn(times, from, from + window, maxCount, window) == 0
    ensures CounterAfter(times, window).Some? ==>
              && CounterAfter(times, window).value.count > 0
              && CounterAfter(times, window).value.until <= times[|times| - 1] + window
  {
    if times != [] {
      var k := |times| - 1;
      WithinAllowance(times[..k], from, maxCount, window);
      if k > 0 { assert times[k - 1] <= times[k]; }
    }
  }

  /** Any half-open interval as long as the window admits at most 2 * maxCount - 1 requests: one less
      than the boundary burst the design documents allow for. */
  lemma IntervalBound(times: seq<int>, from: int, maxCount: nat, window: nat)
    requires Rising(times)
    ensures AdmittedIn(times, from, from + window, maxCount, window) <= if maxCount == 0 then 0 else 2 * maxCount - 1
  {
    if maxCount == 0 { NothingAdmitted(times, from, from + window, window); }
    else { WithinAllowance(times, from, maxCount, window); }
  }

  lemma {:induction false} NothingAdmitted(times: seq<int>, from: int, to: int, window: nat)
    ensures AdmittedIn(times, from, to, 0, window) == 0
    ensures CounterAfter(times, window).Some? ==> CounterAfter(times, window).value.count > 0
  {
    if times != [] { NothingAdmitted(times[..|times| - 1], from, to, window); }
  }

  lemma CountNext(times: seq<int>, i: nat, window: nat)
    requires i + 1 < |times|
    ensures CountAt(times, i + 1, window) == 1 || CountAt(times, i + 1, window) == CountAt(times, i, window) + 1
  {
    assert times[..i + 2][..i + 1] == times[..i + 1];
  }

  /** Each window admits exactly its first `maxCount` requests: `i` opened it, and the counter has not
      restarted up to `j`. */
  lemma {:induction false} WindowAdmitsFirst(times: seq<int>, i: nat, j: nat, maxCount: nat, window: nat)
    requires i <= j < |times| && CountAt(times, i, window) == 1
    requires forall k :: i < k <= j ==> CountAt(times, k, window) > 1
    ensures CountAt(times, j, window) == j - i + 1
    ensures Admitted(times, j, maxCount, window) <==> j - i < maxCount
  {
    if i < j {
      WindowAdmitsFirst(times, i, j - 1, maxCount, window);
      CountNext(times, j - 1, window);
    }
  }

  // ---- The bound is reached -------------------------------------------

  function Repeat(t: int, n: nat): (r: seq<int>)
    ensures |r| == n && forall i :: 0 <= i < n ==> r[i] == t
  {
    seq(n, i => t)
  }

  /** One early request, then the rest of that window's share at its last instant, then the next
      window's. */
  function Burst(maxCount: nat, window: nat): seq<int>
    requires maxCount > 0 && window > 0
  {
    [0] + Repeat(window - 1, maxCount - 1) + Repeat(window, maxCount)
  }

  /** `n` more requests at one instant within an open window with room for them. */
  lemma {:induction false} MoreAtOnce(times: seq<int>, t: int, n: nat, from: int, maxCount: nat, window: nat)
    requires times != [] && CounterAfter(times, window).value.until > t && from <= t < from + window
    requires CounterAfter(times, window).value.count + n <= maxCount
    ensures var more := times + Repeat(t, n);
            && CounterAfter(more, window)
               == Some(Counter(CounterAfter(times, window).value.count + n, CounterAfter(times, window).value.until))
            && AdmittedIn(more, from, from + window, maxCount, window)
               == AdmittedIn(times, from, from + window, maxCount, window) + n
  {
    if n == 0 {
      assert times + Repeat(t, 0) == times;
    } else {
      MoreAtOnce(times, t, n - 1, from, maxCount, window);
      assert (times + Repeat(t, n))[..|times| + n - 1] == times + Repeat(t, n - 1);
    }
  }

  /** For every limit and every window of at least two ticks of the clock, some trace reaches the bound. */
  lemma BoundIsReached(maxCount: nat, window: nat)
    requires maxCount > 0 && window > 1
    ensures Rising(Burst(maxCount, window))
    ensures AdmittedIn(Burst(maxCount, window), window - 1, window - 1 + window, maxCount, window) == 2 * maxCount - 1
  {
    var first, from := [0], window - 1;
    assert first[..0] == [];
    assert AdmittedIn(first, from, from + window, maxCount, window) == 0;
    MoreAtOnce(first, window - 1, maxCount - 1, from, maxCount, window);
    var second := first + Repeat(window - 1, maxCount - 1);
    var third := second + [window];
    assert third[..|second|] == second;
    assert CounterAfter(third, window) == Some(Counter(1, window + window));
    MoreAtOnce(third, window, maxCount - 1, from, maxCount, window);
    assert Burst(maxCount, window) == third + Repeat(window, maxCount - 1);
  }

  // ---- The service ----------------------------------------------------

  class RedisLockService {
    var leases: Leases
    var counters: map<RedisKey, Counter>

    constructor ()
      ensures leases == map[] && counters == map[]
    {
      leases, counters := map[], map[];
    }

    function CounterOf(key: RedisKey): Option<Counter>
      reads this
    {
      if key in counters then Some(counters[key]) else None
    }

    /** `acquire`: the token, or nothing if somebody holds the key. */
    method Acquire(key: RedisKey, lockValue: Token, ttl: nat, now: int) returns (acquired: Option<Token>)
      modifies this`leases
      ensures leases == LockStep(old(leases), LockCommand.Acquire(key, lockValue, ttl, now))
      ensures acquired
           == if Succeeds(old(leases), LockCommand.Acquire(key, lockValue, ttl, now)) then Some(lockValue) else None
    {
      if key in leases && now < leases[key].until { return None; }
      leases := leases[key := Lease(lockValue, now + ttl)];
      return Some(lockValue);
    }

    /** `release`: compare and delete. */
    method Release(key: RedisKey, lockValue: Token, now: int) returns (released: bool)
      modifies this`leases
      ensures leases == LockStep(old(leases), LockCommand.Release(key, lockValue, now))
      ensures released <==> Succeeds(old(leases), LockCommand.Release(key, lockValue, now))
    {
      released := key in leases && now < leases[key].until && leases[key].token == lockValue;
      if released { leases := leases - {key}; }
    }

    /** `checkRateLimit`. */
    method CheckRateLimit(key: RedisKey, maxCount: nat, window: nat, now: int) returns (allowed: bool, current: nat)
      modifies this`counters
      ensures CounterOf(key) == Some(Count(old(CounterOf(key)), now, window))
      ensures forall k :: k != key ==> CounterOf(k) == old(CounterOf(k))
      ensures current == CounterOf(key).value.count && allowed == (current <= maxCount)
    {
      var stored := if key in counters && now < counters[key].until then counters[key] else Counter(0, now);
      current := stored.count + 1;
      var until := stored.until;
      if current == 1 { until := now + window; }
      counters := counters[key := Counter(current, until)];
      allowed := current <= maxCount;
    }
  }
}

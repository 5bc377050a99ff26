/**
 Why settlement ends: what one pass of the worker loop does to a manifest's items, and how
 many passes can leave it in progress.
 */
module SettlementTicks {
  import opened Auctions
  import opened Settlement

  /** One attempt at an item: it is acknowledged, or has failed once more. */
  predicate Attempted(x: Item, y: Item) {
    y == Ack(x) || y == Fail(x)
  }

  /** `ys` results from the loop over `xs` from index `i` with `n` items already processed: up to
      the per-tick bound, each processable item is attempted once, and nothing else changes. */
  predicate Pass(xs: seq<Item>, ys: seq<Item>, i: nat, n: nat)
    requires |ys| == |xs|
    decreases |xs| - i
  {
    if i >= |xs| then true
    else if n >= ITEMS_PER_TICK then ys[i] == xs[i] && Pass(xs, ys, i + 1, n)
    else if Processable(xs[i]) then Attempted(xs[i], ys[i]) && Pass(xs, ys, i + 1, n + 1)
    else ys[i] == xs[i] && Pass(xs, ys, i + 1, n)
  }

  /** The loop so far: the items before `i`, `n` of them attempted. */
  predicate PassedTo(xs: seq<Item>, ys: seq<Item>, i: nat, n: nat)
    requires |ys| == |xs| && i <= |xs|
  {
    if i == 0 then n == 0
    else if Processable(xs[i - 1])
    then 0 < n <= ITEMS_PER_TICK && Attempted(xs[i - 1], ys[i - 1]) && PassedTo(xs, ys, i - 1, n - 1)
    else ys[i - 1] == xs[i - 1] && PassedTo(xs, ys, i - 1, n)
  }

  lemma {:induction false} PassedToDependsOnPrefix(xs: seq<Item>, ys: seq<Item>, zs: seq<Item>, i: nat, n: nat)
    requires |ys| == |xs| == |zs| && i <= |xs| && ys[..i] == zs[..i] && PassedTo(xs, ys, i, n)
    ensures PassedTo(xs, zs, i, n)
  {
    if i > 0 {
      assert ys[i - 1] == ys[..i][i - 1] == zs[..i][i - 1] == zs[i - 1];
      assert ys[..i - 1] == ys[..i][..i - 1] == zs[..i][..i - 1] == zs[..i - 1];
      PassedToDependsOnPrefix(xs, ys, zs, i - 1, if Processable(xs[i - 1]) then n - 1 else n);
    }
  }

  /** A loop that has passed to `i` and does the rest has done a pass. */
  lemma {:induction false} PassCompletes(xs: seq<Item>, ys: seq<Item>, i: nat, n: nat)
    requires |ys| == |xs| && i <= |xs| && PassedTo(xs, ys, i, n) && Pass(xs, ys, i, n)
    ensures Pass(xs, ys, 0, 0)
  {
    if i > 0 { PassCompletes(xs, ys, i - 1, if Processable(xs[i - 1]) then n - 1 else n); }
  }

  /** When the loop stops, the rest is as it was. */
  lemma {:induction false} PassStops(xs: seq<Item>, ys: seq<Item>, i: nat, n: nat)
    requires |ys| == |xs| && i <= |xs| && (i == |xs| || n >= ITEMS_PER_TICK) && ys[i..] == xs[i..]
    ensures Pass(xs, ys, i, n)
    decreases |xs| - i
  {
    if i < |xs| {
      assert ys[i] == ys[i..][0] == xs[i..][0] == xs[i];
      assert ys[i + 1..] == ys[i..][1..] == xs[i..][1..] == xs[i + 1..];
      PassStops(xs, ys, i + 1, n);
    }
  }

  /** The attempts an item has left. */
  function Remaining(it: Item): nat {
    if it.status == Acknowledged || it.retries >= MAX_RETRIES then 0 else MAX_RETRIES - it.retries
  }

  function TotalRemaining(items: seq<Item>, i: nat): nat
    decreases |items| - i
  {
    if i >= |items| then 0 else Remaining(items[i]) + TotalRemaining(items, i + 1)
  }

  function CountProcessable(items: seq<Item>, i: nat): nat
    decreases |items| - i
  {
    if i >= |items| then 0 else (if Processable(items[i]) then 1 else 0) + CountProcessable(items, i + 1)
  }

  /** What a stored manifest in progress looks like: nothing is `sent`, and whatever is not
      acknowledged has attempts left. */
  predicate Alive(items: seq<Item>) {
    forall i :: 0 <= i < |items| ==> AliveItem(items[i])
  }

  predicate AliveItem(it: Item) {
    it.status != Sent && (it.status == Acknowledged || it.retries < MAX_RETRIES)
  }

  /** `in_progress` always leaves something for the next tick. */
  lemma {:induction false} InProgressLeavesWork(items: seq<Item>)
    requires forall i :: 0 <= i < |items| ==> items[i].status != Sent
    requires Judge(items) == InProgress
    ensures exists i :: 0 <= i < |items| && Processable(items[i])
  {
    var i :| 0 <= i < |items| && items[i].status != Acknowledged;
    assert !Exhausted(items[i]);
    assert Processable(items[i]);
  }

  /** A pass spends one attempt on each of up to five processable items. */
  lemma {:induction false} PassSpends(xs: seq<Item>, ys: seq<Item>, i: nat, n: nat)
    requires |ys| == |xs| && Pass(xs, ys, i, n) && Alive(xs) && n <= ITEMS_PER_TICK
    ensures var left := ITEMS_PER_TICK - n;
            var p := CountProcessable(xs, i);
            TotalRemaining(ys, i) + (if p < left then p else left) <= TotalRemaining(xs, i)
    decreases |xs| - i
  {
    if i < |xs| {
      assert AliveItem(xs[i]);
      PassSpends(xs, ys, i + 1, if n < ITEMS_PER_TICK && Processable(xs[i]) then n + 1 else n);
    }
  }

  /** With at most five to do, a pass attempts everything that is not acknowledged. */
  lemma {:induction false} PassReachesAll(xs: seq<Item>, ys: seq<Item>, i: nat, n: nat, k: nat)
    requires |ys| == |xs| && Pass(xs, ys, i, n) && Alive(xs)
    requires n + CountProcessable(xs, i) <= ITEMS_PER_TICK && i <= k < |xs|
    ensures xs[k].status == Acknowledged ==> ys[k] == xs[k]
    ensures xs[k].status != Acknowledged ==> Attempted(xs[k], ys[k])
    decreases |xs| - i
  {
    assert AliveItem(xs[i]);
    if i < k { PassReachesAll(xs, ys, i + 1, if Processable(xs[i]) then n + 1 else n, k); }
  }

  lemma {:induction false} PassNeverAdds(xs: seq<Item>, ys: seq<Item>, i: nat, n: nat)
    requires |ys| == |xs| && Pass(xs, ys, i, n) && Alive(xs)
    ensures CountProcessable(ys, i) <= CountProcessable(xs, i)
    decreases |xs| - i
  {
    if i < |xs| {
      assert AliveItem(xs[i]);
      PassNeverAdds(xs, ys, i + 1, if n < ITEMS_PER_TICK && Processable(xs[i]) then n + 1 else n);
    }
  }

  lemma {:induction false} PassIndex(xs: seq<Item>, ys: seq<Item>, i: nat, n: nat, k: nat)
    requires |ys| == |xs| && Pass(xs, ys, i, n) && i <= k < |xs|
    ensures ys[k] == xs[k] || (Processable(xs[k]) && Attempted(xs[k], ys[k]))
    decreases |xs| - i
  {
    if i < k {
      PassIndex(xs, ys, i + 1, if n < ITEMS_PER_TICK && Processable(xs[i]) then n + 1 else n, k);
    }
  }

  /** A manifest that is judged in progress after a pass is again one that can be served. */
  lemma PassStaysAlive(xs: seq<Item>, ys: seq<Item>)
    requires |ys| == |xs| && Pass(xs, ys, 0, 0) && Alive(xs) && Judge(ys) == InProgress
    ensures Alive(ys)
  {
    forall k | 0 <= k < |ys| ensures AliveItem(ys[k]) {
      assert AliveItem(xs[k]);
      PassIndex(xs, ys, 0, 0, k);
      assert !Exhausted(ys[k]);
    }
  }

  // ---- The bound ------------------------------------------------------

  /** The item lists after each tick that left the manifest in progress. */
  predicate InProgressTicks(lists: seq<seq<Item>>) {
    |lists| >= 1 && forall t :: 0 <= t < |lists| - 1 ==> TickAt(lists, t)
  }

  predicate TickAt(lists: seq<seq<Item>>, t: nat)
    requires t + 1 < |lists|
  {
    && |lists[t + 1]| == |lists[t]| && Pass(lists[t], lists[t + 1], 0, 0)
    && Judge(lists[t + 1]) == InProgress
  }

  lemma TicksTail(lists: seq<seq<Item>>)
    requires InProgressTicks(lists) && |lists| > 1
    ensures InProgressTicks(lists[1..])
  {
    forall t | 0 <= t < |lists[1..]| - 1 ensures TickAt(lists[1..], t) { assert TickAt(lists, t + 1); }
  }

  predicate AtMostLeft(items: seq<Item>, r: nat) {
    forall k :: 0 <= k < |items| ==> Remaining(items[k]) <= r
  }

  /** Once at most five items are left to do, at most `r - 1` more ticks can be in progress, where
      no item has more than `r` attempts. */
  lemma {:induction false} LateTicks(lists: seq<seq<Item>>, r: nat)
    requires InProgressTicks(lists) && Alive(lists[0])
    requires CountProcessable(lists[0], 0) <= ITEMS_PER_TICK && AtMostLeft(lists[0], r)
    ensures |lists| > 1 ==> |lists| <= r
    decreases |lists|
  {
    if |lists| > 1 {
      var xs, ys := lists[0], lists[1];
      assert TickAt(lists, 0);
      forall k | 0 <= k < |ys| ensures r > 0 ==> Remaining(ys[k]) <= r - 1
        ensures r == 0 ==> xs[k].status == Acknowledged && ys[k] == xs[k]
      {
        assert AliveItem(xs[k]);
        PassReachesAll(xs, ys, 0, 0, k);
      }
      PassStaysAlive(xs, ys);
      PassNeverAdds(xs, ys, 0, 0);
      InProgressLeavesWork(ys);
      var k :| 0 <= k < |ys| && Processable(ys[k]);
      assert AliveItem(ys[k]);
      TicksTail(lists);
      LateTicks(lists[1..], r - 1);
    }
  }

  lemma {:induction false} AliveBound(lists: seq<seq<Item>>)
    requires InProgressTicks(lists) && Alive(lists[0])
    ensures |lists| - 1 <= TotalRemaining(lists[0], 0) / ITEMS_PER_TICK + 2
    decreases |lists|
  {
    if |lists| > 1 {
      var xs, ys := lists[0], lists[1];
      assert TickAt(lists, 0);
      if CountProcessable(xs, 0) <= ITEMS_PER_TICK {
        LateTicks(lists, MAX_RETRIES);
      } else {
        PassSpends(xs, ys, 0, 0);
        PassStaysAlive(xs, ys);
        TicksTail(lists);
        AliveBound(lists[1..]);
      }
    }
  }

  /** What every stored manifest looks like: nothing is `sent`, and nothing pending is out of attempts.
      A failure may be, if a worker stopped between saving it and finalizing. */
  predicate Servable(items: seq<Item>) {
    forall i :: 0 <= i < |items| ==> ServableItem(items[i])
  }

  predicate ServableItem(it: Item) {
    it.status != Sent && (it.status == Pending ==> it.retries < MAX_RETRIES)
  }

  /** A failure without attempts left is not touched by the pass and ends the settlement, so a tick in
      progress began with none. */
  lemma InProgressBeganAlive(xs: seq<Item>, ys: seq<Item>)
    requires |ys| == |xs| && Servable(xs) && Pass(xs, ys, 0, 0) && Judge(ys) == InProgress
    ensures Alive(xs)
  {
    forall i | 0 <= i < |xs| ensures AliveItem(xs[i]) {
      assert ServableItem(xs[i]);
      PassIndex(xs, ys, 0, 0, i);
      assert !Exhausted(ys[i]);
    }
  }

  /** At most a fifth of the attempts left, plus two, ticks can leave a manifest in progress. */
  lemma InProgressBound(lists: seq<seq<Item>>)
    requires InProgressTicks(lists) && Servable(lists[0])
    ensures |lists| - 1 <= TotalRemaining(lists[0], 0) / ITEMS_PER_TICK + 2
  {
    if |lists| > 1 {
      assert TickAt(lists, 0);
      InProgressBeganAlive(lists[0], lists[1]);
      AliveBound(lists);
    }
  }

  // ---- The exact bound ------------------------------------------------

  predicate IsOpen(it: Item) {
    it.status != Acknowledged
  }

  /** How many of the items from `i` up to `k` are not acknowledged. */
  function Open(items: seq<Item>, i: nat, k: nat): nat
    requires k <= |items|
    decreases k - i
  {
    if i >= k then 0 else (if IsOpen(items[i]) then 1 else 0) + Open(items, i + 1, k)
  }

  /** Every five unacknowledged items, or fewer at the end, take as many ticks as an item has attempts. */
  function TicksFor(open: nat): nat {
    if open == 0 then 1 else 3 * ((open + 4) / 5)
  }

  lemma {:induction false} OpenOneMore(items: seq<Item>, i: nat, k: nat)
    requires i <= k < |items|
    ensures Open(items, i, k + 1) == Open(items, i, k) + if IsOpen(items[k]) then 1 else 0
    decreases k - i
  {
    if i < k { OpenOneMore(items, i + 1, k); }
  }

  predicate NoneReopened(xs: seq<Item>, ys: seq<Item>) {
    |ys| == |xs| && forall j :: 0 <= j < |xs| && IsOpen(ys[j]) ==> IsOpen(xs[j])
  }

  lemma {:induction false} OpenShrinks(xs: seq<Item>, ys: seq<Item>, i: nat, k: nat)
    requires NoneReopened(xs, ys) && k <= |xs|
    ensures Open(ys, i, k) <= Open(xs, i, k)
    decreases k - i
  {
    if i < k { OpenShrinks(xs, ys, i + 1, k); }
  }

  /** A pass reaches every unacknowledged item with fewer than five before it. */
  lemma {:induction false} PassAttempts(xs: seq<Item>, ys: seq<Item>, i: nat, n: nat, k: nat)
    requires |ys| == |xs| && Pass(xs, ys, i, n) && Alive(xs) && i <= k < |xs| && IsOpen(xs[k])
    requires n + Open(xs, i, k) < ITEMS_PER_TICK
    ensures Attempted(xs[k], ys[k])
    decreases k - i
  {
    assert AliveItem(xs[i]);
    if i < k { PassAttempts(xs, ys, i + 1, if Processable(xs[i]) then n + 1 else n, k); }
  }

  /** What a tick in progress does to one of the first five: acknowledges it or costs it an attempt. */
  lemma TickSpends(lists: seq<seq<Item>>, t: nat)
    requires t + 1 < |lists| && TickAt(lists, t) && Alive(lists[t])
    ensures Alive(lists[t + 1]) && NoneReopened(lists[t], lists[t + 1])
    ensures forall k :: 0 <= k < |lists[t]| && Open(lists[t], 0, k) < ITEMS_PER_TICK && IsOpen(lists[t + 1][k]) ==>
              lists[t + 1][k] == Fail(lists[t][k])
  {
    var xs, ys := lists[t], lists[t + 1];
    PassStaysAlive(xs, ys);
    forall k | 0 <= k < |xs| && IsOpen(ys[k])
      ensures IsOpen(xs[k]) && (Open(xs, 0, k) < ITEMS_PER_TICK ==> ys[k] == Fail(xs[k]))
    {
      PassIndex(xs, ys, 0, 0, k);
      if Open(xs, 0, k) < ITEMS_PER_TICK { PassAttempts(xs, ys, 0, 0, k); }
    }
  }

  /** After three ticks in progress none of the first five is left. */
  lemma ThreeTicksClose(lists: seq<seq<Item>>, k: nat)
    requires InProgressTicks(lists) && |lists| > MAX_RETRIES && Alive(lists[0]) && k < |lists[0]|
    requires Open(lists[0], 0, k) < ITEMS_PER_TICK
    ensures |lists[3]| == |lists[0]| && !IsOpen(lists[3][k])
  {
    hide Pass, Judge;
    assert TickAt(lists, 0) && TickAt(lists, 1) && TickAt(lists, 2);
    TickSpends(lists, 0);
    TickSpends(lists, 1);
    TickSpends(lists, 2);
    OpenShrinks(lists[0], lists[1], 0, k);
    OpenShrinks(lists[1], lists[2], 0, k);
    assert AliveItem(lists[3][k]);
  }

  /** If what is left of the first five unacknowledged items is none of them, there are five fewer. */
  lemma {:induction false} FirstFiveGone(xs: seq<Item>, zs: seq<Item>, i: nat)
    requires NoneReopened(xs, zs) && i <= |xs| && Open(xs, 0, i) <= ITEMS_PER_TICK
    requires forall k :: 0 <= k < |xs| && Open(xs, 0, k) < ITEMS_PER_TICK ==> !IsOpen(zs[k])
    ensures var left := ITEMS_PER_TICK - Open(xs, 0, i);
            var u := Open(xs, i, |xs|);
            Open(zs, i, |xs|) + (if u < left then u else left) <= u
    decreases |xs| - i
  {
    if i < |xs| {
      OpenOneMore(xs, 0, i);
      if Open(xs, 0, i) == ITEMS_PER_TICK { OpenShrinks(xs, zs, i, |xs|); } else { FirstFiveGone(xs, zs, i + 1); }
    }
  }

  lemma {:induction false} SomeOpen(items: seq<Item>, i: nat, k: nat)
    requires i <= k < |items| && IsOpen(items[k])
    ensures Open(items, i, |items|) > 0
    decreases k - i
  {
    if i < k { SomeOpen(items, i + 1, k); }
  }

  lemma InProgressOpen(items: seq<Item>)
    requires Judge(items) == InProgress
    ensures Open(items, 0, |items|) > 0
  {
    var k :| 0 <= k < |items| && items[k].status != Acknowledged;
    SomeOpen(items, 0, k);
  }

  lemma ThreeTicksShrink(lists: seq<seq<Item>>)
    requires InProgressTicks(lists) && |lists| > MAX_RETRIES && Alive(lists[0])
    ensures |lists[3]| == |lists[0]| && Alive(lists[3])
    ensures 0 < Open(lists[3], 0, |lists[3]|)
    ensures Open(lists[3], 0, |lists[3]|) + ITEMS_PER_TICK <= Open(lists[0], 0, |lists[0]|)
  {
    hide Pass, Judge, Open;
    assert TickAt(lists, 0) && TickAt(lists, 1) && TickAt(lists, 2);
    TickSpends(lists, 0);
    TickSpends(lists, 1);
    TickSpends(lists, 2);
    assert NoneReopened(lists[0], lists[3]);
    forall k | 0 <= k < |lists[0]| && Open(lists[0], 0, k) < ITEMS_PER_TICK ensures !IsOpen(lists[3][k]) {
      ThreeTicksClose(lists, k);
    }
    InProgressOpen(lists[3]);
    NoneBefore(lists[0]);
    FirstFiveGone(lists[0], lists[3], 0);
  }

  lemma NoneBefore(items: seq<Item>)
    ensures Open(items, 0, 0) == 0
  {
  }

  lemma DropTicks(lists: seq<seq<Item>>, n: nat)
    requires InProgressTicks(lists) && n < |lists|
    ensures InProgressTicks(lists[n..])
  {
    forall t | 0 <= t < |lists[n..]| - 1 ensures TickAt(lists[n..], t) { assert TickAt(lists, n + t); }
  }

  lemma FiveFewer(u: nat, v: nat)
    requires 0 < v && v + ITEMS_PER_TICK <= u
    ensures TicksFor(v) + MAX_RETRIES <= TicksFor(u)
  {
  }

  lemma {:induction false} AliveTicks(lists: seq<seq<Item>>)
    requires InProgressTicks(lists) && Alive(lists[0])
    ensures |lists| <= TicksFor(Open(lists[0], 0, |lists[0]|))
    decreases |lists|
  {
    hide Pass, Judge, Open, TickAt;
    if 1 < |lists| <= MAX_RETRIES {
      assert TickAt(lists, 0);
      TickStarts(lists);
    } else if |lists| > MAX_RETRIES {
      ThreeTicksShrink(lists);
      DropTicks(lists, 3);
      AliveTicks(lists[3..]);
      FiveFewer(Open(lists[0], 0, |lists[0]|), Open(lists[3], 0, |lists[3]|));
    }
  }

  lemma TickStarts(lists: seq<seq<Item>>)
    requires |lists| > 1 && TickAt(lists, 0) && Alive(lists[0])
    ensures Open(lists[0], 0, |lists[0]|) > 0
  {
    TickSpends(lists, 0);
    InProgressOpen(lists[1]);
    OpenShrinks(lists[0], lists[1], 0, |lists[0]|);
  }

  /** Every five of the items still unacknowledged, or fewer at the end, take at most three ticks, and the
      last of them all completes or escalates the manifest: so one less can leave it in progress. */
  lemma SettlementTerminates(lists: seq<seq<Item>>)
    requires InProgressTicks(lists) && Servable(lists[0])
    ensures |lists| <= TicksFor(Open(lists[0], 0, |lists[0]|))
  {
    if |lists| > 1 {
      assert TickAt(lists, 0);
      InProgressBeganAlive(lists[0], lists[1]);
      AliveTicks(lists);
    }
  }

  // ---- The bound is reached -------------------------------------------

  predicate AllFresh(items: seq<Item>) {
    forall i :: 0 <= i < |items| ==> items[i].status == Pending && items[i].retries == 0
  }

  /** The slowest way through: five at a time fail twice and are acknowledged at the third attempt. */
  function SlowItem(it: Item, i: nat, t: nat): Item {
    var first, r := ITEMS_PER_TICK * (t / MAX_RETRIES), t % MAX_RETRIES;
    if i < first then it.(status := Acknowledged, retries := MAX_RETRIES - 1)
    else if i < first + ITEMS_PER_TICK && r > 0 then it.(status := Failed, retries := r)
    else it
  }

  function Slow(items: seq<Item>, t: nat): seq<Item> {
    seq(|items|, i requires 0 <= i < |items| => SlowItem(items[i], i, t))
  }

  /** What the tick makes of one item. */
  lemma SlowStep(it: Item, i: nat, t: nat)
    requires it.status == Pending && it.retries == 0
    ensures var first := ITEMS_PER_TICK * (t / MAX_RETRIES);
            var x, y := SlowItem(it, i, t), SlowItem(it, i, t + 1);
            && (i < first ==> !Processable(x) && y == x)
            && (first <= i < first + ITEMS_PER_TICK ==> Processable(x) && Attempted(x, y))
            && (i >= first + ITEMS_PER_TICK ==> Processable(x) && y == x)
  {
  }

  lemma {:induction false} SlowPass(items: seq<Item>, t: nat, i: nat, n: nat)
    requires AllFresh(items) && i <= |items|
    requires var first := ITEMS_PER_TICK * (t / MAX_RETRIES);
             n == if i < first then 0 else if i < first + ITEMS_PER_TICK then i - first else ITEMS_PER_TICK
    ensures Pass(Slow(items, t), Slow(items, t + 1), i, n)
    decreases |items| - i
  {
    hide SlowItem;
    if i < |items| {
      SlowStep(items[i], i, t);
      var first := ITEMS_PER_TICK * (t / MAX_RETRIES);
      SlowPass(items, t, i + 1, if first <= i && n < ITEMS_PER_TICK then n + 1 else n);
    }
  }

  /** The first item of the five in turn is unacknowledged, and none is out of attempts. */
  lemma SlowInProgress(items: seq<Item>, t: nat)
    requires AllFresh(items) && t < TicksFor(|items|) && items != []
    ensures Judge(Slow(items, t)) == InProgress
  {
    var k := ITEMS_PER_TICK * (t / MAX_RETRIES);
    assert k < |items|;
    assert Slow(items, t)[k].status != Acknowledged;
  }

  lemma {:induction false} AllOpen(items: seq<Item>, i: nat)
    requires AllFresh(items) && i <= |items|
    ensures Open(items, i, |items|) == |items| - i
    decreases |items| - i
  {
    if i < |items| { AllOpen(items, i + 1); }
  }

  function SlowTicks(items: seq<Item>): (lists: seq<seq<Item>>)
    ensures |lists| == TicksFor(|items|)
    ensures forall t :: 0 <= t < |lists| ==> lists[t] == Slow(items, t)
  {
    seq(TicksFor(|items|), t requires 0 <= t < TicksFor(|items|) => Slow(items, t))
  }

  /** No smaller bound holds: for a new manifest of any size there are ticks that leave it in progress exactly
      as often as the bound allows. */
  lemma BoundIsReached(items: seq<Item>)
    requires AllFresh(items)
    ensures InProgressTicks(SlowTicks(items)) && SlowTicks(items)[0] == items && Servable(items)
    ensures |SlowTicks(items)| == TicksFor(Open(items, 0, |items|))
  {
    hide Judge, Pass, TicksFor, SlowTicks;
    AllOpen(items, 0);
    TicksPositive(|items|);
    var lists := SlowTicks(items);
    assert Slow(items, 0) == items;
    forall t | 0 <= t < |lists| - 1 ensures TickAt(lists, t) {
      TicksPositive(|items|);
      SlowPass(items, t, 0, 0);
      SlowInProgress(items, t + 1);
    }
  }

  lemma TicksPositive(n: nat)
    ensures TicksFor(n) >= 1 && (n == 0 ==> TicksFor(n) == 1)
  {
  }

  // ---- When every call is approved ------------------------------------

  /** Whatever was attempted succeeded. */
  predicate NoneFails(xs: seq<Item>, ys: seq<Item>) {
    |ys| == |xs| && forall k :: 0 <= k < |xs| ==> ys[k] == xs[k] || ys[k] == Ack(xs[k])
  }

  /** Every five of the items, or fewer at the end, take one tick. */
  function ApprovedTicks(open: nat): nat {
    if open == 0 then 1 else (open + 4) / 5
  }

  /** A pass leaves alone what has five unacknowledged items before it. */
  lemma {:induction false} PassLeaves(xs: seq<Item>, ys: seq<Item>, i: nat, n: nat, k: nat)
    requires |ys| == |xs| && Pass(xs, ys, i, n) && Alive(xs) && i <= k < |xs|
    requires n + Open(xs, i, k) >= 5
    ensures ys[k] == xs[k]
    decreases k - i
  {
    assert AliveItem(xs[i]);
    if i < k { PassLeaves(xs, ys, i + 1, if n < ITEMS_PER_TICK && Processable(xs[i]) then n + 1 else n, k); }
  }

  /** Exactly what such a pass does: its first five unacknowledged items are acknowledged, and that is all. */
  lemma ApprovedPass(xs: seq<Item>, ys: seq<Item>, k: nat)
    requires |ys| == |xs| && Pass(xs, ys, 0, 0) && Alive(xs) && NoneFails(xs, ys) && k < |xs|
    ensures ys[k] == if IsOpen(xs[k]) && Open(xs, 0, k) < 5 then xs[k].(status := Acknowledged) else xs[k]
  {
    hide Pass, Open;
    assert AliveItem(xs[k]);
    if Open(xs, 0, k) >= 5 {
      PassLeaves(xs, ys, 0, 0, k);
    } else if IsOpen(xs[k]) {
      PassAttempts(xs, ys, 0, 0, k);
    }
  }

  lemma {:induction false} FiveFewerOpen(xs: seq<Item>, ys: seq<Item>, i: nat)
    requires |ys| == |xs| && i <= |xs|
    requires forall k :: 0 <= k < |xs| ==>
               ys[k] == if IsOpen(xs[k]) && Open(xs, 0, k) < 5 then xs[k].(status := Acknowledged) else xs[k]
    ensures var left := if Open(xs, 0, i) < 5 then 5 - Open(xs, 0, i) else 0;
            var u := Open(xs, i, |xs|);
            Open(ys, i, |xs|) == if u < left then 0 else u - left
    decreases |xs| - i
  {
    if i < |xs| {
      OpenOneMore(xs, 0, i);
      FiveFewerOpen(xs, ys, i + 1);
    }
  }

  lemma {:induction false} NoneOpen(items: seq<Item>, i: nat, k: nat)
    requires Open(items, i, |items|) == 0 && i <= k < |items|
    ensures !IsOpen(items[k])
    decreases k - i
  {
    if i < k { NoneOpen(items, i + 1, k); }
  }

  /** Five fewer are left after it, or none, and the verdict is never an escalation. */
  lemma ApprovedTick(xs: seq<Item>, ys: seq<Item>)
    requires |ys| == |xs| && Pass(xs, ys, 0, 0) && Alive(xs) && NoneFails(xs, ys)
    ensures Alive(ys)
    ensures var u := Open(xs, 0, |xs|); Open(ys, 0, |ys|) == if u < 5 then 0 else u - 5
    ensures Judge(ys) == if Open(xs, 0, |xs|) <= 5 then AllAcknowledged else InProgress
  {
    hide Pass, Open;
    forall k | 0 <= k < |xs|
      ensures AliveItem(ys[k])
      ensures ys[k] == if IsOpen(xs[k]) && Open(xs, 0, k) < 5 then xs[k].(status := Acknowledged) else xs[k]
    {
      assert AliveItem(xs[k]);
      ApprovedPass(xs, ys, k);
    }
    NoneBefore(xs);
    FiveFewerOpen(xs, ys, 0);
    JudgeAlive(ys);
  }

  lemma JudgeAlive(items: seq<Item>)
    requires Alive(items)
    ensures Judge(items) == if Open(items, 0, |items|) == 0 then AllAcknowledged else InProgress
  {
    hide Open;
    if Open(items, 0, |items|) == 0 {
      forall k | 0 <= k < |items| ensures !IsOpen(items[k]) { NoneOpen(items, 0, k); }
    } else {
      if forall k :: 0 <= k < |items| ==> items[k].status == Acknowledged { NothingOpen(items, 0); }
      assert forall k :: 0 <= k < |items| ==> AliveItem(items[k]);
    }
  }

  lemma {:induction false} NothingOpen(items: seq<Item>, i: nat)
    requires i <= |items| && forall k :: 0 <= k < |items| ==> !IsOpen(items[k])
    ensures Open(items, i, |items|) == 0
    decreases |items| - i
  {
    if i < |items| { NothingOpen(items, i + 1); }
  }

  predicate ApprovedAt(lists: seq<seq<Item>>, t: nat)
    requires t + 1 < |lists|
  {
    NoneFails(lists[t], lists[t + 1])
  }

  /** After `t` such ticks, five fewer for each. */
  lemma {:induction false} ApprovedTicksLeave(lists: seq<seq<Item>>, t: nat)
    requires InProgressTicks(lists) && Alive(lists[0]) && t < |lists|
    requires forall k :: 0 <= k < |lists| - 1 ==> ApprovedAt(lists, k)
    ensures Alive(lists[t]) && |lists[t]| == |lists[0]|
    ensures t > 0 ==> Open(lists[t], 0, |lists[t]|) > 0
    ensures Open(lists[0], 0, |lists[0]|) == Open(lists[t], 0, |lists[t]|) + 5 * t
  {
    hide Pass, Judge, Open;
    if t > 0 {
      ApprovedTicksLeave(lists, t - 1);
      assert TickAt(lists, t - 1) && ApprovedAt(lists, t - 1);
      ApprovedTick(lists[t - 1], lists[t]);
      InProgressOpen(lists[t]);
    }
  }

  // ---- Where the measure starts ---------------------------------------

  lemma {:induction false} PlanAlive(db: Db, a: AuctionId, ps: seq<Participant>)
    requires a in db.auctions
    ensures Alive(PlanItems(db, a, ps))
  {
    if ps != [] { PlanAlive(db, a, ps[..|ps| - 1]); }
  }

  /** Every item of a new manifest is unacknowledged. */
  lemma {:induction false} PlanFresh(db: Db, a: AuctionId, ps: seq<Participant>)
    requires a in db.auctions
    ensures AllFresh(PlanItems(db, a, ps))
  {
    if ps != [] { PlanFresh(db, a, ps[..|ps| - 1]); }
  }

  lemma {:induction false} SomethingRemains(items: seq<Item>, i: nat, k: nat)
    requires i <= k < |items| && Remaining(items[k]) > 0
    ensures TotalRemaining(items, i) > 0
    decreases k - i
  {
    if i < k { SomethingRemains(items, i + 1, k); }
  }
}

/** The sliding-window limit on registrations (src/app.rs:51-88). Time is a number of nanoseconds. The source reads the
    clock before it takes the lock, so calls may be let in out of the order of their times. */
module RegistrationLimiting {
  import opened Sequences

  const MAX_ATTEMPTS := 5
  const WINDOW: int := 3_600_000_000_000

  datatype Attempt = Attempt(key: string, at: int)

  predicate IsRecent(at: int, now: int) {
    now - at < WINDOW
  }

  function Recent(times: seq<int>, now: int): seq<int> {
    Filter((at: int) => IsRecent(at, now), times)
  }

  // ---- What the limiter keeps and grants ----

  /** The list the limiter keeps for a key after some calls, in whatever order their times are. */
  function Kept(calls: seq<Attempt>, key: string): seq<int> {
    if calls == [] then []
    else
      var front, last := Kept(calls[..|calls| - 1], key), calls[|calls| - 1];
      if last.key != key then front
      else
        var pruned := Recent(front, last.at);
        if |pruned| >= MAX_ATTEMPTS then pruned else pruned + [last.at]
  }

  predicate Grants(calls: seq<Attempt>, key: string, now: int) {
    |Recent(Kept(calls, key), now)| < MAX_ATTEMPTS
  }

  /** The times of the calls for a key that were accepted: the full history, of which nothing is ever dropped. */
  function Granted(calls: seq<Attempt>, key: string): seq<int> {
    if calls == [] then []
    else
      var front, last := calls[..|calls| - 1], calls[|calls| - 1];
      Granted(front, key) + (if last.key == key && Grants(front, key, last.at) then [last.at] else [])
  }

  /** The rule, told over the full history: fewer than five accepted attempts for the key within the last hour. */
  predicate MayAccept(calls: seq<Attempt>, key: string, now: int) {
    |Recent(Granted(calls, key), now)| < MAX_ATTEMPTS
  }

  class RegistrationLimiter {
    var attempts: map<string, seq<int>>
    /** Every call, as the lock let them in. */
    ghost var calls: seq<Attempt>

    ghost predicate Valid()
      reads this
    {
      forall key: string :: (if key in attempts then attempts[key] else []) == Kept(calls, key)
    }

    constructor ()
      ensures Valid() && calls == []
    {
      attempts, calls := map[], [];
    }

    /** `check`, at time `now`: it answers by the pruned list. That is the answer of the full history, unless a call let
        in before lies an hour after an attempt that this one still counts. */
    method Check(key: string, now: int) returns (ok: bool)
      requires Valid()
      modifies this
      ensures Valid() && calls == old(calls) + [Attempt(key, now)]
      ensures Granted(calls, key) == Granted(old(calls), key) + (if ok then [now] else [])
      ensures MayAccept(old(calls), key, now) ==> ok
      ensures NothingMissed(old(calls), key, now) ==> (ok <==> MayAccept(old(calls), key, now))
    {
      hide Recent, Granted, NothingMissed, Kept;
      var entries := if key in attempts then attempts[key] else [];
      SameFilter(entries, now);
      entries := Filter((at: int) => now - at < WINDOW, entries);
      KeptIsGranted(calls, key, now);
      OneMoreGranted(calls, key, now);
      if NothingMissed(calls, key, now) { KeptIsRecent(calls, key, now); }
      KeptAfter(calls, key, now);
      calls := calls + [Attempt(key, now)];
      if |entries| >= MAX_ATTEMPTS {
        attempts := attempts[key := entries];
        return false;
      }
      attempts := attempts[key := entries + [now]];
      ok := true;
    }
  }

  lemma {:induction false} SameFilter(times: seq<int>, now: int)
    ensures Filter((at: int) => now - at < WINDOW, times) == Recent(times, now)
  {
    if times != [] {
      SameFilter(times[1..], now);
    }
  }

  lemma KeptAfter(calls: seq<Attempt>, key: string, now: int)
    ensures forall k: string ::
              Kept(calls + [Attempt(key, now)], k) ==
              if k != key then Kept(calls, k)
              else
                var pruned := Recent(Kept(calls, key), now);
                if |pruned| >= MAX_ATTEMPTS then pruned else pruned + [now]
  {
    hide Recent;
    assert (calls + [Attempt(key, now)])[..|calls|] == calls;
  }

  lemma OneMoreGranted(calls: seq<Attempt>, key: string, now: int)
    ensures Granted(calls + [Attempt(key, now)], key) ==
            Granted(calls, key) + (if Grants(calls, key, now) then [now] else [])
  {
    hide Grants;
    assert (calls + [Attempt(key, now)])[..|calls|] == calls;
  }

  // ---- Pruning ----

  /** Pruning at one time changes nothing for another at which no pruned entry would be recent: at any later one. */
  lemma {:induction false} PruningIsHarmless(times: seq<int>, earlier: int, now: int)
    requires forall i | 0 <= i < |times| :: IsRecent(times[i], now) ==> IsRecent(times[i], earlier)
    ensures Recent(Recent(times, earlier), now) == Recent(times, now)
  {
    if times != [] {
      PruningIsHarmless(times[1..], earlier, now);
      if IsRecent(times[0], earlier) {
        assert Recent(times, earlier) == [times[0]] + Recent(times[1..], earlier);
        assert ([times[0]] + Recent(times[1..], earlier))[1..] == Recent(times[1..], earlier);
      }
    }
  }

  lemma {:induction false} PruningDrops(times: seq<int>, earlier: int, now: int)
    ensures |Recent(Recent(times, earlier), now)| <= |Recent(times, now)|
  {
    if times != [] {
      PruningDrops(times[1..], earlier, now);
      if IsRecent(times[0], earlier) {
        assert Recent(times, earlier) == [times[0]] + Recent(times[1..], earlier);
        assert ([times[0]] + Recent(times[1..], earlier))[1..] == Recent(times[1..], earlier);
      }
    }
  }

  lemma OneMoreRecent(times: seq<int>, at: int, now: int)
    ensures Recent(times + [at], now) == Recent(times, now) + (if IsRecent(at, now) then [at] else [])
  {
    FilterAppend((at: int) => IsRecent(at, now), times, [at]);
  }

  /** Every kept time is that of a call for the key. */
  lemma {:induction false} KeptAreCalls(calls: seq<Attempt>, key: string, at: int)
    requires at in Kept(calls, key)
    ensures Attempt(key, at) in calls
  {
    var n := |calls| - 1;
    var front := Kept(calls[..n], key);
    if at in front {
      KeptAreCalls(calls[..n], key, at);
    } else {
      FilterKeeps((t: int) => IsRecent(t, calls[n].at), front, at);
      assert calls[n] == Attempt(key, at);
    }
  }

  /** The limiter forgets, so that it is never stricter than the rule over the full history. */
  lemma {:induction false} KeptIsGranted(calls: seq<Attempt>, key: string, now: int)
    ensures |Recent(Kept(calls, key), now)| <= |Recent(Granted(calls, key), now)|
  {
    if calls != [] {
      hide Recent;
      var n := |calls| - 1;
      KeptIsGranted(calls[..n], key, now);
      if calls[n].key == key {
        PruningDrops(Kept(calls[..n], key), calls[n].at, now);
        OneMoreRecent(Recent(Kept(calls[..n], key), calls[n].at), calls[n].at, now);
        OneMoreRecent(Granted(calls[..n], key), calls[n].at, now);
      }
      assert Granted(calls[..n], key) + [] == Granted(calls[..n], key);
    }
  }

  /** No call has pruned what counts at `now`. */
  predicate NothingMissed(calls: seq<Attempt>, key: string, now: int) {
    forall i, j | 0 <= i < j < |calls| && calls[i].key == key && calls[j].key == key ::
      IsRecent(calls[i].at, now) ==> IsRecent(calls[i].at, calls[j].at)
  }

  /** Where no attempt is missed, what is recent in the kept list is what is recent in the full history. */
  lemma {:induction false} KeptIsRecent(calls: seq<Attempt>, key: string, now: int)
    requires NothingMissed(calls, key, now)
    ensures Recent(Kept(calls, key), now) == Recent(Granted(calls, key), now)
  {
    if calls != [] {
      hide Recent, IsRecent;
      var n := |calls| - 1;
      var kept := Kept(calls[..n], key);
      KeptIsRecent(calls[..n], key, now);
      if calls[n].key == key {
        forall x | 0 <= x < |kept| ensures IsRecent(kept[x], now) ==> IsRecent(kept[x], calls[n].at) {
          KeptAreCalls(calls[..n], key, kept[x]);
          var i :| 0 <= i < n && calls[..n][i] == Attempt(key, kept[x]);
          assert calls[i] == Attempt(key, kept[x]);
        }
        PruningIsHarmless(kept, calls[n].at, now);
        OneMoreRecent(Recent(kept, calls[n].at), calls[n].at, now);
        OneMoreRecent(Granted(calls[..n], key), calls[n].at, now);
      }
      assert Granted(calls[..n], key) + [] == Granted(calls[..n], key);
    }
  }

  /** A call no earlier than those of its key before it is decided by the full history. */
  lemma InOrderIsExact(calls: seq<Attempt>, key: string, now: int)
    requires forall i | 0 <= i < |calls| && calls[i].key == key :: calls[i].at <= now
    ensures Grants(calls, key, now) <==> MayAccept(calls, key, now)
  {
    KeptIsRecent(calls, key, now);
  }

  lemma {:induction false} KeptIsBounded(calls: seq<Attempt>, key: string)
    ensures |Kept(calls, key)| <= MAX_ATTEMPTS
  {
    if calls != [] {
      KeptIsBounded(calls[..|calls| - 1], key);
    }
  }

  /** The rule is tight: a call is refused only when five acceptances lie within the hour before it, or after it. */
  lemma RefusedOnlyWhenFull(calls: seq<Attempt>, key: string, now: int)
    requires !Grants(calls, key, now)
    ensures |Recent(Granted(calls, key), now)| >= MAX_ATTEMPTS
    ensures NothingMissed(calls, key, now) ==> |Recent(Granted(calls, key), now)| == MAX_ATTEMPTS
  {
    hide NothingMissed, Granted;
    KeptIsGranted(calls, key, now);
    KeptIsBounded(calls, key);
    if NothingMissed(calls, key, now) { KeptIsRecent(calls, key, now); }
  }

  // ---- Every window holds at most five ----

  predicate InWindow(at: int, start: int) {
    start <= at < start + WINDOW
  }

  function Within(times: seq<int>, start: int): seq<int> {
    Filter((at: int) => InWindow(at, start), times)
  }

  ghost predicate KeepsLimit(calls: seq<Attempt>, key: string) {
    forall start: int :: |Within(Granted(calls, key), start)| <= MAX_ATTEMPTS
  }

  /** Let in one after the other: the second prunes the first, and the third, which comes late, no longer counts it,
      although both lie in one window. */
  predicate Straddles(e: int, m: int, c: int) {
    -WINDOW < c - e < WINDOW <= m - e
  }

  /** No three calls of the key straddle. */
  predicate NoneStraddle(calls: seq<Attempt>, key: string) {
    forall i, j, k | 0 <= i < j < k < |calls| && calls[i].key == key && calls[j].key == key && calls[k].key == key ::
      !Straddles(calls[i].at, calls[j].at, calls[k].at)
  }

  lemma OneMoreWithin(times: seq<int>, at: int, start: int)
    ensures Within(times + [at], start) == Within(times, start) + (if InWindow(at, start) then [at] else [])
  {
    FilterAppend((at: int) => InWindow(at, start), times, [at]);
  }

  lemma {:induction false} WithinIsSubset(times: seq<int>, start: int)
    ensures |Within(times, start)| <= |times|
  {
  }

  /** Pruning at a time of the window drops nothing of it. */
  lemma {:induction false} PruningSpares(times: seq<int>, start: int, now: int)
    requires InWindow(now, start)
    ensures Within(Recent(times, now), start) == Within(times, start)
  {
    if times != [] {
      PruningSpares(times[1..], start, now);
      if IsRecent(times[0], now) {
        assert Recent(times, now) == [times[0]] + Recent(times[1..], now);
        assert ([times[0]] + Recent(times[1..], now))[1..] == Recent(times[1..], now);
      }
    }
  }

  lemma {:induction false} NothingPruned(times: seq<int>, now: int)
    requires forall i | 0 <= i < |times| :: IsRecent(times[i], now)
    ensures Recent(times, now) == times
  {
    FilterAll((at: int) => IsRecent(at, now), times);
  }

  /** What pruning drops of a window, it drops because an entry in the window is an hour old. */
  lemma {:induction false} PruningOf(times: seq<int>, start: int, now: int)
    requires forall i | 0 <= i < |times| && InWindow(times[i], start) :: IsRecent(times[i], now)
    ensures Within(Recent(times, now), start) == Within(times, start)
  {
    if times != [] {
      PruningOf(times[1..], start, now);
      if IsRecent(times[0], now) {
        assert Recent(times, now) == [times[0]] + Recent(times[1..], now);
        assert ([times[0]] + Recent(times[1..], now))[1..] == Recent(times[1..], now);
      }
    }
  }

  /** A call of the key in the window is followed by one an hour after it. */
  predicate Crossed(calls: seq<Attempt>, key: string, start: int) {
    exists i, j | 0 <= i < j < |calls| && calls[i].key == key && calls[j].key == key ::
      InWindow(calls[i].at, start) && !IsRecent(calls[i].at, calls[j].at)
  }

  lemma CrossedStays(calls: seq<Attempt>, key: string, start: int)
    requires calls != [] && Crossed(calls[..|calls| - 1], key, start)
    ensures Crossed(calls, key, start)
  {
    var front := calls[..|calls| - 1];
    var i, j :| 0 <= i < j < |front| && front[i].key == key && front[j].key == key &&
                InWindow(front[i].at, start) && !IsRecent(front[i].at, front[j].at);
    assert calls[i] == front[i] && calls[j] == front[j];
  }

  /** A late call cannot be in a window that has been crossed. */
  lemma NotAfterCrossing(calls: seq<Attempt>, key: string, start: int)
    requires NoneStraddle(calls, key) && calls != [] && Crossed(calls[..|calls| - 1], key, start)
    requires calls[|calls| - 1].key == key
    ensures !InWindow(calls[|calls| - 1].at, start)
  {
    var front, n := calls[..|calls| - 1], |calls| - 1;
    var i, j :| 0 <= i < j < |front| && front[i].key == key && front[j].key == key &&
                InWindow(front[i].at, start) && !IsRecent(front[i].at, front[j].at);
    assert calls[i] == front[i] && calls[j] == front[j];
    assert !Straddles(calls[i].at, calls[j].at, calls[n].at);
  }

  lemma PrunedMeansCrossed(calls: seq<Attempt>, key: string, start: int, at: int)
    requires calls != [] && calls[|calls| - 1].key == key && at in Kept(calls[..|calls| - 1], key)
    requires InWindow(at, start) && !IsRecent(at, calls[|calls| - 1].at)
    ensures Crossed(calls, key, start)
  {
    var n := |calls| - 1;
    KeptAreCalls(calls[..n], key, at);
    var i :| 0 <= i < n && calls[..n][i] == Attempt(key, at);
    assert calls[i] == Attempt(key, at);
  }

  /** Until a window is crossed, the kept list holds all that was granted in it. */
  lemma {:induction false} WindowIsKept(calls: seq<Attempt>, key: string, start: int)
    requires NoneStraddle(calls, key)
    ensures |Within(Granted(calls, key), start)| <= MAX_ATTEMPTS
    ensures Crossed(calls, key, start) || Within(Granted(calls, key), start) == Within(Kept(calls, key), start)
  {
    if calls != [] {
      hide Recent, Within, NoneStraddle, Crossed;
      var n := |calls| - 1;
      var front, call := calls[..n], calls[n];
      NoneStraddleBefore(calls, key);
      WindowIsKept(front, key, start);
      if Crossed(front, key, start) { CrossedStays(calls, key, start); }
      assert Granted(front, key) + [] == Granted(front, key);
      if call.key == key {
        WindowOfCall(calls, key, start);
      }
    } else {
      NothingWithin(start);
    }
  }

  lemma NothingWithin(start: int)
    ensures Within([], start) == []
  {
  }

  lemma NoneStraddleBefore(calls: seq<Attempt>, key: string)
    requires NoneStraddle(calls, key) && calls != []
    ensures NoneStraddle(calls[..|calls| - 1], key)
  {
  }

  lemma WindowOfCall(calls: seq<Attempt>, key: string, start: int)
    requires NoneStraddle(calls, key) && calls != [] && calls[|calls| - 1].key == key
    requires var front := calls[..|calls| - 1];
             && |Within(Granted(front, key), start)| <= MAX_ATTEMPTS
             && (Crossed(front, key, start) || Within(Granted(front, key), start) == Within(Kept(front, key), start))
    ensures |Within(Granted(calls, key), start)| <= MAX_ATTEMPTS
    ensures Crossed(calls, key, start) || Within(Granted(calls, key), start) == Within(Kept(calls, key), start)
  {
    hide Recent, Within, NoneStraddle, Crossed;
    var n := |calls| - 1;
    var front, at := calls[..n], calls[n].at;
    var kept := Kept(front, key);
    var pruned := Recent(kept, at);
    OneMoreWithin(Granted(front, key), at, start);
    OneMoreWithin(pruned, at, start);
    assert Granted(front, key) + [] == Granted(front, key);
    if Crossed(front, key, start) {
      CrossedStays(calls, key, start);
      NotAfterCrossing(calls, key, start);
    } else if InWindow(at, start) {
      PruningSpares(kept, start, at);
      WithinIsSubset(pruned, start);
    } else if !Crossed(calls, key, start) {
      forall x | 0 <= x < |kept| && InWindow(kept[x], start) ensures IsRecent(kept[x], at) {
        if !IsRecent(kept[x], at) { PrunedMeansCrossed(calls, key, start, kept[x]); }
      }
      PruningOf(kept, start, at);
    }
  }

  /** In whatever order the lock lets calls in: when no three of the key straddle, every window of an hour holds at most
      five acceptances of the key. */
  lemma AtMostFivePerWindow(calls: seq<Attempt>, key: string)
    requires NoneStraddle(calls, key)
    ensures KeepsLimit(calls, key)
  {
    forall start: int ensures |Within(Granted(calls, key), start)| <= MAX_ATTEMPTS {
      WindowIsKept(calls, key, start);
    }
  }

  /** Calls of a key in the order of their times never straddle, whatever the calls of other keys do. */
  lemma InOrderKeepsLimit(calls: seq<Attempt>, key: string)
    requires forall i, j | 0 <= i < j < |calls| && calls[i].key == key && calls[j].key == key ::
               calls[i].at <= calls[j].at
    ensures KeepsLimit(calls, key)
  {
    AtMostFivePerWindow(calls, key);
  }

  // ---- The condition is exact ----

  predicate NoTripleStraddles(times: seq<int>) {
    forall i, j, k | 0 <= i < j < k < |times| :: !Straddles(times[i], times[j], times[k])
  }

  function Calls(key: string, at: int, n: nat): seq<Attempt> { seq(n, _ => Attempt(key, at)) }

  function Copies(at: int, n: nat): seq<int> { seq(n, _ => at) }

  /** Calls at the given times in the given order, each as often as `counts` says. */
  function Repeated(key: string, times: seq<int>, counts: seq<nat>): seq<Attempt>
    requires |counts| == |times|
  {
    if times == [] then []
    else
      var n := |times| - 1;
      Repeated(key, times[..n], counts[..n]) + Calls(key, times[n], counts[n])
  }

  /** The time a repeated call was made from. */
  function Origin(key: string, times: seq<int>, counts: seq<nat>, p: nat): (i: nat)
    requires |counts| == |times| && p < |Repeated(key, times, counts)|
    ensures i < |times| && Repeated(key, times, counts)[p] == Attempt(key, times[i])
  {
    var n := |times| - 1;
    if p < |Repeated(key, times[..n], counts[..n])| then Origin(key, times[..n], counts[..n], p) else n
  }

  lemma {:induction false} OriginsInOrder(key: string, times: seq<int>, counts: seq<nat>, p: nat, q: nat)
    requires |counts| == |times| && p <= q < |Repeated(key, times, counts)|
    ensures Origin(key, times, counts, p) <= Origin(key, times, counts, q)
  {
    var n := |times| - 1;
    if q < |Repeated(key, times[..n], counts[..n])| {
      OriginsInOrder(key, times[..n], counts[..n], p, q);
    }
  }

  lemma RepeatedStraddlesNot(key: string, times: seq<int>, counts: seq<nat>)
    requires |counts| == |times| && NoTripleStraddles(times)
    ensures NoneStraddle(Repeated(key, times, counts), key)
  {
    hide Repeated, Origin;
    var calls := Repeated(key, times, counts);
    forall p, q, r | 0 <= p < q < r < |calls| ensures !Straddles(calls[p].at, calls[q].at, calls[r].at) {
      OriginsInOrder(key, times, counts, p, q);
      OriginsInOrder(key, times, counts, q, r);
      var i, j, k := Origin(key, times, counts, p), Origin(key, times, counts, q), Origin(key, times, counts, r);
      assert i < j < k ==> !Straddles(times[i], times[j], times[k]);
    }
  }

  /** Five calls at `e`, one at `m` and one at `c`, and none at the other times. */
  function FiveOneOne(n: nat, i: nat, j: nat, k: nat): (counts: seq<nat>)
    ensures |counts| == n
  {
    seq(n, x => if x == i then 5 else if x == j || x == k then 1 else 0)
  }

  lemma {:induction false} RepeatedFiveOneOne(key: string, times: seq<int>, i: nat, j: nat, k: nat)
    requires i < j < k
    ensures var n := |times|;
            Repeated(key, times, FiveOneOne(n, i, j, k)) ==
            (if i < n then Calls(key, times[i], 5) else [])
            + (if j < n then [Attempt(key, times[j])] else []) + (if k < n then [Attempt(key, times[k])] else [])
  {
    hide Repeated, FiveOneOne;
    if times == [] {
      NothingRepeated(key, FiveOneOne(0, i, j, k));
    } else {
      var n := |times| - 1;
      RepeatedFiveOneOne(key, times[..n], i, j, k);
      RepeatedLast(key, times, i, j, k);
      assert Calls(key, times[n], 0) == [] && Calls(key, times[n], 1) == [Attempt(key, times[n])];
    }
  }

  lemma NothingRepeated(key: string, counts: seq<nat>)
    requires counts == []
    ensures Repeated(key, [], counts) == []
  {
  }

  lemma RepeatedLast(key: string, times: seq<int>, i: nat, j: nat, k: nat)
    requires times != []
    ensures var n := |times| - 1;
            Repeated(key, times, FiveOneOne(n + 1, i, j, k))
            == Repeated(key, times[..n], FiveOneOne(n, i, j, k))
               + Calls(key, times[n], if n == i then 5 else if n == j || n == k then 1 else 0)
  {
    hide Calls;
    var n := |times| - 1;
    assert FiveOneOne(n + 1, i, j, k)[..n] == FiveOneOne(n, i, j, k);
  }

  lemma {:induction false} FirstCalls(key: string, at: int, n: nat)
    requires n <= MAX_ATTEMPTS
    ensures Kept(Calls(key, at, n), key) == Copies(at, n) && Granted(Calls(key, at, n), key) == Copies(at, n)
  {
    if n > 0 {
      FirstCalls(key, at, n - 1);
      assert Calls(key, at, n)[..n - 1] == Calls(key, at, n - 1);
      NothingPruned(Copies(at, n - 1), at);
      assert Copies(at, n) == Copies(at, n - 1) + [at];
    }
  }

  lemma {:induction false} AllPruned(at: int, n: nat, now: int)
    requires !IsRecent(at, now)
    ensures Recent(Copies(at, n), now) == []
  {
    if n > 0 {
      assert Copies(at, n)[1..] == Copies(at, n - 1);
      AllPruned(at, n - 1, now);
    }
  }

  lemma AllWithin(at: int, n: nat, start: int)
    requires InWindow(at, start)
    ensures Within(Copies(at, n), start) == Copies(at, n)
  {
    FilterAll((t: int) => InWindow(t, start), Copies(at, n));
  }

  lemma OneMoreCall(calls: seq<Attempt>, key: string, at: int)
    requires Grants(calls, key, at)
    ensures var after := calls + [Attempt(key, at)];
            Kept(after, key) == Recent(Kept(calls, key), at) + [at] && Granted(after, key) == Granted(calls, key) + [at]
  {
    hide Recent;
    assert (calls + [Attempt(key, at)])[..|calls|] == calls;
  }

  /** Five calls at `e`, then one at `m` and one at `c` that straddle: all are accepted, and six lie in one window. */
  lemma StraddlingIsSixth(key: string, e: int, m: int, c: int)
    requires Straddles(e, m, c)
    ensures var calls := Calls(key, e, 5) + [Attempt(key, m)] + [Attempt(key, c)];
            && Granted(calls, key) == Copies(e, 5) + [m] + [c] && Kept(calls, key) == [m, c]
            && !KeepsLimit(calls, key)
  {
    hide Recent, Within, Kept, Granted;
    var first := Calls(key, e, 5);
    FirstCalls(key, e, 5);
    AllPruned(e, 5, m);
    OneMoreCall(first, key, m);
    assert [] + [m] == [m];
    NothingPruned([m], c);
    OneMoreCall(first + [Attempt(key, m)], key, c);
    assert [m] + [c] == [m, c];
    var start := if e <= c then e else c;
    AllWithin(e, 5, start);
    OneMoreWithin(Copies(e, 5), m, start);
    OneMoreWithin(Copies(e, 5) + [m], c, start);
    assert |Within(Granted(first + [Attempt(key, m)] + [Attempt(key, c)], key), start)| >= 6;
  }

  /** An order of times is safe, however often calls come at each of them, exactly when no three of them straddle. */
  lemma SafeOrders(key: string, times: seq<int>)
    ensures (forall counts: seq<nat> | |counts| == |times| :: KeepsLimit(Repeated(key, times, counts), key)) <==>
            NoTripleStraddles(times)
  {
    hide KeepsLimit, Repeated, NoneStraddle, Straddles;
    if NoTripleStraddles(times) {
      forall counts: seq<nat> | |counts| == |times| ensures KeepsLimit(Repeated(key, times, counts), key) {
        RepeatedStraddlesNot(key, times, counts);
        AtMostFivePerWindow(Repeated(key, times, counts), key);
      }
    } else {
      var i, j, k :| 0 <= i < j < k < |times| && Straddles(times[i], times[j], times[k]);
      RepeatedFiveOneOne(key, times, i, j, k);
      StraddlingIsSixth(key, times[i], times[j], times[k]);
      assert !KeepsLimit(Repeated(key, times, FiveOneOne(|times|, i, j, k)), key);
    }
  }

  /** Five calls at `e`, then one at `m` and one at `c` keep the limit exactly when the three times do not straddle. */
  lemma ThreeTimes(key: string, e: int, m: int, c: int)
    ensures KeepsLimit(Calls(key, e, 5) + [Attempt(key, m)] + [Attempt(key, c)], key) <==> !Straddles(e, m, c)
  {
    hide KeepsLimit;
    if Straddles(e, m, c) {
      StraddlingIsSixth(key, e, m, c);
    } else {
      AtMostFivePerWindow(Calls(key, e, 5) + [Attempt(key, m)] + [Attempt(key, c)], key);
    }
  }

  /** It happens: after five calls at 0 and one at `WINDOW`, a call at `WINDOW - 1` is the sixth in the hour from 0. */
  lemma LateCallIsSixth(key: string)
    ensures !KeepsLimit(Calls(key, 0, 5) + [Attempt(key, WINDOW)] + [Attempt(key, WINDOW - 1)], key)
  {
    ThreeTimes(key, 0, WINDOW, WINDOW - 1);
  }
}

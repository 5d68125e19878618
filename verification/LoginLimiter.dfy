/**
 The sliding-window limit on Proxmox logins, as a table of recent attempts per actor,
 compared with a limiter that never forgets an accepted attempt.
 */
module LoginLimiter {
  type ActorId = string

  datatype Attempt = Attempt(actor: ActorId, now: real)

  const WINDOW: real := 60.0
  const LIMIT: nat := 5

  // The times that are still inside the window that ends at `now`.
  function Recent(times: seq<real>, now: real): seq<real> {
    if times == [] then []
    else if times[0] > now - WINDOW then [times[0]] + Recent(times[1..], now)
    else Recent(times[1..], now)
  }

  type Table = map<ActorId, seq<real>>

  function Lookup(table: Table, actor: ActorId): seq<real> {
    if actor in table then table[actor] else []
  }

  // Drops every actor whose last attempt has left the window.
  function Evicted(table: Table, now: real): Table {
    map actor | actor in table && |table[actor]| > 0 && table[actor][|table[actor]| - 1] > now - WINDOW :: table[actor]
  }

  function Admits(table: Table, attempt: Attempt): bool {
    |Recent(Lookup(Evicted(table, attempt.now), attempt.actor), attempt.now)| < LIMIT
  }

  function Next(table: Table, attempt: Attempt): Table {
    var kept := Evicted(table, attempt.now);
    var recent := Recent(Lookup(kept, attempt.actor), attempt.now);
    if |recent| < LIMIT then kept[attempt.actor := recent + [attempt.now]] else kept
  }

  class Limiter {
    var attempts: Table

    constructor ()
      ensures attempts == map[]
    {
      attempts := map[];
    }

    method RateLimit(actor: ActorId, now: real) returns (accepted: bool)
      modifies this
      ensures accepted == Admits(old(attempts), Attempt(actor, now))
      ensures attempts == Next(old(attempts), Attempt(actor, now))
    {
      attempts := Evicted(attempts, now);
      var recent := Recent(Lookup(attempts, actor), now);
      if |recent| >= LIMIT { return false; }
      attempts := attempts[actor := recent + [now]];
      return true;
    }
  }

  // ----- runs, in the order in which the callers hold the lock

  function TableAfter(run: seq<Attempt>): Table {
    if run == [] then map[] else Next(TableAfter(run[..|run| - 1]), run[|run| - 1])
  }

  // Whether attempt number `n` is accepted by the table.
  predicate Accepted(run: seq<Attempt>, n: nat)
    requires n < |run|
  {
    Admits(TableAfter(run[..n]), run[n])
  }

  // All accepted attempts of an actor, none forgotten.
  function History(run: seq<Attempt>, actor: ActorId): seq<real> {
    if run == [] then []
    else
      var n := |run| - 1;
      History(run[..n], actor) + if run[n].actor == actor && Accepted(run, n) then [run[n].now] else []
  }

  // How many times lie in the window (end - 60, end].
  function InWindow(times: seq<real>, end: real): nat {
    if times == [] then 0
    else (if end - WINDOW < times[0] <= end then 1 else 0) + InWindow(times[1..], end)
  }

  // The clock values, which are read before the lock is taken, arrive in order.
  ghost predicate InOrder(run: seq<Attempt>) {
    forall i, j :: 0 <= i < j < |run| ==> run[i].now <= run[j].now
  }

  ghost predicate Ascending(times: seq<real>) {
    forall i, j :: 0 <= i < j < |times| ==> times[i] <= times[j]
  }

  lemma {:induction false} RecentAppends(a: seq<real>, b: seq<real>, now: real)
    ensures Recent(a + b, now) == Recent(a, now) + Recent(b, now)
  {
    if a == [] {
      assert a + b == b;
    } else {
      RecentAppends(a[1..], b, now);
      assert (a + b)[1..] == a[1..] + b && (a + b)[0] == a[0];
      var x, y := Recent(a[1..], now), Recent(b, now);
      assert [a[0]] + (x + y) == [a[0]] + x + y;
    }
  }

  lemma {:induction false} RecentAgain(times: seq<real>, now: real, later: real)
    requires now <= later
    ensures Recent(Recent(times, now), later) == Recent(times, later)
  {
    if times != [] {
      RecentAgain(times[1..], now, later);
      if times[0] > now - WINDOW {
        assert ([times[0]] + Recent(times[1..], now))[1..] == Recent(times[1..], now);
      }
    }
  }

  lemma {:induction false} AllOld(times: seq<real>, now: real)
    requires forall i :: 0 <= i < |times| ==> times[i] <= now - WINDOW
    ensures Recent(times, now) == []
  {
    if times != [] { AllOld(times[1..], now); }
  }

  lemma {:induction false} RecentAscends(times: seq<real>, now: real)
    requires Ascending(times)
    ensures Ascending(Recent(times, now))
    ensures forall x :: x in Recent(times, now) ==> x in times
  {
    if times != [] {
      RecentAscends(times[1..], now);
      assert forall x :: x in times[1..] ==> times[0] <= x;
      if times[0] > now - WINDOW {
        var rest := Recent(times[1..], now);
        forall i, j | 0 <= i < j < |[times[0]] + rest| ensures ([times[0]] + rest)[i] <= ([times[0]] + rest)[j] {
          if i == 0 { assert rest[j - 1] in rest; }
        }
      }
    }
  }

  // What the table keeps of an actor ascends and is no later than `now`.
  ghost predicate Tidy(table: Table, now: real) {
    forall actor :: actor in table ==>
      Ascending(table[actor]) && forall i :: 0 <= i < |table[actor]| ==> table[actor][i] <= now
  }

  // For every later clock value the table and the history see the same recent attempts.
  ghost predicate Agrees(table: Table, run: seq<Attempt>, actor: ActorId, now: real) {
    Recent(Lookup(table, actor), now) == Recent(History(run, actor), now)
  }

  lemma EvictionAgrees(table: Table, actor: ActorId, now: real, later: real)
    requires Tidy(table, now) && now <= later
    ensures Recent(Lookup(Evicted(table, now), actor), later) == Recent(Lookup(table, actor), later)
  {
    if actor in table && actor !in Evicted(table, now) {
      AllOld(table[actor], later);
    }
  }

  lemma TidyNext(table: Table, attempt: Attempt, before: real)
    requires Tidy(table, before) && before <= attempt.now
    ensures Tidy(Next(table, attempt), attempt.now)
  {
    var kept := Evicted(table, attempt.now);
    RecentAscends(Lookup(kept, attempt.actor), attempt.now);
    var recent := Recent(Lookup(kept, attempt.actor), attempt.now);
    assert forall i :: 0 <= i < |recent| ==> recent[i] in recent;
  }

  // The end of a run, or the clock of its first attempt when it is empty.
  ghost predicate AfterRun(run: seq<Attempt>, now: real) {
    forall i :: 0 <= i < |run| ==> run[i].now <= now
  }

  lemma {:induction false} TableTidy(run: seq<Attempt>, now: real)
    requires InOrder(run) && AfterRun(run, now)
    ensures Tidy(TableAfter(run), now)
  {
    if run != [] {
      var n := |run| - 1;
      TableTidy(run[..n], run[n].now);
      TidyNext(TableAfter(run[..n]), run[n], run[n].now);
    }
  }

  lemma {:induction false} TableAgrees(run: seq<Attempt>, actor: ActorId, now: real)
    requires InOrder(run) && AfterRun(run, now)
    ensures Agrees(TableAfter(run), run, actor, now)
  {
    if run != [] {
      var n := |run| - 1;
      var init, last := run[..n], run[n];
      var table := TableAfter(init);
      TableTidy(init, last.now);
      TableAgrees(init, actor, now);
      EvictionAgrees(table, actor, last.now, now);
      var kept := Evicted(table, last.now);
      if last.actor == actor && Accepted(run, n) {
        var recent := Recent(Lookup(kept, actor), last.now);
        RecentAppends(recent, [last.now], now);
        RecentAgain(Lookup(kept, actor), last.now, now);
        RecentAppends(History(init, actor), [last.now], now);
      } else {
        assert History(run, actor) == History(init, actor);
      }
    }
  }

  // The pruned table gives the answer that the whole history would give.
  lemma PruningIsInvisible(run: seq<Attempt>, n: nat)
    requires n < |run| && InOrder(run)
    ensures Accepted(run, n) <==> |Recent(History(run[..n], run[n].actor), run[n].now)| < LIMIT
  {
    TableTidy(run[..n], run[n].now);
    TableAgrees(run[..n], run[n].actor, run[n].now);
    EvictionAgrees(TableAfter(run[..n]), run[n].actor, run[n].now, run[n].now);
  }

  lemma {:induction false} WindowAppends(a: seq<real>, b: seq<real>, end: real)
    ensures InWindow(a + b, end) == InWindow(a, end) + InWindow(b, end)
  {
    if a == [] {
      assert a + b == b;
    } else {
      WindowAppends(a[1..], b, end);
      assert (a + b)[1..] == a[1..] + b;
    }
  }

  lemma {:induction false} WindowWithinRecent(times: seq<real>, now: real, end: real)
    requires now <= end
    ensures InWindow(times, end) <= |Recent(times, now)|
  {
    if times != [] { WindowWithinRecent(times[1..], now, end); }
  }

  // No window of sixty seconds holds more than five accepted attempts of one actor.
  lemma {:induction false} AtMostFiveInAnyWindow(run: seq<Attempt>, actor: ActorId, end: real)
    requires InOrder(run)
    ensures InWindow(History(run, actor), end) <= LIMIT
  {
    if run != [] {
      var n := |run| - 1;
      var init, last := run[..n], run[n];
      AtMostFiveInAnyWindow(init, actor, end);
      if last.actor == actor && Accepted(run, n) {
        WindowAppends(History(init, actor), [last.now], end);
        if last.now <= end {
          PruningIsInvisible(run, n);
          WindowWithinRecent(History(init, actor), last.now, end);
        } else {
          assert InWindow([last.now], end) == 0;
        }
      } else {
        assert History(run, actor) == History(init, actor);
      }
    }
  }

  // ----- the limit in minutes and attempts

  lemma {:induction false} HistoryAscends(run: seq<Attempt>, actor: ActorId, now: real)
    requires InOrder(run) && AfterRun(run, now)
    ensures Ascending(History(run, actor))
    ensures forall i :: 0 <= i < |History(run, actor)| ==> History(run, actor)[i] <= now
  {
    if run != [] { HistoryAscends(run[..|run| - 1], actor, run[|run| - 1].now); }
  }

  // Of ascending times the last ones are the recent ones.
  lemma {:induction false} RecentAreLast(times: seq<real>, now: real, k: nat)
    requires Ascending(times) && 0 < k
    ensures |Recent(times, now)| >= k <==> |times| >= k && times[|times| - k] > now - 60.0
  {
    if times != [] {
      RecentAreLast(times[1..], now, k);
      if times[0] > now - 60.0 { AllRecent(times, now); }
    }
  }

  lemma {:induction false} AllRecent(times: seq<real>, now: real)
    requires forall i :: 0 <= i < |times| ==> times[i] > now - 60.0
    ensures Recent(times, now) == times
  {
    if times != [] { AllRecent(times[1..], now); }
  }

  // An attempt is refused exactly when the fifth last accepted one of its actor was less than a
  // minute ago.
  lemma RefusedExactlyWhen(run: seq<Attempt>, n: nat)
    requires n < |run| && InOrder(run)
    ensures var times := History(run[..n], run[n].actor);
            !Accepted(run, n) <==> |times| >= 5 && run[n].now - times[|times| - 5] < 60.0
  {
    PruningIsInvisible(run, n);
    HistoryAscends(run[..n], run[n].actor, run[n].now);
    RecentAreLast(History(run[..n], run[n].actor), run[n].now, 5);
  }

  // Six accepted attempts of one actor span at least a minute.
  lemma {:induction false} SixSpanAMinute(run: seq<Attempt>, actor: ActorId, i: nat)
    requires InOrder(run) && i + 5 < |History(run, actor)|
    ensures History(run, actor)[i + 5] - History(run, actor)[i] >= 60.0
  {
    var n := |run| - 1;
    var init := run[..n];
    if i + 5 < |History(init, actor)| {
      SixSpanAMinute(init, actor, i);
    } else {
      RefusedExactlyWhen(run, n);
    }
  }

  // ----- a caller that reads the clock early and gets the lock late

  function Repeat<T>(x: T, n: nat): (r: seq<T>)
    ensures |r| == n && forall i :: 0 <= i < n ==> r[i] == x
  {
    if n == 0 then [] else Repeat(x, n - 1) + [x]
  }

  lemma {:induction false} RecentRepeat(x: real, n: nat, now: real)
    ensures Recent(Repeat(x, n), now) == if x > now - WINDOW then Repeat(x, n) else []
  {
    if n > 0 {
      RecentRepeat(x, n - 1, now);
      RecentAppends(Repeat(x, n - 1), [x], now);
    }
  }

  lemma {:induction false} WindowRepeat(x: real, n: nat, end: real)
    requires end - WINDOW < x <= end
    ensures InWindow(Repeat(x, n), end) == n
  {
    if n > 0 {
      WindowRepeat(x, n - 1, end);
      WindowAppends(Repeat(x, n - 1), [x], end);
    }
  }

  lemma RepeatedOnce(t: Attempt, k: nat)
    requires k < LIMIT
    ensures var table: Table := if k == 0 then map[] else map[t.actor := Repeat(t.now, k)];
            Admits(table, t) && Next(table, t) == map[t.actor := Repeat(t.now, k + 1)]
  {
    var table: Table := if k == 0 then map[] else map[t.actor := Repeat(t.now, k)];
    assert Evicted(table, t.now) == table;
    RecentRepeat(t.now, k, t.now);
    hide Recent, Evicted;
  }

  // A burst of attempts at one moment is accepted up to the limit.
  lemma {:induction false} Burst(t: Attempt, n: nat)
    requires 0 < n <= LIMIT
    ensures TableAfter(Repeat(t, n)) == map[t.actor := Repeat(t.now, n)]
    ensures History(Repeat(t, n), t.actor) == Repeat(t.now, n)
  {
    hide Next, Admits;
    var k := n - 1;
    assert Repeat(t, n)[..k] == Repeat(t, k) && Repeat(t, n)[k] == t;
    RepeatedOnce(t, k);
    if k > 0 { Burst(t, k); }
  }

  lemma Late(t: Attempt, u: Attempt)
    requires t.actor == u.actor && u.now < t.now < u.now + WINDOW
    ensures TableAfter(Repeat(t, 4) + [u]) == map[t.actor := Repeat(t.now, 4) + [u.now]]
    ensures History(Repeat(t, 4) + [u], t.actor) == Repeat(t.now, 4) + [u.now]
  {
    var table: Table := map[t.actor := Repeat(t.now, 4)];
    Burst(t, 4);
    assert (Repeat(t, 4) + [u])[..4] == Repeat(t, 4);
    assert Evicted(table, u.now) == table;
    RecentRepeat(t.now, 4, u.now);
  }

  // Once the whole list is dropped, two more attempts at one moment are accepted.
  lemma DroppedThenTwo(run: seq<Attempt>, v: Attempt)
    requires Evicted(TableAfter(run), v.now) == map[]
    ensures History(run + [v] + [v], v.actor) == History(run, v.actor) + [v.now] + [v.now]
  {
    var n := |run|;
    assert (run + [v])[..n] == run && (run + [v] + [v])[..n + 1] == run + [v];
    var last: Table := map[v.actor := [v.now]];
    assert (run + [v])[n] == v && Lookup(map[], v.actor) == [] && Recent([], v.now) == [];
    assert Accepted(run + [v], n);
    var none: seq<real> := [];
    assert none + [v.now] == [v.now];
    assert TableAfter(run + [v]) == last;
    assert Evicted(last, v.now) == last && Recent([v.now], v.now) == [v.now];
    assert Accepted(run + [v] + [v], n + 1);
  }

  lemma LateListIsDropped(t: Attempt, u: Attempt, v: Attempt)
    requires t.actor == u.actor && u.now < t.now < u.now + WINDOW && v.now >= u.now + WINDOW
    ensures Evicted(TableAfter(Repeat(t, 4) + [u]), v.now) == map[]
  {
    hide TableAfter, History, Repeat;
    Late(t, u);
  }

  // Four attempts a little ahead, one that read the clock before them but comes after them, and
  // two when that one leaves the window.
  function LateRun(actor: ActorId, at: real, lateness: real): seq<Attempt> {
    var v := Attempt(actor, at + WINDOW);
    Repeat(Attempt(actor, at + lateness), 4) + [Attempt(actor, at)] + [v] + [v]
  }

  // The late attempt is stored last though it is not the latest, so the whole list is dropped
  // early, and six accepted attempts fall into one window. It takes any lateness at all.
  lemma LateCallerBreaksTheLimit(actor: ActorId, at: real, lateness: real)
    requires 0.0 < lateness < WINDOW
    ensures var run, end := LateRun(actor, at, lateness), at + WINDOW;
            && History(run, actor) == Repeat(at + lateness, 4) + [at] + [end] + [end]
            && InWindow(History(run, actor), end) == 6
  {
    var t, u, v := Attempt(actor, at + lateness), Attempt(actor, at), Attempt(actor, at + WINDOW);
    var end := v.now;
    var times := Repeat(t.now, 4) + [at];
    LateListIsDropped(t, u, v);
    hide TableAfter, History, Evicted, Repeat, Recent;
    Late(t, u);
    DroppedThenTwo(Repeat(t, 4) + [u], v);
    WindowRepeat(t.now, 4, end);
    WindowAppends(Repeat(t.now, 4), [at], end);
    WindowAppends(times, [end], end);
    WindowAppends(times + [end], [end], end);
    assert InWindow([end], end) == 1 && InWindow([at], end) == 0;
  }

  // The last attempt of that run is accepted, though five of the accepted ones are still recent.
  lemma LateCallerSeesThePruning(actor: ActorId, at: real, lateness: real)
    requires 0.0 < lateness < WINDOW
    ensures var run := LateRun(actor, at, lateness);
            && |run| == 7 && run[6] == Attempt(actor, at + WINDOW) && Accepted(run, 6)
            && |Recent(History(run[..6], actor), at + WINDOW)| == LIMIT
  {
    var t, u, v := Attempt(actor, at + lateness), Attempt(actor, at), Attempt(actor, at + WINDOW);
    var run := LateRun(actor, at, lateness);
    var before := Repeat(t, 4) + [u];
    LateListIsDropped(t, u, v);
    Late(t, u);
    LastOfTwo(before, v);
    hide TableAfter, Evicted, Repeat, History;
    assert run == before + [v] + [v] && run[..6] == before + [v];
    RecentRepeat(t.now, 4, v.now);
    RecentAppends(Repeat(t.now, 4), [at], v.now);
    RecentAppends(Repeat(t.now, 4) + [at], [v.now], v.now);
    assert Recent([at], v.now) == [] && Recent([v.now], v.now) == [v.now];
  }

  lemma LastOfTwo(run: seq<Attempt>, v: Attempt)
    requires Evicted(TableAfter(run), v.now) == map[]
    ensures Accepted(run + [v] + [v], |run| + 1)
    ensures History(run + [v], v.actor) == History(run, v.actor) + [v.now]
  {
    DroppedThenTwo(run, v);
  }

  // ----- exactly when the limiter keeps its promises

  // No clock value arrives more than `bound` after a larger one.
  ghost predicate LateBy(run: seq<Attempt>, bound: real) {
    forall i, j :: 0 <= i < j < |run| ==> run[i].now - run[j].now <= bound
  }

  ghost predicate LimitKept(run: seq<Attempt>) {
    forall actor, end :: InWindow(History(run, actor), end) <= LIMIT
  }

  // Every attempt is answered as by a scan of all accepted attempts.
  ghost predicate AnswersAsHistory(run: seq<Attempt>) {
    forall n: nat :: n < |run| ==> (Accepted(run, n) <==> |Recent(History(run[..n], run[n].actor), run[n].now)| < LIMIT)
  }

  lemma LateRunIsLate(actor: ActorId, at: real, lateness: real)
    requires 0.0 < lateness < WINDOW
    ensures LateBy(LateRun(actor, at, lateness), lateness)
  {
  }

  // All runs of bounded lateness keep the limit if and only if the bound allows no lateness.
  lemma LimitKeptExactlyInOrder(bound: real)
    ensures (forall run: seq<Attempt> :: LateBy(run, bound) ==> LimitKept(run)) <==> bound <= 0.0
  {
    if bound <= 0.0 {
      forall run: seq<Attempt> | LateBy(run, bound) ensures LimitKept(run) {
        forall actor, end ensures InWindow(History(run, actor), end) <= LIMIT { AtMostFiveInAnyWindow(run, actor, end); }
      }
    } else {
      var lateness: real := if bound < WINDOW then bound / 2.0 else WINDOW / 2.0;
      var run := LateRun("", 0.0, lateness);
      LateRunIsLate("", 0.0, lateness);
      LateCallerBreaksTheLimit("", 0.0, lateness);
      hide LateRun, History, InWindow;
      assert LateBy(run, bound) && !LimitKept(run);
    }
  }

  // Pruning stays invisible in all of them if and only if the bound allows no lateness.
  lemma PruningInvisibleExactlyInOrder(bound: real)
    ensures (forall run: seq<Attempt> :: LateBy(run, bound) ==> AnswersAsHistory(run)) <==> bound <= 0.0
  {
    if bound <= 0.0 {
      forall run: seq<Attempt> | LateBy(run, bound) ensures AnswersAsHistory(run) {
        forall n: nat | n < |run|
          ensures Accepted(run, n) <==> |Recent(History(run[..n], run[n].actor), run[n].now)| < LIMIT
        {
          PruningIsInvisible(run, n);
        }
      }
    } else {
      var lateness: real := if bound < WINDOW then bound / 2.0 else WINDOW / 2.0;
      var run := LateRun("", 0.0, lateness);
      LateRunIsLate("", 0.0, lateness);
      LateCallerSeesThePruning("", 0.0, lateness);
      hide LateRun, History, Recent, Accepted;
      assert LateBy(run, bound) && !AnswersAsHistory(run);
    }
  }
}

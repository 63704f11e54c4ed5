/** The promises of the rate limiter over every run: the sliding window and the wait oracle. */
module RateLimiterTheorems {
  import opened RateLimiter

  // ---------------------------------------------------------------- safety over the full history

  /** The grants in the window that ends at `t` (and is open at its start). */
  function InWindow(g: seq<int>, t: int): set<int> {
    set i | 0 <= i < |g| && t - WINDOW < g[i] <= t
  }

  function Range(lo: int, n: nat): (r: set<int>)
    ensures |r| == n && forall i :: i in r <==> lo <= i < lo + n
  {
    if n == 0 then {} else Range(lo, n - 1) + {lo + n - 1}
  }

  lemma SubsetSize(a: set<int>, b: set<int>)
    requires a <= b
    ensures |a| <= |b|
  {
    assert b == a + (b - a);
  }

  /** No window of 60 s ever holds more than `limit` grants, and any two are 1 s apart. */
  lemma SlidingWindow(b: Bot, limit: int, t: int)
    requires Reachable(b, limit)
    ensures |InWindow(b.grants, t)| <= if limit < 0 then 0 else limit
    ensures forall i, j :: 0 <= i < j < |b.grants| ==> b.grants[j] - b.grants[i] >= 1000
    ensures forall i :: i in InWindow(b.grants, t) <==> 0 <= i < |b.grants| && t - 60000 < b.grants[i] <= t
  {
    ReachableInv(b, limit);
    var g := b.grants;
    DropIs(g, t - WINDOW);
    var lo := |g| - |Drop(g, t - WINDOW)|;
    if limit > 0 {
      forall i | i in InWindow(g, t) ensures i in Range(lo, limit) {
        assert g[lo] > t - WINDOW;
      }
      SubsetSize(InWindow(g, t), Range(lo, limit));
    }
  }

  lemma RecentCount(g: seq<int>, t: int)
    requires Spaced(g) && NoneAfter(g, t)
    ensures |Drop(g, t - WINDOW)| == |InWindow(g, t)|
  {
    DropIs(g, t - WINDOW);
    var lo := |g| - |Drop(g, t - WINDOW)|;
    assert InWindow(g, t) == Range(lo, |g| - lo);
  }

  lemma RecentLast(g: seq<int>, t: int)
    requires Spaced(g)
    ensures var s := Drop(g, t - WINDOW);
      if |s| > 0 then s[|s| - 1] == g[|g| - 1] else |g| > 0 ==> g[|g| - 1] <= t - WINDOW
  {
    DropIs(g, t - WINDOW);
  }

  /** The limiter that never forgets: what the script is meant to decide. */
  predicate ShouldGrant(g: seq<int>, now: int, limit: int) {
    && (|g| > 0 ==> now - g[|g| - 1] >= INTERVAL)
    && |InWindow(g, now)| < limit
  }

  /** The script decides as a limiter that keeps its whole history would. */
  lemma ScriptRefinesHistory(b: Bot, now: int, at: int, limit: int)
    requires Inv(b, limit) && Timely(b, Attempt(now, at))
    ensures Grants(b.key, now, at, limit) <==> ShouldGrant(b.grants, now, limit)
  {
    WindowIsHistory(b, now, at);
    RecentLast(b.grants, now);
    RecentCount(b.grants, now);
  }

  /** The window has to be half-open: with a limit of one, two grants are exactly 60 s apart. */
  lemma ClosedWindowOverfull()
    ensures Reachable(Bot(Key([60000], 130000), [0, 60000], 60000), 1)
  {
    var b0 := Bot(NO_KEY, [], 0);
    var e1, e2 := Attempt(0, 0), Attempt(60000, 60000);
    var b1 := Bot(Key([0], 70000), [0], 0);
    var b2 := Bot(Key([60000], 130000), [0, 60000], 60000);
    assert StepBot(b0, e1, 1) == b1;
    assert Drop([0], 0) == [];
    assert StepBot(b1, e2, 1) == b2;
    assert [e1, e2][1..] == [e2] && [e2][1..] == [];
    assert Run(b1, [e2], 1) == b2 && TimelyRun(b1, [e2], 1);
    assert Run(b0, [e1, e2], 1) == b2;
    assert TimelyRun(b0, [e1, e2], 1);
  }

  /** The grants in the window that is closed at both ends. */
  function InClosedWindow(g: seq<int>, t: int): set<int> {
    set i | 0 <= i < |g| && t - WINDOW <= g[i] <= t
  }

  /**
   How the closed window fails: it holds one grant more than the half-open one at most, and more
   than the limit exactly when the half-open one is full and a grant lies at its open end.
   */
  lemma ClosedWindowExactly(b: Bot, limit: int, t: int)
    requires Reachable(b, limit) && limit >= 0
    ensures |InClosedWindow(b.grants, t)| <= limit + 1
    ensures |InClosedWindow(b.grants, t)| > limit <==>
      |InWindow(b.grants, t)| == limit && t - WINDOW in b.grants
  {
    SlidingWindow(b, limit, t);
    ClosedSize(b.grants, t);
  }

  lemma ClosedSize(g: seq<int>, t: int)
    requires Spaced(g)
    ensures |InClosedWindow(g, t)| == |InWindow(g, t)| + if t - WINDOW in g then 1 else 0
  {
    if i :| 0 <= i < |g| && g[i] == t - WINDOW {
      forall j | j in InClosedWindow(g, t) ensures j in InWindow(g, t) + {i} {
        if j < i { assert g[j] + INTERVAL <= g[i]; } else if i < j { assert g[i] + INTERVAL <= g[j]; }
      }
      assert InClosedWindow(g, t) == InWindow(g, t) + {i};
    } else {
      assert InClosedWindow(g, t) == InWindow(g, t);
    }
  }

  // ---------------------------------------------------------------- the wait oracle

  /** One bot's contribution to `GetWaitTimeMs`. */
  function BotWait(scores: seq<int>, now: int, limit: int): int {
    if |scores| < limit then
      if |scores| > 0 then scores[|scores| - 1] + INTERVAL - now else 0
    else if |scores| > 0 then scores[0] + WINDOW - now
    else WINDOW
  }

  /** Nothing to wait for exactly when the script would grant. */
  lemma NoWaitIffGrants(b: Bot, now: int, at: int, limit: int)
    requires Inv(b, limit) && Timely(b, Look(now, at))
    ensures BotWait(Window(b.key, now, at), now, limit) <= 0 <==> Grants(b.key, now, at, limit)
    ensures BotWait(Window(b.key, now, at), now, limit) <= WINDOW
  {
    WindowIsHistory(b, now, at);
    DropIs(b.grants, now - WINDOW);
  }

  /** Whatever happens in between, the bot grants nothing before its wait is over. */
  lemma NoGrantBeforeWait(b: Bot, now: int, at: int, limit: int, es: seq<Event>, t: int, tat: int)
    requires Inv(b, limit) && Timely(b, Look(now, at))
    requires TimelyRun(StepBot(b, Look(now, at), limit), es, limit)
    requires var c := Run(StepBot(b, Look(now, at), limit), es, limit); Timely(c, Attempt(t, tat))
    requires t < now + BotWait(Window(b.key, now, at), now, limit)
    ensures var c := Run(StepBot(b, Look(now, at), limit), es, limit); !Grants(c.key, t, tat, limit)
  {
    var b1 := StepBot(b, Look(now, at), limit);
    StepKeepsInv(b, Look(now, at), limit);
    RunKeepsInv(b1, es, limit);
    RunClock(b1, es, limit);
    WindowIsHistory(b, now, at);
    DeniedLater(b.grants, now, limit, Run(b1, es, limit), t, tat);
  }

  lemma {:induction false} RunClock(b: Bot, es: seq<Event>, limit: int)
    requires TimelyRun(b, es, limit)
    ensures b.clock <= Run(b, es, limit).clock
    decreases |es|
  {
    if |es| > 0 { RunClock(StepBot(b, es[0], limit), es[1..], limit); }
  }

  /** A bot whose history has grown from `g` denies while the wait after `g` lasts. */
  lemma DeniedLater(g: seq<int>, now: int, limit: int, c: Bot, t: int, tat: int)
    requires Spaced(g) && Inv(c, limit) && g <= c.grants && now <= c.clock && Timely(c, Attempt(t, tat))
    requires t < now + BotWait(Drop(g, now - WINDOW), now, limit)
    ensures !Grants(c.key, t, tat, limit)
  {
    assert Grants(c.key, t, tat, limit) <==> ShouldGrant(c.grants, t, limit) by {
      ScriptRefinesHistory(c, t, tat, limit);
    }
    HistoryOf(c, limit, t);
    HistoryDenies(g, c.grants, now, limit, t);
  }

  lemma HistoryOf(c: Bot, limit: int, t: int)
    requires Inv(c, limit) && c.clock <= t
    ensures Spaced(c.grants) && NoneAfter(c.grants, t) && (limit <= 0 ==> c.grants == [])
  {
  }

  lemma HistoryDenies(g: seq<int>, h: seq<int>, now: int, limit: int, t: int)
    requires Spaced(g) && g <= h && Spaced(h) && (limit <= 0 ==> h == []) && NoneAfter(h, t)
    requires now <= t < now + BotWait(Drop(g, now - WINDOW), now, limit)
    ensures !ShouldGrant(h, t, limit)
  {
    var s := Drop(g, now - WINDOW);
    RecentLast(g, now);
    if 0 < |s| < limit {
      assert h[|g| - 1] <= h[|h| - 1];
    } else if |s| > 0 {
      OldestStays(g, h, now, t);
    }
  }

  /** Until the oldest grant leaves the window, everything in it stays. */
  lemma OldestStays(g: seq<int>, h: seq<int>, now: int, t: int)
    requires Spaced(g) && g <= h && NoneAfter(h, t)
    requires |Drop(g, now - WINDOW)| > 0 && t < Drop(g, now - WINDOW)[0] + WINDOW
    ensures |InWindow(h, t)| >= |Drop(g, now - WINDOW)|
  {
    var s := Drop(g, now - WINDOW);
    DropIs(g, now - WINDOW);
    var n := |g| - |s|;
    forall i | i in Range(n, |s|) ensures i in InWindow(h, t) {
      assert h[i] == g[i] >= g[n] == s[0];
    }
    SubsetSize(Range(n, |s|), InWindow(h, t));
  }

  lemma WindowHoldsLimit(b: Bot, limit: int, t: int)
    requires Inv(b, limit) && limit > 0
    ensures |Drop(b.grants, t - WINDOW)| > limit ==> b.grants[|b.grants| - 1] > t
  {
    var g := b.grants;
    DropIs(g, t - WINDOW);
    var n := |g| - |Drop(g, t - WINDOW)|;
    if n + limit < |g| {
      assert g[n] + WINDOW <= g[n + limit];
    }
  }

  /** Waiting out the interval of a bot with capacity. */
  lemma IntervalOver(s: seq<int>, limit: int, t: int)
    requires Spaced(s) && 0 < |s| < limit && t == s[|s| - 1] + INTERVAL
    ensures Allows(Drop(s, t - WINDOW), t, limit)
  {
    DropIs(s, t - WINDOW);
  }

  /** Waiting until the oldest grant of a full bot leaves. */
  lemma OldestLeft(s: seq<int>, limit: int, t: int)
    requires Spaced(s) && 0 < |s| == limit && t == s[0] + WINDOW
    ensures Allows(Drop(s, t - WINDOW), t, limit) <==> s[|s| - 1] + INTERVAL <= t
  {
    DropIs(s, s[0]);
    assert Drop(s, s[0]) == s[1..];
  }

  lemma WaitOver(s: seq<int>, now: int, limit: int, t: int)
    requires Spaced(s) && 0 < |s| <= limit && t == now + BotWait(s, now, limit)
    ensures Allows(Drop(s, t - WINDOW), t, limit) <==> (|s| >= limit ==> s[|s| - 1] + INTERVAL <= s[0] + WINDOW)
  {
    if |s| < limit { IntervalOver(s, limit, t); } else { OldestLeft(s, limit, t); }
  }

  lemma PrunedWithinLimit(b: Bot, now: int, at: int, limit: int)
    requires Inv(b, limit) && b.clock <= now <= at <= now + SLACK && limit > 0
    ensures var s := Window(b.key, now, at); Spaced(s) && |s| <= limit
  {
    WindowIsHistory(b, now, at);
    WindowHoldsLimit(b, limit, now);
    DropIs(b.grants, now - WINDOW);
  }

  /**
   When the wait is over and nothing was granted meanwhile, the bot grants, unless its window was
   full with a grant less than a second before the oldest one left it.
   */
  lemma GrantAfterWait(b: Bot, now: int, at: int, limit: int, late: nat)
    requires Inv(b, limit) && Timely(b, Look(now, at)) && limit > 0 && late <= SLACK
    requires BotWait(Window(b.key, now, at), now, limit) > 0
    ensures var s := Window(b.key, now, at);
      var t := now + BotWait(s, now, limit);
      Grants(b.key.(scores := s), t, t + late, limit) <==> (|s| >= limit ==> s[|s| - 1] + INTERVAL <= s[0] + WINDOW)
  {
    var s := Window(b.key, now, at);
    var c := Bot(b.key.(scores := s), b.grants, now);
    LookKeepsInv(b, now, at, limit);
    PrunedWithinLimit(b, now, at, limit);
    var t := now + BotWait(s, now, limit);
    ExpiryIsHarmless(c, t, t + late);
    WaitOver(s, now, limit, t);
  }

  /**
   The exception happens: with a limit of two and grants at 0 and 59.5 s, the wait named at 59.6 s is
   400 ms, and then the younger grant is only half a second old.
   */
  lemma WaitTooShort()
    ensures var b := Bot(Key([0, 59500], 129500), [0, 59500], 59500);
      && Reachable(b, 2) && Timely(b, Look(59600, 59600))
      && BotWait(Window(b.key, 59600, 59600), 59600, 2) == 400
      && !Grants(b.key.(scores := Window(b.key, 59600, 59600)), 60000, 60000, 2)
  {
    var b0 := Bot(NO_KEY, [], 0);
    var e1, e2 := Attempt(0, 0), Attempt(59500, 59500);
    var b1 := Bot(Key([0], 70000), [0], 0);
    var b2 := Bot(Key([0, 59500], 129500), [0, 59500], 59500);
    assert StepBot(b0, e1, 2) == b1;
    assert Drop([0], -500) == [0];
    assert StepBot(b1, e2, 2) == b2;
    assert [e1, e2][1..] == [e2] && [e2][1..] == [];
    assert Run(b1, [e2], 2) == b2 && TimelyRun(b1, [e2], 2);
    assert Run(b0, [e1, e2], 2) == b2 && TimelyRun(b0, [e1, e2], 2);
    assert Drop([0, 59500], -400) == [0, 59500];
    assert [0, 59500][1..] == [59500];
    assert Drop([0, 59500], 0) == [59500];
  }
}

/** The per-bot rate limiter, one script run at a time. */
module RateLimiter {
  // A Redis script keeps a pruned, expiring sorted set of grant times
  // (backend-transfer-go/internal/telegram/rate_limiter.go); the runs remember every grant ever given.

  // Times are milliseconds.  Every call carries the caller's clock `now` and the moment `at` at which
  // Redis runs it.
  const WINDOW := 60000
  const INTERVAL := 1000
  const SLACK := 10000

  // ---------------------------------------------------------------- the sorted set

  /** A sorted set of grant times under a key with an expiry; an empty one is a missing key. */
  datatype Key = Key(scores: seq<int>, expireAt: int)

  const NO_KEY := Key([], 0)

  /** `ZREMRANGEBYSCORE key -inf cutoff`. */
  function Drop(s: seq<int>, cutoff: int): (t: seq<int>)
    ensures |t| <= |s|
  {
    if |s| > 0 && s[0] <= cutoff then Drop(s[1..], cutoff) else s
  }

  /** What a script running at `at` with clock `now` finds after pruning. */
  function Window(k: Key, now: int, at: int): seq<int> {
    Drop(if at < k.expireAt then k.scores else [], now - WINDOW)
  }

  predicate Allows(scores: seq<int>, now: int, limit: int) {
    && (|scores| > 0 ==> now - scores[|scores| - 1] >= INTERVAL)
    && |scores| < limit
  }

  predicate Grants(k: Key, now: int, at: int, limit: int) {
    Allows(Window(k, now, at), now, limit)
  }

  /** `AcquireSlotLua`: the key it leaves. */
  function Script(k: Key, now: int, at: int, limit: int): Key {
    var scores := Window(k, now, at);
    if Allows(scores, now, limit) then Key(scores + [now], at + WINDOW + SLACK) else Key(scores, k.expireAt)
  }

  // ---------------------------------------------------------------- runs with their full history

  datatype Event = Attempt(now: int, at: int) | Look(now: int, at: int)

  /** A bot's key together with every grant it ever gave and the latest clock seen. */
  datatype Bot = Bot(key: Key, grants: seq<int>, clock: int)

  /** Clocks do not go back, and a command reaches Redis within the slack of the key's expiry. */
  predicate Timely(b: Bot, e: Event) {
    b.clock <= e.now <= e.at <= e.now + SLACK
  }

  function StepBot(b: Bot, e: Event, limit: int): Bot {
    if e.Look? then Bot(b.key.(scores := Window(b.key, e.now, e.at)), b.grants, e.now)
    else
      Bot(Script(b.key, e.now, e.at, limit),
          if Grants(b.key, e.now, e.at, limit) then b.grants + [e.now] else b.grants,
          e.now)
  }

  predicate TimelyRun(b: Bot, es: seq<Event>, limit: int)
    decreases |es|
  {
    |es| > 0 ==> Timely(b, es[0]) && TimelyRun(StepBot(b, es[0], limit), es[1..], limit)
  }

  function Run(b: Bot, es: seq<Event>, limit: int): Bot
    decreases |es|
  {
    if |es| == 0 then b else Run(StepBot(b, es[0], limit), es[1..], limit)
  }

  // ---------------------------------------------------------------- the invariant

  predicate Spaced(g: seq<int>) {
    forall i, j :: 0 <= i < j < |g| ==> g[i] + INTERVAL <= g[j]
  }

  /** Any `limit` consecutive grants are followed by none until the window has passed. */
  predicate Windowed(g: seq<int>, limit: int) {
    && (limit <= 0 ==> g == [])
    && (limit > 0 ==> forall i, j :: 0 <= i && i + limit <= j < |g| ==> g[i] + WINDOW <= g[j])
  }

  /** The set holds the end of the history; what it lacks has left the window for good. */
  predicate EndOf(g: seq<int>, s: seq<int>, clock: int) {
    var n := |g| - |s|;
    && 0 <= n && s == g[n..]
    && forall i :: 0 <= i < n ==> g[i] <= clock - WINDOW
  }

  predicate NoneAfter(g: seq<int>, t: int) {
    forall i :: 0 <= i < |g| ==> g[i] <= t
  }

  predicate Remembers(b: Bot) {
    && EndOf(b.grants, b.key.scores, b.clock)
    && NoneAfter(b.grants, b.clock)
    && (b.key.scores != [] ==> b.grants[|b.grants| - 1] + WINDOW + SLACK <= b.key.expireAt)
  }

  predicate Inv(b: Bot, limit: int) {
    Spaced(b.grants) && Windowed(b.grants, limit) && Remembers(b)
  }

  lemma {:induction false} DropIs(s: seq<int>, cutoff: int)
    requires Spaced(s)
    ensures var n := |s| - |Drop(s, cutoff)|;
      && Drop(s, cutoff) == s[n..]
      && (forall i :: 0 <= i < n ==> s[i] <= cutoff)
      && (forall i :: n <= i < |s| ==> s[i] > cutoff)
  {
    if |s| > 0 && s[0] <= cutoff {
      var t := s[1..];
      DropIs(t, cutoff);
      forall i | 0 <= i < |s| - |Drop(s, cutoff)| ensures s[i] <= cutoff {
        if i > 0 { assert s[i] == t[i - 1]; }
      }
      forall i | |s| - |Drop(s, cutoff)| <= i < |s| ensures s[i] > cutoff {
        assert s[i] == t[i - 1];
      }
    }
  }

  lemma {:induction false} DropSkips(s: seq<int>, n: nat, cutoff: int)
    requires n <= |s| && forall i :: 0 <= i < n ==> s[i] <= cutoff
    ensures Drop(s, cutoff) == Drop(s[n..], cutoff)
  {
    if n > 0 {
      DropSkips(s[1..], n - 1, cutoff);
      assert s[1..][n - 1..] == s[n..];
    }
  }

  /** An expired key held nothing the window still needs. */
  lemma ExpiryIsHarmless(b: Bot, now: int, at: int)
    requires Spaced(b.grants) && Remembers(b) && now <= at <= now + SLACK
    ensures Window(b.key, now, at) == Drop(b.key.scores, now - WINDOW)
  {
    var s := b.key.scores;
    if at >= b.key.expireAt && |s| > 0 {
      assert Spaced(s);
      DropSkips(s, |s|, now - WINDOW);
    }
  }

  /** Pruning and expiry lose nothing of the history that the window still needs. */
  lemma WindowIsHistory(b: Bot, now: int, at: int)
    requires Spaced(b.grants) && Remembers(b) && b.clock <= now <= at <= now + SLACK
    ensures Window(b.key, now, at) == Drop(b.grants, now - WINDOW)
  {
    ExpiryIsHarmless(b, now, at);
    DropSkips(b.grants, |b.grants| - |b.key.scores|, now - WINDOW);
  }

  lemma GrantKeepsSpaced(g: seq<int>, now: int, limit: int)
    requires Spaced(g) && Allows(Drop(g, now - WINDOW), now, limit)
    ensures Spaced(g + [now])
  {
    DropIs(g, now - WINDOW);
    if |g| > 0 { assert g[|g| - 1] + INTERVAL <= now; }
  }

  lemma GrantKeepsWindowed(g: seq<int>, now: int, limit: int)
    requires Spaced(g) && Windowed(g, limit) && Allows(Drop(g, now - WINDOW), now, limit)
    ensures Windowed(g + [now], limit)
  {
    DropIs(g, now - WINDOW);
    var h := g + [now];
    forall i, j | 0 <= i && i + limit <= j < |h| ensures h[i] + WINDOW <= h[j] {
      if j == |g| { assert h[i] == g[i]; } else { assert h[i] == g[i] && h[j] == g[j]; }
    }
  }

  /** Pruning forgets only what has left the window. */
  lemma PruneRemembers(b: Bot, now: int, at: int)
    requires Spaced(b.grants) && Remembers(b) && b.clock <= now <= at <= now + SLACK
    ensures Remembers(Bot(b.key.(scores := Window(b.key, now, at)), b.grants, now))
  {
    WindowIsHistory(b, now, at);
    DropIs(b.grants, now - WINDOW);
    if b.key.scores == [] { assert Window(b.key, now, at) == []; }
  }

  lemma GrantRemembers(b: Bot, now: int, at: int)
    requires Remembers(b) && b.clock == now <= at
    ensures Remembers(Bot(Key(b.key.scores + [now], at + WINDOW + SLACK), b.grants + [now], now))
  {
    var n := |b.grants| - |b.key.scores|;
    assert (b.grants + [now])[n..] == b.key.scores + [now];
  }

  lemma LookKeepsInv(b: Bot, now: int, at: int, limit: int)
    requires Inv(b, limit) && b.clock <= now <= at <= now + SLACK
    ensures Inv(Bot(b.key.(scores := Window(b.key, now, at)), b.grants, now), limit)
  {
    PruneRemembers(b, now, at);
  }

  lemma GrantKeepsInv(b: Bot, now: int, at: int, limit: int)
    requires Inv(b, limit) && b.clock <= now <= at <= now + SLACK
    requires Grants(b.key, now, at, limit)
    ensures Inv(Bot(Key(Window(b.key, now, at) + [now], at + WINDOW + SLACK), b.grants + [now], now), limit)
  {
    PruneRemembers(b, now, at);
    WindowIsHistory(b, now, at);
    GrantKeepsSpaced(b.grants, now, limit);
    GrantKeepsWindowed(b.grants, now, limit);
    GrantRemembers(Bot(b.key.(scores := Window(b.key, now, at)), b.grants, now), now, at);
  }

  lemma StepKeepsInv(b: Bot, e: Event, limit: int)
    requires Inv(b, limit) && Timely(b, e)
    ensures Inv(StepBot(b, e, limit), limit)
    ensures b.grants <= StepBot(b, e, limit).grants
  {
    if e.Attempt? && Grants(b.key, e.now, e.at, limit) {
      GrantKeepsInv(b, e.now, e.at, limit);
    } else {
      LookKeepsInv(b, e.now, e.at, limit);
    }
  }

  lemma {:induction false} RunKeepsInv(b: Bot, es: seq<Event>, limit: int)
    requires Inv(b, limit) && TimelyRun(b, es, limit)
    ensures Inv(Run(b, es, limit), limit)
    ensures b.grants <= Run(b, es, limit).grants
    decreases |es|
  {
    if |es| > 0 {
      StepKeepsInv(b, es[0], limit);
      RunKeepsInv(StepBot(b, es[0], limit), es[1..], limit);
    }
  }

  ghost predicate Reachable(b: Bot, limit: int) {
    exists start: int, es: seq<Event> ::
      TimelyRun(Bot(NO_KEY, [], start), es, limit) && b == Run(Bot(NO_KEY, [], start), es, limit)
  }

  lemma ReachableInv(b: Bot, limit: int)
    requires Reachable(b, limit)
    ensures Inv(b, limit)
  {
    var start: int, es :| TimelyRun(Bot(NO_KEY, [], start), es, limit) && b == Run(Bot(NO_KEY, [], start), es, limit);
    RunKeepsInv(Bot(NO_KEY, [], start), es, limit);
  }
}

/** The limiter object over all bots. */
module BotPool {
  // One pass over the bots in round-robin order, and the wait oracle over all of them
  // (backend-transfer-go/internal/telegram/rate_limiter.go).

  import opened RateLimiter
  import opened RateLimiterTheorems

  const UINT32 := 0x1_0000_0000

  function KeyOf(keys: map<int, Key>, id: int): Key {
    if id in keys then keys[id] else NO_KEY
  }

  function WindowOf(keys: map<int, Key>, id: int, now: int, at: int): seq<int> {
    Window(KeyOf(keys, id), now, at)
  }

  // ---------------------------------------------------------------- one pass as a value

  datatype Scanned = Scanned(keys: map<int, Key>, bot: int)

  /** Scripts run for `ids[i..]` until one grants; zero stands for no bot. */
  function Scan(keys: map<int, Key>, ids: seq<int>, i: nat, now: int, at: nat -> int, limit: int): Scanned
    requires i <= |ids|
    decreases |ids| - i
  {
    if i == |ids| then Scanned(keys, 0)
    else
      var k := KeyOf(keys, ids[i]);
      var after := keys[ids[i] := Script(k, now, at(i), limit)];
      if Grants(k, now, at(i), limit) then Scanned(after, ids[i]) else Scan(after, ids, i + 1, now, at, limit)
  }

  function Rotated(ids: seq<int>, start: nat): seq<int>
    requires start < |ids|
  {
    seq(|ids|, i requires 0 <= i < |ids| => ids[(start + i) % |ids|])
  }

  predicate Distinct(ids: seq<int>) {
    forall i, j :: 0 <= i < j < |ids| ==> ids[i] != ids[j]
  }

  /** `n` is the first bot from `i` on whose script grants, or the end. */
  predicate FirstGrant(keys: map<int, Key>, ids: seq<int>, i: nat, n: nat, now: int, at: nat -> int, limit: int) {
    && i <= n <= |ids|
    && (forall j :: i <= j < n ==> !Grants(KeyOf(keys, ids[j]), now, at(j), limit))
    && (n < |ids| ==> Grants(KeyOf(keys, ids[n]), now, at(n), limit))
  }

  /** Bots that are not asked keep their keys. */
  lemma {:induction false} ScanLeaves(
    keys: map<int, Key>, ids: seq<int>, i: nat, now: int, at: nat -> int, limit: int, id: int)
    requires i <= |ids| && forall j :: i <= j < |ids| ==> ids[j] != id
    ensures KeyOf(Scan(keys, ids, i, now, at, limit).keys, id) == KeyOf(keys, id)
    decreases |ids| - i
  {
    if i < |ids| {
      ScanLeaves(keys[ids[i] := Script(KeyOf(keys, ids[i]), now, at(i), limit)], ids, i + 1, now, at, limit, id);
    }
  }

  /** What a pass leaves of the bot it asked `j`-th, when the `n`-th one grants. */
  function Asked(k: Key, j: nat, n: nat, now: int, at: nat -> int): Key {
    if j < n then k.(scores := Window(k, now, at(j)))
    else if j == n then Key(Window(k, now, at(j)) + [now], at(j) + WINDOW + SLACK)
    else k
  }

  /** A pass takes one slot, from the first bot that has one, and prunes only the bots it asked. */
  lemma {:induction false} ScanTakesFirst(
    keys: map<int, Key>, ids: seq<int>, i: nat, now: int, at: nat -> int, limit: int)
    returns (n: nat)
    requires i <= |ids| && Distinct(ids)
    ensures FirstGrant(keys, ids, i, n, now, at, limit)
    ensures Scan(keys, ids, i, now, at, limit).bot == if n < |ids| then ids[n] else 0
    ensures forall j :: i <= j < |ids| ==>
      KeyOf(Scan(keys, ids, i, now, at, limit).keys, ids[j]) == Asked(KeyOf(keys, ids[j]), j, n, now, at)
    decreases |ids| - i
  {
    n := i;
    if i < |ids| && !Grants(KeyOf(keys, ids[i]), now, at(i), limit) {
      var after := keys[ids[i] := Script(KeyOf(keys, ids[i]), now, at(i), limit)];
      n := ScanTakesFirst(after, ids, i + 1, now, at, limit);
      forall j | i + 1 <= j < |ids| ensures KeyOf(after, ids[j]) == KeyOf(keys, ids[j]) {
      }
      ScanLeaves(after, ids, i + 1, now, at, limit, ids[i]);
    }
  }

  // ---------------------------------------------------------------- the pass in round-robin order

  /** The bots from place `start` on, wrapping around. */
  predicate RoundRobin(ids: seq<int>, start: nat, order: seq<int>) {
    |order| == |ids| && forall n :: 0 <= n < |order| ==> order[n] == ids[(start + n) % |ids|]
  }

  /**
   `turn` is the first of the bots in `order` whose script grants, or their number.  Exactly that bot
   has gained a grant, the ones before it are pruned, and all others keep their keys.
   */
  predicate TookTurn(
    order: seq<int>, was: map<int, Key>, keys: map<int, Key>, acquired: int, turn: nat, now: int, at: nat -> int,
    limit: int)
  {
    && turn <= |order|
    && (forall n :: 0 <= n < turn ==>
         && !Grants(KeyOf(was, order[n]), now, at(n), limit)
         && KeyOf(keys, order[n]) == KeyOf(was, order[n]).(scores := Window(KeyOf(was, order[n]), now, at(n))))
    && (if turn == |order| then acquired == 0
        else
          && acquired == order[turn] && Grants(KeyOf(was, acquired), now, at(turn), limit)
          && KeyOf(keys, acquired)
             == Key(Window(KeyOf(was, acquired), now, at(turn)) + [now], at(turn) + WINDOW + SLACK))
    && (forall n :: turn < n < |order| ==> KeyOf(keys, order[n]) == KeyOf(was, order[n]))
  }

  lemma ProductSign(d: int, m: int)
    requires m > 0
    ensures d > 0 ==> d * m >= m
    ensures d < 0 ==> d * m <= -m
  {
  }

  lemma RemainderIs(a: nat, q: int, r: nat, m: nat)
    requires r < m && a == q * m + r
    ensures a % m == r
  {
    var d := a / m - q;
    assert a == (a / m) * m + a % m;
    assert d * m == r - a % m;
    ProductSign(d, m);
  }

  lemma WrapsOnce(start: nat, n: nat, m: nat)
    requires m > 0
    ensures (start % m + n) % m == (start + n) % m
  {
    var p, q := start / m, (start % m + n) / m;
    var r := (start % m + n) % m;
    assert start == p * m + start % m;
    assert start % m + n == q * m + r;
    assert start + n == (p + q) * m + r;
    RemainderIs(start + n, p + q, r, m);
  }

  lemma RotatedInOrder(ids: seq<int>, start: nat)
    requires |ids| > 0
    ensures RoundRobin(ids, start, Rotated(ids, start % |ids|))
  {
    var order := Rotated(ids, start % |ids|);
    forall n | 0 <= n < |order| ensures order[n] == ids[(start + n) % |ids|] {
      WrapsOnce(start, n, |ids|);
    }
  }

  lemma RotatedDistinct(ids: seq<int>, start: nat)
    requires start < |ids| && Distinct(ids)
    ensures Distinct(Rotated(ids, start))
  {
    forall i, j | 0 <= i < j < |ids| ensures Rotated(ids, start)[i] != Rotated(ids, start)[j] {
      PlaceOf(start, i, |ids|);
      PlaceOf(start, j, |ids|);
    }
  }

  lemma PlaceOf(start: nat, n: nat, m: nat)
    requires start < m && n < m
    ensures (start + n) % m == if start + n < m then start + n else start + n - m
  {
    if start + n < m { RemainderIs(start + n, 0, start + n, m); } else { RemainderIs(start + n, 1, start + n - m, m); }
  }

  /** The rotated pass, told in terms of the bots' own places. */
  lemma PassTakesTurn(ids: seq<int>, start: nat, was: map<int, Key>, now: int, at: nat -> int, limit: int)
    returns (turn: nat)
    requires start < |ids| && Distinct(ids)
    ensures var order := Rotated(ids, start);
      var pass := Scan(was, order, 0, now, at, limit);
      TookTurn(order, was, pass.keys, pass.bot, turn, now, at, limit)
  {
    RotatedDistinct(ids, start);
    turn := ScanTakesFirst(was, Rotated(ids, start), 0, now, at, limit);
  }

  // ---------------------------------------------------------------- the wait as a value

  function MinWait(waits: seq<int>): int {
    if |waits| == 0 then WINDOW
    else
      var m := MinWait(waits[..|waits| - 1]);
      if waits[|waits| - 1] < m then waits[|waits| - 1] else m
  }

  lemma {:induction false} MinWaitIsLeast(waits: seq<int>)
    ensures MinWait(waits) <= WINDOW
    ensures forall i :: 0 <= i < |waits| ==> MinWait(waits) <= waits[i]
    ensures MinWait(waits) == WINDOW || MinWait(waits) in waits
  {
    if |waits| > 0 {
      var front := waits[..|waits| - 1];
      MinWaitIsLeast(front);
      forall i | 0 <= i < |waits| ensures MinWait(waits) <= waits[i] {
        assert i < |front| ==> waits[i] == front[i];
      }
      assert MinWait(front) in front ==> MinWait(front) in waits;
    }
  }

  function Found(keys: map<int, Key>, ids: seq<int>, now: int, at: nat -> int): (f: seq<seq<int>>)
    ensures |f| == |ids|
  {
    seq(|ids|, i requires 0 <= i < |ids| => WindowOf(keys, ids[i], now, at(i)))
  }

  function Waits(found: seq<seq<int>>, now: int, limit: int): (w: seq<int>)
    ensures |w| == |found|
  {
    seq(|found|, i requires 0 <= i < |found| => BotWait(found[i], now, limit))
  }

  /** No bots and nothing to wait for both read as zero. */
  function LeastOf(waits: seq<int>): int {
    if |waits| == 0 || MinWait(waits) < 0 then 0 else MinWait(waits)
  }

  function PoolWait(keys: map<int, Key>, ids: seq<int>, now: int, at: nat -> int, limit: int): int {
    LeastOf(Waits(Found(keys, ids, now, at), now, limit))
  }

  /** The least wait, at least zero and at most the window. */
  lemma LeastWaitIs(keys: map<int, Key>, ids: seq<int>, now: int, at: nat -> int, limit: int)
    requires |ids| > 0
    ensures var wait := PoolWait(keys, ids, now, at, limit);
      && 0 <= wait <= 60000
      && (forall i :: 0 <= i < |ids| ==>
           var w := BotWait(WindowOf(keys, ids[i], now, at(i)), now, limit); wait <= if w < 0 then 0 else w)
      && (wait == 0 || wait == 60000 || exists i ::
           0 <= i < |ids| && wait == BotWait(WindowOf(keys, ids[i], now, at(i)), now, limit))
      && (wait == 0 ==> exists i ::
           0 <= i < |ids| && BotWait(WindowOf(keys, ids[i], now, at(i)), now, limit) <= 0)
  {
    var waits := Waits(Found(keys, ids, now, at), now, limit);
    MinWaitIsLeast(waits);
    assert forall i :: 0 <= i < |ids| ==> waits[i] == BotWait(WindowOf(keys, ids[i], now, at(i)), now, limit);
    if MinWait(waits) < WINDOW {
      var i :| 0 <= i < |ids| && waits[i] == MinWait(waits);
      assert BotWait(WindowOf(keys, ids[i], now, at(i)), now, limit) == MinWait(waits);
    }
  }

  /** Every bot of the pool is at the end of a timely run, and none has seen a clock beyond `now`. */
  predicate PoolAt(bots: map<int, Bot>, keys: map<int, Key>, ids: seq<int>, now: int, at: nat -> int, limit: int) {
    forall i :: 0 <= i < |ids| ==>
      && ids[i] in bots && Inv(bots[ids[i]], limit) && bots[ids[i]].key == KeyOf(keys, ids[i])
      && Timely(bots[ids[i]], Look(now, at(i)))
  }

  /** The oracle says zero exactly when some bot would grant now. */
  lemma ZeroWaitIffSomeGrants(
    bots: map<int, Bot>, keys: map<int, Key>, ids: seq<int>, now: int, at: nat -> int, limit: int)
    requires |ids| > 0 && PoolAt(bots, keys, ids, now, at, limit)
    ensures PoolWait(keys, ids, now, at, limit) == 0 <==>
      exists i :: 0 <= i < |ids| && Grants(KeyOf(keys, ids[i]), now, at(i), limit)
  {
    forall i | 0 <= i < |ids|
      ensures BotWait(WindowOf(keys, ids[i], now, at(i)), now, limit) <= 0
        <==> Grants(KeyOf(keys, ids[i]), now, at(i), limit)
    {
      NoWaitIffGrants(bots[ids[i]], now, at(i), limit);
    }
    ZeroWaitIffSomeZero(keys, ids, now, at, limit);
  }

  lemma ZeroWaitIffSomeZero(keys: map<int, Key>, ids: seq<int>, now: int, at: nat -> int, limit: int)
    requires |ids| > 0
    ensures PoolWait(keys, ids, now, at, limit) == 0 <==>
      exists i :: 0 <= i < |ids| && BotWait(WindowOf(keys, ids[i], now, at(i)), now, limit) <= 0
  {
    var waits := Waits(Found(keys, ids, now, at), now, limit);
    MinWaitIsLeast(waits);
    if MinWait(waits) <= 0 {
      var i :| 0 <= i < |ids| && waits[i] == MinWait(waits);
      assert BotWait(WindowOf(keys, ids[i], now, at(i)), now, limit) == waits[i];
    } else {
      forall i | 0 <= i < |ids| ensures BotWait(WindowOf(keys, ids[i], now, at(i)), now, limit) > 0 {
        assert waits[i] > 0;
      }
    }
  }

  lemma PoolWaitIsLeast(keys: map<int, Key>, ids: seq<int>, now: int, at: nat -> int, limit: int, i: nat)
    requires i < |ids| && PoolWait(keys, ids, now, at, limit) > 0
    ensures PoolWait(keys, ids, now, at, limit) <= BotWait(WindowOf(keys, ids[i], now, at(i)), now, limit)
  {
    var waits := Waits(Found(keys, ids, now, at), now, limit);
    MinWaitIsLeast(waits);
    assert MinWait(waits) <= waits[i];
  }

  /** And before the wait it names, no bot grants, whatever is granted or asked in between. */
  lemma NobodyGrantsBefore(
    bots: map<int, Bot>, keys: map<int, Key>, ids: seq<int>, now: int, at: nat -> int, limit: int, i: nat,
    es: seq<Event>, t: int, tat: int)
    requires i < |ids| && PoolAt(bots, keys, ids, now, at, limit)
    requires var b := StepBot(bots[ids[i]], Look(now, at(i)), limit);
      TimelyRun(b, es, limit) && Timely(Run(b, es, limit), Attempt(t, tat))
    requires t < now + PoolWait(keys, ids, now, at, limit)
    ensures !Grants(Run(StepBot(bots[ids[i]], Look(now, at(i)), limit), es, limit).key, t, tat, limit)
  {
    RunClock(StepBot(bots[ids[i]], Look(now, at(i)), limit), es, limit);
    PoolWaitIsLeast(keys, ids, now, at, limit, i);
    NoGrantBeforeWait(bots[ids[i]], now, at(i), limit, es, t, tat);
  }

  // ---------------------------------------------------------------- the object

  class BotRateLimiter {
    const botIDs: seq<int>
    const limit: int
    var rrIndex: nat
    var keys: map<int, Key>

    constructor (ids: seq<int>, n: int)
      ensures botIDs == ids && limit == n && rrIndex == 0 && keys == map[]
    {
      botIDs, limit, rrIndex, keys := ids, n, 0, map[];
    }

    /** `AcquireSlotLua` for one bot, as Redis runs it. */
    method RunScript(id: int, now: int, at: int) returns (granted: bool)
      modifies this`keys
      ensures keys == old(keys)[id := Script(KeyOf(old(keys), id), now, at, limit)]
      ensures granted <==> Grants(KeyOf(old(keys), id), now, at, limit)
    {
      var k := KeyOf(keys, id);
      var scores := if at < k.expireAt then k.scores else [];
      while |scores| > 0 && scores[0] <= now - WINDOW
        invariant Drop(scores, now - WINDOW) == Window(k, now, at)
      {
        scores := scores[1..];
      }
      keys := keys[id := Key(scores, k.expireAt)];
      if |scores| > 0 {
        var latestScore := scores[|scores| - 1];
        if now - latestScore < INTERVAL {
          return false;
        }
      }
      var count := |scores|;
      if count < limit {
        keys := keys[id := Key(scores + [now], at + WINDOW + SLACK)];
        return true;
      }
      return false;
    }

    /**
     One pass of `AcquireUploadSlot`: the bots in round-robin order, the `i`-th script running at
     `at(i)`.  The result is a bot with a slot taken, or zero.
     */
    method TryBots(now: int, at: nat -> int)
      returns (acquired: int, ghost order: seq<int>, ghost turn: nat)
      requires |botIDs| > 0 && rrIndex < UINT32 && 0 !in botIDs
      modifies this
      ensures rrIndex == (old(rrIndex) + 1) % 0x1_0000_0000
      ensures Scanned(keys, acquired) == Scan(old(keys), Rotated(botIDs, old(rrIndex) % |botIDs|), 0, now, at, limit)
      ensures RoundRobin(botIDs, old(rrIndex), order)
      ensures Distinct(botIDs) ==> TookTurn(order, old(keys), keys, acquired, turn, now, at, limit)
      ensures Distinct(botIDs) ==>
        (acquired == 0 <==> forall n :: 0 <= n < |order| ==> !Grants(KeyOf(old(keys), order[n]), now, at(n), limit))
      ensures forall id :: id !in order ==> KeyOf(keys, id) == KeyOf(old(keys), id)
    {
      ghost var was := keys;
      var startIdx := rrIndex % |botIDs|;
      order := Rotated(botIDs, startIdx);
      RotatedInOrder(botIDs, rrIndex);
      rrIndex := (rrIndex + 1) % UINT32;
      acquired := Pass(startIdx, now, at);
      turn := PassResult(startIdx, was, now, at, order);
    }

    /** The loop of a pass. */
    method Pass(startIdx: nat, now: int, at: nat -> int) returns (acquired: int)
      requires startIdx < |botIDs|
      modifies this`keys
      ensures Scanned(keys, acquired) == Scan(old(keys), Rotated(botIDs, startIdx), 0, now, at, limit)
    {
      ghost var order := Rotated(botIDs, startIdx);
      acquired := 0;
      var i := 0;
      while i < |botIDs|
        invariant 0 <= i <= |botIDs| && acquired == 0
        invariant Scan(keys, order, i, now, at, limit) == Scan(old(keys), order, 0, now, at, limit)
      {
        var botID := botIDs[(startIdx + i) % |botIDs|];
        var granted := RunScript(botID, now, at(i));
        if granted {
          acquired := botID;
          break;
        }
        i := i + 1;
      }
    }

    /** What the pass has done, as far as the ids are distinct. */
    lemma PassResult(start: nat, was: map<int, Key>, now: int, at: nat -> int, order: seq<int>) returns (turn: nat)
      requires start < |botIDs| && 0 !in botIDs && order == Rotated(botIDs, start)
      ensures var pass := Scan(was, order, 0, now, at, limit);
        && (Distinct(botIDs) ==>
             && TookTurn(order, was, pass.keys, pass.bot, turn, now, at, limit)
             && (pass.bot == 0 <==> forall n :: 0 <= n < |order| ==> !Grants(KeyOf(was, order[n]), now, at(n), limit)))
        && (forall id :: id !in order ==> KeyOf(pass.keys, id) == KeyOf(was, id))
    {
      turn := 0;
      if Distinct(botIDs) {
        turn := PassTakesTurn(botIDs, start, was, now, at, limit);
      }
      forall id | id !in order ensures KeyOf(Scan(was, order, 0, now, at, limit).keys, id) == KeyOf(was, id) {
        ScanLeaves(was, order, 0, now, at, limit, id);
      }
    }

    /** `GetWaitTimeMs`: prune every bot, then take the least wait. */
    method GetWaitTimeMs(now: int, at: nat -> int) returns (wait: int)
      requires Distinct(botIDs)
      modifies this`keys
      ensures wait == PoolWait(old(keys), botIDs, now, at, limit)
      ensures botIDs == [] ==> wait == 0
      ensures 0 <= wait <= 60000
      ensures forall i :: 0 <= i < |botIDs| ==>
        var w := BotWait(WindowOf(old(keys), botIDs[i], now, at(i)), now, limit); wait <= if w < 0 then 0 else w
      ensures wait == 0 || wait == 60000 || exists i ::
        0 <= i < |botIDs| && wait == BotWait(WindowOf(old(keys), botIDs[i], now, at(i)), now, limit)
      ensures botIDs != [] && wait == 0 ==> exists i ::
        0 <= i < |botIDs| && BotWait(WindowOf(old(keys), botIDs[i], now, at(i)), now, limit) <= 0
      ensures forall i :: 0 <= i < |botIDs| ==>
        KeyOf(keys, botIDs[i]).scores == WindowOf(old(keys), botIDs[i], now, at(i))
      ensures forall id :: id !in botIDs ==> KeyOf(keys, id) == KeyOf(old(keys), id)
    {
      if |botIDs| == 0 {
        return 0;
      }
      LeastWaitIs(keys, botIDs, now, at, limit);
      var found := PruneAll(now, at);
      assert found == Found(old(keys), botIDs, now, at);
      forall i | 0 <= i < |found| && found[i] != [] ensures found[i][0] + WINDOW - now > 0 {
        OldestInWindow(old(keys), botIDs[i], now, at(i));
      }
      wait := LeastWait(found, now);
    }

    /** The loop over what the pipeline found. */
    method LeastWait(found: seq<seq<int>>, now: int) returns (wait: int)
      requires |found| > 0
      requires forall i :: 0 <= i < |found| && found[i] != [] ==> found[i][0] + WINDOW - now > 0
      ensures wait == LeastOf(Waits(found, now, limit))
    {
      ghost var waits := Waits(found, now, limit);
      wait := WINDOW;
      for i := 0 to |found|
        invariant wait == MinWait(waits[..i])
      {
        var w := BotWait(found[i], now, limit);
        assert w == waits[i] && waits[..i + 1][..i] == waits[..i];
        if |found[i]| < limit && w <= 0 {
          MinWaitIsLeast(waits);
          return 0;
        }
        if w < wait {
          wait := w;
        }
      }
      assert waits[..|waits|] == waits;
      if wait < 0 {
        wait := 0;
      }
    }

    /** The pipeline: each bot's set pruned and read. */
    method PruneAll(now: int, at: nat -> int) returns (found: seq<seq<int>>)
      requires Distinct(botIDs)
      modifies this`keys
      ensures |found| == |botIDs|
      ensures forall i :: 0 <= i < |botIDs| ==> found[i] == WindowOf(old(keys), botIDs[i], now, at(i))
      ensures forall i :: 0 <= i < |botIDs| ==> KeyOf(keys, botIDs[i]).scores == found[i]
      ensures forall id :: id !in botIDs ==> KeyOf(keys, id) == KeyOf(old(keys), id)
    {
      found := [];
      for i := 0 to |botIDs|
        invariant |found| == i
        invariant forall j :: 0 <= j < i ==> found[j] == WindowOf(old(keys), botIDs[j], now, at(j))
        invariant forall j :: 0 <= j < i ==> KeyOf(keys, botIDs[j]).scores == found[j]
        invariant forall j :: i <= j < |botIDs| ==> KeyOf(keys, botIDs[j]) == KeyOf(old(keys), botIDs[j])
        invariant forall id :: id !in botIDs ==> KeyOf(keys, id) == KeyOf(old(keys), id)
      {
        var window := Prune(botIDs[i], now, at(i));
        found := found + [window];
      }
    }

    /** One look: grants that have left the window go. */
    method Prune(id: int, now: int, at: int) returns (window: seq<int>)
      modifies this`keys
      ensures window == WindowOf(old(keys), id, now, at) == KeyOf(keys, id).scores
      ensures forall other :: other != id ==> KeyOf(keys, other) == KeyOf(old(keys), other)
    {
      var k := KeyOf(keys, id);
      window := Window(k, now, at);
      keys := keys[id := k.(scores := window)];
    }
  }

  lemma {:induction false} DropFirst(s: seq<int>, cutoff: int)
    ensures Drop(s, cutoff) != [] ==> Drop(s, cutoff)[0] > cutoff
  {
    if |s| > 0 && s[0] <= cutoff { DropFirst(s[1..], cutoff); }
  }

  /** A full bot always has something to wait for. */
  lemma OldestInWindow(keys: map<int, Key>, id: int, now: int, at: int)
    ensures var s := WindowOf(keys, id, now, at); s != [] ==> s[0] + WINDOW - now > 0
  {
    var k := KeyOf(keys, id);
    DropFirst(if at < k.expireAt then k.scores else [], now - WINDOW);
  }
}

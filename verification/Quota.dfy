/** Bandwidth admission. */
module Quota {
  // The daily hash is read, compared and only later incremented, and over-estimates are given back when
  // a transfer ends (backend-transfer-go/internal/telegram/quota_resolver.go,
  // backend-transfer-go/internal/telegram/bandwidth.go).

  import opened Wrappers
  import opened Sums

  // ---------------------------------------------------------------- requests on one seeded hash

  /** `Seen`: the hash was read, the decision is still to come; `Open`: let through unlocked. */
  datatype Phase =
    | Waiting
    | Seen(used: int)
    | Refused
    | Open
    | Locked
    | Settled(actual: nat, locked: bool)

  datatype Request = Request(estimate: nat, phase: Phase)

  datatype State = State(used: int, limit: int, requests: seq<Request>)

  datatype Step =
    | Arrive(estimate: nat)
    | Read(i: nat)              // HMGET of the daily hash
    | Lock(i: nat)              // HINCRBY by the estimate
    | Refuse(i: nat)            // the daily tier, or a per-file tier
    | FailOpen(i: nat)          // the quota could not be fetched
    | Bypass(i: nat)            // enforcement is switched off, or there is no resolver
    | Settle(i: nat, actual: nat)  // RefundAndReconcile

  /** The daily comparison, on the value that was read. */
  predicate Fits(limit: int, used: int, estimate: nat) {
    limit > 0 ==> used + estimate <= limit
  }

  predicate Enabled(s: State, step: Step) {
    match step
    case Arrive(_) => true
    case Read(i) => i < |s.requests| && s.requests[i].phase.Waiting?
    case Lock(i) =>
      && i < |s.requests| && s.requests[i].phase.Seen?
      && Fits(s.limit, s.requests[i].phase.used, s.requests[i].estimate)
    case Refuse(i) => i < |s.requests| && s.requests[i].phase.Seen?
    case FailOpen(i) => i < |s.requests| && s.requests[i].phase.Seen?
    case Bypass(i) => i < |s.requests| && s.requests[i].phase.Waiting?
    case Settle(i, _) => i < |s.requests| && (s.requests[i].phase.Locked? || s.requests[i].phase.Open?)
  }

  function Refund(estimate: nat, actual: nat): nat {
    if actual < estimate then estimate - actual else 0
  }

  function With(s: State, i: nat, phase: Phase): State
    requires i < |s.requests|
  {
    s.(requests := s.requests[i := s.requests[i].(phase := phase)])
  }

  function Apply(s: State, step: Step): State
    requires Enabled(s, step)
  {
    match step
    case Arrive(estimate) => s.(requests := s.requests + [Request(estimate, Waiting)])
    case Read(i) => With(s, i, Seen(s.used))
    case Lock(i) => With(s, i, Locked).(used := s.used + s.requests[i].estimate)
    case Refuse(i) => With(s, i, Refused)
    case FailOpen(i) => With(s, i, Open)
    case Bypass(i) => With(s, i, Open)
    case Settle(i, actual) =>
      With(s, i, Settled(actual, s.requests[i].phase.Locked?)).(used := s.used - Refund(s.requests[i].estimate, actual))
  }

  predicate Runs(s: State, steps: seq<Step>)
    decreases |steps|
  {
    |steps| > 0 ==> Enabled(s, steps[0]) && Runs(Apply(s, steps[0]), steps[1..])
  }

  function After(s: State, steps: seq<Step>): State
    requires Runs(s, steps)
    decreases |steps|
  {
    if |steps| == 0 then s else After(Apply(s, steps[0]), steps[1..])
  }

  // ---------------------------------------------------------------- conservation

  /** What a request has put on the counter: its estimate while locked, then what it really used. */
  function Charged(r: Request): nat {
    match r.phase
    case Locked => r.estimate
    case Settled(actual, true) => if actual < r.estimate then actual else r.estimate
    case _ => 0
  }

  /** What a request that never locked was given back all the same. */
  function GivenBack(r: Request): nat {
    match r.phase
    case Settled(actual, false) => Refund(r.estimate, actual)
    case _ => 0
  }

  predicate Balanced(s: State, seed: int) {
    s.used == seed + Total(s.requests, Charged) - Total(s.requests, GivenBack)
  }

  lemma StepKeepsBalance(s: State, step: Step, seed: int)
    requires Enabled(s, step) && Balanced(s, seed)
    ensures Balanced(Apply(s, step), seed)
  {
    var t := Apply(s, step);
    if step.Arrive? {
      TotalAppend(s.requests, Request(step.estimate, Waiting), Charged);
      TotalAppend(s.requests, Request(step.estimate, Waiting), GivenBack);
    } else {
      TotalUpdate(s.requests, step.i, t.requests[step.i], Charged);
      TotalUpdate(s.requests, step.i, t.requests[step.i], GivenBack);
    }
  }

  /**
   In every run the counter is the seed, plus the estimates still locked, plus what the settled
   transfers used (up to their estimate), minus what was given back to transfers that had been let
   through without a lock.
   */
  lemma {:induction false} CounterConserved(s: State, steps: seq<Step>, seed: int)
    requires Runs(s, steps) && Balanced(s, seed)
    ensures Balanced(After(s, steps), seed)
    decreases |steps|
  {
    if |steps| > 0 {
      StepKeepsBalance(s, steps[0], seed);
      CounterConserved(Apply(s, steps[0]), steps[1..], seed);
    }
  }

  /** A transfer let through without a lock that used less than its estimate. */
  predicate Overpaid(r: Request) {
    r.phase.Settled? && !r.phase.locked && r.phase.actual < r.estimate
  }

  /** The counter covers what was charged exactly when nobody was given back what was never locked. */
  lemma CoversIffNobodyOverpaid(s: State, steps: seq<Step>, seed: int)
    requires Runs(s, steps) && Balanced(s, seed)
    ensures var t := After(s, steps);
      && t.used <= seed + Total(t.requests, Charged)
      && (t.used == seed + Total(t.requests, Charged)
          <==> forall i :: 0 <= i < |t.requests| ==> !Overpaid(t.requests[i]))
  {
    CounterConserved(s, steps, seed);
    var requests := After(s, steps).requests;
    TotalPositive(requests, GivenBack);
    forall i | 0 <= i < |requests| ensures GivenBack(requests[i]) > 0 <==> Overpaid(requests[i]) {
    }
    if i :| 0 <= i < |requests| && Overpaid(requests[i]) { assert GivenBack(requests[i]) > 0; }
  }

  /** The run that falls short: the quota cannot be fetched, and the transfer is given back its rest. */
  lemma UnlockedRefundFallsShort(seed: int, limit: int, estimate: nat, actual: nat)
    requires actual < estimate
    ensures var s := State(seed, limit, []);
      var steps := [Arrive(estimate), Read(0), FailOpen(0), Settle(0, actual)];
      && Runs(s, steps)
      && Total(After(s, steps).requests, Charged) == 0
      && After(s, steps).used == seed - (estimate - actual)
  {
    var s0 := State(seed, limit, []);
    var s1 := State(seed, limit, [Request(estimate, Waiting)]);
    var s2 := State(seed, limit, [Request(estimate, Seen(seed))]);
    var s3 := State(seed, limit, [Request(estimate, Open)]);
    var s4 := State(seed - (estimate - actual), limit, [Request(estimate, Settled(actual, false))]);
    var last, mid := [Settle(0, actual)], [FailOpen(0), Settle(0, actual)];
    var rest := [Read(0), FailOpen(0), Settle(0, actual)];
    assert last[1..] == [] && Apply(s3, Settle(0, actual)) == s4;
    assert Runs(s3, last) && After(s3, last) == s4;
    assert mid[1..] == last && Apply(s2, FailOpen(0)) == s3;
    assert Runs(s2, mid) && After(s2, mid) == s4;
    assert rest[1..] == mid && Apply(s1, Read(0)) == s2;
    assert Runs(s1, rest) && After(s1, rest) == s4;
    assert ([Arrive(estimate)] + rest)[1..] == rest && Apply(s0, Arrive(estimate)) == s1;
    assert [Arrive(estimate)] + rest == [Arrive(estimate), Read(0), FailOpen(0), Settle(0, actual)];
    TotalSingle(s4.requests, Charged);
  }

  /** So does a transfer that was never checked because enforcement is switched off. */
  lemma UncheckedRefundFallsShort(seed: int, limit: int, estimate: nat, actual: nat)
    requires actual < estimate
    ensures var s := State(seed, limit, []);
      var steps := [Arrive(estimate), Bypass(0), Settle(0, actual)];
      && Runs(s, steps)
      && Total(After(s, steps).requests, Charged) == 0
      && After(s, steps).used == seed - (estimate - actual)
  {
    var s0 := State(seed, limit, []);
    var s1 := State(seed, limit, [Request(estimate, Waiting)]);
    var s2 := State(seed, limit, [Request(estimate, Open)]);
    var s3 := State(seed - (estimate - actual), limit, [Request(estimate, Settled(actual, false))]);
    var last, rest := [Settle(0, actual)], [Bypass(0), Settle(0, actual)];
    assert last[1..] == [] && Apply(s2, Settle(0, actual)) == s3;
    assert Runs(s2, last) && After(s2, last) == s3;
    assert rest[1..] == last && Apply(s1, Bypass(0)) == s2;
    assert Runs(s1, rest) && After(s1, rest) == s3;
    assert ([Arrive(estimate)] + rest)[1..] == rest && Apply(s0, Arrive(estimate)) == s1;
    assert [Arrive(estimate)] + rest == [Arrive(estimate), Bypass(0), Settle(0, actual)];
    TotalSingle(s3.requests, Charged);
  }

  // ---------------------------------------------------------------- bounded overshoot

  /** A request between its read and its increment, if it is going to lock. */
  predicate Pending(limit: int, r: Request) {
    r.phase.Seen? && Fits(limit, r.phase.used, r.estimate)
  }

  function PendingCount(limit: int): Request -> nat {
    (r: Request) => if Pending(limit, r) then 1 else 0
  }

  function PendingBytes(limit: int): Request -> nat {
    (r: Request) => if Pending(limit, r) then r.estimate else 0
  }

  /** `n` times `m`. */
  function Times(n: nat, m: nat): nat {
    if n == 0 then 0 else m + Times(n - 1, m)
  }

  lemma {:induction false} TimesMonotone(a: nat, b: nat, m: nat)
    requires a <= b
    ensures Times(a, m) <= Times(b, m)
  {
    if a < b { TimesMonotone(a, b - 1, m); }
  }

  lemma TimesIsProduct(n: nat, m: nat)
    ensures Times(n, m) == n * m
  {
  }

  predicate Small(s: State, max: nat) {
    forall i :: 0 <= i < |s.requests| ==> s.requests[i].estimate <= max
  }

  /** Pending requests are small, so together they are bounded by their number. */
  lemma {:induction false} PendingBounded(requests: seq<Request>, limit: int, max: nat)
    requires forall i :: 0 <= i < |requests| ==> requests[i].estimate <= max
    ensures Total(requests, PendingBytes(limit)) <= Times(Total(requests, PendingCount(limit)), max)
  {
    if |requests| > 0 { PendingBounded(requests[1..], limit, max); }
  }

  function Ceiling(seed: int, limit: int, k: nat, max: nat): int
    requires k > 0
  {
    if seed > limit + Times(k - 1, max) then seed else limit + Times(k - 1, max)
  }

  /** Counter and pending increments together stay under the ceiling. */
  predicate Bounded(s: State, seed: int, k: nat, max: nat)
    requires k > 0
  {
    s.used + Total(s.requests, PendingBytes(s.limit)) <= Ceiling(seed, s.limit, k, max)
  }

  /** A request that reads and fits: it saw the counter as it is now. */
  lemma ReadFits(s: State, i: nat, seed: int, k: nat, max: nat)
    requires k > 0 && s.limit > 0 && Enabled(s, Read(i)) && Small(s, max)
    requires Fits(s.limit, s.used, s.requests[i].estimate)
    requires Total(Apply(s, Read(i)).requests, PendingCount(s.limit)) <= k
    ensures Bounded(Apply(s, Read(i)), seed, k, max)
  {
    var t := Apply(s, Read(i));
    TotalUpdate(s.requests, i, t.requests[i], PendingBytes(s.limit));
    TotalUpdate(s.requests, i, t.requests[i], PendingCount(s.limit));
    PendingBounded(s.requests, s.limit, max);
    TimesMonotone(Total(s.requests, PendingCount(s.limit)), k - 1, max);
  }

  lemma StepKeepsBound(s: State, step: Step, seed: int, k: nat, max: nat)
    requires k > 0 && s.limit > 0 && Enabled(s, step) && Small(s, max) && Bounded(s, seed, k, max)
    requires Total(Apply(s, step).requests, PendingCount(s.limit)) <= k
    ensures Bounded(Apply(s, step), seed, k, max)
  {
    var t := Apply(s, step);
    if step.Arrive? {
      TotalAppend(s.requests, Request(step.estimate, Waiting), PendingBytes(s.limit));
    } else if step.Read? && Fits(s.limit, s.used, s.requests[step.i].estimate) {
      ReadFits(s, step.i, seed, k, max);
    } else {
      TotalUpdate(s.requests, step.i, t.requests[step.i], PendingBytes(s.limit));
    }
  }

  /** Throughout the run at most `k` requests are pending and no estimate exceeds `max`. */
  predicate Tame(s: State, steps: seq<Step>, k: nat, max: nat)
    requires Runs(s, steps)
    decreases |steps|
  {
    && Total(s.requests, PendingCount(s.limit)) <= k && Small(s, max)
    && (|steps| > 0 ==> Tame(Apply(s, steps[0]), steps[1..], k, max))
  }

  /**
   However requests interleave, the counter never exceeds the limit by more than the estimates of
   all but one of the requests that can be between their read and their increment (or the seed, if
   that was higher).
   */
  lemma {:induction false} OvershootBounded(s: State, steps: seq<Step>, seed: int, k: nat, max: nat)
    requires k > 0 && s.limit > 0 && Runs(s, steps) && Tame(s, steps, k, max) && Bounded(s, seed, k, max)
    ensures After(s, steps).used <= Ceiling(seed, s.limit, k, max)
    decreases |steps|
  {
    if |steps| > 0 {
      var t := Apply(s, steps[0]);
      assert Total(t.requests, PendingCount(t.limit)) <= k;
      StepKeepsBound(s, steps[0], seed, k, max);
      OvershootBounded(t, steps[1..], seed, k, max);
    }
  }

  /** From a freshly seeded hash, in plain numbers. */
  lemma OvershootFromSeed(limit: int, seed: int, steps: seq<Step>, k: nat, max: nat)
    requires k > 0 && limit > 0 && seed <= limit
    requires Runs(State(seed, limit, []), steps) && Tame(State(seed, limit, []), steps, k, max)
    ensures After(State(seed, limit, []), steps).used <= limit + (k - 1) * max
  {
    OvershootBounded(State(seed, limit, []), steps, seed, k, max);
    TimesIsProduct(k - 1, max);
  }

  lemma TotalPair(a: Request, b: Request, w: Request -> nat)
    ensures Total([a, b], w) == w(a) + w(b)
  {
    assert [a, b][1..] == [b];
    TotalSingle([b], w);
  }

  /** The bound is met: two requests that read before either locks, on a limit of one of them. */
  lemma OvershootHappens(max: nat)
    requires max > 0
    ensures var s := State(0, max, [Request(max, Waiting), Request(max, Waiting)]);
      var steps := [Read(0), Read(1), Lock(0), Lock(1)];
      Runs(s, steps) && Tame(s, steps, 2, max) && After(s, steps).used == max + (2 - 1) * max
  {
    var s0 := State(0, max, [Request(max, Waiting), Request(max, Waiting)]);
    var s1 := State(0, max, [Request(max, Seen(0)), Request(max, Waiting)]);
    var s2 := State(0, max, [Request(max, Seen(0)), Request(max, Seen(0))]);
    var s3 := State(max, max, [Request(max, Locked), Request(max, Seen(0))]);
    var s4 := State(2 * max, max, [Request(max, Locked), Request(max, Locked)]);
    var w := PendingCount(max);
    TotalPair(s0.requests[0], s0.requests[1], w);
    TotalPair(s1.requests[0], s1.requests[1], w);
    TotalPair(s2.requests[0], s2.requests[1], w);
    TotalPair(s3.requests[0], s3.requests[1], w);
    TotalPair(s4.requests[0], s4.requests[1], w);
    assert Apply(s0, Read(0)) == s1 && Apply(s1, Read(1)) == s2 && Apply(s2, Lock(0)) == s3 && Apply(s3, Lock(1)) == s4;
    var steps := [Read(0), Read(1), Lock(0), Lock(1)];
    assert steps[1..] == [Read(1), Lock(0), Lock(1)] && steps[1..][1..] == [Lock(0), Lock(1)];
    assert steps[1..][1..][1..] == [Lock(1)] && steps[1..][1..][1..][1..] == [];
  }

  // ---------------------------------------------------------------- the resolver object

  /** The cached daily hash; reset times are parsed, and None when missing or unreadable. */
  datatype Hash = Hash(used: int, limit: int, lastReset: Option<int>)

  datatype FileTier = FileTier(downloads: int, downloadLimit: int, bandwidthUsed: int, bandwidthLimit: int)

  /** The answer of the quota service. */
  datatype Quotas = Quotas(dailyUsed: int, dailyLimit: int, lastReset: Option<int>, file: FileTier)

  datatype Decision = Allowed | DailyLimit | FileDownloadLimit | FileBandwidthLimit

  predicate RolledOver(cached: Option<int>, server: Option<int>) {
    cached.Some? && server.Some? && server.value > cached.value
  }

  /** The hash a request is judged by, once it is seeded or refreshed from the answer. */
  function Judged(h: Option<Hash>, answer: Option<Quotas>): Hash
    requires h.Some? || answer.Some?
  {
    if answer.None? then h.value
    else
      var q := answer.value;
      var seeded := h.None? || RolledOver(h.value.lastReset, q.lastReset);
      Hash(if seeded then q.dailyUsed else h.value.used, q.dailyLimit, q.lastReset)
  }

  predicate DownloadsSpent(t: FileTier) {
    t.downloadLimit > 0 && t.downloads >= t.downloadLimit
  }

  predicate FileBytesSpent(t: FileTier, estimate: nat) {
    t.bandwidthLimit > 0 && t.bandwidthUsed + estimate > t.bandwidthLimit
  }

  /** One call on the daily hash of a subject; `reply` is None if the quota service cannot be reached. */
  datatype Call =
    | Check(hasFile: bool, reply: Option<Quotas>, estimate: nat)
    | GiveBack(estimate: nat, actual: nat)

  function Decided(h: Option<Hash>, c: Call): Decision
    requires c.Check?
  {
    if (h.None? || c.hasFile) && c.reply.None? then Allowed
    else if c.hasFile && DownloadsSpent(c.reply.value.file) then FileDownloadLimit
    else if c.hasFile && FileBytesSpent(c.reply.value.file, c.estimate) then FileBandwidthLimit
    else
      var judged := if h.None? || c.hasFile then Judged(h, c.reply) else h.value;
      if Fits(judged.limit, judged.used, c.estimate) then Allowed else DailyLimit
  }

  /** The hash a call leaves; incrementing a missing hash creates one that has no limit. */
  function Left(h: Option<Hash>, c: Call): Option<Hash> {
    match c
    case Check(hasFile, reply, estimate) =>
      if (h.None? || hasFile) && reply.None? then h
      else
        var judged := if h.None? || hasFile then Judged(h, reply) else h.value;
        Some(judged.(used := judged.used + if Decided(h, c).Allowed? then estimate else 0))
    case GiveBack(estimate, actual) =>
      var refund := Refund(estimate, actual);
      if refund == 0 then h
      else if h.None? then Some(Hash(-(refund as int), 0, None))
      else Some(h.value.(used := h.value.used - refund))
  }

  // ---------------------------------------------------------------- a refund after the hash expired

  /** No answer of the quota service reaches the hash: it is served from the cache, or the fetch fails. */
  predicate Unanswered(calls: seq<Call>) {
    forall i :: 0 <= i < |calls| && calls[i].Check? && calls[i].hasFile ==> calls[i].reply.None?
  }

  function LeftBy(h: Option<Hash>, calls: seq<Call>): Option<Hash>
    decreases |calls|
  {
    if |calls| == 0 then h else LeftBy(Left(h, calls[0]), calls[1..])
  }

  predicate AllAllowed(h: Option<Hash>, calls: seq<Call>)
    decreases |calls|
  {
    |calls| > 0 ==>
      (calls[0].Check? ==> Decided(h, calls[0]).Allowed?) && AllAllowed(Left(h, calls[0]), calls[1..])
  }

  /** What a call adds to the counter of a hash without a limit that no answer reaches. */
  function Change(c: Call): int {
    match c
    case Check(hasFile, _, estimate) => if hasFile then 0 else estimate
    case GiveBack(estimate, actual) => -(Refund(estimate, actual) as int)
  }

  function Changes(calls: seq<Call>): int {
    if |calls| == 0 then 0 else Change(calls[0]) + Changes(calls[1..])
  }

  /** Without a limit every request is let through, and the limit and the reset time stay. */
  lemma {:induction false} NoLimitLetsThrough(h: Hash, calls: seq<Call>)
    requires h.limit <= 0 && Unanswered(calls)
    ensures AllAllowed(Some(h), calls)
    ensures LeftBy(Some(h), calls) == Some(h.(used := h.used + Changes(calls)))
    decreases |calls|
  {
    if |calls| > 0 {
      var next := Left(Some(h), calls[0]);
      assert next == Some(h.(used := h.used + Change(calls[0])));
      NoLimitLetsThrough(next.value, calls[1..]);
    }
  }

  /** A hash lets everything through until it is refreshed if and only if it holds no positive limit. */
  lemma LetsThroughIffNoLimit(h: Hash)
    ensures (forall calls :: Unanswered(calls) ==> AllAllowed(Some(h), calls)) <==> h.limit <= 0
  {
    if h.limit > 0 {
      var tooMuch := if h.used <= h.limit then h.limit - h.used + 1 else 0;
      var calls := [Check(false, None, tooMuch)];
      assert Unanswered(calls) && Decided(Some(h), calls[0]).DailyLimit?;
      assert !AllAllowed(Some(h), calls);
    } else {
      forall calls | Unanswered(calls) ensures AllAllowed(Some(h), calls) {
        NoLimitLetsThrough(h, calls);
      }
    }
  }

  /**
   A refund that comes after the hash has expired: every request is let through until an answer
   arrives, and that answer sets the limit but not the usage, which the database then never corrects:
   where a fresh seed would refuse, the next estimate passes if the left-over counter has room.
   */
  lemma RefundAfterExpiry(estimate: nat, actual: nat, calls: seq<Call>, q: Quotas)
    requires actual < estimate && Unanswered(calls)
    ensures var h := Left(None, GiveBack(estimate, actual));
      && AllAllowed(h, calls)
      && Judged(LeftBy(h, calls), Some(q))
         == Hash(Changes(calls) - (estimate - actual), q.dailyLimit, q.lastReset)
      && Judged(None, Some(q)) == Hash(q.dailyUsed, q.dailyLimit, q.lastReset)
  {
    NoLimitLetsThrough(Left(None, GiveBack(estimate, actual)).value, calls);
  }

  /** Whose hash it is: a user's, a guest's by address, or nobody's. */
  datatype Subject = User(id: string) | Guest(ip: string) | Nobody

  function SubjectOf(userId: string, ip: string): Subject {
    if userId != "" then User(userId) else if ip != "" then Guest(ip) else Nobody
  }

  function Lookup(hashes: map<Subject, Hash>, subject: Subject): Option<Hash> {
    if subject in hashes then Some(hashes[subject]) else None
  }

  /** Usage reported to the core when a transfer ends. */
  datatype Usage = Usage(userId: string, file: string, bytes: nat, countDownload: bool)

  /** The resolver and the downloader that share the daily hashes. */
  class QuotaResolver {
    var hashes: map<Subject, Hash>
    var reports: seq<Usage>
    const reporting: bool

    constructor (reporting: bool)
      ensures hashes == map[] && reports == [] && this.reporting == reporting
    {
      hashes, reports := map[], [];
      this.reporting := reporting;
    }

    /** Exactly the hash of `subject` may have changed, and it is now `h`. */
    twostate predicate Only(subject: Subject, h: Option<Hash>)
      reads this
    {
      Lookup(hashes, subject) == h && hashes - {subject} == old(hashes) - {subject}
    }

    /**
     `CheckAndLock`, alone on its hash.  `file` is empty when no file is in play; `reply` is what the
     quota service answers if it is asked, and None if it cannot be reached.
     */
    method CheckAndLock(userId: string, ip: string, file: string, reply: Option<Quotas>, estimate: nat)
      returns (d: Decision)
      modifies this
      ensures reports == old(reports)
      ensures userId == "" && ip == "" ==> d == Allowed && hashes == old(hashes)
      ensures !(userId == "" && ip == "") ==>
        var subject := if userId != "" then User(userId) else Guest(ip);
        var was, call := Lookup(old(hashes), subject), Check(file != "", reply, estimate);
        d == Decided(was, call) && Only(subject, Left(was, call))
    {
      var subject := SubjectOf(userId, ip);
      if subject.Nobody? {
        return Allowed;
      }
      var hs := Lookup(hashes, subject);
      var judged: Hash;
      if hs.None? || file != "" {
        if reply.None? {
          return Allowed;
        }
        judged := ReconcileHash(subject, hs, reply.value);
        if file != "" {
          var tier := reply.value.file;
          if tier.downloadLimit > 0 && tier.downloads >= tier.downloadLimit {
            return FileDownloadLimit;
          }
          if tier.bandwidthLimit > 0 && tier.bandwidthUsed + estimate > tier.bandwidthLimit {
            return FileBandwidthLimit;
          }
        }
      } else {
        judged := hs.value;
      }
      if judged.limit > 0 && judged.used + estimate > judged.limit {
        return DailyLimit;
      }
      hashes := hashes[subject := judged.(used := judged.used + estimate)];
      d := Allowed;
    }

    /** `reconcileHash`: usage is seeded only into a missing hash or a new day. */
    method ReconcileHash(subject: Subject, hs: Option<Hash>, q: Quotas) returns (judged: Hash)
      requires hs == Lookup(hashes, subject)
      modifies this`hashes
      ensures judged == Judged(hs, Some(q)) && Only(subject, Some(judged))
      ensures hashes == old(hashes)[subject := judged]
    {
      var used := q.dailyUsed;
      if !(hs.None? || RolledOver(hs.value.lastReset, q.lastReset)) {
        used := hs.value.used;
      }
      judged := Hash(used, q.dailyLimit, q.lastReset);
      hashes := hashes[subject := judged];
    }

    /**
     `RefundAndReconcile`: the over-estimate goes back to the hash that was locked, and the actual
     usage is reported, for guests too.
     */
    method RefundAndReconcile(userId: string, ip: string, file: string, estimate: nat, actual: nat, countDownload: bool)
      modifies this
      ensures userId == "" && ip == "" ==> hashes == old(hashes) && reports == old(reports)
      ensures !(userId == "" && ip == "") ==>
        var subject := if userId != "" then User(userId) else Guest(ip);
        && Only(subject, Left(Lookup(old(hashes), subject), GiveBack(estimate, actual)))
        && reports == old(reports) + if reporting then [Usage(userId, file, actual, countDownload)] else []
    {
      if userId == "" && ip == "" {
        return;
      }
      var refund := estimate as int - actual;
      if refund > 0 {
        var subject := if userId == "" then Guest(ip) else User(userId);
        var h := if subject in hashes then hashes[subject] else Hash(0, 0, None);
        hashes := hashes[subject := h.(used := h.used - refund)];
      }
      if reporting {
        reports := reports + [Usage(userId, file, actual, countDownload)];
      }
    }
  }

  // ---------------------------------------------------------------- what a check means

  /**
   A check in full.  The quota service is asked when there is no hash or a file is in play, and an
   unreachable one lets the request through.  Usage comes from the answer only into a missing hash or
   a new day, and the limit comes from every answer; the file's limits come first, then the daily one,
   and the estimate is added exactly when the request is let through.
   */
  lemma CheckMeans(h: Option<Hash>, hasFile: bool, reply: Option<Quotas>, estimate: nat)
    ensures var d, left := Decided(h, Check(hasFile, reply, estimate)), Left(h, Check(hasFile, reply, estimate));
      if (h.None? || hasFile) && reply.None? then d == Allowed && left == h
      else
        var asked := h.None? || hasFile;
        var newDay := h.Some? && asked && h.value.lastReset.Some? && reply.value.lastReset.Some?
                      && reply.value.lastReset.value > h.value.lastReset.value;
        var used := if h.None? || newDay then reply.value.dailyUsed else h.value.used;
        var limit := if asked then reply.value.dailyLimit else h.value.limit;
        var reset := if asked then reply.value.lastReset else h.value.lastReset;
        var downloads := hasFile && 0 < reply.value.file.downloadLimit <= reply.value.file.downloads;
        var bytes := hasFile && reply.value.file.bandwidthLimit > 0
                     && reply.value.file.bandwidthUsed + estimate > reply.value.file.bandwidthLimit;
        && (d == FileDownloadLimit <==> downloads)
        && (d == FileBandwidthLimit <==> !downloads && bytes)
        && (d == DailyLimit <==> !downloads && !bytes && limit > 0 && used + estimate > limit)
        && left == Some(Hash(if d == Allowed then used + estimate else used, limit, reset))
  {
  }

  /** A refund in full. */
  lemma RefundMeans(h: Option<Hash>, estimate: nat, actual: nat)
    ensures var left := Left(h, GiveBack(estimate, actual));
      if actual >= estimate then left == h
      else if h.None? then left == Some(Hash(actual - estimate, 0, None))
      else left == Some(h.value.(used := h.value.used - (estimate - actual)))
  {
  }
}

/** The rolling-window rate limit: one deque of admission times per client key. */
module RateLimiter {
  import opened Options

  datatype Limit = Limit(max: int, window: real)

  function Cap(limit: Limit): nat {
    if limit.max < 0 then 0 else limit.max
  }

  datatype Request = Request(key: string, now: real)

  /** `buckets` is what the program stores; `admitted` is every admission ever made, in lock order. */
  datatype State = State(buckets: map<string, seq<real>>, admitted: map<string, seq<real>>) {
    function Bucket(key: string): seq<real> {
      if key in buckets then buckets[key] else []
    }

    function Admitted(key: string): seq<real> {
      if key in admitted then admitted[key] else []
    }
  }

  const INITIAL := State(map[], map[])

  /** Popping from the left while the head is older than the cutoff. */
  function Trim(dq: seq<real>, cutoff: real): seq<real> {
    if dq != [] && dq[0] < cutoff then Trim(dq[1..], cutoff) else dq
  }

  predicate Allows(s: State, r: Request, limit: Limit) {
    |Trim(s.Bucket(r.key), r.now - limit.window)| < limit.max
  }

  function Step(s: State, r: Request, limit: Limit): State {
    var dq := Trim(s.Bucket(r.key), r.now - limit.window);
    if Allows(s, r, limit) then
      State(s.buckets[r.key := dq + [r.now]], s.admitted[r.key := s.Admitted(r.key) + [r.now]])
    else
      s.(buckets := s.buckets[r.key := dq])
  }

  /** The module-level buckets. The caller passes the clock value it read before taking the lock. */
  class Limiter {
    var buckets: map<string, seq<real>>
    ghost var admitted: map<string, seq<real>>

    ghost function Model(): State
      reads this
    {
      State(buckets, admitted)
    }

    constructor ()
      ensures Model() == INITIAL
    {
      buckets := map[];
      admitted := map[];
    }

    method AllowRequest(key: string, now: real, maxEvents: int, window: real) returns (ok: bool)
      modifies this
      ensures ok == Allows(old(Model()), Request(key, now), Limit(maxEvents, window))
      ensures Model() == Step(old(Model()), Request(key, now), Limit(maxEvents, window))
    {
      var dq := if key in buckets then buckets[key] else [];
      var cutoff := now - window;
      while dq != [] && dq[0] < cutoff
        invariant Trim(dq, cutoff) == Trim(old(Model()).Bucket(key), cutoff)
        decreases |dq|
      {
        dq := dq[1..];
      }
      buckets := buckets[key := dq];
      if |dq| >= maxEvents {
        return false;
      }
      buckets := buckets[key := dq + [now]];
      admitted := admitted[key := Model().Admitted(key) + [now]];
      return true;
    }
  }

  // ----- one key at a time ---------------------------------------------------------------

  /** What a run has done to one key; `latest` is the largest time decided for it so far. */
  datatype KeyState = KeyState(bucket: seq<real>, admitted: seq<real>, latest: Option<real>)

  function KeyAllows(k: KeyState, now: real, limit: Limit): bool {
    |Trim(k.bucket, now - limit.window)| < limit.max
  }

  function KeyStep(k: KeyState, now: real, limit: Limit): KeyState {
    var one := if KeyAllows(k, now, limit) then [now] else [];
    KeyState(Trim(k.bucket, now - limit.window) + one, k.admitted + one,
             if k.latest.None? || k.latest.value < now then Some(now) else k.latest)
  }

  /** How many of the times lie in the closed interval. */
  ghost function CountIn(times: seq<real>, lo: real, hi: real): nat {
    if times == [] then 0
    else (if lo <= times[0] <= hi then 1 else 0) + CountIn(times[1..], lo, hi)
  }

  /** The times not older than the cutoff, in order. */
  ghost function Recent(times: seq<real>, cutoff: real): seq<real> {
    if times == [] then []
    else (if times[0] >= cutoff then [times[0]] else []) + Recent(times[1..], cutoff)
  }

  /** `tail` is what remains of `history`, and everything dropped was older than `bound`. */
  ghost predicate IsTail(history: seq<real>, tail: seq<real>, bound: real) {
    history == tail || (history != [] && history[0] < bound && IsTail(history[1..], tail, bound))
  }

  lemma {:induction false} TailLoosens(history: seq<real>, tail: seq<real>, bound: real, bound': real)
    requires IsTail(history, tail, bound) && bound <= bound'
    ensures IsTail(history, tail, bound')
  {
    if history != tail {
      TailLoosens(history[1..], tail, bound, bound');
    }
  }

  lemma {:induction false} TailDrops(history: seq<real>, tail: seq<real>, bound: real)
    requires IsTail(history, tail, bound) && tail != [] && tail[0] < bound
    ensures IsTail(history, tail[1..], bound)
  {
    if history != tail {
      TailDrops(history[1..], tail, bound);
    }
  }

  lemma {:induction false} TailGrows(history: seq<real>, tail: seq<real>, bound: real, t: real)
    requires IsTail(history, tail, bound)
    ensures IsTail(history + [t], tail + [t], bound)
  {
    if history != tail {
      TailGrows(history[1..], tail, bound, t);
      assert (history + [t])[1..] == history[1..] + [t];
    }
  }

  lemma {:induction false} TrimIsTail(history: seq<real>, tail: seq<real>, bound: real, cutoff: real)
    requires IsTail(history, tail, bound) && cutoff <= bound
    ensures IsTail(history, Trim(tail, cutoff), bound)
    ensures var kept := Trim(tail, cutoff); |kept| <= |tail| && (kept != [] ==> kept[0] >= cutoff)
  {
    if tail != [] && tail[0] < cutoff {
      TailDrops(history, tail, bound);
      TrimIsTail(history, tail[1..], bound, cutoff);
    }
  }

  lemma {:induction false} CountAtMostLength(times: seq<real>, lo: real, hi: real)
    ensures CountIn(times, lo, hi) <= |times|
  {
    if times != [] {
      CountAtMostLength(times[1..], lo, hi);
    }
  }

  lemma {:induction false} CountOfTail(history: seq<real>, tail: seq<real>, bound: real, lo: real, hi: real)
    requires IsTail(history, tail, bound) && bound <= lo
    ensures CountIn(history, lo, hi) <= |tail|
  {
    if history == tail {
      CountAtMostLength(history, lo, hi);
    } else {
      CountOfTail(history[1..], tail, bound, lo, hi);
    }
  }

  lemma {:induction false} CountSnoc(times: seq<real>, t: real, lo: real, hi: real)
    ensures CountIn(times + [t], lo, hi) == CountIn(times, lo, hi) + if lo <= t <= hi then 1 else 0
  {
    if times != [] {
      CountSnoc(times[1..], t, lo, hi);
      assert (times + [t])[1..] == times[1..] + [t];
    }
  }

  /** The bucket is the tail of the admission history; what is missing was older than the window
      of the latest request decided. */
  ghost predicate BucketIsTail(k: KeyState, limit: Limit) {
    match k.latest
    case None => k.bucket == k.admitted == []
    case Some(t) => IsTail(k.admitted, k.bucket, t - limit.window)
  }

  /** After the trim for one more request, before its own time is appended. */
  lemma TrimmedTail(k: KeyState, now: real, limit: Limit)
    requires BucketIsTail(k, limit)
    ensures IsTail(k.admitted, Trim(k.bucket, now - limit.window), KeyStep(k, now, limit).latest.value - limit.window)
    ensures var kept := Trim(k.bucket, now - limit.window);
            |kept| <= |k.bucket| && (kept != [] ==> kept[0] >= now - limit.window)
  {
    if k.latest.Some? {
      var bound := KeyStep(k, now, limit).latest.value - limit.window;
      TailLoosens(k.admitted, k.bucket, k.latest.value - limit.window, bound);
      TrimIsTail(k.admitted, k.bucket, bound, now - limit.window);
    }
  }

  lemma StepKeepsTail(k: KeyState, now: real, limit: Limit)
    requires BucketIsTail(k, limit)
    ensures BucketIsTail(KeyStep(k, now, limit), limit)
  {
    TrimmedTail(k, now, limit);
    var k' := KeyStep(k, now, limit);
    if KeyAllows(k, now, limit) {
      TailGrows(k.admitted, Trim(k.bucket, now - limit.window), k'.latest.value - limit.window, now);
    } else {
      assert k'.bucket == Trim(k.bucket, now - limit.window) && k'.admitted == k.admitted;
    }
  }

  lemma StepKeepsCap(k: KeyState, now: real, limit: Limit)
    requires BucketIsTail(k, limit) && |k.bucket| <= Cap(limit)
    ensures |KeyStep(k, now, limit).bucket| <= Cap(limit)
  {
    TrimmedTail(k, now, limit);
  }

  /** A request at most `skew` late keeps the bound on every interval starting at `a`. */
  lemma StepKeepsBound(k: KeyState, now: real, limit: Limit, skew: real, a: real)
    requires BucketIsTail(k, limit) && skew >= 0.0
    requires k.latest.Some? ==> now >= k.latest.value - skew
    requires CountIn(k.admitted, a, a + limit.window - skew) <= Cap(limit)
    ensures CountIn(KeyStep(k, now, limit).admitted, a, a + limit.window - skew) <= Cap(limit)
  {
    var hi, k' := a + limit.window - skew, KeyStep(k, now, limit);
    if KeyAllows(k, now, limit) {
      CountSnoc(k.admitted, now, a, hi);
      if a <= now <= hi {
        TrimmedTail(k, now, limit);
        CountOfTail(k.admitted, Trim(k.bucket, now - limit.window), k'.latest.value - limit.window, a, hi);
      }
    } else {
      assert k'.admitted == k.admitted;
    }
  }

  ghost predicate NonDecreasing(times: seq<real>) {
    forall i, j :: 0 <= i < j < |times| ==> times[i] <= times[j]
  }

  /** The history is in time order and ends no later than the latest request. */
  ghost predicate Ordered(k: KeyState) {
    NonDecreasing(k.admitted)
    && (k.admitted != [] ==> k.latest.Some? && k.admitted[|k.admitted| - 1] <= k.latest.value)
  }

  lemma {:induction false} RecentOfYoung(times: seq<real>, cutoff: real)
    requires NonDecreasing(times) && (times != [] ==> times[0] >= cutoff)
    ensures Recent(times, cutoff) == times
  {
    if times != [] {
      RecentOfYoung(times[1..], cutoff);
    }
  }

  lemma {:induction false} RecentOfTail(history: seq<real>, tail: seq<real>, cutoff: real)
    requires IsTail(history, tail, cutoff) && NonDecreasing(history)
    requires tail != [] ==> tail[0] >= cutoff
    ensures Recent(history, cutoff) == tail
  {
    if history == tail {
      RecentOfYoung(history, cutoff);
    } else {
      RecentOfTail(history[1..], tail, cutoff);
    }
  }

  /** For a request no older than those before it the trim leaves exactly the recent history. */
  lemma TrimIsRecent(k: KeyState, now: real, limit: Limit)
    requires BucketIsTail(k, limit) && Ordered(k)
    requires k.latest.Some? ==> now >= k.latest.value
    ensures Trim(k.bucket, now - limit.window) == Recent(k.admitted, now - limit.window)
  {
    if k.latest.Some? {
      TrimmedTail(k, now, limit);
      RecentOfTail(k.admitted, Trim(k.bucket, now - limit.window), now - limit.window);
    }
  }

  lemma StepKeepsOrder(k: KeyState, now: real, limit: Limit)
    requires Ordered(k) && (k.latest.Some? ==> now >= k.latest.value)
    ensures Ordered(KeyStep(k, now, limit))
  {
    var h, h' := k.admitted, KeyStep(k, now, limit).admitted;
    assert forall i :: 0 <= i < |h| ==> h'[i] == h[i] && h[i] <= h[|h| - 1];
  }

  // ----- runs in lock order ------------------------------------------------------------

  /** The state after the requests, each decided under the limit of its key. */
  function Run(reqs: seq<Request>, policy: string -> Limit): State {
    if reqs == [] then INITIAL
    else
      var last := reqs[|reqs| - 1];
      Step(Run(reqs[..|reqs| - 1], policy), last, policy(last.key))
  }

  /** The largest time among the decided requests of a key. */
  ghost function Latest(reqs: seq<Request>, key: string): Option<real> {
    if reqs == [] then None
    else
      var last, before := reqs[|reqs| - 1], Latest(reqs[..|reqs| - 1], key);
      if last.key == key && (before.None? || before.value < last.now) then Some(last.now) else before
  }

  /** No request of this key carries a time more than `skew` older than one decided before it. */
  ghost predicate Skewed(reqs: seq<Request>, key: string, skew: real) {
    reqs != [] ==>
      var last, before := reqs[|reqs| - 1], reqs[..|reqs| - 1];
      Skewed(before, key, skew)
      && (last.key == key && Latest(before, key).Some? ==> last.now >= Latest(before, key).value - skew)
  }

  ghost function View(reqs: seq<Request>, policy: string -> Limit, key: string): KeyState {
    KeyState(Run(reqs, policy).Bucket(key), Run(reqs, policy).Admitted(key), Latest(reqs, key))
  }

  lemma StepAt(s: State, r: Request, limit: Limit, key: string)
    ensures var s', ok := Step(s, r, limit), Allows(s, r, limit);
            if key == r.key then
              s'.Bucket(key) == Trim(s.Bucket(key), r.now - limit.window) + (if ok then [r.now] else [])
              && s'.Admitted(key) == s.Admitted(key) + (if ok then [r.now] else [])
            else s'.Bucket(key) == s.Bucket(key) && s'.Admitted(key) == s.Admitted(key)
  {
  }

  /** Keys do not interfere: a request moves its own key by `KeyStep` and no other. */
  lemma ViewStep(front: seq<Request>, r: Request, policy: string -> Limit, key: string)
    ensures View(front + [r], policy, key)
            == if r.key == key then KeyStep(View(front, policy, key), r.now, policy(key)) else View(front, policy, key)
  {
    var reqs := front + [r];
    assert reqs[..|reqs| - 1] == front && reqs[|reqs| - 1] == r;
    StepAt(Run(front, policy), r, policy(r.key), key);
    assert Run(reqs, policy) == Step(Run(front, policy), r, policy(r.key));
  }

  lemma SkewStep(front: seq<Request>, r: Request, key: string, skew: real)
    ensures Skewed(front + [r], key, skew)
            <==> Skewed(front, key, skew)
                 && (r.key == key && Latest(front, key).Some? ==> r.now >= Latest(front, key).value - skew)
    ensures Latest(front + [r], key)
            == if r.key == key && (Latest(front, key).None? || Latest(front, key).value < r.now)
               then Some(r.now) else Latest(front, key)
  {
    var reqs := front + [r];
    assert reqs[..|reqs| - 1] == front && reqs[|reqs| - 1] == r;
  }

  lemma {:induction false} RunKeepsTail(reqs: seq<Request>, policy: string -> Limit, key: string)
    ensures BucketIsTail(View(reqs, policy, key), policy(key))
  {
    if reqs != [] {
      var front, r := reqs[..|reqs| - 1], reqs[|reqs| - 1];
      RunKeepsTail(front, policy, key);
      ViewStep(front, r, policy, key);
      StepKeepsTail(View(front, policy, key), r.now, policy(key));
      assert reqs == front + [r];
    }
  }

  /** A deque never outgrows its limit. */
  lemma {:induction false} BucketNeverExceedsMax(reqs: seq<Request>, policy: string -> Limit, key: string)
    ensures |View(reqs, policy, key).bucket| <= Cap(policy(key))
  {
    if reqs != [] {
      var front, r := reqs[..|reqs| - 1], reqs[|reqs| - 1];
      BucketNeverExceedsMax(front, policy, key);
      ViewStep(front, r, policy, key);
      RunKeepsTail(front, policy, key);
      StepKeepsCap(View(front, policy, key), r.now, policy(key));
      assert reqs == front + [r];
    }
  }

  /** The rate bound: with clock readings at most `skew` late, any closed interval of length
      window - skew holds at most `max` admissions, whatever the order of the requests. */
  lemma {:induction false} RateBound(reqs: seq<Request>, policy: string -> Limit, key: string, skew: real, a: real)
    requires Skewed(reqs, key, skew) && skew >= 0.0
    ensures CountIn(View(reqs, policy, key).admitted, a, a + policy(key).window - skew) <= Cap(policy(key))
  {
    if reqs != [] {
      var front, r := reqs[..|reqs| - 1], reqs[|reqs| - 1];
      assert reqs == front + [r];
      SkewStep(front, r, key, skew);
      RateBound(front, policy, key, skew, a);
      RunKeepsTail(front, policy, key);
      ViewStep(front, r, policy, key);
      if r.key == key {
        StepKeepsBound(View(front, policy, key), r.now, policy(key), skew, a);
      }
    }
  }

  lemma {:induction false} HistoryIsOrdered(reqs: seq<Request>, policy: string -> Limit, key: string)
    requires Skewed(reqs, key, 0.0)
    ensures Ordered(View(reqs, policy, key))
  {
    if reqs != [] {
      var front, r := reqs[..|reqs| - 1], reqs[|reqs| - 1];
      assert reqs == front + [r];
      SkewStep(front, r, key, 0.0);
      HistoryIsOrdered(front, policy, key);
      ViewStep(front, r, policy, key);
      if r.key == key {
        StepKeepsOrder(View(front, policy, key), r.now, policy(key));
      }
    }
  }

  lemma AllowsByKey(reqs: seq<Request>, policy: string -> Limit, r: Request)
    ensures Allows(Run(reqs, policy), r, policy(r.key)) == KeyAllows(View(reqs, policy, r.key), r.now, policy(r.key))
  {
  }

  /** The decision the naive limiter would take, counting everything ever admitted that is still
      in the window; the new deque is that count's rows and the history grows only by the admitted. */
  ghost predicate NaiveDecision(k: KeyState, k': KeyState, allowed: bool, now: real, limit: Limit) {
    var recent := Recent(k.admitted, now - limit.window);
    var one := if allowed then [now] else [];
    (allowed <==> |recent| < limit.max) && k'.bucket == recent + one && k'.admitted == k.admitted + one
  }

  lemma KeyDecision(k: KeyState, now: real, limit: Limit)
    requires BucketIsTail(k, limit) && Ordered(k)
    requires k.latest.Some? ==> now >= k.latest.value
    ensures NaiveDecision(k, KeyStep(k, now, limit), KeyAllows(k, now, limit), now, limit)
  {
    TrimIsRecent(k, now, limit);
  }

  /** With requests decided in clock order, what survives the trim is exactly the part of the
      whole admission history inside the window; so the decision is the naive count over
      everything ever admitted, and a refusal leaves that history alone. */
  lemma DecisionIsNaiveCount(reqs: seq<Request>, policy: string -> Limit, r: Request)
    requires Skewed(reqs + [r], r.key, 0.0)
    ensures NaiveDecision(View(reqs, policy, r.key), View(reqs + [r], policy, r.key),
                          Allows(Run(reqs, policy), r, policy(r.key)), r.now, policy(r.key))
  {
    SkewStep(reqs, r, r.key, 0.0);
    RunKeepsTail(reqs, policy, r.key);
    HistoryIsOrdered(reqs, policy, r.key);
    KeyDecision(View(reqs, policy, r.key), r.now, policy(r.key));
    ViewStep(reqs, r, policy, r.key);
    AllowsByKey(reqs, policy, r);
  }

  // ----- threads that read the clock, then wait for the lock ---------------------------

  datatype Action = Tick(dt: real) | Call(tid: int, key: string) | Enter(tid: int)

  /** `waiting` holds the threads that have read the clock but not yet entered the lock. */
  datatype Machine = Machine(clock: real, waiting: map<int, Request>, decided: seq<Request>, limiter: State)

  const START := Machine(0.0, map[], [], INITIAL)

  /** `delay` bounds the time a thread may spend between its clock reading and the lock. */
  predicate Enabled(m: Machine, a: Action, delay: real) {
    match a
    case Tick(dt) => dt >= 0.0
    case Call(tid, _) => tid !in m.waiting
    case Enter(tid) => tid in m.waiting && m.clock - m.waiting[tid].now <= delay
  }

  function Do(m: Machine, a: Action, delay: real, policy: string -> Limit): Machine
    requires Enabled(m, a, delay)
  {
    match a
    case Tick(dt) => m.(clock := m.clock + dt)
    case Call(tid, key) => m.(waiting := m.waiting[tid := Request(key, m.clock)])
    case Enter(tid) =>
      var r := m.waiting[tid];
      m.(waiting := m.waiting - {tid},
         decided := m.decided + [r],
         limiter := Step(m.limiter, r, policy(r.key)))
  }

  predicate Moves(m: Machine, a: Action, m': Machine, delay: real, policy: string -> Limit) {
    Enabled(m, a, delay) && m' == Do(m, a, delay, policy)
  }

  /** The machine can perform the actions in this order, ending in `m`. */
  ghost predicate Reaches(actions: seq<Action>, m: Machine, delay: real, policy: string -> Limit) {
    if actions == [] then m == START
    else
      var front, last := actions[..|actions| - 1], actions[|actions| - 1];
      exists before :: Reaches(front, before, delay, policy) && Moves(before, last, m, delay, policy)
  }

  ghost predicate MachineInvariant(m: Machine, delay: real, policy: string -> Limit, key: string) {
    m.limiter == Run(m.decided, policy)
    && (forall tid :: tid in m.waiting ==> m.waiting[tid].now <= m.clock)
    && (Latest(m.decided, key).Some? ==> Latest(m.decided, key).value <= m.clock)
    && Skewed(m.decided, key, delay)
  }

  lemma MoveKeepsInvariant(m: Machine, a: Action, m': Machine, delay: real, policy: string -> Limit, key: string)
    requires MachineInvariant(m, delay, policy, key) && Moves(m, a, m', delay, policy)
    ensures MachineInvariant(m', delay, policy, key)
  {
    if a.Enter? {
      var r := m.waiting[a.tid];
      SkewStep(m.decided, r, key, delay);
      assert m'.decided[..|m'.decided| - 1] == m.decided;
    }
  }

  lemma {:induction false} ReachableMachine(actions: seq<Action>, m: Machine, delay: real, policy: string -> Limit, key: string)
    requires Reaches(actions, m, delay, policy)
    ensures MachineInvariant(m, delay, policy, key)
  {
    if actions != [] {
      var front, last := actions[..|actions| - 1], actions[|actions| - 1];
      var before :| Reaches(front, before, delay, policy) && Moves(before, last, m, delay, policy);
      ReachableMachine(front, before, delay, policy, key);
      MoveKeepsInvariant(before, last, m, delay, policy, key);
    }
  }

  /** Over every interleaving of any number of threads in which no thread waits longer than
      `delay` between reading the clock and entering the lock. */
  lemma InterleavingBound(actions: seq<Action>, m: Machine, delay: real, policy: string -> Limit, key: string, a: real)
    requires Reaches(actions, m, delay, policy) && delay >= 0.0
    ensures CountIn(m.limiter.Admitted(key), a, a + policy(key).window - delay)
            <= Cap(policy(key))
  {
    ReachableMachine(actions, m, delay, policy, key);
    RateBound(m.decided, policy, key, delay, a);
  }

  // ----- the bound is tight ------------------------------------------------------------

  ghost function Everywhere(limit: Limit): string -> Limit {
    _ => limit
  }

  ghost predicate WithinLimit(reqs: seq<Request>, key: string, limit: Limit, a: real, length: real) {
    CountIn(View(reqs, Everywhere(limit), key).admitted, a, a + length) <= limit.max
  }

  ghost predicate NeverExceeded(limit: Limit, skew: real, length: real) {
    forall reqs, key, a :: Skewed(reqs, key, skew) ==> WithinLimit(reqs, key, limit, a, length)
  }

  lemma {:induction false} CountGrows(times: seq<real>, a: real, hi: real, hi': real)
    requires hi <= hi'
    ensures CountIn(times, a, hi) <= CountIn(times, a, hi')
  {
    if times != [] {
      CountGrows(times[1..], a, hi, hi');
    }
  }

  /** n requests at time zero. */
  ghost function Fill(n: nat): seq<Request> {
    if n == 0 then [] else Fill(n - 1) + [Request("", 0.0)]
  }

  ghost function Zeros(n: nat): seq<real> {
    if n == 0 then [] else Zeros(n - 1) + [0.0]
  }

  lemma {:induction false} ZerosShape(n: nat)
    ensures |Zeros(n)| == n && forall i :: 0 <= i < n ==> Zeros(n)[i] == 0.0
  {
    if n > 0 {
      ZerosShape(n - 1);
    }
  }

  lemma {:induction false} CountZeros(n: nat, lo: real, hi: real)
    requires lo <= 0.0 <= hi
    ensures CountIn(Zeros(n), lo, hi) == n
  {
    if n > 0 {
      CountZeros(n - 1, lo, hi);
      CountSnoc(Zeros(n - 1), 0.0, lo, hi);
    }
  }

  ghost function AfterFill(n: nat): KeyState {
    KeyState(Zeros(n), Zeros(n), if n == 0 then None else Some(0.0))
  }

  lemma FillStep(n: nat, limit: Limit)
    requires n < limit.max && limit.window >= 0.0
    ensures KeyStep(AfterFill(n), 0.0, limit) == AfterFill(n + 1)
  {
    ZerosShape(n);
  }

  lemma {:induction false} FillView(n: nat, limit: Limit)
    requires n <= limit.max && limit.window >= 0.0
    ensures View(Fill(n), Everywhere(limit), "") == AfterFill(n)
  {
    if n > 0 {
      FillView(n - 1, limit);
      ViewStep(Fill(n - 1), Request("", 0.0), Everywhere(limit), "");
      assert View(Fill(n), Everywhere(limit), "") == KeyStep(AfterFill(n - 1), 0.0, limit);
      FillStep(n - 1, limit);
    }
  }

  lemma {:induction false} FillSkew(n: nat, skew: real)
    requires skew >= 0.0
    ensures Skewed(Fill(n), "", skew) && Latest(Fill(n), "") == AfterFill(n).latest
  {
    if n > 0 {
      FillSkew(n - 1, skew);
      SkewStep(Fill(n - 1), Request("", 0.0), "", skew);
    }
  }

  lemma {:induction false} TrimAll(dq: seq<real>, cutoff: real)
    requires forall i :: 0 <= i < |dq| ==> dq[i] < cutoff
    ensures Trim(dq, cutoff) == []
  {
    if dq != [] {
      TrimAll(dq[1..], cutoff);
    }
  }

  /** `max` requests at time zero, one that expires them all, and a late reading. */
  ghost function LateRun(max: nat, late: real, expiry: real): seq<Request> {
    Fill(max) + [Request("", expiry)] + [Request("", late)]
  }

  lemma LateRunIsSkewed(n: nat, late: real, skew: real)
    requires skew >= 0.0 && late + skew >= 0.0
    ensures Skewed(LateRun(n, late, late + skew), "", skew)
  {
    var e, l := Request("", late + skew), Request("", late);
    FillSkew(n, skew);
    SkewStep(Fill(n), e, "", skew);
    SkewStep(Fill(n) + [e], l, "", skew);
  }

  lemma LateRunAdmitsAll(limit: Limit, skew: real, late: real)
    requires limit.max >= 2 && limit.window >= 0.0 && skew >= 0.0 && late > limit.window - skew
    ensures View(LateRun(limit.max, late, late + skew), Everywhere(limit), "").admitted
            == Zeros(limit.max) + [late + skew] + [late]
  {
    var n, policy := limit.max, Everywhere(limit);
    var e, l := Request("", late + skew), Request("", late);
    FillView(n, limit);
    LateSteps(limit, skew, late);
    TwoSteps(Fill(n), e, l, policy, "");
  }

  lemma TwoSteps(front: seq<Request>, e: Request, l: Request, policy: string -> Limit, key: string)
    requires e.key == key && l.key == key
    ensures View(front + [e] + [l], policy, key)
            == KeyStep(KeyStep(View(front, policy, key), e.now, policy(key)), l.now, policy(key))
  {
    ViewStep(front, e, policy, key);
    ViewStep(front + [e], l, policy, key);
  }

  lemma LateSteps(limit: Limit, skew: real, late: real)
    requires limit.max >= 2 && limit.window >= 0.0 && skew >= 0.0 && late > limit.window - skew
    ensures var k := KeyStep(AfterFill(limit.max), late + skew, limit);
            k.latest == Some(late + skew)
            && KeyStep(k, late, limit).admitted == Zeros(limit.max) + [late + skew] + [late]
  {
    ZerosShape(limit.max);
    TrimAll(Zeros(limit.max), late + skew - limit.window);
    assert Trim([late + skew], late - limit.window) == [late + skew];
  }

  lemma LateRunExceeds(limit: Limit, skew: real, length: real)
    requires limit.max >= 2 && limit.window >= 0.0 && skew >= 0.0
    requires length >= 0.0 && length > limit.window - skew
    ensures !WithinLimit(LateRun(limit.max, length, length + skew), "", limit, 0.0, length)
  {
    var n := limit.max;
    LateRunAdmitsAll(limit, skew, length);
    CountZeros(n, 0.0, 0.0 + length);
    CountSnoc(Zeros(n), length + skew, 0.0, 0.0 + length);
    CountSnoc(Zeros(n) + [length + skew], length, 0.0, 0.0 + length);
  }

  /** A late thread whose reading is `skew` old slips in after the window of others was dropped. */
  lemma LateReadingSlipsIn(limit: Limit, skew: real, length: real)
    requires limit.max >= 2 && limit.window >= 0.0 && skew >= 0.0
    requires length >= 0.0 && length > limit.window - skew
    ensures !NeverExceeded(limit, skew, length)
  {
    LateRunIsSkewed(limit.max, length, skew);
    LateRunExceeds(limit, skew, length);
  }

  // ----- one event per window ----------------------------------------------------------

  /** Later times exceed earlier ones by more than the gap. */
  ghost predicate Spread(times: seq<real>, gap: real) {
    forall i, j :: 0 <= i < j < |times| ==> times[j] > times[i] + gap
  }

  /** With room for a single event the bucket is just the latest admission. */
  ghost predicate HoldsLast(k: KeyState, limit: Limit) {
    k.bucket == (if k.admitted == [] then [] else [k.admitted[|k.admitted| - 1]]) && Spread(k.admitted, limit.window)
  }

  lemma StepHoldsLast(k: KeyState, now: real, limit: Limit)
    requires limit.max == 1 && limit.window >= 0.0 && HoldsLast(k, limit)
    ensures HoldsLast(KeyStep(k, now, limit), limit)
  {
    var h, h' := k.admitted, KeyStep(k, now, limit).admitted;
    var kept := Trim(k.bucket, now - limit.window);
    assert k.bucket != [] ==> k.bucket[1..] == [] && Trim(k.bucket[1..], now - limit.window) == [];
    if KeyAllows(k, now, limit) {
      assert kept == [] && h' == h + [now];
      assert forall i :: 0 <= i < |h| ==> h'[i] == h[i] && h[i] <= h[|h| - 1];
    } else {
      assert kept == k.bucket && h' == h;
    }
  }

  lemma {:induction false} RunHoldsLast(reqs: seq<Request>, limit: Limit, key: string)
    requires limit.max == 1 && limit.window >= 0.0
    ensures HoldsLast(View(reqs, Everywhere(limit), key), limit)
  {
    if reqs != [] {
      var front, r := reqs[..|reqs| - 1], reqs[|reqs| - 1];
      RunHoldsLast(front, limit, key);
      ViewStep(front, r, Everywhere(limit), key);
      StepHoldsLast(View(front, Everywhere(limit), key), r.now, limit);
      assert reqs == front + [r];
    }
  }

  lemma {:induction false} CountNone(times: seq<real>, lo: real, hi: real)
    requires forall i :: 0 <= i < |times| ==> !(lo <= times[i] <= hi)
    ensures CountIn(times, lo, hi) == 0
  {
    if times != [] {
      CountNone(times[1..], lo, hi);
    }
  }

  lemma {:induction false} CountOfSpread(times: seq<real>, gap: real, lo: real, hi: real)
    requires Spread(times, gap) && hi <= lo + gap
    ensures CountIn(times, lo, hi) <= 1
  {
    if times != [] {
      if lo <= times[0] <= hi {
        assert forall i :: 0 <= i < |times[1..]| ==> times[1..][i] == times[i + 1] > times[0] + gap;
        CountNone(times[1..], lo, hi);
      } else {
        CountOfSpread(times[1..], gap, lo, hi);
      }
    }
  }

  lemma TwoExceed(limit: Limit, length: real)
    requires limit.max == 1 && limit.window >= 0.0 && length > limit.window
    ensures !WithinLimit([] + [Request("", 0.0)] + [Request("", length)], "", limit, 0.0, length)
  {
    var e, l, policy := Request("", 0.0), Request("", length), Everywhere(limit);
    TwoSteps([], e, l, policy, "");
    assert Trim([0.0], length - limit.window) == [];
    assert KeyStep(View([], policy, ""), 0.0, limit) == KeyState([0.0], [0.0], Some(0.0));
    assert View([] + [e] + [l], policy, "").admitted == [0.0, length];
    CountZeros(1, 0.0, 0.0 + length);
    CountSnoc([0.0], length, 0.0, 0.0 + length);
    assert [0.0] + [length] == [0.0, length] && Zeros(1) == [0.0];
  }

  lemma TwoJustOutside(limit: Limit, skew: real, length: real)
    requires limit.max == 1 && limit.window >= 0.0 && skew >= 0.0 && length > limit.window
    ensures !NeverExceeded(limit, skew, length)
  {
    var e, l := Request("", 0.0), Request("", length);
    SkewStep([], e, "", skew);
    SkewStep([] + [e], l, "", skew);
    TwoExceed(limit, length);
  }

  /** The longest closed interval that never holds more than `max` admissions: the window shortened
      by the skew, or the whole window when only one event fits. */
  function GuaranteedLength(limit: Limit, skew: real): real {
    if limit.max >= 2 then limit.window - skew else limit.window
  }

  lemma GuaranteeHolds(limit: Limit, skew: real, length: real)
    requires limit.max >= 0 && limit.window >= 0.0 && skew >= 0.0
    requires limit.max == 0 || length < 0.0 || length <= GuaranteedLength(limit, skew)
    ensures NeverExceeded(limit, skew, length)
  {
    forall reqs, key, a | Skewed(reqs, key, skew)
      ensures WithinLimit(reqs, key, limit, a, length)
    {
      var admitted := View(reqs, Everywhere(limit), key).admitted;
      if length < 0.0 {
        CountNone(admitted, a, a + length);
      } else if limit.max == 1 {
        RunHoldsLast(reqs, limit, key);
        CountOfSpread(admitted, limit.window, a, a + length);
      } else if limit.max == 0 {
        NothingAdmitted(reqs, limit, key);
      } else {
        RateBound(reqs, Everywhere(limit), key, skew, a);
        CountGrows(admitted, a, a + length, a + limit.window - skew);
      }
    }
  }

  lemma {:induction false} NothingAdmitted(reqs: seq<Request>, limit: Limit, key: string)
    requires limit.max == 0
    ensures View(reqs, Everywhere(limit), key).admitted == []
  {
    if reqs != [] {
      var front, r := reqs[..|reqs| - 1], reqs[|reqs| - 1];
      NothingAdmitted(front, limit, key);
      ViewStep(front, r, Everywhere(limit), key);
      assert reqs == front + [r];
    }
  }

  /** For every limit and skew, the lengths at which the rate bound holds in all runs are exactly
      those up to the guaranteed one. */
  lemma RateBoundIsTight(limit: Limit, skew: real, length: real)
    requires limit.max >= 0 && limit.window >= 0.0 && skew >= 0.0
    ensures NeverExceeded(limit, skew, length)
            <==> limit.max == 0 || length < 0.0 || length <= GuaranteedLength(limit, skew)
  {
    if limit.max == 0 || length < 0.0 || length <= GuaranteedLength(limit, skew) {
      GuaranteeHolds(limit, skew, length);
    } else if limit.max == 1 {
      TwoJustOutside(limit, skew, length);
    } else {
      LateReadingSlipsIn(limit, skew, length);
    }
  }

  // ----- the tight runs as interleavings -------------------------------------------------

  /** Some interleaving with these waits decides the requests in this order, and nobody waits then. */
  ghost predicate Decides(m: Machine, reqs: seq<Request>, clock: real, delay: real, policy: string -> Limit) {
    (exists actions :: Reaches(actions, m, delay, policy))
    && m == Machine(clock, map[], reqs, Run(reqs, policy))
  }

  lemma ReachesSnoc(actions: seq<Action>, a: Action, m: Machine, m': Machine, delay: real, policy: string -> Limit)
    requires Reaches(actions, m, delay, policy) && Moves(m, a, m', delay, policy)
    ensures Reaches(actions + [a], m', delay, policy)
  {
    assert (actions + [a])[..|actions|] == actions;
  }

  lemma CanMove(m: Machine, a: Action, m': Machine, delay: real, policy: string -> Limit)
    requires (exists actions :: Reaches(actions, m, delay, policy)) && Moves(m, a, m', delay, policy)
    ensures exists actions :: Reaches(actions, m', delay, policy)
  {
    var actions :| Reaches(actions, m, delay, policy);
    ReachesSnoc(actions, a, m, m', delay, policy);
  }

  lemma RunSnoc(reqs: seq<Request>, r: Request, policy: string -> Limit)
    ensures Run(reqs + [r], policy) == Step(Run(reqs, policy), r, policy(r.key))
  {
    assert (reqs + [r])[..|reqs|] == reqs;
  }

  /** Time passes, then one thread reads the clock and enters at once. */
  lemma DecidesOne(m: Machine, reqs: seq<Request>, clock: real, key: string, delay: real, policy: string -> Limit)
    returns (m': Machine)
    requires Decides(m, reqs, m.clock, delay, policy) && clock >= m.clock && delay >= 0.0
    ensures Decides(m', reqs + [Request(key, clock)], clock, delay, policy) && m'.clock == clock
  {
    var r := Request(key, clock);
    var m1 := m.(clock := clock);
    CanMove(m, Tick(clock - m.clock), m1, delay, policy);
    var m2 := m1.(waiting := map[0 := r]);
    CanMove(m1, Call(0, key), m2, delay, policy);
    RunSnoc(reqs, r, policy);
    m' := Machine(clock, map[], reqs + [r], Run(reqs + [r], policy));
    assert m2.waiting - {0} == map[];
    CanMove(m2, Enter(0), m', delay, policy);
  }

  /** One thread reads the clock, waits `wait`, another reads and enters, and then the first enters. */
  lemma DecidesOvertaken(m: Machine, reqs: seq<Request>, late: real, wait: real, key: string, delay: real, policy: string -> Limit)
    returns (m': Machine)
    requires Decides(m, reqs, m.clock, delay, policy) && late >= m.clock && 0.0 <= wait <= delay
    ensures Decides(m', reqs + [Request(key, late + wait)] + [Request(key, late)], late + wait, delay, policy)
  {
    var l, e := Request(key, late), Request(key, late + wait);
    var m1 := m.(clock := late);
    CanMove(m, Tick(late - m.clock), m1, delay, policy);
    var m2 := m1.(waiting := map[1 := l]);
    CanMove(m1, Call(1, key), m2, delay, policy);
    var m3 := m2.(clock := late + wait);
    CanMove(m2, Tick(wait), m3, delay, policy);
    var m4 := m3.(waiting := map[1 := l, 0 := e]);
    CanMove(m3, Call(0, key), m4, delay, policy);
    RunSnoc(reqs, e, policy);
    var m5 := Machine(late + wait, map[1 := l], reqs + [e], Run(reqs + [e], policy));
    assert m4.waiting - {0} == map[1 := l];
    CanMove(m4, Enter(0), m5, delay, policy);
    RunSnoc(reqs + [e], l, policy);
    m' := Machine(late + wait, map[], reqs + [e] + [l], Run(reqs + [e] + [l], policy));
    assert m5.waiting - {1} == map[];
    CanMove(m5, Enter(1), m', delay, policy);
  }

  lemma {:induction false} DecidesFill(n: nat, delay: real, policy: string -> Limit) returns (m: Machine)
    requires delay >= 0.0
    ensures Decides(m, Fill(n), 0.0, delay, policy) && m.clock == 0.0
  {
    if n == 0 {
      m := START;
      assert Reaches([], m, delay, policy);
    } else {
      m := DecidesFill(n - 1, delay, policy);
      m := DecidesOne(m, Fill(n - 1), 0.0, "", delay, policy);
    }
  }

  ghost predicate MachineWithinLimit(m: Machine, key: string, limit: Limit, a: real, length: real) {
    CountIn(m.limiter.Admitted(key), a, a + length) <= limit.max
  }

  /** No interleaving in which every wait is at most `delay` exceeds the limit on intervals this long. */
  ghost predicate NeverExceededByThreads(limit: Limit, delay: real, length: real) {
    forall actions, m, key, a :: Reaches(actions, m, delay, Everywhere(limit)) ==> MachineWithinLimit(m, key, limit, a, length)
  }

  lemma ThreadsExceed(m: Machine, reqs: seq<Request>, clock: real, limit: Limit, delay: real, length: real)
    requires Decides(m, reqs, clock, delay, Everywhere(limit)) && !WithinLimit(reqs, "", limit, 0.0, length)
    ensures !NeverExceededByThreads(limit, delay, length)
  {
    var actions :| Reaches(actions, m, delay, Everywhere(limit));
    assert !MachineWithinLimit(m, "", limit, 0.0, length);
  }

  /** The late run comes about: `max` threads at once, and one overtaken between clock and lock. */
  lemma ThreadsSlipIn(limit: Limit, delay: real, length: real)
    requires limit.max >= 2 && limit.window >= 0.0 && delay >= 0.0
    requires length >= 0.0 && length > limit.window - delay
    ensures !NeverExceededByThreads(limit, delay, length)
  {
    var policy := Everywhere(limit);
    var m := DecidesFill(limit.max, delay, policy);
    var m' := DecidesOvertaken(m, Fill(limit.max), length, delay, "", delay, policy);
    LateRunExceeds(limit, delay, length);
    ThreadsExceed(m', LateRun(limit.max, length, length + delay), length + delay, limit, delay, length);
  }

  lemma ThreadsTwice(limit: Limit, delay: real, length: real)
    requires limit.max == 1 && limit.window >= 0.0 && delay >= 0.0 && length > limit.window
    ensures !NeverExceededByThreads(limit, delay, length)
  {
    var policy := Everywhere(limit);
    assert Reaches([], START, delay, policy);
    var m := DecidesOne(START, [], 0.0, "", delay, policy);
    var m' := DecidesOne(m, [] + [Request("", 0.0)], length, "", delay, policy);
    TwoExceed(limit, length);
    ThreadsExceed(m', [] + [Request("", 0.0)] + [Request("", length)], length, limit, delay, length);
  }

  /** Over all interleavings too, the lengths at which the bound always holds are exactly those. */
  lemma InterleavingBoundIsTight(limit: Limit, delay: real, length: real)
    requires limit.max >= 0 && limit.window >= 0.0 && delay >= 0.0
    ensures NeverExceededByThreads(limit, delay, length)
            <==> limit.max == 0 || length < 0.0 || length <= GuaranteedLength(limit, delay)
  {
    if limit.max == 0 || length < 0.0 || length <= GuaranteedLength(limit, delay) {
      GuaranteeHolds(limit, delay, length);
      forall actions, m, key, a | Reaches(actions, m, delay, Everywhere(limit))
        ensures MachineWithinLimit(m, key, limit, a, length)
      {
        ReachableMachine(actions, m, delay, Everywhere(limit), key);
        assert WithinLimit(m.decided, key, limit, a, length);
      }
    } else if limit.max == 1 {
      ThreadsTwice(limit, delay, length);
    } else {
      ThreadsSlipIn(limit, delay, length);
    }
  }
}

/** The sliding window of the RPC rate limit, with clock readings that may come out of order. */
module RateLimit {
  import opened Wrappers
  import opened Text

  /** Sixty seconds in nanoseconds; all times are readings of one monotonic clock. */
  const WINDOW: int := 60 * 1_000_000_000

  const HEAVY: set<string> := {"ReceivePack", "CreateBundle", "MergeBranch", "MergeResolved", "MirrorPush",
                               "CreateBranch", "DeleteBranch", "Create", "AddVersion"}

  // ---- one window -----------------------------------------------------------------------------

  /** Old readings leave from the front; a reading later than `now` is not old. */
  function Pruned(q: seq<int>, now: int): (r: seq<int>)
    ensures |r| <= |q|
  {
    if q != [] && now - q[0] > WINDOW then Pruned(q[1..], now) else q
  }

  /** The window after the requests at `times`, in the order in which they took the lock. */
  function Queue(times: seq<int>, limit: nat): seq<int> {
    if times == [] then []
    else
      var now := times[|times| - 1];
      var q := Pruned(Queue(times[..|times| - 1], limit), now);
      if |q| < limit then q + [now] else q
  }

  /** Is the last of these requests admitted? */
  predicate LastAdmitted(times: seq<int>, limit: nat)
    requires times != []
  {
    |Pruned(Queue(times[..|times| - 1], limit), times[|times| - 1])| < limit
  }

  /** How many of the requests were admitted with a reading between `a` and `b`, both included. */
  function Admitted(times: seq<int>, limit: nat, a: int, b: int): nat {
    if times == [] then 0
    else Admitted(times[..|times| - 1], limit, a, b)
         + (if LastAdmitted(times, limit) && a <= times[|times| - 1] <= b then 1 else 0)
  }

  function Count(q: seq<int>, a: int, b: int): nat {
    if q == [] then 0 else Count(q[..|q| - 1], a, b) + (if a <= q[|q| - 1] <= b then 1 else 0)
  }

  lemma {:induction false} CountDropFirst(q: seq<int>, a: int, b: int)
    requires q != [] && !(a <= q[0] <= b)
    ensures Count(q[1..], a, b) == Count(q, a, b)
  {
    if |q| > 1 {
      var n := |q| - 1;
      CountDropFirst(q[..n], a, b);
      assert q[..n][1..] == q[1..][..n - 1];
    }
  }

  /** Leaving the front takes away nothing that is younger than the window. */
  lemma {:induction false} PruneKeeps(q: seq<int>, now: int, a: int, b: int)
    requires now - WINDOW <= a
    ensures Count(Pruned(q, now), a, b) == Count(q, a, b)
  {
    if q != [] && now - q[0] > WINDOW {
      CountDropFirst(q, a, b);
      PruneKeeps(q[1..], now, a, b);
    }
  }

  lemma {:induction false} CountBound(q: seq<int>, a: int, b: int)
    ensures Count(q, a, b) <= |q|
    ensures (forall i :: 0 <= i < |q| ==> a <= q[i] <= b) ==> Count(q, a, b) == |q|
  {
    if q != [] {
      CountBound(q[..|q| - 1], a, b);
    }
  }

  lemma CountNext(q: seq<int>, t: int, a: int, b: int)
    ensures Count(q + [t], a, b) == Count(q, a, b) + (if a <= t <= b then 1 else 0)
  {
    assert (q + [t])[..|q|] == q;
  }

  /** No reading so far was more than the window later than `a`. */
  predicate NotPast(times: seq<int>, a: int) {
    forall i :: 0 <= i < |times| ==> times[i] <= a + WINDOW
  }

  /** Until the clock has passed `a` by the window, the deque still holds every admitted request since `a`. */
  lemma {:induction false} QueueRemembers(times: seq<int>, limit: nat, a: int, b: int)
    requires NotPast(times, a)
    ensures Count(Queue(times, limit), a, b) == Admitted(times, limit, a, b)
  {
    hide Pruned, Count;
    if times == [] {
      CountNothing(a, b);
    } else {
      var n := |times| - 1;
      var front, now := times[..n], times[n];
      QueueRemembers(front, limit, a, b);
      PruneKeeps(Queue(front, limit), now, a, b);
      CountNext(Pruned(Queue(front, limit), now), now, a, b);
    }
  }

  lemma CountNothing(a: int, b: int)
    ensures Count([], a, b) == 0
  {
  }

  /** In lock order the readings go back by at most `skew`. */
  predicate Skewed(times: seq<int>, skew: nat) {
    forall i, j :: 0 <= i < j < |times| ==> times[i] <= times[j] + skew
  }

  /** Any closed interval that is shorter than the window by the skew holds at most `limit` admitted requests. */
  lemma {:induction false} WindowHolds(times: seq<int>, limit: nat, skew: nat, a: int)
    requires Skewed(times, skew)
    ensures Admitted(times, limit, a, a + WINDOW - skew) <= limit
  {
    hide Pruned, Count, Queue;
    if times != [] {
      var n := |times| - 1;
      var b := a + WINDOW - skew;
      WindowHolds(times[..n], limit, skew, a);
      if LastAdmitted(times, limit) && a <= times[n] <= b {
        QueueRemembers(times[..n], limit, a, b);
        var q := Queue(times[..n], limit);
        PruneKeeps(q, times[n], a, b);
        CountBound(Pruned(q, times[n]), a, b);
      }
    }
  }

  predicate Sorted(q: seq<int>) {
    forall i, j :: 0 <= i <= j < |q| ==> q[i] <= q[j]
  }

  lemma {:induction false} PrunedSorted(q: seq<int>, now: int)
    requires Sorted(q)
    ensures Sorted(Pruned(q, now))
    ensures forall i :: 0 <= i < |Pruned(q, now)| ==> now - WINDOW <= Pruned(q, now)[i]
    ensures forall t :: t in Pruned(q, now) ==> t in q
  {
    if q != [] && now - q[0] > WINDOW {
      PrunedSorted(q[1..], now);
    }
  }

  lemma {:induction false} QueueSorted(times: seq<int>, limit: nat)
    requires Sorted(times)
    ensures Sorted(Queue(times, limit))
    ensures times != [] ==> forall i :: 0 <= i < |Queue(times, limit)| ==> Queue(times, limit)[i] <= times[|times| - 1]
  {
    hide Pruned;
    if times != [] {
      var n := |times| - 1;
      QueueSorted(times[..n], limit);
      var q := Queue(times[..n], limit);
      PrunedSorted(q, times[n]);
      forall i | 0 <= i < |Pruned(q, times[n])| ensures Pruned(q, times[n])[i] <= times[n] {
        assert Pruned(q, times[n])[i] in q;
        QueueBelow(times[..n], limit, times[n]);
      }
    }
  }

  lemma QueueBelow(times: seq<int>, limit: nat, now: int)
    requires Sorted(times) && (times != [] ==> times[|times| - 1] <= now)
    requires Sorted(Queue(times, limit))
    requires times != [] ==> forall i :: 0 <= i < |Queue(times, limit)| ==> Queue(times, limit)[i] <= times[|times| - 1]
    ensures forall t :: t in Queue(times, limit) ==> t <= now
  {
    hide Pruned;
  }

  /** With a clock that never goes back a request is admitted exactly when fewer than `limit` requests were admitted
      in the last sixty seconds. */
  lemma SlidingWindowIsExact(times: seq<int>, limit: nat)
    requires times != [] && Sorted(times)
    ensures var now := times[|times| - 1];
            LastAdmitted(times, limit) <==> Admitted(times[..|times| - 1], limit, now - WINDOW, now) < limit
  {
    hide Pruned, Count, Queue, Admitted;
    var n := |times| - 1;
    var front, now := times[..n], times[n];
    var q := Queue(front, limit);
    QueueRemembers(front, limit, now - WINDOW, now);
    QueueSorted(front, limit);
    QueueBelow(front, limit, now);
    PruneKeeps(q, now, now - WINDOW, now);
    PrunedSorted(q, now);
    forall i | 0 <= i < |Pruned(q, now)| ensures now - WINDOW <= Pruned(q, now)[i] <= now {
      assert Pruned(q, now)[i] in q;
    }
    CountBound(Pruned(q, now), now - WINDOW, now);
  }

  // ---- the layer ------------------------------------------------------------------------------

  datatype Config = Config(rpm: nat, rpmHeavy: nat, expectedAuth: Option<string>)

  datatype Request = Request(path: string, auth: Option<string>, now: int)

  function LimitFor(c: Config, method_: string): nat {
    if method_ in HEAVY then c.rpmHeavy else c.rpm
  }

  /** Probes, reflection and callers without the token never touch a window. */
  predicate Exempt(c: Config, r: Request) {
    || "/grpc.health" <= r.path || "/grpc.reflection" <= r.path
    || (c.expectedAuth.Some? && r.auth != c.expectedAuth)
    || LimitFor(c, BaseName(r.path)) == 0
  }

  /** The readings of the requests that count for one method. */
  function TimesFor(c: Config, requests: seq<Request>, method_: string): seq<int> {
    if requests == [] then []
    else
      var r := requests[|requests| - 1];
      TimesFor(c, requests[..|requests| - 1], method_)
        + (if !Exempt(c, r) && BaseName(r.path) == method_ then [r.now] else [])
  }

  /** The answer to the last of these requests. */
  predicate Allowed(c: Config, requests: seq<Request>)
    requires requests != []
  {
    var r := requests[|requests| - 1];
    Exempt(c, r) || LastAdmitted(TimesFor(c, requests, BaseName(r.path)), LimitFor(c, BaseName(r.path)))
  }

  /** How many requests of one method were let through with a reading between `a` and `b`. */
  function LetThrough(c: Config, requests: seq<Request>, method_: string, a: int, b: int): nat {
    if requests == [] then 0
    else
      var r := requests[|requests| - 1];
      LetThrough(c, requests[..|requests| - 1], method_, a, b)
        + (if !Exempt(c, r) && BaseName(r.path) == method_ && Allowed(c, requests) && a <= r.now <= b then 1 else 0)
  }

  lemma AdmittedNext(times: seq<int>, now: int, limit: nat, a: int, b: int)
    ensures Admitted(times + [now], limit, a, b)
         == Admitted(times, limit, a, b) + (if LastAdmitted(times + [now], limit) && a <= now <= b then 1 else 0)
  {
    hide LastAdmitted;
    assert (times + [now])[..|times|] == times;
  }

  lemma {:induction false} LetThroughIsAdmitted(c: Config, requests: seq<Request>, method_: string, a: int, b: int)
    ensures LetThrough(c, requests, method_, a, b) == Admitted(TimesFor(c, requests, method_), LimitFor(c, method_), a, b)
  {
    hide Exempt, LimitFor, BaseName, Queue, Pruned, LastAdmitted, Admitted;
    if requests == [] {
      NothingAdmitted(LimitFor(c, method_), a, b);
    } else {
      var n := |requests| - 1;
      LetThroughIsAdmitted(c, requests[..n], method_, a, b);
      assert requests == requests[..n] + [requests[n]];
      TimesNext(c, requests[..n], requests[n], method_);
      AdmittedNext(TimesFor(c, requests[..n], method_), requests[n].now, LimitFor(c, method_), a, b);
    }
  }

  lemma NothingAdmitted(limit: nat, a: int, b: int)
    ensures Admitted([], limit, a, b) == 0
  {
  }

  // ---- who is limited, and how far ------------------------------------------------------------

  /** The methods that move packs, refs and versions. */
  predicate IsHeavy(method_: string) {
    || method_ == "ReceivePack" || method_ == "CreateBundle" || method_ == "MergeBranch" || method_ == "MergeResolved"
    || method_ == "MirrorPush" || method_ == "CreateBranch" || method_ == "DeleteBranch" || method_ == "Create"
    || method_ == "AddVersion"
  }

  /** How many requests of a method a minute may hold; zero is no limit. */
  function Budget(c: Config, method_: string): nat {
    if IsHeavy(method_) then c.rpmHeavy else c.rpm
  }

  /** Health checks and reflection. */
  predicate IsProbe(path: string) {
    "/grpc.health" <= path || "/grpc.reflection" <= path
  }

  /** Does the caller show the token, where one is asked for? */
  predicate Authorised(c: Config, r: Request) {
    c.expectedAuth.None? || (r.auth.Some? && r.auth.value == c.expectedAuth.value)
  }

  /** A request that the limit is for: no probe, by a caller with the token, of this method. */
  predicate Concerns(c: Config, r: Request, method_: string) {
    !IsProbe(r.path) && Authorised(c, r) && BaseName(r.path) == method_
  }

  /** The answer to request `i`. */
  predicate Answered(c: Config, requests: seq<Request>, i: nat)
    requires i < |requests|
  {
    Allowed(c, requests[..i + 1])
  }

  /** How many of the first `n` requests that concern a method were answered `true` with a reading in the interval. */
  function Through(c: Config, requests: seq<Request>, n: nat, method_: string, a: int, b: int): nat
    requires n <= |requests|
  {
    if n == 0 then 0
    else Through(c, requests, n - 1, method_, a, b)
         + (if Concerns(c, requests[n - 1], method_) && Answered(c, requests, n - 1) && a <= requests[n - 1].now <= b then 1 else 0)
  }

  lemma BudgetIsLimit(c: Config, method_: string)
    ensures LimitFor(c, method_) == Budget(c, method_)
  {
  }

  /** Exactly probes, callers without the token and methods without a budget are exempt. */
  lemma ExemptMeans(c: Config, r: Request)
    ensures Exempt(c, r) <==> IsProbe(r.path) || !Authorised(c, r) || Budget(c, BaseName(r.path)) == 0
  {
    hide BaseName;
    BudgetIsLimit(c, BaseName(r.path));
  }

  lemma {:induction false} ThroughIsLet(c: Config, requests: seq<Request>, n: nat, method_: string, a: int, b: int)
    requires n <= |requests| && Budget(c, method_) > 0
    ensures Through(c, requests, n, method_, a, b) == LetThrough(c, requests[..n], method_, a, b)
  {
    hide Exempt, BaseName, Allowed, Budget, IsProbe, Authorised;
    if n > 0 {
      ThroughIsLet(c, requests, n - 1, method_, a, b);
      assert requests[..n][..n - 1] == requests[..n - 1];
      ExemptMeans(c, requests[n - 1]);
    }
  }

  /** The readings of the requests that concern a method go back by at most `skew`, in the order of the lock. */
  predicate SkewedFor(c: Config, requests: seq<Request>, method_: string, skew: nat) {
    forall i, j :: 0 <= i < j < |requests| && Concerns(c, requests[i], method_) && Concerns(c, requests[j], method_) ==>
      requests[i].now <= requests[j].now + skew
  }

  lemma {:induction false} TimesCome(c: Config, requests: seq<Request>, method_: string, k: nat)
    requires k < |TimesFor(c, requests, method_)| && Budget(c, method_) > 0
    ensures exists i :: 0 <= i < |requests| && Concerns(c, requests[i], method_) && requests[i].now == TimesFor(c, requests, method_)[k]
  {
    hide Exempt, BaseName, Budget, IsProbe, Authorised;
    var n := |requests| - 1;
    var front := TimesFor(c, requests[..n], method_);
    ExemptMeans(c, requests[n]);
    if k < |front| {
      TimesCome(c, requests[..n], method_, k);
      var i :| 0 <= i < n && Concerns(c, requests[..n][i], method_) && requests[..n][i].now == front[k];
      assert Concerns(c, requests[i], method_);
    } else {
      assert Concerns(c, requests[n], method_);
    }
  }

  lemma {:induction false} TimesSkewed(c: Config, requests: seq<Request>, method_: string, skew: nat)
    requires SkewedFor(c, requests, method_, skew) && Budget(c, method_) > 0
    ensures Skewed(TimesFor(c, requests, method_), skew)
  {
    hide Exempt, BaseName, Budget, Concerns;
    if requests != [] {
      var n := |requests| - 1;
      var front := TimesFor(c, requests[..n], method_);
      SkewedFront(c, requests, method_, skew);
      TimesSkewed(c, requests[..n], method_, skew);
      LastConcerns(c, requests[n], method_);
      forall k | 0 <= k < |front| && Concerns(c, requests[n], method_) ensures front[k] <= requests[n].now + skew {
        TimesCome(c, requests[..n], method_, k);
        var i :| 0 <= i < n && Concerns(c, requests[..n][i], method_) && requests[..n][i].now == front[k];
        assert requests[..n][i] == requests[i];
      }
    }
  }

  lemma LastConcerns(c: Config, r: Request, method_: string)
    requires Budget(c, method_) > 0
    ensures !Exempt(c, r) && BaseName(r.path) == method_ <==> Concerns(c, r, method_)
  {
    hide Exempt, BaseName, Budget, IsProbe, Authorised;
    ExemptMeans(c, r);
  }

  lemma SkewedFront(c: Config, requests: seq<Request>, method_: string, skew: nat)
    requires requests != [] && SkewedFor(c, requests, method_, skew)
    ensures SkewedFor(c, requests[..|requests| - 1], method_, skew)
  {
    hide Concerns;
    var n := |requests| - 1;
    forall i | 0 <= i < n ensures requests[..n][i] == requests[i] {}
  }

  /** The rate window of the service: whatever requests come, for whatever methods and with whatever tokens. If the clock
      readings of the requests that concern one method go back by at most `skew` in lock order, then of those requests
      any closed interval of sixty seconds less the skew holds at most the budget that were answered `true`. */
  lemma RateWindow(c: Config, requests: seq<Request>, method_: string, skew: nat, a: int)
    requires SkewedFor(c, requests, method_, skew) && Budget(c, method_) > 0
    ensures Through(c, requests, |requests|, method_, a, a + 60_000_000_000 - skew) <= Budget(c, method_)
  {
    hide TimesFor, LimitFor, Admitted, LetThrough, Skewed, SkewedFor, Budget;
    assert requests[..|requests|] == requests;
    BudgetIsLimit(c, method_);
    TimesSkewed(c, requests, method_, skew);
    ThroughIsLet(c, requests, |requests|, method_, a, a + WINDOW - skew);
    LetThroughIsAdmitted(c, requests, method_, a, a + WINDOW - skew);
    WindowHolds(TimesFor(c, requests, method_), LimitFor(c, method_), skew, a);
  }

  /** With a clock that never goes back, a request that a limit is for is answered `true` exactly when fewer than the
      budget of its method were answered `true` in the last sixty seconds; any other is answered `true`. */
  lemma AnswerIsExact(c: Config, requests: seq<Request>, i: nat)
    requires i < |requests|
    ensures var r := requests[i];
            var method_ := BaseName(r.path);
            if !Concerns(c, r, method_) || Budget(c, method_) == 0 then Answered(c, requests, i)
            else SkewedFor(c, requests[..i + 1], method_, 0) ==>
              (Answered(c, requests, i) <==>
                Through(c, requests, i, method_, r.now - 60_000_000_000, r.now) < Budget(c, method_))
  {
    hide Exempt, TimesFor, LimitFor, Admitted, LetThrough, SkewedFor, Budget, BaseName, LastAdmitted, IsProbe, Authorised;
    var r := requests[i];
    var method_ := BaseName(r.path);
    var upTo := requests[..i + 1];
    assert upTo[..i] == requests[..i] && upTo[i] == r;
    ExemptMeans(c, r);
    BudgetIsLimit(c, method_);
    if Concerns(c, r, method_) && Budget(c, method_) > 0 && SkewedFor(c, upTo, method_, 0) {
      TimesSkewed(c, upTo, method_, 0);
      assert upTo == requests[..i] + [r];
      TimesNext(c, requests[..i], r, method_);
      var times := TimesFor(c, upTo, method_);
      assert times[..|times| - 1] == TimesFor(c, requests[..i], method_);
      SlidingWindowIsExact(times, LimitFor(c, method_));
      ThroughIsLet(c, requests, i, method_, r.now - WINDOW, r.now);
      LetThroughIsAdmitted(c, requests[..i], method_, r.now - WINDOW, r.now);
    }
  }

  function WindowOf(windows: map<string, seq<int>>, method_: string): seq<int> {
    if method_ in windows then windows[method_] else []
  }

  class Limiter {
    const config: Config
    var windows: map<string, seq<int>>
    ghost var served: seq<Request>

    /** Each window is what the requests served so far make of it. */
    ghost predicate Valid()
      reads this
    {
      forall m :: WindowOf(windows, m) == Queue(TimesFor(config, served, m), LimitFor(config, m))
    }

    constructor (config: Config)
      ensures Valid() && this.config == config && served == []
    {
      this.config := config;
      windows, served := map[], [];
    }

    /** Lets a request through or not. */
    method Allow(r: Request) returns (ok: bool)
      requires Valid()
      modifies this
      ensures Valid() && served == old(served) + [r]
      ensures ok == Allowed(config, served)
      ensures IsProbe(r.path) || !Authorised(config, r) || Budget(config, BaseName(r.path)) == 0 ==> ok && windows == old(windows)
      ensures forall m :: m != BaseName(r.path) ==> WindowOf(windows, m) == WindowOf(old(windows), m)
    {
      hide Exempt, LimitFor, BaseName, Queue, TimesFor, Pruned, WindowOf, LastAdmitted, Budget, IsProbe, Authorised;
      ghost var before := windows;
      ExemptMeans(config, r);
      ServedNext(config, served, r);
      if Exempt(config, r) {
        served := served + [r];
        return true;
      }
      var name := BaseName(r.path);
      var limit := LimitFor(config, name);
      var q := WindowOf(windows, name);
      ghost var start := q;
      while q != [] && r.now - q[0] > WINDOW
        invariant Pruned(q, r.now) == Pruned(start, r.now)
        modifies {}
        decreases |q|
      {
        PruneFirst(q, r.now);
        q := q[1..];
      }
      PruneDone(q, r.now);
      QueueNext(TimesFor(config, served, name), r.now, limit);
      ok := |q| < limit;
      if ok {
        q := q + [r.now];
      }
      WindowSet(before, name, q);
      windows := windows[name := q];
      served := served + [r];
    }
  }

  /** One more request adds its reading to its own method, unless it is exempt. */
  lemma ServedNext(c: Config, before: seq<Request>, r: Request)
    ensures forall m: string :: TimesFor(c, before + [r], m)
              == if !Exempt(c, r) && BaseName(r.path) == m then TimesFor(c, before, m) + [r.now] else TimesFor(c, before, m)
  {
    hide Exempt, BaseName, TimesFor;
    forall m: string
      ensures TimesFor(c, before + [r], m)
           == if !Exempt(c, r) && BaseName(r.path) == m then TimesFor(c, before, m) + [r.now] else TimesFor(c, before, m)
    {
      TimesNext(c, before, r, m);
    }
  }

  lemma WindowSet(windows: map<string, seq<int>>, name: string, q: seq<int>)
    ensures forall m: string :: WindowOf(windows[name := q], m) == if m == name then q else WindowOf(windows, m)
  {
    var updated := windows[name := q];
    forall m: string ensures WindowOf(updated, m) == if m == name then q else WindowOf(windows, m) {
      assert m in updated <==> m == name || m in windows;
    }
  }

  lemma TimesNext(c: Config, before: seq<Request>, r: Request, m: string)
    ensures TimesFor(c, before + [r], m)
         == if !Exempt(c, r) && BaseName(r.path) == m then TimesFor(c, before, m) + [r.now] else TimesFor(c, before, m)
  {
    hide Exempt, BaseName;
    assert (before + [r])[..|before|] == before;
  }

  lemma PruneFirst(q: seq<int>, now: int)
    requires q != [] && now - q[0] > WINDOW
    ensures Pruned(q, now) == Pruned(q[1..], now)
  {
  }

  lemma PruneDone(q: seq<int>, now: int)
    requires q == [] || now - q[0] <= WINDOW
    ensures Pruned(q, now) == q
  {
  }

  lemma QueueNext(times: seq<int>, now: int, limit: nat)
    ensures var q := Pruned(Queue(times, limit), now);
            && Queue(times + [now], limit) == (if |q| < limit then q + [now] else q)
            && LastAdmitted(times + [now], limit) == (|q| < limit)
  {
    hide Pruned;
    assert (times + [now])[..|times|] == times;
  }
}

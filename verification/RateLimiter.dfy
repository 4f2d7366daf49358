// Token buckets per key with idle eviction: internal/middleware/middleware.go.
// Times are exact reals in seconds, and a bucket follows the token-bucket rule
// that golang.org/x/time/rate documents.
module RateLimiting {
  // Tokens left when the bucket was last drawn from.
  datatype Bucket = Bucket(tokens: real, last: real)

  // rate is in tokens per second; a rate of zero or less never refills.
  datatype Limits = Limits(rate: real, burst: int)

  type Buckets = map<string, Bucket>

  function Refill(l: Limits, elapsed: real): real {
    if l.rate <= 0.0 || elapsed <= 0.0 then 0.0 else l.rate * elapsed
  }

  function Capped(l: Limits, tokens: real): real {
    if tokens > l.burst as real then l.burst as real else tokens
  }

  // Tokens of a bucket at time t, refilled up to the burst.
  function TokensAt(l: Limits, bucket: Bucket, t: real): real {
    Capped(l, bucket.tokens + Refill(l, t - bucket.last))
  }

  // A new bucket is full, whatever the time.
  function NewBucket(l: Limits): Bucket {
    Bucket(l.burst as real, 0.0)
  }

  // A key without a bucket stands for a full one.
  function Available(l: Limits, buckets: Buckets, key: string, t: real): real {
    TokensAt(l, if key in buckets then buckets[key] else NewBucket(l), t)
  }

  function Admits(l: Limits, buckets: Buckets, key: string, t: real): bool {
    1 <= l.burst && Available(l, buckets, key, t) >= 1.0
  }

  // One call: an admitted one draws a token, a refused one leaves the bucket as it was.
  function AfterCall(l: Limits, buckets: Buckets, key: string, t: real): Buckets {
    var bucket := if key in buckets then buckets[key] else NewBucket(l);
    buckets[key := if Admits(l, buckets, key, t) then Bucket(TokensAt(l, bucket, t) - 1.0, t) else bucket]
  }

  // The keys whose buckets are full leave, among those visited.
  function AfterSweep(l: Limits, buckets: Buckets, visited: set<string>, t: real): Buckets {
    map k | k in buckets && !(k in visited && TokensAt(l, buckets[k], t) >= l.burst as real) :: buckets[k]
  }

  class RateLimiter {
    const limits: Limits
    var limiters: Buckets

    constructor (limits: Limits)
      ensures this.limits == limits && limiters == map[]
    {
      this.limits, limiters := limits, map[];
    }

    method Allow(key: string, now: real) returns (ok: bool)
      modifies this
      ensures ok == Admits(limits, old(limiters), key, now)
      ensures limiters == AfterCall(limits, old(limiters), key, now)
    {
      if key !in limiters {
        limiters := limiters[key := NewBucket(limits)];
      }
      var tokens := TokensAt(limits, limiters[key], now) - 1.0;
      ok := 1 <= limits.burst && tokens >= 0.0;
      if ok {
        limiters := limiters[key := Bucket(tokens, now)];
      }
    }

    method Sweep(now: real)
      modifies this
      ensures limiters == AfterSweep(limits, old(limiters), old(limiters).Keys, now)
    {
      ghost var before := limiters;
      var todo := limiters.Keys;
      while todo != {}
        invariant todo <= before.Keys
        invariant limiters == AfterSweep(limits, before, before.Keys - todo, now)
        decreases todo
      {
        var k :| k in todo;
        if TokensAt(limits, limiters[k], now) >= limits.burst as real {
          limiters := limiters - {k};
        }
        todo := todo - {k};
      }
    }

    // The least whole number of seconds in which a token refills.
    method RetryAfterSeconds() returns (n: int)
      ensures limits.rate <= 0.0 ==> n == 0
      ensures limits.rate > 0.0 ==> n == RefillSeconds(limits.rate)
    {
      if limits.rate <= 0.0 {
        return 0;
      }
      return RefillSeconds(limits.rate);
    }
  }

  // Ceiling of 1 / rate.
  function RefillSeconds(rate: real): (n: int)
    requires rate > 0.0
    ensures (n - 1) as real < 1.0 / rate <= n as real
  {
    -(-(1.0 / rate)).Floor
  }

  // ---- Refilling ----

  lemma RefillAdds(l: Limits, x: real, y: real)
    requires x >= 0.0 && y >= 0.0
    ensures Refill(l, x + y) == Refill(l, x) + Refill(l, y) && Refill(l, x) >= 0.0
  {
    if l.rate > 0.0 {
      assert l.rate * (x + y) == l.rate * x + l.rate * y;
    }
  }

  // What a key has later follows from what it has now.
  lemma AvailableLater(l: Limits, buckets: Buckets, key: string, t: real, u: real)
    requires t <= u && (key in buckets ==> buckets[key].last <= t)
    ensures Available(l, buckets, key, u) == Capped(l, Available(l, buckets, key, t) + Refill(l, u - t))
  {
    var bucket := if key in buckets then buckets[key] else NewBucket(l);
    RefillAdds(l, if t > bucket.last then t - bucket.last else 0.0, u - t);
    if key in buckets {
      assert u - bucket.last == (t - bucket.last) + (u - t);
    } else {
      FullStaysFull(l, u);
      FullStaysFull(l, t);
    }
  }

  lemma FullStaysFull(l: Limits, t: real)
    ensures TokensAt(l, NewBucket(l), t) == l.burst as real
  {
    assert Refill(l, t) >= 0.0 by {
      if t > 0.0 {
        RefillAdds(l, t, 0.0);
      }
    }
  }

  // ---- Eviction is invisible ----

  datatype Op = Call(key: string, at: real) | Evict(visited: set<string>, at: real)

  // The clock never runs backwards.
  ghost predicate Ordered(ops: seq<Op>, now: real)
    decreases |ops|
  {
    ops == [] || (now <= ops[0].at && Ordered(ops[1..], ops[0].at))
  }

  function AfterOp(l: Limits, buckets: Buckets, op: Op, evicting: bool): Buckets {
    match op
    case Call(key, at) => AfterCall(l, buckets, key, at)
    case Evict(visited, at) => if evicting then AfterSweep(l, buckets, visited, at) else buckets
  }

  // The answers to the calls among ops, with eviction or without.
  function Answers(l: Limits, buckets: Buckets, ops: seq<Op>, evicting: bool): seq<bool>
    decreases |ops|
  {
    if ops == [] then []
    else
      (if ops[0].Call? then [Admits(l, buckets, ops[0].key, ops[0].at)] else [])
      + Answers(l, AfterOp(l, buckets, ops[0], evicting), ops[1..], evicting)
  }

  // No bucket was drawn from in the future.
  ghost predicate Past(buckets: Buckets, now: real) {
    forall k | k in buckets :: buckets[k].last <= now
  }

  // No caller can tell the two apart at time t.
  ghost predicate Alike(l: Limits, a: Buckets, b: Buckets, t: real) {
    forall k :: Available(l, a, k, t) == Available(l, b, k, t)
  }

  lemma AlikeLater(l: Limits, a: Buckets, b: Buckets, t: real, u: real)
    requires t <= u && Past(a, t) && Past(b, t) && Alike(l, a, b, t)
    ensures Alike(l, a, b, u)
  {
    forall k
      ensures Available(l, a, k, u) == Available(l, b, k, u)
    {
      AvailableLater(l, a, k, t, u);
      AvailableLater(l, b, k, t, u);
    }
  }

  // A call draws exactly one token from its own key when it is admitted.
  lemma AfterCallAvailable(l: Limits, buckets: Buckets, key: string, t: real)
    requires Past(buckets, t) && 0.0 <= t
    ensures Past(AfterCall(l, buckets, key, t), t)
    ensures forall k :: Available(l, AfterCall(l, buckets, key, t), k, t)
                        == Available(l, buckets, k, t) - if k == key && Admits(l, buckets, key, t) then 1.0 else 0.0
  {
  }

  // Evicting full buckets changes what no key has available.
  lemma AfterSweepAvailable(l: Limits, buckets: Buckets, visited: set<string>, t: real)
    requires Past(buckets, t)
    ensures Past(AfterSweep(l, buckets, visited, t), t)
    ensures Alike(l, AfterSweep(l, buckets, visited, t), buckets, t)
  {
    FullStaysFull(l, t);
  }

  lemma AfterOpAvailable(l: Limits, buckets: Buckets, op: Op, evicting: bool)
    requires Past(buckets, op.at) && 0.0 <= op.at
    ensures Past(AfterOp(l, buckets, op, evicting), op.at)
    ensures forall k :: Available(l, AfterOp(l, buckets, op, evicting), k, op.at)
                        == Available(l, buckets, k, op.at)
                           - if op == Call(k, op.at) && Admits(l, buckets, k, op.at) then 1.0 else 0.0
  {
    match op {
      case Call(key, at) => AfterCallAvailable(l, buckets, key, at);
      case Evict(visited, at) => AfterSweepAvailable(l, buckets, visited, at);
    }
  }

  lemma AlikeStep(l: Limits, a: Buckets, b: Buckets, op: Op, now: real)
    requires 0.0 <= now <= op.at && Past(a, now) && Past(b, now) && Alike(l, a, b, now)
    ensures op.Call? ==> Admits(l, a, op.key, op.at) == Admits(l, b, op.key, op.at)
    ensures Alike(l, AfterOp(l, a, op, true), AfterOp(l, b, op, false), op.at)
    ensures Past(AfterOp(l, a, op, true), op.at) && Past(AfterOp(l, b, op, false), op.at)
  {
    AlikeLater(l, a, b, now, op.at);
    AfterOpAvailable(l, a, op, true);
    AfterOpAvailable(l, b, op, false);
  }

  lemma {:induction false} AlikeAnswers(l: Limits, a: Buckets, b: Buckets, ops: seq<Op>, now: real)
    requires 0.0 <= now && Ordered(ops, now) && Past(a, now) && Past(b, now) && Alike(l, a, b, now)
    ensures Answers(l, a, ops, true) == Answers(l, b, ops, false)
    decreases |ops|
  {
    if ops != [] {
      AlikeStep(l, a, b, ops[0], now);
      AlikeAnswers(l, AfterOp(l, a, ops[0], true), AfterOp(l, b, ops[0], false), ops[1..], ops[0].at);
    }
  }

  // Whatever is swept and whenever, every call is answered as by a limiter
  // that never evicts.
  lemma EvictionIsInvisible(l: Limits, ops: seq<Op>)
    requires Ordered(ops, 0.0)
    ensures Answers(l, map[], ops, true) == Answers(l, map[], ops, false)
  {
    AlikeAnswers(l, map[], map[], ops, 0.0);
  }

  // ---- At most burst + rate * T calls in a window of length T ----

  // Calls for key admitted from time from to time till.
  function Admitted(l: Limits, buckets: Buckets, ops: seq<Op>, evicting: bool, key: string, from: real, till: real): nat
    decreases |ops|
  {
    if ops == [] then 0
    else
      var op := ops[0];
      (if op == Call(key, op.at) && from <= op.at <= till && Admits(l, buckets, key, op.at) then 1 else 0)
      + Admitted(l, AfterOp(l, buckets, op, evicting), ops[1..], evicting, key, from, till)
  }

  // Bound on what is still admitted in a window, once it is time now.
  function Budget(l: Limits, buckets: Buckets, key: string, from: real, till: real, now: real): real {
    var s := if now < from then from else now;
    if till < s then 0.0 else Available(l, buckets, key, s) + Refill(l, till - s)
  }

  // No bucket is overdrawn.
  ghost predicate Solvent(buckets: Buckets) {
    forall k | k in buckets :: buckets[k].tokens >= 0.0
  }

  lemma AvailableBounds(l: Limits, buckets: Buckets, key: string, t: real)
    requires 0 <= l.burst && Solvent(buckets)
    ensures 0.0 <= Available(l, buckets, key, t) <= l.burst as real
  {
    var bucket := if key in buckets then buckets[key] else NewBucket(l);
    if t > bucket.last {
      RefillAdds(l, t - bucket.last, 0.0);
    }
  }

  lemma BudgetShrinks(l: Limits, buckets: Buckets, key: string, from: real, till: real, now: real, at: real)
    requires 0 <= l.burst && Past(buckets, now) && Solvent(buckets) && now <= at
    ensures 0.0 <= Budget(l, buckets, key, from, till, at) <= Budget(l, buckets, key, from, till, now)
  {
    var s, u := if now < from then from else now, if at < from then from else at;
    AvailableBounds(l, buckets, key, s);
    AvailableBounds(l, buckets, key, u);
    AvailableLater(l, buckets, key, now, s);
    if u <= till {
      AvailableLater(l, buckets, key, s, u);
      RefillAdds(l, u - s, till - u);
      assert till - s == (u - s) + (till - u);
    } else if s <= till {
      RefillAdds(l, till - s, 0.0);
    }
  }

  // An operation pays for what it admits out of the budget.
  lemma BudgetPays(l: Limits, buckets: Buckets, op: Op, evicting: bool, key: string, from: real, till: real)
    requires 0 <= l.burst && Past(buckets, op.at) && Solvent(buckets) && 0.0 <= op.at
    ensures Solvent(AfterOp(l, buckets, op, evicting))
    ensures (if op == Call(key, op.at) && from <= op.at <= till && Admits(l, buckets, key, op.at) then 1.0 else 0.0)
            + Budget(l, AfterOp(l, buckets, op, evicting), key, from, till, op.at)
            <= Budget(l, buckets, key, from, till, op.at)
  {
    AfterOpAvailable(l, buckets, op, evicting);
    if op.at < from {
      AvailableLater(l, buckets, key, op.at, from);
      AvailableLater(l, AfterOp(l, buckets, op, evicting), key, op.at, from);
    }
  }

  lemma {:induction false} AdmittedWithinBudget(l: Limits, buckets: Buckets, ops: seq<Op>, evicting: bool,
                                                key: string, from: real, till: real, now: real)
    requires 0 <= l.burst && 0.0 <= now && Ordered(ops, now) && Past(buckets, now) && Solvent(buckets)
    ensures Admitted(l, buckets, ops, evicting, key, from, till) as real <= Budget(l, buckets, key, from, till, now)
    decreases |ops|
  {
    if ops == [] {
      BudgetShrinks(l, buckets, key, from, till, now, now);
    } else {
      BudgetShrinks(l, buckets, key, from, till, now, ops[0].at);
      BudgetPays(l, buckets, ops[0], evicting, key, from, till);
      AfterOpAvailable(l, buckets, ops[0], evicting);
      AdmittedWithinBudget(l, AfterOp(l, buckets, ops[0], evicting), ops[1..], evicting, key, from, till, ops[0].at);
    }
  }

  lemma {:induction false} NoBurstAdmitsNothing(l: Limits, buckets: Buckets, ops: seq<Op>, evicting: bool,
                                                key: string, from: real, till: real)
    requires l.burst < 1
    ensures Admitted(l, buckets, ops, evicting, key, from, till) == 0
    decreases |ops|
  {
    if ops != [] {
      NoBurstAdmitsNothing(l, AfterOp(l, buckets, ops[0], evicting), ops[1..], evicting, key, from, till);
    }
  }

  // Over every run and every window, a key is admitted at most burst + rate * T times.
  lemma WindowBound(l: Limits, ops: seq<Op>, evicting: bool, key: string, from: real, till: real)
    requires Ordered(ops, 0.0) && from <= till
    ensures Admitted(l, map[], ops, evicting, key, from, till) as real
            <= (if l.burst > 0 then l.burst as real else 0.0) + Refill(l, till - from)
  {
    if l.burst < 1 {
      NoBurstAdmitsNothing(l, map[], ops, evicting, key, from, till);
      if from < till {
        RefillAdds(l, till - from, 0.0);
      }
    } else {
      AdmittedWithinBudget(l, map[], ops, evicting, key, from, till, 0.0);
      var s := if 0.0 < from then from else 0.0;
      AvailableBounds(l, map[], key, s);
      RefillAdds(l, till - from, 0.0);
      if from <= s <= till {
        RefillAdds(l, s - from, till - s);
        assert till - from == (s - from) + (till - s);
      }
    }
  }

  // ---- Waiting RetryAfterSeconds is enough, and no whole second less is ----

  ghost predicate LeavesAlone(ops: seq<Op>, key: string) {
    forall i | 0 <= i < |ops| :: ops[i].Call? ==> ops[i].key != key
  }

  function AfterOps(l: Limits, buckets: Buckets, ops: seq<Op>, evicting: bool): Buckets
    decreases |ops|
  {
    if ops == [] then buckets else AfterOps(l, AfterOp(l, buckets, ops[0], evicting), ops[1..], evicting)
  }

  lemma JoinRefills(l: Limits, have: real, now: real, at: real, t: real)
    requires now <= at <= t
    ensures Capped(l, Capped(l, have + Refill(l, at - now)) + Refill(l, t - at)) == Capped(l, have + Refill(l, t - now))
  {
    RefillAdds(l, at - now, t - at);
    assert t - now == (at - now) + (t - at);
    CappedTwice(l, have, Refill(l, at - now), Refill(l, t - at));
  }

  lemma OtherOpKeeps(l: Limits, buckets: Buckets, op: Op, evicting: bool, key: string)
    requires Past(buckets, op.at) && 0.0 <= op.at && (op.Call? ==> op.key != key)
    ensures Past(AfterOp(l, buckets, op, evicting), op.at)
    ensures Available(l, AfterOp(l, buckets, op, evicting), key, op.at) == Available(l, buckets, key, op.at)
  {
    AfterOpAvailable(l, buckets, op, evicting);
    assert op != Call(key, op.at);
  }

  // A key nobody calls has at a later time what its refill gives it.
  lemma {:induction false} UndisturbedRefills(l: Limits, buckets: Buckets, ops: seq<Op>, evicting: bool, key: string,
                                              now: real, t: real)
    requires 0.0 <= now <= t && Past(buckets, now) && LeavesAlone(ops, key)
    requires Ordered(ops + [Call(key, t)], now)
    ensures Available(l, AfterOps(l, buckets, ops, evicting), key, t)
            == Capped(l, Available(l, buckets, key, now) + Refill(l, t - now))
    decreases |ops|
  {
    if ops == [] {
      AvailableLater(l, buckets, key, now, t);
    } else {
      var at := ops[0].at;
      assert (ops + [Call(key, t)])[1..] == ops[1..] + [Call(key, t)];
      OrderedBelow(ops[1..], key, at, t);
      AvailableLater(l, buckets, key, now, at);
      OtherOpKeeps(l, buckets, ops[0], evicting, key);
      UndisturbedRefills(l, AfterOp(l, buckets, ops[0], evicting), ops[1..], evicting, key, at, t);
      JoinRefills(l, Available(l, buckets, key, now), now, at, t);
    }
  }

  lemma CappedTwice(l: Limits, have: real, first: real, more: real)
    requires first >= 0.0 && more >= 0.0
    ensures Capped(l, Capped(l, have + first) + more) == Capped(l, have + (first + more))
  {
  }

  lemma {:induction false} OrderedBelow(ops: seq<Op>, key: string, now: real, t: real)
    requires Ordered(ops + [Call(key, t)], now)
    ensures now <= t
    decreases |ops|
  {
    if ops != [] {
      assert (ops + [Call(key, t)])[1..] == ops[1..] + [Call(key, t)];
      OrderedBelow(ops[1..], key, ops[0].at, t);
    }
  }

  lemma Distributes(rate: real, x: real, y: real)
    ensures rate * (x + y) == rate * x + rate * y
  {
  }

  lemma Positive(rate: real, x: real)
    requires rate > 0.0
    ensures x >= 0.0 ==> rate * x >= 0.0
    ensures x > 0.0 ==> rate * x > 0.0
  {
  }

  // A whole token refills exactly when 1 / rate seconds have passed.
  lemma RefillReaches(l: Limits, wait: real)
    requires l.rate > 0.0 && wait >= 0.0
    ensures Refill(l, wait) >= 1.0 <==> wait >= 1.0 / l.rate
  {
    var token := 1.0 / l.rate;
    assert l.rate * token == 1.0;
    if wait >= token {
      Distributes(l.rate, token, wait - token);
      Positive(l.rate, wait - token);
    } else {
      Distributes(l.rate, wait, token - wait);
      Positive(l.rate, token - wait);
    }
  }

  lemma AdmitsFrom(l: Limits, buckets: Buckets, key: string, t: real, have: real, refill: real)
    requires Available(l, buckets, key, t) == Capped(l, have + refill)
    ensures 1 <= l.burst && have + refill >= 1.0 ==> Admits(l, buckets, key, t)
    ensures have + refill < 1.0 ==> !Admits(l, buckets, key, t)
  {
  }

  // A key with some tokens and no calls is admitted once enough refill is there.
  lemma AdmittedLater(l: Limits, buckets: Buckets, ops: seq<Op>, evicting: bool, key: string, now: real, t: real)
    requires l.rate > 0.0 && 1 <= l.burst && 0.0 <= now && Past(buckets, now)
    requires LeavesAlone(ops, key) && Ordered(ops + [Call(key, t)], now) && now <= t
    ensures Available(l, buckets, key, now) >= 0.0 && t - now >= 1.0 / l.rate ==>
              Admits(l, AfterOps(l, buckets, ops, evicting), key, t)
    ensures Available(l, buckets, key, now) == 0.0 && t - now < 1.0 / l.rate ==>
              !Admits(l, AfterOps(l, buckets, ops, evicting), key, t)
  {
    var have, refill := Available(l, buckets, key, now), Refill(l, t - now);
    UndisturbedRefills(l, buckets, ops, evicting, key, now, t);
    RefillReaches(l, t - now);
    AdmitsFrom(l, AfterOps(l, buckets, ops, evicting), key, t, have, refill);
  }

  lemma {:induction false} Reached(l: Limits, buckets: Buckets, ops: seq<Op>, evicting: bool, key: string, now: real,
                                   t: real)
    requires 0 <= l.burst && 0.0 <= now && Past(buckets, now) && Solvent(buckets)
    requires Ordered(ops + [Call(key, t)], now)
    ensures Past(AfterOps(l, buckets, ops, evicting), t) && Solvent(AfterOps(l, buckets, ops, evicting))
    decreases |ops|
  {
    OrderedBelow(ops, key, now, t);
    if ops != [] {
      assert (ops + [Call(key, t)])[1..] == ops[1..] + [Call(key, t)];
      AfterOpAvailable(l, buckets, ops[0], evicting);
      BudgetPays(l, buckets, ops[0], evicting, key, 0.0, 0.0);
      Reached(l, AfterOp(l, buckets, ops[0], evicting), ops[1..], evicting, key, ops[0].at, t);
    }
  }

  // At the end of any run, a refused key that waits RetryAfterSeconds, with no
  // other call on it meanwhile, is admitted next.
  lemma RetryAfterIsEnough(l: Limits, run: seq<Op>, ops: seq<Op>, evicting: bool, key: string, now: real, t: real)
    requires l.rate > 0.0 && 1 <= l.burst && 0.0 <= now
    requires Ordered(run + [Call(key, now)], 0.0) && !Admits(l, AfterOps(l, map[], run, evicting), key, now)
    requires LeavesAlone(ops, key) && Ordered(ops + [Call(key, t)], now)
    requires t >= now + RefillSeconds(l.rate) as real
    ensures var refused := AfterCall(l, AfterOps(l, map[], run, evicting), key, now);
            Admits(l, AfterOps(l, refused, ops, evicting), key, t)
  {
    var buckets := AfterOps(l, map[], run, evicting);
    Reached(l, map[], run, evicting, key, 0.0, now);
    AfterCallAvailable(l, buckets, key, now);
    AvailableBounds(l, buckets, key, now);
    OrderedBelow(ops, key, now, t);
    AdmittedLater(l, AfterCall(l, buckets, key, now), ops, evicting, key, now, t);
  }

  // A key that has spent its last token is still refused any whole number of
  // seconds earlier.
  lemma RetryAfterIsLeast(l: Limits, buckets: Buckets, ops: seq<Op>, evicting: bool, key: string, now: real, t: real)
    requires l.rate > 0.0 && 1 <= l.burst && 0.0 <= now && Past(buckets, now) && Available(l, buckets, key, now) == 0.0
    requires LeavesAlone(ops, key) && Ordered(ops + [Call(key, t)], now)
    requires t <= now + (RefillSeconds(l.rate) - 1) as real
    ensures !Admits(l, AfterOps(l, buckets, ops, evicting), key, t)
  {
    OrderedBelow(ops, key, now, t);
    AdmittedLater(l, buckets, ops, evicting, key, now, t);
  }

  // ---- What a sweep leaves, and how many calls a burst is ----

  // A sweep removes the full buckets it visits, all of them, and nothing else.
  lemma SweepLeaves(l: Limits, buckets: Buckets, visited: set<string>, t: real, key: string)
    ensures var left := AfterSweep(l, buckets, visited, t);
            && (key in left <==> key in buckets && !(key in visited && TokensAt(l, buckets[key], t) >= l.burst as real))
            && (key in left ==> left[key] == buckets[key])
  {
  }

  // n calls for one key at one time.
  function Burst(key: string, t: real, n: nat): seq<Op> {
    if n == 0 then [] else Burst(key, t, n - 1) + [Call(key, t)]
  }

  lemma AfterOpsSnoc(l: Limits, buckets: Buckets, ops: seq<Op>, op: Op, evicting: bool)
    ensures AfterOps(l, buckets, ops + [op], evicting) == AfterOp(l, AfterOps(l, buckets, ops, evicting), op, evicting)
    decreases |ops|
  {
    if ops == [] {
      assert ops + [op] == [op];
      assert [op][1..] == [];
    } else {
      assert (ops + [op])[1..] == ops[1..] + [op];
      AfterOpsSnoc(l, AfterOp(l, buckets, ops[0], evicting), ops[1..], op, evicting);
    }
  }

  // A key nobody has called before is admitted burst times at once, and no
  // more than that.
  lemma {:induction false} FreshKeyGetsItsBurst(l: Limits, key: string, t: real, n: nat)
    requires 0.0 <= t && 0 <= l.burst
    ensures var after := AfterOps(l, map[], Burst(key, t, n), false);
            && Past(after, t)
            && Available(l, after, key, t) == (if n < l.burst then l.burst - n else 0) as real
            && (Admits(l, after, key, t) <==> n < l.burst)
  {
    if n == 0 {
      FullStaysFull(l, t);
    } else {
      var before := AfterOps(l, map[], Burst(key, t, n - 1), false);
      FreshKeyGetsItsBurst(l, key, t, n - 1);
      AfterOpsSnoc(l, map[], Burst(key, t, n - 1), Call(key, t), false);
      AfterCallAvailable(l, before, key, t);
    }
  }
}

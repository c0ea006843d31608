/** The per-IP token bucket and its sweep (agent/internal/edge/waf.go). Float64 arithmetic is
    modelled over reals; times are Unix nanoseconds. */
module Limiter {

  type Key = nat      // client addresses are only compared for equality

  datatype Bucket = Bucket(tokens: real, last: int)

  type Buckets = map<Key, Bucket>

  const MAX_BUCKETS := 16384
  const SECOND: real := 1_000_000_000.0

  /** Tokens gained between two times. */
  function Refill(rate: real, from: int, to: int): real {
    (to - from) as real / SECOND * rate
  }

  function Min(a: real, b: real): real {
    if a < b then a else b
  }

  /** One request against one bucket: the decision and the bucket afterwards. */
  function Spend(rate: real, burst: real, b: Bucket, now: int): (bool, Bucket) {
    var tokens := Min(b.tokens + Refill(rate, b.last, now), burst);
    if tokens < 1.0 then (false, Bucket(tokens, now)) else (true, Bucket(tokens - 1.0, now))
  }

  /** A bucket that has fully refilled by `now`. */
  predicate Full(rate: real, burst: real, b: Bucket, now: int) {
    Refill(rate, b.last, now) + b.tokens >= burst
  }

  /** What a sweep leaves. */
  function Swept(rate: real, burst: real, bs: Buckets, now: int): Buckets {
    map k | k in bs && !Full(rate, burst, bs[k], now) :: bs[k]
  }

  function BucketFor(burst: real, bs: Buckets, key: Key, now: int): Bucket {
    if key in bs then bs[key] else Bucket(burst, now)
  }

  /** One request, with a sweep when a new key meets a full map. */
  function Allowed(rate: real, burst: real, bs: Buckets, key: Key, now: int): (bool, Buckets) {
    var (ok, b) := Spend(rate, burst, BucketFor(burst, bs, key, now), now);
    var kept := if key !in bs && |bs| >= MAX_BUCKETS then Swept(rate, burst, bs, now) else bs;
    (ok, kept[key := b])
  }

  /** One request against a limiter that never evicts. */
  function AllowedIdeal(rate: real, burst: real, bs: Buckets, key: Key, now: int): (bool, Buckets) {
    var (ok, b) := Spend(rate, burst, BucketFor(burst, bs, key, now), now);
    (ok, bs[key := b])
  }

  class RateLimiter {
    const rate: real
    const burst: real
    var buckets: Buckets

    constructor (rate: real, burst: real)
      ensures this.rate == rate && this.burst == burst && buckets == map[]
    {
      this.rate, this.burst := rate, burst;
      buckets := map[];
    }

    method Allow(key: Key, now: int) returns (ok: bool)
      modifies this
      ensures ok == Allowed(rate, burst, old(buckets), key, now).0
      ensures buckets == Allowed(rate, burst, old(buckets), key, now).1
    {
      ghost var kept := if key !in buckets && |buckets| >= MAX_BUCKETS then Swept(rate, burst, buckets, now) else buckets;
      if key !in buckets {
        if |buckets| >= MAX_BUCKETS {
          Sweep(now);
        }
        buckets := buckets[key := Bucket(burst, now)];
      }
      var b := buckets[key];
      var refill := (now - b.last) as real / SECOND * rate;
      var tokens := b.tokens + refill;
      if tokens > burst { tokens := burst; }
      assert refill == Refill(rate, b.last, now);
      assert tokens == Min(b.tokens + Refill(rate, b.last, now), burst);
      ok := tokens >= 1.0;
      if ok { tokens := tokens - 1.0; }
      buckets := buckets[key := Bucket(tokens, now)];
      assert b == BucketFor(burst, old(buckets), key, now);
      assert (ok, Bucket(tokens, now)) == Spend(rate, burst, b, now);
      assert buckets == kept[key := Bucket(tokens, now)];
    }

    /** The map is visited in an arbitrary order and full buckets are deleted on the way. */
    method Sweep(now: int)
      modifies this
      ensures buckets == Swept(rate, burst, old(buckets), now)
    {
      var keys := buckets.Keys;
      while keys != {}
        invariant keys <= buckets.Keys <= old(buckets).Keys
        invariant forall k :: k in buckets ==> buckets[k] == old(buckets)[k]
        invariant forall k :: k in old(buckets) && k !in keys ==>
                    (k in buckets <==> !Full(rate, burst, old(buckets)[k], now))
        decreases |keys|
      {
        var k :| k in keys;
        var b := buckets[k];
        var idle := now - b.last;
        if idle as real / SECOND * rate + b.tokens >= burst {
          buckets := buckets - {k};
        }
        keys := keys - {k};
      }
    }
  }

  // ----- runs -----

  datatype Request = Request(key: Key, at: int)

  predicate Ordered(reqs: seq<Request>) {
    forall i, j :: 0 <= i < j < |reqs| ==> reqs[i].at <= reqs[j].at
  }

  /** The answers of a run, and the buckets it ends with. */
  function Run(rate: real, burst: real, bs: Buckets, reqs: seq<Request>): (seq<bool>, Buckets)
    decreases |reqs|
  {
    if reqs == [] then ([], bs)
    else
      var (ok, bs') := Allowed(rate, burst, bs, reqs[0].key, reqs[0].at);
      var (oks, end) := Run(rate, burst, bs', reqs[1..]);
      ([ok] + oks, end)
  }

  function RunIdeal(rate: real, burst: real, bs: Buckets, reqs: seq<Request>): (seq<bool>, Buckets)
    decreases |reqs|
  {
    if reqs == [] then ([], bs)
    else
      var (ok, bs') := AllowedIdeal(rate, burst, bs, reqs[0].key, reqs[0].at);
      var (oks, end) := RunIdeal(rate, burst, bs', reqs[1..]);
      ([ok] + oks, end)
  }

  /** The evicting limiter holds some of the ideal one's buckets, and the others are full. */
  predicate Tracks(rate: real, burst: real, bs: Buckets, ideal: Buckets, now: int) {
    && (forall k :: k in bs ==> k in ideal && bs[k] == ideal[k])
    && (forall k :: k in ideal && k !in bs ==> Full(rate, burst, ideal[k], now))
  }

  lemma RefillGrows(rate: real, from: int, now: int, later: int)
    requires rate >= 0.0 && now <= later
    ensures Refill(rate, from, later) == Refill(rate, from, now) + Refill(rate, now, later)
    ensures Refill(rate, now, later) >= 0.0
  {
    var a, b := (now - from) as real / SECOND, (later - now) as real / SECOND;
    assert (later - from) as real / SECOND == a + b;
    assert (a + b) * rate == a * rate + b * rate;
    assert b >= 0.0;
    assert b * rate >= 0.0;
  }

  lemma TracksLater(rate: real, burst: real, bs: Buckets, ideal: Buckets, now: int, later: int)
    requires rate >= 0.0 && now <= later && Tracks(rate, burst, bs, ideal, now)
    ensures Tracks(rate, burst, bs, ideal, later)
  {
    forall k | k in ideal && k !in bs ensures Full(rate, burst, ideal[k], later) {
      RefillGrows(rate, ideal[k].last, now, later);
    }
  }

  /** A missing bucket and a full one are spent alike. */
  lemma FullSpendsLikeNew(rate: real, burst: real, b: Bucket, now: int)
    requires Full(rate, burst, b, now)
    ensures Spend(rate, burst, b, now) == Spend(rate, burst, Bucket(burst, now), now)
  {
    assert Refill(rate, now, now) == 0.0;
  }

  /** One request: the same answer, and the tracking goes on, sweep or no sweep. */
  lemma AllowTracks(rate: real, burst: real, bs: Buckets, ideal: Buckets, key: Key, now: int)
    requires Tracks(rate, burst, bs, ideal, now)
    ensures Allowed(rate, burst, bs, key, now).0 == AllowedIdeal(rate, burst, ideal, key, now).0
    ensures Tracks(rate, burst, Allowed(rate, burst, bs, key, now).1, AllowedIdeal(rate, burst, ideal, key, now).1, now)
  {
    if key in ideal && key !in bs {
      FullSpendsLikeNew(rate, burst, ideal[key], now);
    }
    var b := BucketFor(burst, bs, key, now);
    assert Spend(rate, burst, b, now) == Spend(rate, burst, BucketFor(burst, ideal, key, now), now);
  }

  /** In every run with non-decreasing times, from an empty map, evicting refilled buckets never
      changes an answer. */
  lemma {:induction false} SweepChangesNoAnswer(rate: real, burst: real, bs: Buckets, ideal: Buckets, reqs: seq<Request>)
    requires rate >= 0.0 && Ordered(reqs)
    requires reqs != [] ==> Tracks(rate, burst, bs, ideal, reqs[0].at)
    ensures Run(rate, burst, bs, reqs).0 == RunIdeal(rate, burst, ideal, reqs).0
    decreases |reqs|
  {
    if reqs != [] {
      AllowTracks(rate, burst, bs, ideal, reqs[0].key, reqs[0].at);
      var bs', ideal' := Allowed(rate, burst, bs, reqs[0].key, reqs[0].at).1, AllowedIdeal(rate, burst, ideal, reqs[0].key, reqs[0].at).1;
      if |reqs| > 1 {
        TracksLater(rate, burst, bs', ideal', reqs[0].at, reqs[1].at);
      }
      SweepChangesNoAnswer(rate, burst, bs', ideal', reqs[1..]);
    }
  }

  // ----- how much gets through -----

  /** Requests of `key` admitted at times in [t1, t2]. */
  function Admitted(reqs: seq<Request>, oks: seq<bool>, key: Key, t1: int, t2: int): nat
    requires |reqs| == |oks|
  {
    if reqs == [] then 0
    else (if reqs[0].key == key && oks[0] && t1 <= reqs[0].at <= t2 then 1 else 0)
         + Admitted(reqs[1..], oks[1..], key, t1, t2)
  }

  lemma {:induction false} AnswersAll(rate: real, burst: real, bs: Buckets, reqs: seq<Request>)
    ensures |Run(rate, burst, bs, reqs).0| == |reqs| && |RunIdeal(rate, burst, bs, reqs).0| == |reqs|
    decreases |reqs|
  {
    if reqs != [] {
      AnswersAll(rate, burst, Allowed(rate, burst, bs, reqs[0].key, reqs[0].at).1, reqs[1..]);
      AnswersAll(rate, burst, AllowedIdeal(rate, burst, bs, reqs[0].key, reqs[0].at).1, reqs[1..]);
    }
  }

  /** What a key could spend at `now`; a key without a bucket has the whole burst. */
  function Credit(rate: real, burst: real, bs: Buckets, key: Key, now: int): real {
    if key in bs then Min(bs[key].tokens + Refill(rate, bs[key].last, now), burst) else burst
  }

  predicate WithinBurst(burst: real, bs: Buckets, key: Key, now: int) {
    key in bs ==> 0.0 <= bs[key].tokens <= burst && bs[key].last <= now
  }

  lemma CreditGrowsByRefill(rate: real, burst: real, bs: Buckets, key: Key, now: int, later: int)
    requires rate >= 0.0 && burst >= 0.0 && now <= later && WithinBurst(burst, bs, key, now)
    ensures 0.0 <= Credit(rate, burst, bs, key, now) <= burst
    ensures Credit(rate, burst, bs, key, later) <= Credit(rate, burst, bs, key, now) + Refill(rate, now, later)
    ensures WithinBurst(burst, bs, key, later)
  {
    RefillGrows(rate, now, now, later);
    if key in bs {
      RefillGrows(rate, bs[key].last, bs[key].last, now);
      RefillGrows(rate, bs[key].last, now, later);
    }
  }

  lemma RequestSpendsCredit(rate: real, burst: real, bs: Buckets, key: Key, r: Request)
    requires rate >= 0.0 && burst >= 0.0 && WithinBurst(burst, bs, key, r.at)
    ensures var (ok, bs') := AllowedIdeal(rate, burst, bs, r.key, r.at);
            WithinBurst(burst, bs', key, r.at)
            && Credit(rate, burst, bs', key, r.at)
               == Credit(rate, burst, bs, key, r.at) - (if r.key == key && ok then 1.0 else 0.0)
  {
    assert Refill(rate, r.at, r.at) == 0.0;
    CreditGrowsByRefill(rate, burst, bs, key, r.at, r.at);
  }

  /** From `now` on, a key gets at most its credit plus the refill until `t2`. */
  lemma {:induction false} AdmittedWithinCredit(rate: real, burst: real, bs: Buckets, reqs: seq<Request>, key: Key, now: int, t1: int, t2: int)
    requires rate >= 0.0 && burst >= 0.0 && now <= t2 && Ordered(reqs) && (reqs != [] ==> now <= reqs[0].at)
    requires WithinBurst(burst, bs, key, now)
    requires |RunIdeal(rate, burst, bs, reqs).0| == |reqs|
    ensures Admitted(reqs, RunIdeal(rate, burst, bs, reqs).0, key, t1, t2) as real
         <= Credit(rate, burst, bs, key, now) + Refill(rate, now, t2)
    decreases |reqs|
  {
    RefillGrows(rate, now, now, t2);
    CreditGrowsByRefill(rate, burst, bs, key, now, now);
    if reqs != [] {
      var r := reqs[0];
      if r.at > t2 {
        NoneAfter(reqs, RunIdeal(rate, burst, bs, reqs).0, key, t1, t2);
      } else {
        var (ok, bs') := AllowedIdeal(rate, burst, bs, r.key, r.at);
        AnswersAll(rate, burst, bs', reqs[1..]);
        CreditGrowsByRefill(rate, burst, bs, key, now, r.at);
        RequestSpendsCredit(rate, burst, bs, key, r);
        AdmittedWithinCredit(rate, burst, bs', reqs[1..], key, r.at, t1, t2);
        RefillGrows(rate, now, r.at, t2);
        assert RunIdeal(rate, burst, bs, reqs).0[1..] == RunIdeal(rate, burst, bs', reqs[1..]).0;
      }
    }
  }

  lemma {:induction false} NoneAfter(reqs: seq<Request>, oks: seq<bool>, key: Key, t1: int, t2: int)
    requires |reqs| == |oks| && forall i :: 0 <= i < |reqs| ==> reqs[i].at > t2
    ensures Admitted(reqs, oks, key, t1, t2) == 0
    decreases |reqs|
  {
    if reqs != [] { NoneAfter(reqs[1..], oks[1..], key, t1, t2); }
  }

  lemma {:induction false} WindowBoundFrom(rate: real, burst: real, bs: Buckets, reqs: seq<Request>, key: Key, t1: int, t2: int)
    requires rate >= 0.0 && burst >= 0.0 && t1 <= t2 && Ordered(reqs)
    requires reqs != [] ==> WithinBurst(burst, bs, key, reqs[0].at)
    requires |RunIdeal(rate, burst, bs, reqs).0| == |reqs|
    ensures Admitted(reqs, RunIdeal(rate, burst, bs, reqs).0, key, t1, t2) as real <= burst + Refill(rate, t1, t2)
    decreases |reqs|
  {
    RefillGrows(rate, t1, t1, t2);
    if reqs != [] {
      var r := reqs[0];
      var (ok, bs') := AllowedIdeal(rate, burst, bs, r.key, r.at);
      if r.at < t1 {
        RequestSpendsCredit(rate, burst, bs, key, r);
        AnswersAll(rate, burst, bs', reqs[1..]);
        WindowBoundFrom(rate, burst, bs', reqs[1..], key, t1, t2);
        assert RunIdeal(rate, burst, bs, reqs).0[1..] == RunIdeal(rate, burst, bs', reqs[1..]).0;
      } else if r.at > t2 {
        NoneAfter(reqs, RunIdeal(rate, burst, bs, reqs).0, key, t1, t2);
      } else {
        AdmittedWithinCredit(rate, burst, bs, reqs, key, r.at, t1, t2);
        CreditGrowsByRefill(rate, burst, bs, key, r.at, r.at);
        RefillGrows(rate, t1, r.at, t2);
        RefillGrows(rate, t1, t1, r.at);
      }
    }
  }

  /** In every window of every run, across sweeps and re-created buckets, a key gets at most the
      burst plus what the window refills. */
  lemma AdmittedInWindow(rate: real, burst: real, reqs: seq<Request>, key: Key, t1: int, t2: int)
    requires rate >= 0.0 && burst >= 0.0 && t1 <= t2 && Ordered(reqs)
    ensures |Run(rate, burst, map[], reqs).0| == |reqs|
    ensures Admitted(reqs, Run(rate, burst, map[], reqs).0, key, t1, t2) as real <= burst + Refill(rate, t1, t2)
  {
    AnswersAll(rate, burst, map[], reqs);
    SweepChangesNoAnswer(rate, burst, map[], map[], reqs);
    WindowBoundFrom(rate, burst, map[], reqs, key, t1, t2);
  }

  // ----- refusals are exact -----

  lemma {:induction false} AdmittedConcat(a: seq<Request>, p: seq<bool>, b: seq<Request>, q: seq<bool>, key: Key, t1: int, t2: int)
    requires |a| == |p| && |b| == |q|
    ensures Admitted(a + b, p + q, key, t1, t2) == Admitted(a, p, key, t1, t2) + Admitted(b, q, key, t1, t2)
    decreases |a|
  {
    if a == [] {
      assert a + b == b && p + q == q;
    } else {
      AdmittedConcat(a[1..], p[1..], b, q, key, t1, t2);
      assert (a + b)[1..] == a[1..] + b && (p + q)[1..] == p[1..] + q;
    }
  }

  lemma AdmittedOne(r: Request, ok: bool, key: Key, t1: int, t2: int)
    ensures Admitted([r], [ok], key, t1, t2) == if r.key == key && ok && t1 <= r.at <= t2 then 1 else 0
  {
    assert [r][1..] == [] && [ok][1..] == [];
  }

  /** The requests of a key come no later than `last`. */
  predicate NoneLater(past: seq<Request>, key: Key, last: int) {
    forall i :: 0 <= i < |past| && past[i].key == key ==> past[i].at <= last
  }

  lemma {:induction false} SameUpTo(past: seq<Request>, oks: seq<bool>, key: Key, t1: int, last: int, now: int)
    requires |past| == |oks| && NoneLater(past, key, last) && last <= now
    ensures Admitted(past, oks, key, t1, now) == Admitted(past, oks, key, t1, last)
    ensures last < t1 ==> Admitted(past, oks, key, t1, now) == 0
    decreases |past|
  {
    if past != [] {
      assert past[0].key == key ==> past[0].at <= last;
      SameUpTo(past[1..], oks[1..], key, t1, last, now);
    }
  }

  /** A bucket told by its history: full at t1, refilled since, less what was admitted since. */
  predicate Told(rate: real, burst: real, tokens: real, past: seq<Request>, oks: seq<bool>, key: Key, t1: int, now: int)
    requires |past| == |oks|
  {
    t1 <= now && tokens == burst + Refill(rate, t1, now) - Admitted(past, oks, key, t1, now) as real
  }

  predicate ToldBucket(rate: real, burst: real, bs: Buckets, past: seq<Request>, oks: seq<bool>, key: Key, t1: int)
    requires |past| == |oks|
  {
    if key in bs then
      && NoneLater(past, key, bs[key].last) && 0.0 <= bs[key].tokens <= burst
      && Told(rate, burst, bs[key].tokens, past, oks, key, t1, bs[key].last)
    else
      forall i :: 0 <= i < |past| ==> past[i].key != key
  }

  lemma RefillBetween(rate: real, a: int, b: int, c: int)
    requires rate >= 0.0 && a <= b <= c
    ensures Refill(rate, a, c) == Refill(rate, a, b) + Refill(rate, b, c) && Refill(rate, b, c) >= 0.0
    ensures Refill(rate, b, b) == 0.0
  {
    RefillGrows(rate, a, b, c);
  }

  /** Tokens come in at the rate, by the second. */
  lemma RefillPerSecond(rate: real, from: int, seconds: int)
    ensures Refill(rate, from, from + seconds * 1_000_000_000) == seconds as real * rate
  {
    assert (seconds * 1_000_000_000) as real == seconds as real * SECOND;
  }

  /** What a key could spend now, told by its history: it was full at some time t. */
  lemma CreditTold(rate: real, burst: real, bs: Buckets, past: seq<Request>, oks: seq<bool>, key: Key, t1: int, now: int)
    returns (t: int)
    requires rate >= 0.0 && burst >= 0.0 && |past| == |oks| && ToldBucket(rate, burst, bs, past, oks, key, t1)
    requires key in bs ==> bs[key].last <= now
    ensures Told(rate, burst, Credit(rate, burst, bs, key, now), past, oks, key, t, now)
    ensures 0.0 <= Credit(rate, burst, bs, key, now) <= burst
  {
    assert Refill(rate, now, now) == 0.0;
    if key !in bs {
      t := now;
      SameUpTo(past, oks, key, now, now - 1, now);
    } else {
      var b := bs[key];
      RefillBetween(rate, t1, b.last, now);
      if b.tokens + Refill(rate, b.last, now) <= burst {
        t := t1;
        SameUpTo(past, oks, key, t1, b.last, now);
      } else {
        assert b.last == now ==> Refill(rate, b.last, now) == 0.0;
        t := now;
        SameUpTo(past, oks, key, now, b.last, now);
      }
    }
  }

  lemma RequestTold(rate: real, burst: real, bs: Buckets, past: seq<Request>, oks: seq<bool>, key: Key, t1: int, r: Request)
    returns (t: int)
    requires rate >= 0.0 && burst >= 0.0 && |past| == |oks| && ToldBucket(rate, burst, bs, past, oks, key, t1)
    requires key in bs ==> bs[key].last <= r.at
    ensures var (ok, bs') := AllowedIdeal(rate, burst, bs, r.key, r.at);
            ToldBucket(rate, burst, bs', past + [r], oks + [ok], key, t)
    ensures var bs' := AllowedIdeal(rate, burst, bs, r.key, r.at).1; key in bs' ==> bs'[key].last <= r.at
  {
    var (ok, bs') := AllowedIdeal(rate, burst, bs, r.key, r.at);
    if r.key == key {
      t := CreditTold(rate, burst, bs, past, oks, key, t1, r.at);
      assert Refill(rate, r.at, r.at) == 0.0;
      AdmittedConcat(past, oks, [r], [ok], key, t, r.at);
      AdmittedOne(r, ok, key, t, r.at);
    } else {
      t := t1;
      if key in bs {
        AdmittedConcat(past, oks, [r], [ok], key, t, bs[key].last);
        AdmittedOne(r, ok, key, t, bs[key].last);
      }
    }
  }

  /** The requests of r's key admitted from t on, together with r, exceed the burst plus the refill
      since t. */
  predicate TooMany(rate: real, burst: real, past: seq<Request>, oks: seq<bool>, r: Request, t: int)
    requires |past| == |oks|
  {
    t <= r.at && Admitted(past, oks, r.key, t, r.at) as real + 1.0 > burst + Refill(rate, t, r.at)
  }

  lemma RefusedNow(rate: real, burst: real, bs: Buckets, past: seq<Request>, oks: seq<bool>, r: Request, t1: int) returns (t: int)
    requires rate >= 0.0 && burst >= 0.0 && |past| == |oks| && ToldBucket(rate, burst, bs, past, oks, r.key, t1)
    requires r.key in bs ==> bs[r.key].last <= r.at
    ensures !AllowedIdeal(rate, burst, bs, r.key, r.at).0 ==> TooMany(rate, burst, past, oks, r, t)
  {
    t := CreditTold(rate, burst, bs, past, oks, r.key, t1, r.at);
    assert Refill(rate, r.at, r.at) == 0.0;
  }

  lemma Shifted<T>(past: seq<T>, all: seq<T>, rest: seq<T>, i: nat)
    requires 0 < i <= |all| && rest == all[1..]
    ensures past + [all[0]] + rest[..i - 1] == past + all[..i]
  {}

  lemma {:induction false} RefusedFrom(rate: real, burst: real, bs: Buckets, past: seq<Request>, oks: seq<bool>,
                                       reqs: seq<Request>, i: nat, key: Key, t1: int) returns (t: int)
    requires rate >= 0.0 && burst >= 0.0 && |past| == |oks| && Ordered(reqs) && i < |reqs| && reqs[i].key == key
    requires ToldBucket(rate, burst, bs, past, oks, key, t1) && (key in bs ==> bs[key].last <= reqs[0].at)
    requires |RunIdeal(rate, burst, bs, reqs).0| == |reqs|
    ensures var answers := RunIdeal(rate, burst, bs, reqs).0;
            !answers[i] ==> TooMany(rate, burst, past + reqs[..i], oks + answers[..i], reqs[i], t)
    decreases i
  {
    var r := reqs[0];
    var answers := RunIdeal(rate, burst, bs, reqs).0;
    if i == 0 {
      t := RefusedNow(rate, burst, bs, past, oks, r, t1);
      assert past + reqs[..0] == past && oks + answers[..0] == oks;
    } else {
      var (ok, bs') := AllowedIdeal(rate, burst, bs, r.key, r.at);
      var t2 := RequestTold(rate, burst, bs, past, oks, key, t1, r);
      AnswersAll(rate, burst, bs', reqs[1..]);
      t := RefusedFrom(rate, burst, bs', past + [r], oks + [ok], reqs[1..], i - 1, key, t2);
      var later := RunIdeal(rate, burst, bs', reqs[1..]).0;
      Shifted(past, reqs, reqs[1..], i);
      Shifted(oks, answers, later, i);
    }
  }

  lemma AdmittedNotTooMany(rate: real, burst: real, reqs: seq<Request>, i: nat, t: int)
    requires rate >= 0.0 && burst >= 0.0 && Ordered(reqs) && i < |reqs|
    ensures |Run(rate, burst, map[], reqs).0| == |reqs|
    ensures var answers := Run(rate, burst, map[], reqs).0;
            answers[i] ==> !TooMany(rate, burst, reqs[..i], answers[..i], reqs[i], t)
  {
    AnswersAll(rate, burst, map[], reqs);
    var answers, r := Run(rate, burst, map[], reqs).0, reqs[i];
    if t <= r.at {
      AdmittedInWindow(rate, burst, reqs, r.key, t, r.at);
      assert reqs == reqs[..i] + ([r] + reqs[i + 1..]);
      assert answers == answers[..i] + ([answers[i]] + answers[i + 1..]);
      AdmittedConcat(reqs[..i], answers[..i], [r] + reqs[i + 1..], [answers[i]] + answers[i + 1..], r.key, t, r.at);
      AdmittedConcat([r], [answers[i]], reqs[i + 1..], answers[i + 1..], r.key, t, r.at);
      AdmittedOne(r, answers[i], r.key, t, r.at);
    }
  }

  /** In every run, sweeps or not, a request is refused exactly if, since some time, its key's
      admitted requests and itself exceed the burst plus the refill. */
  lemma RefusedIffTooMany(rate: real, burst: real, reqs: seq<Request>, i: nat)
    requires rate >= 0.0 && burst >= 0.0 && Ordered(reqs) && i < |reqs|
    ensures |Run(rate, burst, map[], reqs).0| == |reqs|
    ensures var answers := Run(rate, burst, map[], reqs).0;
            !answers[i] <==> exists t :: TooMany(rate, burst, reqs[..i], answers[..i], reqs[i], t)
  {
    AnswersAll(rate, burst, map[], reqs);
    var answers := Run(rate, burst, map[], reqs).0;
    if answers[i] {
      forall t ensures !TooMany(rate, burst, reqs[..i], answers[..i], reqs[i], t) {
        AdmittedNotTooMany(rate, burst, reqs, i, t);
      }
    } else {
      SweepChangesNoAnswer(rate, burst, map[], map[], reqs);
      var t := RefusedFrom(rate, burst, map[], [], [], reqs, i, reqs[i].key, 0);
      assert [] + reqs[..i] == reqs[..i] && [] + answers[..i] == answers[..i];
    }
  }

  /** A sweep drops exactly the buckets of keys that could spend the whole burst. */
  lemma SweepDropsTheFull(rate: real, burst: real, bs: Buckets, now: int, k: Key)
    requires k in bs
    ensures k !in Swept(rate, burst, bs, now) <==> Credit(rate, burst, bs, k, now) == burst
    ensures k in Swept(rate, burst, bs, now) ==> Swept(rate, burst, bs, now)[k] == bs[k]
  {}
}

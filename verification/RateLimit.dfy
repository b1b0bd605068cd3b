/**
 Rate limiting per client: one token bucket for each client key, holding at most a minute's
 quota, full at first. Times are seconds; the bucket is exact, without floating-point rounding.
 */
module RateLimit {
  import opened Text

  // ----- one bucket -----

  datatype Bucket = Bucket(tokens: real, last: real)

  function Rate(perMinute: int): real {
    perMinute as real / 60.0
  }

  /** The tokens that flow in over a span of time. */
  function Inflow(span: real, perMinute: int): real {
    span * Rate(perMinute)
  }

  /** What the bucket holds at time `now`; a clock that went back adds nothing. */
  function Level(b: Bucket, perMinute: int, now: real): real {
    var grown := b.tokens + (if now < b.last then 0.0 else Inflow(now - b.last, perMinute));
    if grown > perMinute as real then perMinute as real else grown
  }

  predicate Admits(b: Bucket, perMinute: int, now: real) {
    Level(b, perMinute, now) >= 1.0
  }

  /** A refused request leaves the bucket as it was. */
  function Take(b: Bucket, perMinute: int, now: real): Bucket {
    if Admits(b, perMinute, now) then Bucket(Level(b, perMinute, now) - 1.0, now) else b
  }

  // ----- all clients -----

  type Buckets = map<string, Bucket>

  /** A request as the middleware sees it; `/healthz` is exempt. */
  datatype Request = Request(key: string, health: bool, now: real)

  predicate Limited(r: Request, perMinute: int) {
    !r.health && perMinute > 0
  }

  function BucketFor(m: Buckets, key: string, perMinute: int, now: real): Bucket {
    if key in m then m[key] else Bucket(perMinute as real, now)
  }

  predicate Decide(m: Buckets, r: Request, perMinute: int) {
    Limited(r, perMinute) ==> Admits(BucketFor(m, r.key, perMinute, r.now), perMinute, r.now)
  }

  function Step(m: Buckets, r: Request, perMinute: int): Buckets {
    if Limited(r, perMinute) then m[r.key := Take(BucketFor(m, r.key, perMinute, r.now), perMinute, r.now)] else m
  }

  function StepAll(m: Buckets, rs: seq<Request>, perMinute: int): Buckets
    decreases |rs|
  {
    if rs == [] then m else StepAll(Step(m, rs[0], perMinute), rs[1..], perMinute)
  }

  /** The answers to the requests of one key, in order, in a trace where every client takes part. */
  function Answers(m: Buckets, rs: seq<Request>, perMinute: int, key: string): seq<bool>
    decreases |rs|
  {
    if rs == [] then []
    else (if rs[0].key == key then [Decide(m, rs[0], perMinute)] else [])
         + Answers(Step(m, rs[0], perMinute), rs[1..], perMinute, key)
  }

  function Only(rs: seq<Request>, key: string): seq<Request> {
    if rs == [] then [] else (if rs[0].key == key then [rs[0]] else []) + Only(rs[1..], key)
  }

  ghost predicate SameFor(key: string, m: Buckets, n: Buckets) {
    (key in m <==> key in n) && (key in m ==> m[key] == n[key])
  }

  lemma {:induction false} AnswersDependOnOwn(m: Buckets, n: Buckets, rs: seq<Request>, perMinute: int, key: string)
    requires SameFor(key, m, n)
    ensures Answers(m, rs, perMinute, key) == Answers(n, Only(rs, key), perMinute, key)
    decreases |rs|
  {
    if rs == [] {
    } else {
      var r, own := rs[0], Only(rs[1..], key);
      if r.key == key {
        AnswersDependOnOwn(Step(m, r, perMinute), Step(n, r, perMinute), rs[1..], perMinute, key);
        assert Only(rs, key)[0] == r && Only(rs, key)[1..] == own;
      } else {
        AnswersDependOnOwn(Step(m, r, perMinute), n, rs[1..], perMinute, key);
        assert Only(rs, key) == own;
      }
    }
  }

  /** Noninterference: a client is answered as if it were alone, whatever the others do. */
  lemma OthersDoNotMatter(m: Buckets, rs: seq<Request>, perMinute: int, key: string)
    ensures Answers(m, rs, perMinute, key) == Answers(m, Only(rs, key), perMinute, key)
  {
    AnswersDependOnOwn(m, m, rs, perMinute, key);
  }

  // ----- how many requests get through -----

  ghost predicate InOrder(rs: seq<Request>, from: real, to: real) {
    (forall i :: 0 <= i < |rs| ==> from <= rs[i].now <= to) &&
    (forall i, j :: 0 <= i < j < |rs| ==> rs[i].now <= rs[j].now)
  }

  ghost predicate Healthy(m: Buckets, perMinute: int, now: real) {
    forall k :: k in m ==> 0.0 <= m[k].tokens <= perMinute as real && m[k].last <= now
  }

  function Admitted(m: Buckets, rs: seq<Request>, perMinute: int, key: string): nat
    decreases |rs|
  {
    if rs == [] then 0
    else Cost(m, rs[0], perMinute, key) + Admitted(Step(m, rs[0], perMinute), rs[1..], perMinute, key)
  }

  lemma InflowAdds(a: real, b: real, perMinute: int)
    requires 0.0 <= a && 0.0 <= b && 0 < perMinute
    ensures Inflow(a + b, perMinute) == Inflow(a, perMinute) + Inflow(b, perMinute)
    ensures 0.0 <= Inflow(a, perMinute) && Inflow(0.0, perMinute) == 0.0
  {
  }

  /** What `key` could spend at once at time `now`. */
  function Spendable(m: Buckets, key: string, perMinute: int, now: real): real {
    Level(BucketFor(m, key, perMinute, now), perMinute, now)
  }

  /** Waiting adds at most what flows in. */
  lemma SpendableLater(m: Buckets, key: string, perMinute: int, t: real, u: real)
    requires 0 < perMinute && t <= u && Healthy(m, perMinute, t)
    ensures Spendable(m, key, perMinute, u) <= Spendable(m, key, perMinute, t) + Inflow(u - t, perMinute)
  {
    InflowAdds(u - t, 0.0, perMinute);
    if key in m {
      InflowAdds(t - m[key].last, u - t, perMinute);
      assert u - m[key].last == (t - m[key].last) + (u - t);
    }
  }

  lemma StepHealthy(m: Buckets, r: Request, perMinute: int, from: real)
    requires Healthy(m, perMinute, from) && from <= r.now
    ensures Healthy(Step(m, r, perMinute), perMinute, r.now)
  {
    if Limited(r, perMinute) {
      var b := BucketFor(m, r.key, perMinute, r.now);
      InflowAdds(r.now - b.last, 0.0, perMinute);
    }
  }

  function Cost(m: Buckets, r: Request, perMinute: int, key: string): nat {
    if r.key == key && !r.health && Decide(m, r, perMinute) then 1 else 0
  }

  /** What a request takes comes out of what its client could spend. */
  lemma SpendStep(m: Buckets, r: Request, perMinute: int, key: string)
    requires 0 < perMinute
    ensures Cost(m, r, perMinute, key) as real + Spendable(Step(m, r, perMinute), key, perMinute, r.now)
            <= Spendable(m, key, perMinute, r.now)
  {
    InflowAdds(0.0, 0.0, perMinute);
    assert r.now - r.now == 0.0;
  }

  /** Spending is bounded by what the bucket holds and what flows in. */
  lemma {:induction false} SpendBound(m: Buckets, rs: seq<Request>, perMinute: int, key: string, from: real, to: real)
    requires 0 < perMinute && from <= to && InOrder(rs, from, to) && Healthy(m, perMinute, from)
    ensures Admitted(m, rs, perMinute, key) as real <=
            Spendable(m, key, perMinute, from) + Inflow(to - from, perMinute)
    decreases |rs|
  {
    if rs == [] {
      InflowAdds(to - from, 0.0, perMinute);
      SpendableNotNegative(m, key, perMinute, from);
    } else {
      var r := rs[0];
      TailInOrder(rs, from, to);
      StepHealthy(m, r, perMinute, from);
      SpendBound(Step(m, r, perMinute), rs[1..], perMinute, key, r.now, to);
      SpendStep(m, r, perMinute, key);
      SpendableLater(m, key, perMinute, from, r.now);
      InflowAdds(r.now - from, to - r.now, perMinute);
      assert (r.now - from) + (to - r.now) == to - from;
    }
  }

  lemma TailInOrder(rs: seq<Request>, from: real, to: real)
    requires rs != [] && InOrder(rs, from, to)
    ensures InOrder(rs[1..], rs[0].now, to) && from <= rs[0].now <= to
  {
    assert forall i :: 0 <= i < |rs[1..]| ==> rs[1..][i] == rs[i + 1];
  }

  lemma SpendableNotNegative(m: Buckets, key: string, perMinute: int, now: real)
    requires 0 < perMinute && Healthy(m, perMinute, now)
    ensures 0.0 <= Spendable(m, key, perMinute, now) <= perMinute as real
  {
    InflowAdds(0.0, 0.0, perMinute);
    if key in m {
      InflowAdds(now - m[key].last, 0.0, perMinute);
    }
  }

  lemma WindowFrom(m: Buckets, rs: seq<Request>, perMinute: int, key: string, from: real, to: real)
    requires 0 < perMinute && from <= to && InOrder(rs, from, to) && Healthy(m, perMinute, from)
    ensures Admitted(m, rs, perMinute, key) as real <= perMinute as real + Inflow(to - from, perMinute)
  {
    SpendBound(m, rs, perMinute, key, from, to);
    SpendableNotNegative(m, key, perMinute, from);
  }

  lemma SliceInOrder(rs: seq<Request>, i: nat, j: nat, from: real, to: real)
    requires i < j <= |rs| && InOrder(rs, from, to)
    ensures InOrder(rs[..i], from, rs[i].now) && InOrder(rs[i..j], rs[i].now, rs[j - 1].now)
    ensures from <= rs[i].now <= rs[j - 1].now
  {
    assert forall k :: 0 <= k < |rs[i..j]| ==> rs[i..j][k] == rs[i + k];
  }

  lemma InflowIs(span: real, perMinute: int)
    ensures Inflow(span, perMinute) == perMinute as real * span / 60.0
  {
  }

  lemma WindowInflow(rs: seq<Request>, i: nat, j: nat, perMinute: int, key: string, from: real, to: real)
    requires 0 < perMinute && i < j <= |rs| && InOrder(rs, from, to)
    ensures Admitted(StepAll(map[], rs[..i], perMinute), rs[i..j], perMinute, key) as real
            <= perMinute as real + Inflow(rs[j - 1].now - rs[i].now, perMinute)
  {
    SliceInOrder(rs, i, j, from, to);
    StepsHealthy(map[], rs[..i], perMinute, from, rs[i].now);
    WindowFrom(StepAll(map[], rs[..i], perMinute), rs[i..j], perMinute, key, rs[i].now, rs[j - 1].now);
  }

  lemma BoundIs(n: real, span: real, perMinute: int)
    requires n <= perMinute as real + Inflow(span, perMinute)
    ensures n <= perMinute as real + perMinute as real * span / 60.0
  {
    InflowIs(span, perMinute);
  }

  /**
   In any window of `span` seconds of any trace, one client gets at most
   `perMinute + perMinute * span / 60` requests through.
   */
  lemma WindowBound(rs: seq<Request>, i: nat, j: nat, perMinute: int, key: string, from: real, to: real, span: real)
    requires 0 < perMinute && i < j <= |rs| && InOrder(rs, from, to) && span == rs[j - 1].now - rs[i].now
    ensures Admitted(StepAll(map[], rs[..i], perMinute), rs[i..j], perMinute, key) as real
            <= perMinute as real + perMinute as real * span / 60.0
  {
    WindowInflow(rs, i, j, perMinute, key, from, to);
    BoundIs(Admitted(StepAll(map[], rs[..i], perMinute), rs[i..j], perMinute, key) as real, span, perMinute);
  }

  lemma {:induction false} StepsHealthy(m: Buckets, rs: seq<Request>, perMinute: int, from: real, to: real)
    requires Healthy(m, perMinute, from) && InOrder(rs, from, to) && from <= to
    ensures Healthy(StepAll(m, rs, perMinute), perMinute, to)
    decreases |rs|
  {
    if rs == [] {
    } else {
      TailInOrder(rs, from, to);
      StepHealthy(m, rs[0], perMinute, from);
      StepsHealthy(Step(m, rs[0], perMinute), rs[1..], perMinute, rs[0].now, to);
    }
  }

  // ----- bursts -----

  predicate AllAt(rs: seq<Request>, key: string, now: real) {
    forall i :: 0 <= i < |rs| ==> rs[i] == Request(key, false, now)
  }

  /** The bucket of `key` holds `n` tokens at that instant. */
  ghost predicate Holds(m: Buckets, key: string, perMinute: int, now: real, n: int) {
    Spendable(m, key, perMinute, now) == n as real
  }

  lemma BurstStep(m: Buckets, key: string, perMinute: int, now: real, n: int)
    requires 0 < perMinute && 0 <= n <= perMinute && Holds(m, key, perMinute, now, n)
    ensures var r := Request(key, false, now);
            && (Decide(m, r, perMinute) <==> n > 0)
            && Holds(Step(m, r, perMinute), key, perMinute, now, if n > 0 then n - 1 else 0)
  {
    InflowAdds(0.0, 0.0, perMinute);
    assert now - now == 0.0;
  }

  lemma {:induction false} BurstOf(m: Buckets, rs: seq<Request>, perMinute: int, key: string, now: real, n: int)
    requires 0 < perMinute && 0 <= n <= perMinute && Holds(m, key, perMinute, now, n) && AllAt(rs, key, now)
    ensures |Answers(m, rs, perMinute, key)| == |rs|
    ensures forall i :: 0 <= i < |rs| ==> (Answers(m, rs, perMinute, key)[i] <==> i < n)
    decreases |rs|
  {
    if rs == [] {
    } else {
      BurstStep(m, key, perMinute, now, n);
      assert rs[0] == Request(key, false, now);
      assert forall i :: 0 <= i < |rs[1..]| ==> rs[1..][i] == rs[i + 1];
      BurstOf(Step(m, rs[0], perMinute), rs[1..], perMinute, key, now, if n > 0 then n - 1 else 0);
      var more := Answers(Step(m, rs[0], perMinute), rs[1..], perMinute, key);
      assert Answers(m, rs, perMinute, key) == [Decide(m, rs[0], perMinute)] + more;
    }
  }

  /**
   A client not seen before, or quiet for a minute, gets exactly its quota through at one instant:
   the first `perMinute` requests, and no more.
   */
  lemma BurstIsQuota(m: Buckets, rs: seq<Request>, perMinute: int, key: string, now: real)
    requires 0 < perMinute && AllAt(rs, key, now)
    requires key in m ==> 0.0 <= m[key].tokens && m[key].last + 60.0 <= now
    ensures |Answers(m, rs, perMinute, key)| == |rs|
    ensures forall i :: 0 <= i < |rs| ==> (Answers(m, rs, perMinute, key)[i] <==> i < perMinute)
  {
    if key in m {
      MinuteFills(now - m[key].last, perMinute);
    } else {
      InflowAdds(0.0, 0.0, perMinute);
      assert now - now == 0.0;
    }
    BurstOf(m, rs, perMinute, key, now, perMinute);
  }

  lemma MinuteFills(span: real, perMinute: int)
    requires 0 < perMinute && 60.0 <= span
    ensures Inflow(span, perMinute) >= perMinute as real
  {
    var p := perMinute as real;
    assert Inflow(span, perMinute) == span * p / 60.0;
    assert span * p >= 60.0 * p;
  }

  /** An emptied bucket holds a sixtieth of the quota per second again, up to the quota. */
  lemma Refills(b: Bucket, perMinute: int, now: real)
    requires 0 < perMinute && b.tokens == 0.0 && b.last <= now
    ensures Level(b, perMinute, now) ==
            if now - b.last >= 60.0 then perMinute as real else perMinute as real * (now - b.last) / 60.0
  {
    var p, span := perMinute as real, now - b.last;
    InflowIs(span, perMinute);
    if span >= 60.0 {
      MinuteFills(span, perMinute);
    } else {
      assert p * span <= p * 60.0;
    }
  }

  /** A clock that went back adds nothing; health checks, and all requests without a limit, are free. */
  lemma NothingForFree(b: Bucket, m: Buckets, r: Request, perMinute: int, now: real)
    ensures now <= b.last && b.tokens <= perMinute as real ==> Level(b, perMinute, now) == b.tokens
    ensures r.health || perMinute <= 0 ==> Decide(m, r, perMinute) && Step(m, r, perMinute) == m
  {
    if now == b.last {
      assert Inflow(now - b.last, perMinute) == 0.0;
    }
  }

  // ----- a patient client -----

  /** The requests of `key` come no earlier than `earliest`, then 60/perMinute seconds apart. */
  predicate Spaced(rs: seq<Request>, key: string, perMinute: int, earliest: real)
    requires 0 < perMinute
  {
    rs != [] ==>
      if rs[0].key == key && !rs[0].health then
        earliest <= rs[0].now && Spaced(rs[1..], key, perMinute, rs[0].now + 60.0 / perMinute as real)
      else Spaced(rs[1..], key, perMinute, earliest)
  }

  lemma OneTokenPerGap(perMinute: int, elapsed: real)
    requires 0 < perMinute && 60.0 / perMinute as real <= elapsed
    ensures Inflow(elapsed, perMinute) >= 1.0
  {
    var p := perMinute as real;
    assert 60.0 <= elapsed * p;
    assert Inflow(elapsed, perMinute) == elapsed * p / 60.0;
  }

  /** A client that waits long enough between requests is never refused, whatever others do. */
  lemma {:induction false} SpacedNeverRefused(
      m: Buckets, rs: seq<Request>, perMinute: int, key: string, earliest: real)
    requires 0 < perMinute && Spaced(rs, key, perMinute, earliest)
    requires key in m ==> 0.0 <= m[key].tokens && m[key].last + 60.0 / perMinute as real <= earliest
    ensures forall i :: 0 <= i < |Answers(m, rs, perMinute, key)| ==> Answers(m, rs, perMinute, key)[i]
    decreases |rs|
  {
    if rs == [] {
    } else {
      var r := rs[0];
      var next := Step(m, r, perMinute);
      if r.key == key && !r.health {
        if key in m {
          OneTokenPerGap(perMinute, r.now - m[key].last);
        }
        SpacedNeverRefused(next, rs[1..], perMinute, key, r.now + 60.0 / perMinute as real);
      } else {
        SpacedNeverRefused(next, rs[1..], perMinute, key, earliest);
      }
    }
  }

  // ----- client keys -----

  function LowerAscii(c: char): char {
    if 'A' <= c <= 'Z' then (c as nat + 32) as char else c
  }

  function Lower(s: string): string {
    seq(|s|, i requires 0 <= i < |s| => LowerAscii(s[i]))
  }

  function BearerToken(header: string): string {
    if |header| > 7 && Lower(header[..7]) == "bearer " then header[7..] else ""
  }

  /** The host part of `host:port`, or `None` for text that is not of that form. */
  type SplitHost = string -> Option<string>

  /** Never more than the first eight characters of a token. */
  function KeyPart(t: string): string {
    if |t| > 8 then t[..8] else t
  }

  function ClientKey(header: string, remoteAddr: string, split: SplitHost): string {
    var t := BearerToken(header);
    if t != "" then "tok:" + KeyPart(t)
    else "ip:" + split(remoteAddr).GetOr(remoteAddr)
  }

  lemma LetterFolds(c: char, lower: char, upper: char)
    requires ('a' <= lower <= 'z' && upper as nat + 32 == lower as nat) || lower == upper == ' '
    ensures LowerAscii(c) == lower <==> c == lower || c == upper
  {
  }

  /** A token is whatever follows `bearer ` in any case, if anything does. */
  lemma TokenMeans(header: string)
    ensures BearerToken(header) != "" <==>
              7 < |header| && forall i :: 0 <= i < 7 ==> header[i] == "bearer "[i] || header[i] == "BEARER "[i]
    ensures BearerToken(header) != "" ==> BearerToken(header) == header[7..]
  {
    if |header| > 7 {
      assert |Lower(header[..7])| == 7;
      assert forall i :: 0 <= i < 7 ==> Lower(header[..7])[i] == LowerAscii(header[i]);
      forall i | 0 <= i < 7
        ensures LowerAscii(header[i]) == "bearer "[i] <==> header[i] == "bearer "[i] || header[i] == "BEARER "[i]
      {
        LetterFolds(header[i], "bearer "[i], "BEARER "[i]);
      }
    }
  }

  /**
   Two requests share a bucket if and only if both carry a token, with the same first eight
   characters, or neither does, from the same host: tokens and addresses never collide.
   */
  lemma SameKeyMeans(h1: string, a1: string, h2: string, a2: string, split: SplitHost)
    ensures var t1, t2 := BearerToken(h1), BearerToken(h2);
            ClientKey(h1, a1, split) == ClientKey(h2, a2, split) <==>
            (t1 == "" <==> t2 == "") &&
            (if t1 != "" then (if |t1| < 8 then t1 == t2 else |t2| >= 8 && t1[..8] == t2[..8])
             else split(a1).GetOr(a1) == split(a2).GetOr(a2))
  {
    var t1, t2 := BearerToken(h1), BearerToken(h2);
    var k1, k2 := ClientKey(h1, a1, split), ClientKey(h2, a2, split);
    assert t1 != "" ==> k1[0] == 't' && k1[4..] == KeyPart(t1);
    assert t1 == "" ==> k1[0] == 'i' && k1[3..] == split(a1).GetOr(a1);
    assert t2 != "" ==> k2[0] == 't' && k2[4..] == KeyPart(t2);
    assert t2 == "" ==> k2[0] == 'i' && k2[3..] == split(a2).GetOr(a2);
    SameStart(t1, t2);
  }

  lemma SameStart(t1: string, t2: string)
    ensures KeyPart(t1) == KeyPart(t2) <==> if |t1| < 8 then t1 == t2 else |t2| >= 8 && t1[..8] == t2[..8]
  {
    assert |t1| == 8 ==> t1[..8] == t1;
    assert |t2| == 8 ==> t2[..8] == t2;
  }

  // ----- the limiters as the server keeps them -----

  class Limiter {
    const perMinute: int
    var tokens: real
    var last: real

    ghost function Value(): Bucket
      reads this
    {
      Bucket(tokens, last)
    }

    /** Full from the start. */
    constructor (perMinute: int, now: real)
      ensures this.perMinute == perMinute && Value() == Bucket(perMinute as real, now)
    {
      this.perMinute, this.tokens, this.last := perMinute, perMinute as real, now;
    }

    method Allow(now: real) returns (ok: bool)
      modifies this
      ensures ok <==> Admits(old(Value()), perMinute, now)
      ensures Value() == Take(old(Value()), perMinute, now)
    {
      var elapsed := if now < last then 0.0 else now - last;
      var level := tokens + elapsed * (perMinute as real / 60.0);
      if level > perMinute as real {
        level := perMinute as real;
      }
      ok := level >= 1.0;
      if ok {
        tokens, last := level - 1.0, now;
      }
    }
  }

  class ClientLimiters {
    const perMinute: int
    var limiters: map<string, Limiter>

    /** No two keys share a limiter. */
    ghost predicate Valid()
      reads this, limiters.Values
    {
      && (forall k :: k in limiters ==> limiters[k].perMinute == perMinute)
      && (forall j, k :: j in limiters && k in limiters && j != k ==> limiters[j] != limiters[k])
    }

    ghost function Contents(): Buckets
      reads this, limiters.Values
    {
      map k | k in limiters :: limiters[k].Value()
    }

    constructor (perMinute: int)
      ensures Valid() && this.perMinute == perMinute && Contents() == map[]
    {
      this.perMinute, this.limiters := perMinute, map[];
    }

    /** Null when there is no limit. A key gets one limiter, once. */
    method Get(key: string, now: real) returns (l: Limiter?)
      requires Valid()
      modifies this
      ensures Valid() && (l == null <==> perMinute <= 0)
      ensures l == null ==> limiters == old(limiters)
      ensures l != null ==> key in limiters && limiters[key] == l
      ensures l != null && key in old(limiters) ==> limiters == old(limiters)
      ensures l != null && key !in old(limiters) ==>
                limiters == old(limiters)[key := l] && fresh(l) && l.Value() == Bucket(perMinute as real, now)
    {
      if perMinute <= 0 {
        return null;
      }
      if key in limiters {
        return limiters[key];
      }
      var lim := new Limiter(perMinute, now);
      limiters := limiters[key := lim];
      return lim;
    }

    /** `rateLimitMW`: true lets the request through, false answers 429. */
    method Pass(r: Request) returns (ok: bool)
      requires Valid()
      modifies this, limiters.Values
      ensures Valid()
      ensures ok <==> Decide(old(Contents()), r, perMinute)
      ensures Contents() == Step(old(Contents()), r, perMinute)
    {
      if r.health {
        return true;
      }
      var lim := Get(r.key, r.now);
      if lim == null {
        return true;
      }
      ok := lim.Allow(r.now);
    }
  }
}

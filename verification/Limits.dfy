/** Admission control: the per-UID token bucket and the connection gate. */
module Limits {
  import opened Prelude

  // ================================================================ token bucket

  /** Tokens and clock readings are real numbers; rounding is not modelled. */
  datatype Bucket = Bucket(tokens: real, last: real)

  type Buckets = map<nat, Bucket>

  datatype Arrival = Arrival(uid: nat, now: real)

  /** Tokens earned in `x` seconds. */
  function Earn(rate: real, x: real): real { x * rate }

  function Max0(x: real): real { if x < 0.0 then 0.0 else x }
  function Min(x: real, y: real): real { if x < y then x else y }

  /** Tokens at `now`, before one is taken; a new UID starts with a full burst. */
  function Available(rate: real, b: Option<Bucket>, now: real): real {
    match b
    case None => 2.0 * rate
    case Some(k) => Min(k.tokens + Earn(rate, Max0(now - k.last)), 2.0 * rate)
  }

  predicate Admits(rate: real, m: Buckets, a: Arrival) { Available(rate, Lookup(m, a.uid), a.now) >= 1.0 }

  function Consumed(rate: real, m: Buckets, a: Arrival): Buckets {
    var t := Available(rate, Lookup(m, a.uid), a.now);
    m[a.uid := Bucket(if t >= 1.0 then t - 1.0 else t, a.now)]
  }

  class RateLimiter {
    const rate: real
    const burst: real
    var buckets: Buckets

    constructor (ratePerUid: nat)
      ensures rate == ratePerUid as real && burst == 2.0 * rate && buckets == map[]
    {
      rate, burst, buckets := ratePerUid as real, ratePerUid as real * 2.0, map[];
    }

    method TryConsume(uid: nat, now: real) returns (ok: bool)
      requires burst == 2.0 * rate
      modifies this`buckets
      ensures ok == Admits(rate, old(buckets), Arrival(uid, now))
      ensures buckets == Consumed(rate, old(buckets), Arrival(uid, now))
    {
      var b := if uid in buckets then buckets[uid] else Bucket(burst, now);
      var elapsed := if now > b.last then now - b.last else 0.0;
      var tokens := b.tokens + elapsed * rate;
      if tokens > burst { tokens := burst; }
      ok := tokens >= 1.0;
      if ok { tokens := tokens - 1.0; }
      buckets := buckets[uid := Bucket(tokens, now)];
    }
  }

  function After(rate: real, calls: seq<Arrival>): Buckets {
    if calls == [] then map[] else Consumed(rate, After(rate, calls[..|calls| - 1]), calls[|calls| - 1])
  }

  /** How often `uid` was admitted in the window `[s, t]`. */
  function Admitted(rate: real, calls: seq<Arrival>, uid: nat, s: real, t: real): nat {
    if calls == [] then 0
    else
      var (front, a) := (calls[..|calls| - 1], calls[|calls| - 1]);
      Admitted(rate, front, uid, s, t)
      + if a.uid == uid && s <= a.now <= t && Admits(rate, After(rate, front), a) then 1 else 0
  }

  /** A request inside the window counts, one before or after it does not. */
  lemma WindowCounts(rate: real, uid: nat, now: real, s: real, t: real)
    requires rate >= 0.5
    ensures Admitted(rate, [Arrival(uid, now)], uid, s, t) == if s <= now <= t then 1 else 0
  {
    assert [Arrival(uid, now)][..0] == [];
  }

  /** The clock never runs backwards between two requests of this UID. */
  ghost predicate Clocked(calls: seq<Arrival>, uid: nat) {
    forall i, j :: 0 <= i < j < |calls| && calls[i].uid == uid && calls[j].uid == uid ==> calls[i].now <= calls[j].now
  }

  /** The last reading taken for this UID, and what its bucket may hold. */
  lemma {:induction false} BucketFacts(rate: real, calls: seq<Arrival>, uid: nat)
    requires rate >= 0.0
    ensures var b := Lookup(After(rate, calls), uid);
            && (b.Some? ==>
                && 0.0 <= b.value.tokens <= 2.0 * rate
                && exists i :: 0 <= i < |calls| && calls[i].uid == uid && calls[i].now == b.value.last)
            && (b.None? ==> forall i :: 0 <= i < |calls| ==> calls[i].uid != uid)
  {
    if calls != [] {
      var n := |calls| - 1;
      BucketFacts(rate, calls[..n], uid);
      var b := Lookup(After(rate, calls[..n]), uid);
      if calls[n].uid == uid {
        assert calls[n].now == Lookup(After(rate, calls), uid).value.last;
        if b.Some? { Earned(rate, Max0(calls[n].now - b.value.last)); }
      } else if b.Some? {
        var i :| 0 <= i < n && calls[..n][i].uid == uid && calls[..n][i].now == b.value.last;
        assert calls[i].uid == uid && calls[i].now == b.value.last;
      }
    }
  }

  lemma Earned(rate: real, elapsed: real)
    requires elapsed >= 0.0 && rate >= 0.0
    ensures Earn(rate, elapsed) >= 0.0
  {
  }

  lemma EarnedInTurn(rate: real, s: real, u: real, t: real)
    ensures Earn(rate, u - s) + Earn(rate, t - u) == Earn(rate, t - s)
  {
  }

  /** Tokens left plus admissions so far never exceed a burst and what was earned. */
  ghost predicate Within(rate: real, b: Option<Bucket>, n: nat, s: real, t: real) {
    match b
    case None => n == 0
    case Some(k) =>
      if k.last < s then n == 0
      else if k.last <= t then n as real + k.tokens <= 2.0 * rate + Earn(rate, k.last - s)
      else n as real <= 2.0 * rate + Earn(rate, t - s)
  }

  lemma WithinStep(rate: real, m: Buckets, a: Arrival, n: nat, s: real, t: real)
    requires rate >= 0.0 && s <= t && Within(rate, Lookup(m, a.uid), n, s, t)
    requires a.uid in m ==> 0.0 <= m[a.uid].tokens && m[a.uid].last <= a.now
    ensures Within(rate, Lookup(Consumed(rate, m, a), a.uid),
                   n + if s <= a.now <= t && Admits(rate, m, a) then 1 else 0, s, t)
  {
    hide Earn;
    Earned(rate, t - s);
    if a.now >= s { Earned(rate, a.now - s); }
    if a.uid in m {
      var k := m[a.uid];
      Earned(rate, a.now - k.last);
      EarnedInTurn(rate, s, k.last, a.now);
      if k.last <= t { EarnedInTurn(rate, s, k.last, t); Earned(rate, t - k.last); }
    }
  }

  /** In any window of any run each UID is admitted at most a burst plus the rate
      times the window's length. */
  lemma {:induction false} WindowBound(rate: real, calls: seq<Arrival>, uid: nat, s: real, t: real)
    requires rate >= 0.0 && s <= t && Clocked(calls, uid)
    ensures Within(rate, Lookup(After(rate, calls), uid), Admitted(rate, calls, uid, s, t), s, t)
    ensures Admitted(rate, calls, uid, s, t) as real <= 2.0 * rate + Earn(rate, t - s)
  {
    hide Admits, Consumed, Earn;
    Earned(rate, t - s);
    if calls != [] {
      var n := |calls| - 1;
      var front, a := calls[..n], calls[n];
      WindowBound(rate, front, uid, s, t);
      BucketFacts(rate, front, uid);
      BucketFacts(rate, calls, uid);
      var m := After(rate, front);
      if a.uid == uid {
        if uid in m {
          var i :| 0 <= i < |front| && front[i].uid == uid && front[i].now == m[uid].last;
          assert calls[i].uid == uid && calls[i].now <= a.now;
        }
        WithinStep(rate, m, a, Admitted(rate, front, uid, s, t), s, t);
        WithinBounds(rate, Lookup(After(rate, calls), uid), Admitted(rate, calls, uid, s, t), s, t);
      } else {
        OthersUntouched(rate, m, a, uid);
      }
    }
  }

  lemma WithinBounds(rate: real, b: Option<Bucket>, n: nat, s: real, t: real)
    requires rate >= 0.0 && s <= t && Within(rate, b, n, s, t) && (b.Some? ==> b.value.tokens >= 0.0)
    ensures n as real <= 2.0 * rate + Earn(rate, t - s)
  {
    hide Earn;
    Earned(rate, t - s);
    if b.Some? && s <= b.value.last <= t {
      Earned(rate, t - b.value.last);
      EarnedInTurn(rate, s, b.value.last, t);
    }
  }

  lemma OthersUntouched(rate: real, m: Buckets, a: Arrival, uid: nat)
    requires a.uid != uid
    ensures Lookup(Consumed(rate, m, a), uid) == Lookup(m, uid)
  {
  }

  /** Requests of one UID at least `1 / rate` apart. */
  ghost predicate Spaced(rate: real, calls: seq<Arrival>, uid: nat)
    requires rate > 0.0
  {
    forall i, j :: 0 <= i < j < |calls| && calls[i].uid == uid && calls[j].uid == uid ==>
      calls[j].now - calls[i].now >= 1.0 / rate
  }

  lemma OneToken(rate: real, elapsed: real)
    requires rate > 0.0 && elapsed >= 1.0 / rate
    ensures Earn(rate, elapsed) >= 1.0
  {
    assert elapsed * rate >= (1.0 / rate) * rate;
  }

  /** A UID that keeps to the rate is never refused. */
  lemma SpacedNeverRefused(rate: real, calls: seq<Arrival>, uid: nat, n: nat)
    requires rate >= 1.0 && Spaced(rate, calls, uid) && n < |calls| && calls[n].uid == uid
    ensures Admits(rate, After(rate, calls[..n]), calls[n])
  {
    hide After, Earn;
    BucketFacts(rate, calls[..n], uid);
    var m := After(rate, calls[..n]);
    if uid in m {
      var i :| 0 <= i < n && calls[..n][i].uid == uid && calls[..n][i].now == m[uid].last;
      assert calls[i].uid == uid;
      OneToken(rate, calls[n].now - m[uid].last);
    }
  }

  /** A UID not seen before can spend a burst of twice the rate at once, no more: of
      requests made at one moment the first `2 * rate` are admitted. */
  lemma {:induction false} BurstExact(rate: real, uid: nat, now: real, n: nat)
    requires rate >= 0.0
    ensures var calls := seq(n, i => Arrival(uid, now));
            var b := Lookup(After(rate, calls), uid);
            && (Admits(rate, After(rate, calls), Arrival(uid, now)) <==> n as real + 1.0 <= 2.0 * rate)
            && (b.Some? <==> n > 0)
            && (b.Some? ==> b.value.last == now && (n as real <= 2.0 * rate ==> b.value.tokens == 2.0 * rate - n as real))
            && (b.Some? && n as real > 2.0 * rate ==> 0.0 <= b.value.tokens < 1.0)
  {
    assert Earn(rate, 0.0) == 0.0;
    if n > 0 {
      hide Earn;
      BurstExact(rate, uid, now, n - 1);
      var (calls, front) := (seq(n, i => Arrival(uid, now)), seq(n - 1, i => Arrival(uid, now)));
      assert calls[..n - 1] == front && calls[n - 1] == Arrival(uid, now);
    }
  }

  /** A refused UID is admitted again exactly once the missing part of a token has been
      earned; after two seconds it has a full burst. */
  lemma WaitExact(rate: real, m: Buckets, uid: nat, now: real)
    requires rate >= 1.0 && uid in m && 0.0 <= m[uid].tokens < 1.0 && m[uid].last <= now
    ensures Admits(rate, m, Arrival(uid, now)) <==> m[uid].tokens + (now - m[uid].last) * rate >= 1.0
    ensures now >= m[uid].last + 2.0 ==> Available(rate, Some(m[uid]), now) == 2.0 * rate
  {
    if now >= m[uid].last + 2.0 { assert (now - m[uid].last) * rate >= 2.0 * rate; }
  }

  /** A refused request takes nothing: only the reading moves. */
  lemma RefusalIsFree(rate: real, m: Buckets, uid: nat, now: real)
    requires uid in m && m[uid].tokens <= 2.0 * rate && !Admits(rate, m, Arrival(uid, m[uid].last))
    ensures Consumed(rate, m, Arrival(uid, m[uid].last)) == m
  {
    assert Earn(rate, 0.0) == 0.0;
    assert m[uid := m[uid]] == m;
  }

  function Only(calls: seq<Arrival>, uid: nat): seq<Arrival> {
    if calls == [] then []
    else Only(calls[..|calls| - 1], uid) + if calls[|calls| - 1].uid == uid then [calls[|calls| - 1]] else []
  }

  /** Exactly the requests of this UID, each as often as it was made. */
  lemma {:induction false} OnlyOwn(calls: seq<Arrival>, uid: nat, a: Arrival)
    ensures multiset(Only(calls, uid))[a] == if a.uid == uid then multiset(calls)[a] else 0
  {
    if calls != [] {
      var n := |calls| - 1;
      OnlyOwn(calls[..n], uid, a);
      assert calls == calls[..n] + [calls[n]];
    }
  }

  /** No UID affects another: a bucket, and so every decision about its UID, is what
      it would be if the others had never called. */
  lemma {:induction false} NoInterference(rate: real, calls: seq<Arrival>, uid: nat)
    ensures Lookup(After(rate, calls), uid) == Lookup(After(rate, Only(calls, uid)), uid)
  {
    if calls != [] {
      var n := |calls| - 1;
      NoInterference(rate, calls[..n], uid);
      var mine := Only(calls[..n], uid);
      if calls[n].uid == uid {
        assert (mine + [calls[n]])[..|mine|] == mine;
      } else {
        assert mine + [] == mine;
        OthersUntouched(rate, After(rate, calls[..n]), calls[n], uid);
      }
    }
  }

  /** Why `WindowBound` asks for ordered readings, which a monotone clock read on one
      thread gives: readings taken out of order would earn the same time twice, and
      four requests would pass at one instant with a rate of one. */
  lemma BackwardClockBreaksBound()
    ensures var calls := [Arrival(0, 10.0), Arrival(0, 10.0), Arrival(0, 0.0), Arrival(0, 10.0), Arrival(0, 10.0)];
            Admitted(1.0, calls, 0, 10.0, 10.0) == 4
  {
    var a, z := Arrival(0, 10.0), Arrival(0, 0.0);
    var (r1, r2, r3, r4) := ([a], [a, a], [a, a, z], [a, a, z, a]);
    var calls := [a, a, z, a, a];
    assert calls[..4] == r4 && r4[..3] == r3 && r3[..2] == r2 && r2[..1] == r1 && r1[..0] == [];
    assert After(1.0, r1) == Consumed(1.0, map[], a) == map[0 := Bucket(1.0, 10.0)];
    assert After(1.0, r2) == Consumed(1.0, After(1.0, r1), a) == map[0 := Bucket(0.0, 10.0)];
    assert After(1.0, r3) == Consumed(1.0, After(1.0, r2), z) == map[0 := Bucket(0.0, 0.0)];
    assert After(1.0, r4) == Consumed(1.0, After(1.0, r3), a) == map[0 := Bucket(1.0, 10.0)];
    assert Admitted(1.0, r1, 0, 10.0, 10.0) == 1;
    assert Admitted(1.0, r2, 0, 10.0, 10.0) == 2;
    assert Admitted(1.0, r3, 0, 10.0, 10.0) == 2;
    assert Admitted(1.0, r4, 0, 10.0, 10.0) == 3;
  }

  // ============================================================ connection gate

  datatype Counts = Counts(global: nat, perUid: map<nat, nat>)
  datatype Caps = Caps(global: nat, perUid: nat)
  datatype Verdict = Accepted | GlobalCap(current: nat) | PerUidCap(uid: nat, current: nat)

  function CountOf(c: Counts, uid: nat): nat { if uid in c.perUid then c.perUid[uid] else 0 }

  /** The counters say exactly which guards are alive. */
  ghost predicate Balanced(c: Counts, live: multiset<nat>) {
    && c.global == |live|
    && (forall u :: u in c.perUid <==> u in live)
    && (forall u :: u in c.perUid ==> c.perUid[u] == live[u])
  }

  ghost predicate Capped(live: multiset<nat>, caps: Caps) {
    |live| <= caps.global && forall u :: u in live ==> live[u] <= caps.perUid
  }

  class ConnGate {
    const caps: Caps
    var counts: Counts
    ghost var live: multiset<nat>

    ghost predicate Valid()
      reads this
    {
      Balanced(counts, live) && Capped(live, caps)
    }

    constructor (c: Caps)
      ensures caps == c && live == multiset{} && Valid()
    {
      caps, counts, live := c, Counts(0, map[]), multiset{};
    }

    /** Refused exactly at a cap, the global one first. */
    method TryAdmit(uid: nat) returns (v: Verdict)
      requires Valid()
      modifies this
      ensures Valid()
      ensures v == if |old(live)| >= caps.global then GlobalCap(|old(live)|)
                   else if old(live)[uid] >= caps.perUid then PerUidCap(uid, old(live)[uid])
                   else Accepted
      ensures live == if v == Accepted then old(live) + multiset{uid} else old(live)
      ensures v != Accepted ==> counts == old(counts)
    {
      if counts.global >= caps.global { return GlobalCap(counts.global); }
      var n := CountOf(counts, uid);
      if n >= caps.perUid { return PerUidCap(uid, n); }
      counts := Counts(counts.global + 1, counts.perUid[uid := n + 1]);
      live := live + multiset{uid};
      return Accepted;
    }

    /** A guard goes away: no subtraction saturates, no zero entry stays behind. */
    method DropGuard(uid: nat)
      requires Valid() && uid in live
      modifies this
      ensures Valid() && live == old(live) - multiset{uid}
      ensures counts.global == old(counts).global - 1
    {
      var n := counts.perUid[uid];
      assert n >= 1 && counts.global >= 1;
      var left := if n == 0 then 0 else n - 1;
      counts := Counts(if counts.global == 0 then 0 else counts.global - 1,
                       if left == 0 then counts.perUid - {uid} else counts.perUid[uid := left]);
      live := live - multiset{uid};
    }
  }

  ghost function Sum(m: map<nat, nat>): nat {
    if m == map[] then 0
    else
      var u :| u in m;
      m[u] + Sum(m - {u})
  }

  ghost function Without(live: multiset<nat>, u: nat): multiset<nat> { live[u := 0] }

  /** The global count is the sum of the per-UID counts, and none of those is zero. */
  lemma {:induction false} GlobalIsSum(c: Counts, live: multiset<nat>)
    requires Balanced(c, live)
    ensures c.global == Sum(c.perUid)
    ensures forall u :: u in c.perUid ==> c.perUid[u] > 0
    decreases |c.perUid|
  {
    if c.perUid == map[] {
      assert live == multiset{};
    } else {
      var u :| u in c.perUid && Sum(c.perUid) == c.perUid[u] + Sum(c.perUid - {u});
      var rest := Without(live, u);
      assert live == rest + multiset{}[u := live[u]];
      assert |c.perUid - {u}| < |c.perUid| by { assert c.perUid.Keys == (c.perUid - {u}).Keys + {u}; }
      GlobalIsSum(Counts(|rest|, c.perUid - {u}), rest);
    }
  }
}

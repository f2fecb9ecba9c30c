/** A per-key sliding-window rate limiter, proved against the full history of what it accepted. */
module RateLimiter {
  import opened Wrappers

  type Key = string

  // ── counting over a full history ─────────────────────────────────────────

  /** How many of the times lie in the closed window. */
  function CountIn(times: seq<real>, from: real, to: real): nat {
    if |times| == 0 then 0
    else CountIn(times[..|times| - 1], from, to) + if from <= times[|times| - 1] <= to then 1 else 0
  }

  /** The rule on a full history: fewer than the limit in the window that ends now. */
  predicate Admits(times: seq<real>, limit: int, window: real, now: real) {
    CountIn(times, now - window, now) < limit
  }

  predicate AllBelow(times: seq<real>, bound: real) { forall i | 0 <= i < |times| :: times[i] < bound }

  predicate AllUpTo(times: seq<real>, bound: real) { forall i | 0 <= i < |times| :: times[i] <= bound }

  predicate AllFrom(times: seq<real>, bound: real) { forall i | 0 <= i < |times| :: times[i] >= bound }

  predicate Ordered(times: seq<real>) { forall i, j | 0 <= i < j < |times| :: times[i] <= times[j] }

  /** Each accepted event found fewer than `limit` accepted ones in the window that ends at it. */
  predicate EachAdmitted(times: seq<real>, limit: int, window: real) {
    forall i | 0 <= i < |times| :: Admitted(times, i, limit, window)
  }

  predicate Admitted(times: seq<real>, i: nat, limit: int, window: real)
    requires i < |times|
  {
    CountIn(times[..i], times[i] - window, times[i]) < limit
  }

  lemma {:induction false} CountGrowsWithWindow(times: seq<real>, from: real, to: real, earlier: real, later: real)
    requires earlier <= from && to <= later
    ensures CountIn(times, from, to) <= CountIn(times, earlier, later)
    decreases |times|
  {
    if |times| > 0 {
      CountGrowsWithWindow(times[..|times| - 1], from, to, earlier, later);
    }
  }

  lemma {:induction false} CountNothing(times: seq<real>, from: real, to: real)
    requires AllBelow(times, from)
    ensures CountIn(times, from, to) == 0
    decreases |times|
  {
    if |times| > 0 {
      CountNothing(times[..|times| - 1], from, to);
    }
  }

  lemma {:induction false} CountEverything(times: seq<real>, from: real, to: real)
    requires AllFrom(times, from) && AllUpTo(times, to)
    ensures CountIn(times, from, to) == |times|
    decreases |times|
  {
    if |times| > 0 {
      CountEverything(times[..|times| - 1], from, to);
    }
  }

  lemma {:induction false} CountAppend(a: seq<real>, b: seq<real>, from: real, to: real)
    ensures CountIn(a + b, from, to) == CountIn(a, from, to) + CountIn(b, from, to)
    decreases |b|
  {
    if |b| == 0 {
      assert a + b == a;
    } else {
      assert (a + b)[..|a + b| - 1] == a + b[..|b| - 1];
      CountAppend(a, b[..|b| - 1], from, to);
    }
  }

  /** Checking only the window that ends at each event bounds every window of that length, at
      whatever instant it starts. */
  lemma {:induction false} EveryWindowIsBounded(times: seq<real>, limit: int, window: real, start: real)
    requires Ordered(times) && EachAdmitted(times, limit, window)
    ensures CountIn(times, start, start + window) <= Max(0, limit)
    decreases |times|
  {
    if |times| > 0 {
      var n := |times| - 1;
      var before, last := times[..n], times[n];
      if start <= last <= start + window {
        assert Admitted(times, n, limit, window);
        CountGrowsWithWindow(before, start, last, last - window, last);
        NoneLater(before, start, last, start + window);
      } else {
        forall i | 0 <= i < n ensures Admitted(before, i, limit, window) {
          assert Admitted(times, i, limit, window) && before[..i] == times[..i];
        }
        EveryWindowIsBounded(before, limit, window, start);
      }
    }
  }

  lemma {:induction false} NoneLater(times: seq<real>, from: real, last: real, to: real)
    requires AllUpTo(times, last) && last <= to
    ensures CountIn(times, from, to) == CountIn(times, from, last)
    decreases |times|
  {
    if |times| > 0 {
      NoneLater(times[..|times| - 1], from, last, to);
    }
  }

  lemma OrderedFrom(q: seq<real>, cutoff: real)
    requires Ordered(q) && (|q| == 0 || q[0] >= cutoff)
    ensures AllFrom(q, cutoff)
  {
  }

  /** Once the old events are gone the queue's length is the history's count. */
  lemma QueueCountsHistory(full: seq<real>, q: seq<real>, cutoff: real, now: real)
    requires |q| <= |full| && q == full[|full| - |q|..] && Ordered(full)
    requires AllBelow(full[..|full| - |q|], cutoff) && AllUpTo(full, now) && (|q| == 0 || q[0] >= cutoff)
    ensures CountIn(full, cutoff, now) == |q|
  {
    var gone := full[..|full| - |q|];
    assert full == gone + q;
    CountAppend(gone, q, cutoff, now);
    CountNothing(gone, cutoff, now);
    OrderedFrom(q, cutoff);
    CountEverything(q, cutoff, now);
  }

  /** A queue stands for a full history: it is a suffix of it, what it forgot is too old to
      matter at any later time, and the history was itself admitted event by event. */
  predicate StandsFor(q: seq<real>, full: seq<real>, limit: int, window: real, clock: real) {
    && |q| <= |full| && q == full[|full| - |q|..]
    && AllBelow(full[..|full| - |q|], clock - window)
    && Ordered(full) && AllUpTo(full, clock) && EachAdmitted(full, limit, window)
  }

  lemma StandsLater(q: seq<real>, full: seq<real>, limit: int, window: real, clock: real, now: real)
    requires StandsFor(q, full, limit, window, clock) && clock <= now
    ensures StandsFor(q, full, limit, window, now)
  {
  }

  lemma StandsAfterAdmitting(q: seq<real>, full: seq<real>, limit: int, window: real, now: real)
    requires StandsFor(q, full, limit, window, now) && CountIn(full, now - window, now) < limit
    ensures StandsFor(q + [now], full + [now], limit, window, now)
  {
    var grown, gone := full + [now], |full| - |q|;
    assert grown[gone..] == q + [now] && grown[..gone] == full[..gone];
    forall i | 0 <= i < |grown| ensures Admitted(grown, i, limit, window) {
      if i < |full| {
        assert Admitted(full, i, limit, window) && grown[..i] == full[..i];
      } else {
        assert grown[..i] == full;
      }
    }
  }

  lemma StandsWithoutOldest(q: seq<real>, full: seq<real>, limit: int, window: real, now: real)
    requires StandsFor(q, full, limit, window, now) && |q| > 0 && q[0] < now - window
    ensures StandsFor(q[1..], full, limit, window, now)
  {
    var gone := |full| - |q|;
    assert full[gone] == q[0] && full[..gone + 1] == full[..gone] + [q[0]];
    assert q[1..] == full[gone + 1..];
  }

  /** With the old events gone, the queue's length decides as the history does. */
  lemma AnswersAsHistory(q: seq<real>, full: seq<real>, limit: int, window: real, now: real)
    requires StandsFor(q, full, limit, window, now) && (|q| == 0 || q[0] >= now - window)
    ensures Admits(full, limit, window, now) <==> |q| < limit
    ensures |q| < limit ==> StandsFor(q + [now], full + [now], limit, window, now)
  {
    QueueCountsHistory(full, q, now - window, now);
    if |q| < limit {
      StandsAfterAdmitting(q, full, limit, window, now);
    }
  }

  function At(table: map<Key, seq<real>>, key: Key): seq<real> { if key in table then table[key] else [] }

  predicate AllStand(hits: map<Key, seq<real>>, full: map<Key, seq<real>>, limit: int, window: real, clock: real) {
    forall key <- hits.Keys + full.Keys :: StandsFor(At(hits, key), At(full, key), limit, window, clock)
  }

  lemma AllStandAfter(hits: map<Key, seq<real>>, full: map<Key, seq<real>>, limit: int, window: real, clock: real,
                      key: Key, q: seq<real>, whole: seq<real>, now: real)
    requires AllStand(hits, full, limit, window, clock) && clock <= now
    requires StandsFor(q, whole, limit, window, now)
    ensures AllStand(hits[key := q], full[key := whole], limit, window, now)
  {
    var hits', full' := hits[key := q], full[key := whole];
    forall k <- hits'.Keys + full'.Keys ensures StandsFor(At(hits', k), At(full', k), limit, window, now) {
      if k != key {
        assert k in hits.Keys + full.Keys && At(hits', k) == At(hits, k) && At(full', k) == At(full, k);
        StandsLater(At(hits, k), At(full, k), limit, window, clock, now);
      } else {
        assert At(hits', k) == q && At(full', k) == whole;
      }
    }
  }

  // ── the limiter ──────────────────────────────────────────────────────────

  class Limiter {
    const limit: int
    const window: real
    var hits: map<Key, seq<real>>
    /** What was accepted for each key since the last clear, and the latest time seen. */
    ghost var accepted: map<Key, seq<real>>
    ghost var clock: real

    ghost function Accepted(key: Key): seq<real>
      reads this
    {
      At(accepted, key)
    }

    ghost predicate Valid()
      reads this
    {
      AllStand(hits, accepted, limit, window, clock)
    }

    constructor (limit: int, window: real, ghost start: real)
      ensures Valid() && this.limit == limit && this.window == window && clock == start
      ensures forall key: Key :: Accepted(key) == []
    {
      this.limit, this.window := limit, window;
      hits, accepted, clock := map[], map[], start;
    }

    /** The answer is the one that counting the key's whole history would give. */
    method Allow(key: Key, now: real) returns (ok: bool)
      requires Valid() && now >= clock
      modifies this
      ensures Valid() && clock == now
      ensures ok <==> CountIn(old(Accepted(key)), now - window, now) < limit
      ensures accepted == old(accepted)[key := if ok then old(Accepted(key)) + [now] else old(Accepted(key))]
    {
      var q := At(hits, key);
      ghost var full := At(accepted, key);
      if key in hits.Keys + accepted.Keys {
        StandsLater(q, full, limit, window, clock, now);
      }
      while |q| > 0 && q[0] < now - window
        invariant StandsFor(q, full, limit, window, now)
        modifies {}
      {
        StandsWithoutOldest(q, full, limit, window, now);
        q := q[1..];
      }
      AnswersAsHistory(q, full, limit, window, now);
      ok := |q| < limit;
      if ok {
        q := q + [now];
        full := full + [now];
      }
      AllStandAfter(hits, accepted, limit, window, clock, key, q, full, now);
      hits := hits[key := q];
      accepted := accepted[key := full];
      clock := now;
    }

    method Clear()
      requires Valid()
      modifies this
      ensures Valid() && clock == old(clock)
      ensures forall key: Key :: Accepted(key) == []
    {
      hits := map[];
      accepted := map[];
    }

    /** At every moment of every run, no window of the limiter's length holds more than the
        limit, for any key and at whatever instant the window starts. */
    lemma NoWindowOverflows(key: Key, start: real)
      requires Valid()
      ensures CountIn(Accepted(key), start, start + window) <= Max(0, limit)
    {
      if key in accepted {
        EveryWindowIsBounded(Accepted(key), limit, window, start);
      }
    }
  }
}

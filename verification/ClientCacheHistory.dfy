/** The client cache against the history of its calls: which keys are cached, which
    client a hit returns, and what becomes of every client ever built. */
module ClientCacheHistory {
  import opened Wrappers
  import opened ClientCache

  // ── what a history says about a key ──────────────────────────────────────

  predicate Serves(cfg: Config, s: State, c: Call, k: Key) {
    c.Get? && c.key == k && Returned(cfg, s, c).Some?
  }

  /** A drop that covers the key, or a get of it that returned no client. */
  predicate Forgets(cfg: Config, s: State, c: Call, k: Key) {
    if c.Drop? then Matches(c.target, k) else c.key == k && Returned(cfg, s, c).None?
  }

  /** The call that last served a key, unless the key has been dropped since. */
  function LastServe(cfg: Config, calls: seq<Call>, k: Key): Option<nat> {
    if |calls| == 0 then None
    else
      var n := |calls| - 1;
      var s := Run(cfg, calls[..n]);
      if Serves(cfg, s, calls[n], k) then Some(n)
      else if Forgets(cfg, s, calls[n], k) then None
      else LastServe(cfg, calls[..n], k)
  }

  function Left(keys: seq<Key>, t: Target): seq<Key> {
    if |keys| == 0 then []
    else Left(keys[..|keys| - 1], t) + (if Matches(t, keys[|keys| - 1]) then [] else [keys[|keys| - 1]])
  }

  function Touched(c: Call): Target { if c.Drop? then c.target else One(c.key) }

  function Served(cfg: Config, s: State, c: Call): seq<Key> {
    if c.Get? && Returned(cfg, s, c).Some? then [c.key] else []
  }

  /** The live keys of a history, the least recently served first, as if nothing were
      ever evicted. */
  function Live(cfg: Config, calls: seq<Call>): seq<Key> {
    if |calls| == 0 then []
    else
      var n := |calls| - 1;
      Left(Live(cfg, calls[..n]), Touched(calls[n])) + Served(cfg, Run(cfg, calls[..n]), calls[n])
  }

  // ── filters ──────────────────────────────────────────────────────────────

  lemma {:induction false} LeftMembers(keys: seq<Key>, t: Target, k: Key)
    ensures k in Left(keys, t) <==> k in keys && !Matches(t, k)
    decreases |keys|
  {
    if |keys| > 0 {
      LeftMembers(keys[..|keys| - 1], t, k);
      assert keys == keys[..|keys| - 1] + [keys[|keys| - 1]];
    }
  }

  lemma {:induction false} LeftAppend(a: seq<Key>, b: seq<Key>, t: Target)
    ensures Left(a + b, t) == Left(a, t) + Left(b, t)
    decreases |b|
  {
    if |b| == 0 {
      assert a + b == a;
    } else {
      var n := |b| - 1;
      assert (a + b)[..|a + b| - 1] == a + b[..n];
      LeftAppend(a, b[..n], t);
    }
  }

  function Keys(cache: seq<Slot>): seq<Key> { seq(|cache|, i requires 0 <= i < |cache| => cache[i].key) }

  lemma {:induction false} SurvivorKeys(cache: seq<Slot>, t: Target)
    ensures Keys(Survivors(cache, t)) == Left(Keys(cache), t)
    decreases |cache|
  {
    if |cache| > 0 {
      var n := |cache| - 1;
      SurvivorKeys(cache[..n], t);
      assert Keys(cache)[..n] == Keys(cache[..n]);
    }
  }

  // ── the live keys are ordered by their last serve ────────────────────────

  ghost predicate OrderedByServe(cfg: Config, calls: seq<Call>, keys: seq<Key>) {
    && (forall i | 0 <= i < |keys| :: LastServe(cfg, calls, keys[i]).Some?)
    && (forall i, j | 0 <= i < j < |keys| ::
          LastServe(cfg, calls, keys[i]).value < LastServe(cfg, calls, keys[j]).value)
  }

  lemma LastServeBound(cfg: Config, calls: seq<Call>, k: Key)
    ensures LastServe(cfg, calls, k).Some? ==> LastServe(cfg, calls, k).value < |calls|
  {
  }

  lemma ServedAfterAll(cfg: Config, calls: seq<Call>, keys: seq<Key>, last: Key)
    requires OrderedByServe(cfg, calls, keys) && LastServe(cfg, calls, last).Some?
    requires forall k <- keys :: LastServe(cfg, calls, k).Some? &&
                                 LastServe(cfg, calls, k).value < LastServe(cfg, calls, last).value
    ensures OrderedByServe(cfg, calls, keys + [last])
  {
    var all := keys + [last];
    forall i, j | 0 <= i < j < |all|
      ensures LastServe(cfg, calls, all[i]).Some? && LastServe(cfg, calls, all[j]).Some?
      ensures LastServe(cfg, calls, all[i]).value < LastServe(cfg, calls, all[j]).value
    {
      assert all[i] in keys;
    }
  }

  /** Leaving some keys out keeps the order of the others. */
  lemma {:induction false} LeftIsOrdered(cfg: Config, calls: seq<Call>, keys: seq<Key>, t: Target)
    requires OrderedByServe(cfg, calls, keys)
    ensures OrderedByServe(cfg, calls, Left(keys, t))
    decreases |keys|
  {
    if |keys| > 0 {
      var init, last := keys[..|keys| - 1], keys[|keys| - 1];
      LeftIsOrdered(cfg, calls, init, t);
      if !Matches(t, last) {
        forall k <- Left(init, t)
          ensures LastServe(cfg, calls, k).Some? && LastServe(cfg, calls, k).value < LastServe(cfg, calls, last).value
        {
          LeftMembers(init, t, k);
          var i :| 0 <= i < |init| && init[i] == k;
          assert keys[i] == k;
        }
        ServedAfterAll(cfg, calls, Left(init, t), last);
      }
    }
  }

  /** A call leaves the last serve of the keys it does not touch. */
  lemma UntouchedKeepsServe(cfg: Config, calls: seq<Call>, k: Key)
    requires |calls| > 0 && !Matches(Touched(calls[|calls| - 1]), k)
    ensures LastServe(cfg, calls, k) == LastServe(cfg, calls[..|calls| - 1], k)
  {
  }

  lemma SameServesSameOrder(cfg: Config, before: seq<Call>, calls: seq<Call>, keys: seq<Key>)
    requires OrderedByServe(cfg, before, keys)
    requires forall k <- keys :: LastServe(cfg, calls, k) == LastServe(cfg, before, k)
    ensures OrderedByServe(cfg, calls, keys)
  {
    assert forall i | 0 <= i < |keys| :: keys[i] in keys;
  }

  /** The first part of the order: what is left after a call was served before it. */
  lemma LeftStaysOrdered(cfg: Config, calls: seq<Call>, keys: seq<Key>)
    requires |calls| > 0 && OrderedByServe(cfg, calls[..|calls| - 1], keys)
    ensures var left := Left(keys, Touched(calls[|calls| - 1]));
            && OrderedByServe(cfg, calls, left)
            && forall k <- left :: LastServe(cfg, calls, k).Some? && LastServe(cfg, calls, k).value < |calls| - 1
  {
    var before, t := calls[..|calls| - 1], Touched(calls[|calls| - 1]);
    var left := Left(keys, t);
    LeftIsOrdered(cfg, before, keys, t);
    forall k <- left
      ensures LastServe(cfg, calls, k) == LastServe(cfg, before, k)
      ensures LastServe(cfg, before, k).Some? && LastServe(cfg, before, k).value < |before|
    {
      LeftMembers(keys, t, k);
      UntouchedKeepsServe(cfg, calls, k);
      LastServeBound(cfg, before, k);
      var i :| 0 <= i < |left| && left[i] == k;
    }
    SameServesSameOrder(cfg, before, calls, left);
  }

  lemma LiveMembers(cfg: Config, calls: seq<Call>, k: Key)
    requires |calls| > 0
    requires k in Live(cfg, calls[..|calls| - 1]) <==> LastServe(cfg, calls[..|calls| - 1], k).Some?
    ensures k in Live(cfg, calls) <==> LastServe(cfg, calls, k).Some?
  {
    LeftMembers(Live(cfg, calls[..|calls| - 1]), Touched(calls[|calls| - 1]), k);
  }

  lemma ServedGoesLast(cfg: Config, calls: seq<Call>, left: seq<Key>)
    requires |calls| > 0 && OrderedByServe(cfg, calls, left)
    requires forall k <- left :: LastServe(cfg, calls, k).Some? && LastServe(cfg, calls, k).value < |calls| - 1
    ensures OrderedByServe(cfg, calls, left + Served(cfg, Run(cfg, calls[..|calls| - 1]), calls[|calls| - 1]))
  {
    var served := Served(cfg, Run(cfg, calls[..|calls| - 1]), calls[|calls| - 1]);
    if served != [] {
      assert LastServe(cfg, calls, served[0]) == Some(|calls| - 1);
    }
  }

  /** The live keys are exactly those with a last serve, in the order of those serves. */
  lemma {:induction false} LiveIsOrdered(cfg: Config, calls: seq<Call>)
    ensures OrderedByServe(cfg, calls, Live(cfg, calls))
    ensures forall k :: k in Live(cfg, calls) <==> LastServe(cfg, calls, k).Some?
    decreases |calls|
  {
    if |calls| > 0 {
      var n := |calls| - 1;
      var before := Live(cfg, calls[..n]);
      LiveIsOrdered(cfg, calls[..n]);
      LeftStaysOrdered(cfg, calls, before);
      ServedGoesLast(cfg, calls, Left(before, Touched(calls[n])));
      forall k
        ensures k in Live(cfg, calls) <==> LastServe(cfg, calls, k).Some?
      {
        LiveMembers(cfg, calls, k);
      }
    }
  }

  // ── the cache is the recent end of the live keys ─────────────────────────

  predicate IsSuffix(a: seq<Key>, b: seq<Key>) { |a| <= |b| && a == b[|b| - |a|..] }

  lemma SuffixSurvives(a: seq<Key>, b: seq<Key>, t: Target, more: seq<Key>)
    requires IsSuffix(a, b)
    ensures IsSuffix(Left(a, t) + more, Left(b, t) + more)
  {
    var older := b[..|b| - |a|];
    assert b == older + a;
    LeftAppend(older, a, t);
    EndIsSuffix(Left(older, t), Left(a, t), more);
  }

  lemma EndIsSuffix(older: seq<Key>, a: seq<Key>, more: seq<Key>)
    ensures IsSuffix(a + more, older + a + more)
  {
    assert older + a + more == older + (a + more);
  }

  /** The keys a call leaves cached, before any eviction. */
  function Kept(cfg: Config, s: State, c: Call): seq<Key> {
    Left(Keys(s.cache), Touched(c)) + Served(cfg, s, c)
  }

  lemma NextKeys(cfg: Config, s: State, c: Call)
    requires |s.cache| <= cfg.max
    ensures var kept := Kept(cfg, s, c);
            Keys(Next(cfg, s, c).cache) == if |kept| <= cfg.max then kept else kept[|kept| - cfg.max..]
  {
    SurvivorKeys(s.cache, Touched(c));
    LeftShrinks(Keys(s.cache), Touched(c));
    if c.Get? && IsHit(cfg, s, c.key, c.now) {
      LeftDrops(Keys(s.cache), One(c.key), Find(s.cache, c.key));
    }
  }

  lemma {:induction false} LeftShrinks(keys: seq<Key>, t: Target)
    ensures |Left(keys, t)| <= |keys|
    decreases |keys|
  {
    if |keys| > 0 {
      LeftShrinks(keys[..|keys| - 1], t);
    }
  }

  lemma LeftDrops(keys: seq<Key>, t: Target, i: nat)
    requires i < |keys| && Matches(t, keys[i])
    ensures |Left(keys, t)| < |keys|
  {
    assert keys == keys[..i] + ([keys[i]] + keys[i + 1..]);
    LeftAppend(keys[..i], [keys[i]] + keys[i + 1..], t);
    LeftAppend([keys[i]], keys[i + 1..], t);
    LeftShrinks(keys[..i], t);
    LeftShrinks(keys[i + 1..], t);
    assert [keys[i]][..0] == [];
  }

  lemma EvictionLeavesSuffix(a: seq<Key>, b: seq<Key>, max: nat)
    requires IsSuffix(a, b)
    ensures var left := if |a| <= max then a else a[|a| - max..];
            IsSuffix(left, b) && |left| <= max
  {
  }

  /** What a call keeps is still the recent end of the live keys, evicted or not. */
  lemma NextIsSuffix(cfg: Config, calls: seq<Call>)
    requires |calls| > 0
    requires IsSuffix(Keys(Run(cfg, calls[..|calls| - 1]).cache), Live(cfg, calls[..|calls| - 1]))
    requires |Run(cfg, calls[..|calls| - 1]).cache| <= cfg.max
    ensures IsSuffix(Kept(cfg, Run(cfg, calls[..|calls| - 1]), calls[|calls| - 1]), Live(cfg, calls))
    ensures IsSuffix(Keys(Run(cfg, calls).cache), Live(cfg, calls)) && |Keys(Run(cfg, calls).cache)| <= cfg.max
  {
    var n := |calls| - 1;
    var s, c := Run(cfg, calls[..n]), calls[n];
    NextKeys(cfg, s, c);
    SuffixSurvives(Keys(s.cache), Live(cfg, calls[..n]), Touched(c), Served(cfg, s, c));
    EvictionLeavesSuffix(Kept(cfg, s, c), Live(cfg, calls), cfg.max);
  }

  /** After any calls the cached keys are the most recently served live keys, in that
      order, and there are at most `max` of them. */
  lemma {:induction false} CacheIsMostRecentLive(cfg: Config, calls: seq<Call>)
    ensures IsSuffix(Keys(Run(cfg, calls).cache), Live(cfg, calls))
    ensures |Run(cfg, calls).cache| <= cfg.max
    decreases |calls|
  {
    if |calls| > 0 {
      CacheIsMostRecentLive(cfg, calls[..|calls| - 1]);
      NextIsSuffix(cfg, calls);
    }
  }

  // ── exactly which keys are cached ────────────────────────────────────────

  /** How many keys stand after a key's last occurrence. */
  function Newer(keys: seq<Key>, k: Key): nat {
    if |keys| == 0 || keys[|keys| - 1] == k then 0 else 1 + Newer(keys[..|keys| - 1], k)
  }

  lemma {:induction false} InSuffix(a: seq<Key>, b: seq<Key>, k: Key)
    requires IsSuffix(a, b)
    ensures k in a <==> k in b && Newer(b, k) < |a|
    ensures k in a ==> Newer(a, k) == Newer(b, k)
    decreases |b|
  {
    if |a| > 0 {
      var n, m := |a| - 1, |b| - 1;
      assert a[n] == b[m] && a[..n] == b[..m][m - n..];
      assert a == a[..n] + [a[n]] && b == b[..m] + [b[m]];
      InSuffix(a[..n], b[..m], k);
    }
  }

  lemma KeptMembers(cfg: Config, s: State, c: Call, k: Key)
    ensures k in Kept(cfg, s, c) <==> Serves(cfg, s, c, k) || (k in Keys(s.cache) && !Forgets(cfg, s, c, k))
  {
    LeftMembers(Keys(s.cache), Touched(c), k);
  }

  /** Of the keys a call leaves, eviction keeps those with room among the more recent. */
  lemma KeptIsCached(kept: seq<Key>, live: seq<Key>, k: Key, max: nat)
    requires IsSuffix(kept, live)
    ensures var cached := if |kept| <= max then kept else kept[|kept| - max..];
            k in cached <==> k in kept && Newer(live, k) < max
  {
    var cached := if |kept| <= max then kept else kept[|kept| - max..];
    EvictionLeavesSuffix(kept, live, max);
    InSuffix(kept, live, k);
    InSuffix(cached, live, k);
  }

  /** One call keeps a cached key exactly when it does not drop it and leaves fewer than
      `max` live keys more recent. */
  lemma OneCallKeeps(cfg: Config, calls: seq<Call>, k: Key)
    requires |calls| > 0
    ensures var n := |calls| - 1;
            var s := Run(cfg, calls[..n]);
            k in Keys(Run(cfg, calls).cache) <==>
              && (Serves(cfg, s, calls[n], k) || (k in Keys(s.cache) && !Forgets(cfg, s, calls[n], k)))
              && Newer(Live(cfg, calls), k) < cfg.max
  {
    var n := |calls| - 1;
    var s, c := Run(cfg, calls[..n]), calls[n];
    var kept := Kept(cfg, s, c);
    CacheIsMostRecentLive(cfg, calls[..n]);
    NextIsSuffix(cfg, calls);
    NextKeys(cfg, s, c);
    KeptMembers(cfg, s, c, k);
    KeptIsCached(kept, Live(cfg, calls), k, cfg.max);
  }

  /** After the first `n` calls, fewer than `max` live keys are more recent than `k`. */
  ghost predicate WithinMax(cfg: Config, calls: seq<Call>, k: Key, n: nat)
    requires n <= |calls|
  {
    Newer(Live(cfg, calls[..n]), k) < cfg.max
  }

  /** At every moment since call `i`. */
  ghost predicate NeverOutranked(cfg: Config, calls: seq<Call>, k: Key, i: nat) {
    forall n | i < n <= |calls| :: WithinMax(cfg, calls, k, n)
  }

  lemma EarlierMoments(cfg: Config, calls: seq<Call>, k: Key, n: nat)
    requires n < |calls|
    ensures WithinMax(cfg, calls, k, n) <==> WithinMax(cfg, calls[..|calls| - 1], k, n)
  {
    assert calls[..|calls| - 1][..n] == calls[..n];
  }

  lemma NeverOutrankedBefore(cfg: Config, calls: seq<Call>, k: Key, i: nat)
    requires i < |calls| && NeverOutranked(cfg, calls, k, i)
    ensures NeverOutranked(cfg, calls[..|calls| - 1], k, i)
  {
    var before := calls[..|calls| - 1];
    forall n | i < n <= |before|
      ensures WithinMax(cfg, before, k, n)
    {
      assert WithinMax(cfg, calls, k, n);
      EarlierMoments(cfg, calls, k, n);
    }
  }

  lemma NeverOutrankedAfter(cfg: Config, calls: seq<Call>, k: Key, i: nat)
    requires i < |calls| && NeverOutranked(cfg, calls[..|calls| - 1], k, i) && WithinMax(cfg, calls, k, |calls|)
    ensures NeverOutranked(cfg, calls, k, i)
  {
    var before := calls[..|calls| - 1];
    forall n | i < n <= |calls|
      ensures WithinMax(cfg, calls, k, n)
    {
      if n < |calls| {
        assert WithinMax(cfg, before, k, n);
        EarlierMoments(cfg, calls, k, n);
      }
    }
  }

  lemma OneCallLonger(cfg: Config, calls: seq<Call>, k: Key, i: nat)
    requires i < |calls|
    ensures NeverOutranked(cfg, calls, k, i)
       <==> NeverOutranked(cfg, calls[..|calls| - 1], k, i) && WithinMax(cfg, calls, k, |calls|)
  {
    if NeverOutranked(cfg, calls, k, i) {
      NeverOutrankedBefore(cfg, calls, k, i);
      assert WithinMax(cfg, calls, k, |calls|);
    } else if WithinMax(cfg, calls, k, |calls|) && NeverOutranked(cfg, calls[..|calls| - 1], k, i) {
      NeverOutrankedAfter(cfg, calls, k, i);
    }
  }

  /** A key is cached exactly when it is live and, at every moment since it was last
      served, fewer than `max` live keys had been served more recently. */
  lemma {:induction false} CachedIffNeverOutranked(cfg: Config, calls: seq<Call>, k: Key)
    ensures k in Keys(Run(cfg, calls).cache) <==>
              LastServe(cfg, calls, k).Some? && NeverOutranked(cfg, calls, k, LastServe(cfg, calls, k).value)
    decreases |calls|
  {
    if |calls| > 0 {
      OneCallKeeps(cfg, calls, k);
      CachedIffNeverOutranked(cfg, calls[..|calls| - 1], k);
      LastServeBound(cfg, calls, k);
      if LastServe(cfg, calls, k).Some? {
        OneCallLonger(cfg, calls, k, LastServe(cfg, calls, k).value);
        assert calls[..|calls|] == calls;
      }
    }
  }

  // ── every client is open and cached, or was disposed once ────────────────

  /** How often a client stands in the cache and the disposal log together. */
  function Copies(s: State, c: ClientId): nat {
    multiset(Clients(s.cache))[c] + multiset(s.closed)[c]
  }

  /** Each client built so far stands exactly once in the cache or in the disposal log. */
  ghost predicate AccountedFor(s: State) {
    forall c: ClientId :: Copies(s, c) == if c < |s.born| then 1 else 0
  }

  ghost predicate DistinctKeys(cache: seq<Slot>) {
    forall i, j | 0 <= i < j < |cache| :: cache[i].key != cache[j].key
  }

  lemma ClientsAppend(a: seq<Slot>, b: seq<Slot>)
    ensures Clients(a + b) == Clients(a) + Clients(b)
  {
  }

  lemma CountSnoc(ids: seq<ClientId>, x: ClientId, c: ClientId)
    ensures multiset(ids + [x])[c] == multiset(ids)[c] + if x == c then 1 else 0
  {
  }

  lemma ClientsSnoc(cache: seq<Slot>, slot: Slot, c: ClientId)
    ensures multiset(Clients(cache + [slot]))[c] == multiset(Clients(cache))[c] + if slot.client == c then 1 else 0
  {
    ClientsAppend(cache, [slot]);
    CountSnoc(Clients(cache), slot.client, c);
  }

  lemma {:induction false} DropMovesClients(cache: seq<Slot>, t: Target, c: ClientId)
    ensures multiset(Clients(Survivors(cache, t)))[c] + multiset(Victims(cache, t))[c] == multiset(Clients(cache))[c]
    decreases |cache|
  {
    if |cache| > 0 {
      var init, last := cache[..|cache| - 1], cache[|cache| - 1];
      DropMovesClients(init, t, c);
      assert cache == init + [last];
      ClientsSnoc(init, last, c);
      LastMoves(init, last, t, c);
    }
  }

  /** The last slot ends up on one side of a drop. */
  lemma LastMoves(init: seq<Slot>, last: Slot, t: Target, c: ClientId)
    ensures multiset(Clients(Survivors(init + [last], t)))[c] + multiset(Victims(init + [last], t))[c] ==
            multiset(Clients(Survivors(init, t)))[c] + multiset(Victims(init, t))[c] + if last.client == c then 1 else 0
  {
    assert (init + [last])[..|init|] == init;
    if Matches(t, last.key) {
      CountSnoc(Victims(init, t), last.client, c);
      assert Survivors(init + [last], t) == Survivors(init, t);
    } else {
      ClientsSnoc(Survivors(init, t), last, c);
      assert Victims(init + [last], t) == Victims(init, t);
    }
  }

  lemma {:induction false} SurvivorsAreSlots(cache: seq<Slot>, t: Target)
    ensures forall slot <- Survivors(cache, t) :: slot in cache && !Matches(t, slot.key)
    ensures DistinctKeys(cache) ==> DistinctKeys(Survivors(cache, t))
    decreases |cache|
  {
    if |cache| > 0 {
      var n := |cache| - 1;
      SurvivorsAreSlots(cache[..n], t);
      if DistinctKeys(cache) {
        assert DistinctKeys(cache[..n]);
        forall slot <- Survivors(cache[..n], t)
          ensures slot.key != cache[n].key
        {
          assert slot in cache[..n];
        }
      }
    }
  }

  lemma {:induction false} OneVictim(cache: seq<Slot>, k: Key)
    requires DistinctKeys(cache)
    ensures Victims(cache, One(k)) == if Find(cache, k) < |cache| then [cache[Find(cache, k)].client] else []
    decreases |cache|
  {
    if |cache| > 0 {
      var n := |cache| - 1;
      assert DistinctKeys(cache[..n]);
      OneVictim(cache[..n], k);
      if cache[n].key == k {
        assert Find(cache[..n], k) == n;
      }
    }
  }

  lemma EvictMovesClients(s: State, max: nat, c: ClientId)
    ensures Copies(Evict(s, max), c) == Copies(s, c)
  {
    if |s.cache| > max {
      var n := |s.cache| - max;
      assert s.cache == s.cache[..n] + s.cache[n..];
      ClientsAppend(s.cache[..n], s.cache[n..]);
    }
  }

  lemma DropKeepsCopies(s: State, t: Target, c: ClientId)
    ensures Copies(DropAll(s, t), c) == Copies(s, c)
  {
    DropMovesClients(s.cache, t, c);
  }

  lemma PutAddsCopy(cfg: Config, s: State, k: Key, ready: real, c: ClientId)
    ensures Copies(Put(cfg, s, k, ready), c) == Copies(s, c) + (if c == |s.born| then 1 else 0)
  {
    var slot := Slot(k, |s.born|, ready);
    ClientsAppend(s.cache, [slot]);
    EvictMovesClients(State(s.cache + [slot], s.born + [ready], s.closed), cfg.max, c);
  }

  lemma PutKeepsKeys(cfg: Config, s: State, k: Key, ready: real)
    requires DistinctKeys(s.cache) && forall slot <- s.cache :: slot.key != k
    ensures DistinctKeys(Put(cfg, s, k, ready).cache)
  {
  }

  lemma HitKeepsCopies(s: State, k: Key, c: ClientId)
    requires DistinctKeys(s.cache) && Find(s.cache, k) < |s.cache|
    ensures Copies(s.(cache := Survivors(s.cache, One(k)) + [s.cache[Find(s.cache, k)]]), c) == Copies(s, c)
  {
    DropMovesClients(s.cache, One(k), c);
    OneVictim(s.cache, k);
    ClientsAppend(Survivors(s.cache, One(k)), [s.cache[Find(s.cache, k)]]);
  }

  lemma NextCopies(cfg: Config, s: State, call: Call, c: ClientId)
    requires DistinctKeys(s.cache)
    ensures Copies(Next(cfg, s, call), c)
         == Copies(s, c) + (if |s.born| == c < |Next(cfg, s, call).born| then 1 else 0)
    ensures |s.born| <= |Next(cfg, s, call).born| <= |s.born| + 1
  {
    match call
    case Drop(t) => DropKeepsCopies(s, t, c);
    case Get(k, now, ready, loads) =>
      if IsHit(cfg, s, k, now) {
        HitKeepsCopies(s, k, c);
      } else {
        DropKeepsCopies(s, One(k), c);
        if loads {
          PutAddsCopy(cfg, DropAll(s, One(k)), k, ready, c);
        }
      }
  }

  lemma NextKeepsKeys(cfg: Config, s: State, c: Call)
    requires DistinctKeys(s.cache)
    ensures DistinctKeys(Next(cfg, s, c).cache)
  {
    SurvivorsAreSlots(s.cache, Touched(c));
    if c.Get? && !IsHit(cfg, s, c.key, c.now) && c.loads {
      PutKeepsKeys(cfg, DropAll(s, One(c.key)), c.key, c.ready);
    }
  }

  lemma NextKeepsAccount(cfg: Config, s: State, c: Call)
    requires AccountedFor(s) && DistinctKeys(s.cache)
    ensures AccountedFor(Next(cfg, s, c)) && DistinctKeys(Next(cfg, s, c).cache)
  {
    NextKeepsKeys(cfg, s, c);
    forall id: ClientId
      ensures Copies(Next(cfg, s, c), id) == if id < |Next(cfg, s, c).born| then 1 else 0
    {
      NextCopies(cfg, s, c, id);
    }
  }

  /** After any calls every client ever built is in the cache exactly once and open, or
      out of it and disposed exactly once. */
  lemma {:induction false} EveryClientAccountedFor(cfg: Config, calls: seq<Call>)
    ensures AccountedFor(Run(cfg, calls)) && DistinctKeys(Run(cfg, calls).cache)
    decreases |calls|
  {
    if |calls| > 0 {
      EveryClientAccountedFor(cfg, calls[..|calls| - 1]);
      NextKeepsAccount(cfg, Run(cfg, calls[..|calls| - 1]), calls[|calls| - 1]);
    }
  }

  // ── what a hit returns ───────────────────────────────────────────────────

  /** Every cached slot holds the client its key was last served, with its birth time. */
  ghost predicate SlotsRemember(cfg: Config, calls: seq<Call>, slot: Slot) {
    var i := LastServe(cfg, calls, slot.key);
    && i.Some? && i.value < |calls|
    && Returned(cfg, Run(cfg, calls[..i.value]), calls[i.value]) == Some(slot.client)
    && slot.client < |Run(cfg, calls).born| && Run(cfg, calls).born[slot.client] == slot.created
  }

  ghost predicate AllRemember(cfg: Config, calls: seq<Call>) {
    forall slot <- Run(cfg, calls).cache :: SlotsRemember(cfg, calls, slot)
  }

  /** A slot after a call is an old slot of an untouched key, or the one just served. */
  lemma SlotsAfter(cfg: Config, s: State, c: Call, slot: Slot)
    requires slot in Next(cfg, s, c).cache
    ensures Serves(cfg, s, c, slot.key) ==>
              Returned(cfg, s, c) == Some(slot.client) && (slot in s.cache || slot == Slot(c.key, |s.born|, c.ready))
    ensures !Serves(cfg, s, c, slot.key) ==> slot in s.cache && !Forgets(cfg, s, c, slot.key)
    ensures s.born <= Next(cfg, s, c).born
    ensures slot !in s.cache ==> Next(cfg, s, c).born == s.born + [slot.created]
  {
    SurvivorsAreSlots(s.cache, Touched(c));
  }

  lemma SlotStillRemembered(cfg: Config, calls: seq<Call>, slot: Slot)
    requires |calls| > 0 && slot in Run(cfg, calls).cache
    requires AllRemember(cfg, calls[..|calls| - 1])
    ensures SlotsRemember(cfg, calls, slot)
  {
    var n := |calls| - 1;
    var s, c := Run(cfg, calls[..n]), calls[n];
    SlotsAfter(cfg, s, c, slot);
    if Serves(cfg, s, c, slot.key) {
      assert LastServe(cfg, calls, slot.key) == Some(n);
    } else {
      var i := LastServe(cfg, calls[..n], slot.key).value;
      assert calls[..n][..i] == calls[..i];
    }
  }

  lemma {:induction false} EverySlotRemembers(cfg: Config, calls: seq<Call>)
    ensures AllRemember(cfg, calls)
    decreases |calls|
  {
    if |calls| > 0 {
      EverySlotRemembers(cfg, calls[..|calls| - 1]);
      forall slot <- Run(cfg, calls).cache
        ensures SlotsRemember(cfg, calls, slot)
      {
        SlotStillRemembered(cfg, calls, slot);
      }
    }
  }

  /** After any calls a get returns the cached client of its key exactly when that client is no
      older than the time to live; an older one is disposed and forgotten, and a client is built
      unless the credentials do not load. */
  lemma GetHitsExactlyFreshSlots(cfg: Config, calls: seq<Call>, k: Key, now: real, ready: real, loads: bool)
    ensures var s, get := Run(cfg, calls), Get(k, now, ready, loads);
            && (forall slot <- s.cache | slot.key == k && now - slot.created <= cfg.ttl ::
                  && Returned(cfg, s, get) == Some(slot.client)
                  && Next(cfg, s, get).born == s.born && Next(cfg, s, get).closed == s.closed)
            && (forall slot <- s.cache | slot.key == k && now - slot.created > cfg.ttl ::
                  s.closed + [slot.client] <= Next(cfg, s, get).closed)
            && ((forall slot <- s.cache :: slot.key == k ==> now - slot.created > cfg.ttl) ==>
                  && Returned(cfg, s, get) == (if loads then Some(|s.born|) else None)
                  && Next(cfg, s, get).born == s.born + if loads then [ready] else [])
  {
    var s := Run(cfg, calls);
    EveryClientAccountedFor(cfg, calls);
    OneVictim(s.cache, k);
    forall slot <- s.cache | slot.key == k
      ensures s.cache[Find(s.cache, k)] == slot
    {
      var i :| 0 <= i < |s.cache| && s.cache[i] == slot;
      assert i == Find(s.cache, k);
    }
  }

  /** A hit returns the same client as the call that last served the key; that client is
      open and no older than the time to live. */
  lemma HitReturnsTheSameClient(cfg: Config, calls: seq<Call>, k: Key, now: real, ready: real, loads: bool)
    requires IsHit(cfg, Run(cfg, calls), k, now)
    ensures var s := Run(cfg, calls);
            var client := Returned(cfg, s, Get(k, now, ready, loads));
            var i := LastServe(cfg, calls, k);
            && client.Some? && client.value < |s.born| && now - s.born[client.value] <= cfg.ttl
            && client.value !in s.closed
            && i.Some? && i.value < |calls| && client == Returned(cfg, Run(cfg, calls[..i.value]), calls[i.value])
  {
    var s := Run(cfg, calls);
    var slot := s.cache[Find(s.cache, k)];
    EverySlotRemembers(cfg, calls);
    EveryClientAccountedFor(cfg, calls);
    assert SlotsRemember(cfg, calls, slot);
    assert Clients(s.cache)[Find(s.cache, k)] == slot.client;
    assert slot.client in multiset(Clients(s.cache));
    assert Copies(s, slot.client) == 1;
  }

  /** A client just built comes back open exactly when the cache may hold one at all. */
  lemma BuiltClientIsOpen(cfg: Config, calls: seq<Call>, k: Key, now: real, ready: real)
    requires !IsHit(cfg, Run(cfg, calls), k, now)
    ensures var c := Get(k, now, ready, true);
            var client := Returned(cfg, Run(cfg, calls), c);
            client.Some? && (client.value !in Next(cfg, Run(cfg, calls), c).closed <==> cfg.max > 0)
  {
    var s := Run(cfg, calls);
    var dropped := DropAll(s, One(k));
    var added := dropped.cache + [Slot(k, |s.born|, ready)];
    EveryClientAccountedFor(cfg, calls);
    NextKeepsAccount(cfg, s, Get(k, now, ready, true));
    var after := Next(cfg, s, Get(k, now, ready, true));
    if cfg.max > 0 {
      assert after.cache[|after.cache| - 1].client == |s.born|;
      assert Clients(after.cache)[|after.cache| - 1] == |s.born|;
      assert |s.born| in multiset(Clients(after.cache));
      assert Copies(after, |s.born|) == 1;
    } else {
      assert after.cache == [] && Clients(after.cache) == [];
      assert Copies(after, |s.born|) == 1;
      assert |s.born| in multiset(after.closed);
    }
  }
}

/** What the upward walk pays, said of the referral graph itself: who stands k
    unlocked edges above the earner. Nothing here assumes the graph has no cycles. */
module Propagation {
  import opened Wrappers
  import opened Economy

  /** The inviter across one unlocked edge. */
  function Up(users: map<UserId, Option<UserId>>, edges: map<UserId, Edge>, u: UserId): Option<UserId> {
    if u in users && u in edges && edges[u].unlocked then users[u] else None
  }

  /** The ancestor reached through `k` edges, all of them unlocked. */
  function Climb(users: map<UserId, Option<UserId>>, edges: map<UserId, Edge>, u: UserId, k: nat): Option<UserId> {
    if k == 0 then Some(u)
    else
      var below := Climb(users, edges, u, k - 1);
      if below.None? then None else Up(users, edges, below.value)
  }

  lemma {:induction false} ClimbFromBelow(users: map<UserId, Option<UserId>>, edges: map<UserId, Edge>, u: UserId, k: nat)
    ensures Climb(users, edges, u, k + 1)
         == if Up(users, edges, u).None? then None else Climb(users, edges, Up(users, edges, u).value, k)
  {
    if k > 0 {
      ClimbFromBelow(users, edges, u, k - 1);
    } else {
      assert Climb(users, edges, u, 0) == Some(u);
    }
  }

  predicate Descending(rates: seq<nat>) {
    forall i, j | 0 <= i < j < |rates| :: rates[i] >= rates[j]
  }

  /** Layer `k` pays something: its ancestor is reachable and its share is a whole point. */
  predicate PaysAt(users: map<UserId, Option<UserId>>, edges: map<UserId, Edge>, u: UserId,
                   base: nat, rates: seq<nat>, k: nat) {
    k < |rates| && Climb(users, edges, u, k).Some? && Climb(users, edges, u, k + 1).Some?
    && LayerPoints(base, rates[k]) > 0
  }

  /** The row layer `k` pays: to the ancestor above, on account of the one below. */
  predicate IsLayerRow(users: map<UserId, Option<UserId>>, edges: map<UserId, Edge>, u: UserId,
                       base: nat, rates: seq<nat>, k: nat, row: Entry) {
    && k < |rates|
    && row.ref.Some?
    && Climb(users, edges, u, k) == row.ref
    && Climb(users, edges, u, k + 1) == Some(row.user)
    && row == LayerEntry(row.user, LayerPoints(base, rates[k]), row.ref.value)
  }

  lemma SmallerRatePaysLess(base: nat, low: nat, high: nat)
    requires low <= high
    ensures LayerPoints(base, low) <= LayerPoints(base, high)
  {
    assert base * low <= base * high;
  }

  /** The k-th row goes to the k-th unlocked ancestor and is worth the floor of its
      rate, and the rows stop exactly at the first layer that pays nothing. */
  lemma {:induction false} WalkFollowsPath(users: map<UserId, Option<UserId>>, edges: map<UserId, Edge>, u: UserId,
                                           base: nat, rates: seq<nat>)
    requires Descending(rates)
    ensures var rows := PropagateEntries(users, edges, u, base, rates);
            && |rows| <= |rates|
            && (forall k: nat | k < |rows| ::
                  PaysAt(users, edges, u, base, rates, k) && IsLayerRow(users, edges, u, base, rates, k, rows[k]))
            && !PaysAt(users, edges, u, base, rates, |rows|)
    decreases |rates|
  {
    var rows := PropagateEntries(users, edges, u, base, rates);
    ClimbFromBelow(users, edges, u, 0);
    if |rates| == 0 || Up(users, edges, u).None? {
      assert rows == [];
    } else {
      var inviter := Up(users, edges, u).value;
      var above := PropagateEntries(users, edges, inviter, base, rates[1..]);
      WalkFollowsPath(users, edges, inviter, base, rates[1..]);
      if LayerPoints(base, rates[0]) == 0 {
        if |rates| > 1 {
          SmallerRatePaysLess(base, rates[1], rates[0]);
        }
        assert !PaysAt(users, edges, inviter, base, rates[1..], 0);
        assert above == [];
      } else {
        assert rows == [LayerEntry(inviter, LayerPoints(base, rates[0]), u)] + above;
        forall k: nat | k < |rates|
          ensures PaysAt(users, edges, u, base, rates, k)
             <==> (k == 0 || PaysAt(users, edges, inviter, base, rates[1..], k - 1))
          ensures k < |rows| ==> IsLayerRow(users, edges, u, base, rates, k, rows[k])
        {
          ClimbFromBelow(users, edges, u, k);
          if k > 0 {
            ClimbFromBelow(users, edges, u, k - 1);
            if k < |rows| {
              assert IsLayerRow(users, edges, inviter, base, rates[1..], k - 1, above[k - 1]);
            }
          }
        }
      }
    }
  }

  // ── the same in plain numbers ────────────────────────────────────────────

  /** The percentage each layer is due. */
  function Percent(layer: nat): nat {
    if layer == 0 then 10 else if layer == 1 then 5 else if layer == 2 then 3 else if layer == 3 then 2
    else if layer == 4 then 1 else 0
  }

  /** The row of layer `k`: the ancestor `k + 1` unlocked edges above the earner gets the whole
      points in their percentage of the base, on account of the one below. */
  ghost predicate IsShare(users: map<UserId, Option<UserId>>, edges: map<UserId, Edge>, u: UserId,
                          base: nat, k: nat, row: Entry) {
    && row.reason == ReferralLayer && row.day == None
    && row.ref.Some? && Climb(users, edges, u, k) == row.ref
    && Climb(users, edges, u, k + 1) == Some(row.user)
    && 0 < 100 * row.delta <= base * Percent(k) < 100 * (row.delta + 1)
  }

  /** The rows are the shares of the layers in turn, and end at the first layer with no ancestor
      or less than a whole point. */
  ghost predicate AreShares(users: map<UserId, Option<UserId>>, edges: map<UserId, Edge>, u: UserId,
                            base: nat, rows: seq<Entry>) {
    && (forall k: nat | k < |rows| :: IsShare(users, edges, u, base, k, rows[k]))
    && (base * Percent(|rows|) < 100 || Climb(users, edges, u, |rows| + 1).None?)
  }

  lemma ShareIsFloor(base: nat, rate: nat)
    ensures 100 * LayerPoints(base, rate) <= base * rate < 100 * (LayerPoints(base, rate) + 1)
  {
    var share := base * rate;
    assert 100 * (share / 100) <= share < 100 * (share / 100 + 1);
  }

  lemma RatesAreTheSharesDue(k: nat)
    ensures |LAYER_RATES| == 5 && Percent(k) == if k < 5 then LAYER_RATES[k] else 0
  {
  }

  lemma WalkPaysShares(users: map<UserId, Option<UserId>>, edges: map<UserId, Edge>, u: UserId, base: nat)
    ensures AreShares(users, edges, u, base, PropagateEntries(users, edges, u, base, LAYER_RATES))
  {
    var rows := PropagateEntries(users, edges, u, base, LAYER_RATES);
    WalkFollowsPath(users, edges, u, base, LAYER_RATES);
    forall k: nat | k < |rows|
      ensures IsShare(users, edges, u, base, k, rows[k])
    {
      RatesAreTheSharesDue(k);
      ShareIsFloor(base, LAYER_RATES[k]);
      assert PaysAt(users, edges, u, base, LAYER_RATES, k);
      assert IsLayerRow(users, edges, u, base, LAYER_RATES, k, rows[k]);
    }
    var n := |rows|;
    RatesAreTheSharesDue(n);
    if n < 5 {
      ShareIsFloor(base, LAYER_RATES[n]);
      ClimbBelow(users, edges, u, n);
    }
  }

  lemma ClimbBelow(users: map<UserId, Option<UserId>>, edges: map<UserId, Edge>, u: UserId, k: nat)
    ensures Climb(users, edges, u, k + 1).Some? ==> Climb(users, edges, u, k).Some?
  {
  }

  // ── how much a walk can pay ──────────────────────────────────────────────

  /** The points a ledger holds under one reason. */
  function SumOf(ledger: seq<Entry>, reason: Reason): int {
    if |ledger| == 0 then 0
    else SumOf(ledger[..|ledger| - 1], reason)
         + (if ledger[|ledger| - 1].reason == reason then ledger[|ledger| - 1].delta else 0)
  }

  lemma {:induction false} SumAppend(a: seq<Entry>, b: seq<Entry>, reason: Reason)
    ensures SumOf(a + b, reason) == SumOf(a, reason) + SumOf(b, reason)
    decreases |b|
  {
    if |b| == 0 {
      assert a + b == a;
    } else {
      var last := |b| - 1;
      assert (a + b)[..|a + b| - 1] == a + b[..last];
      SumAppend(a, b[..last], reason);
    }
  }

  function Total(rates: seq<nat>): nat { if |rates| == 0 then 0 else rates[0] + Total(rates[1..]) }

  lemma LayerTakesItsRate(base: nat, rate: nat, rest: nat)
    ensures 100 * LayerPoints(base, rate) + base * rest <= base * (rate + rest)
  {
    var share := base * rate;
    assert 100 * (share / 100) <= share;
    assert base * (rate + rest) == share + base * rest;
  }

  lemma {:induction false} WalkSum(users: map<UserId, Option<UserId>>, edges: map<UserId, Edge>, u: UserId,
                                   base: nat, rates: seq<nat>, reason: Reason)
    ensures var sum := SumOf(PropagateEntries(users, edges, u, base, rates), reason);
            if reason == ReferralLayer then 0 <= 100 * sum <= base * Total(rates) else sum == 0
    decreases |rates|
  {
    if |rates| > 0 && Up(users, edges, u).Some? {
      var inviter, points := Up(users, edges, u).value, LayerPoints(base, rates[0]);
      var layer := if points > 0 then [LayerEntry(inviter, points, u)] else [];
      var above := PropagateEntries(users, edges, inviter, base, rates[1..]);
      WalkSum(users, edges, inviter, base, rates[1..], reason);
      SumAppend(layer, above, reason);
      LayerTakesItsRate(base, rates[0], Total(rates[1..]));
      assert layer == [] || layer[..|layer| - 1] == [];
      assert PropagateEntries(users, edges, u, base, rates) == layer + above;
    }
  }

  lemma RatesTotal()
    ensures |LAYER_RATES| == 5 && Total(LAYER_RATES) == 21
  {
    assert LAYER_RATES == [10, 5, 3, 2, 1];
    assert Total([1]) == 1 && Total([2, 1]) == 3 by {
      assert [2, 1][1..] == [1];
    }
    assert Total([3, 2, 1]) == 6 by {
      assert [3, 2, 1][1..] == [2, 1];
    }
    assert Total([5, 3, 2, 1]) == 11 by {
      assert [5, 3, 2, 1][1..] == [3, 2, 1];
    }
    assert Total([10, 5, 3, 2, 1]) == 21 by {
      assert [10, 5, 3, 2, 1][1..] == [5, 3, 2, 1];
    }
  }

  /** One reward pays at most five rows and at most the floor of 21% of its base. */
  lemma WalkBound(users: map<UserId, Option<UserId>>, edges: map<UserId, Edge>, u: UserId, base: nat)
    ensures var rows := PropagateEntries(users, edges, u, base, LAYER_RATES);
            && |rows| <= 5
            && 0 <= SumOf(rows, ReferralLayer) <= 21 * base / 100
            && (forall reason | reason != ReferralLayer :: SumOf(rows, reason) == 0)
  {
    WalkFollowsPath(users, edges, u, base, LAYER_RATES);
    forall reason
      ensures var sum := SumOf(PropagateEntries(users, edges, u, base, LAYER_RATES), reason);
              if reason == ReferralLayer then 0 <= 100 * sum <= base * Total(LAYER_RATES) else sum == 0
    {
      WalkSum(users, edges, u, base, LAYER_RATES, reason);
    }
    RatesTotal();
  }
}

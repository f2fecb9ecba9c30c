/** Settlement gives the same books whatever order, batching and retries the passes
    happen to take. */
module SettlementOrder {
  import opened Wrappers
  import opened Economy

  type Resolutions = map<MarketId, Resolution>

  /** The same tables, the ledger taken as a multiset of rows. */
  ghost predicate Equivalent(a: Db, b: Db) {
    && a.users == b.users && a.edges == b.edges && a.stats == b.stats && a.bets == b.bets
    && multiset(a.ledger) == multiset(b.ledger)
  }

  // ── one settlement, and two in either order ──────────────────────────────

  function SettleEntries(db: Db, u: UserId, v: Settlement): seq<Entry> {
    if v.status == Won then [WinEntry(u)] + PropagateEntries(db.users, db.edges, u, WIN_BONUS, LAYER_RATES) else []
  }

  function Shape(db: Db, i: BetId, v: Settlement): Db
    requires i < |db.bets|
  {
    var bet := db.bets[i];
    Db(db.users, db.edges,
       Fold(db.stats, bet.user, v),
       db.bets[i := ApplySettlement(bet, v)],
       db.ledger + SettleEntries(db, bet.user, v))
  }

  function Fold(stats: map<UserId, Stats>, u: UserId, v: Settlement): map<UserId, Stats> {
    stats[u := AddSettlement(StatsOf(stats, u), v)]
  }

  /** All that one settlement does: a bet row, a stats row and the winner's points. */
  lemma SettleOneShape(db: Db, i: BetId, res: Resolution)
    requires i < |db.bets|
    ensures SettleOne(db, i, res) == Shape(db, i, SettleBetValues(db.bets[i], res))
  {
    var bet := db.bets[i];
    var v := SettleBetValues(bet, res);
    if v.status == Won {
      var walk := PropagateEntries(db.users, db.edges, bet.user, WIN_BONUS, LAYER_RATES);
      assert db.ledger + [WinEntry(bet.user)] + walk == db.ledger + ([WinEntry(bet.user)] + walk);
    } else {
      assert db.ledger + [] == db.ledger;
    }
  }

  function Step(db: Db, i: BetId, truth: Resolutions): Db {
    if Picks(db.bets, truth, {}, i) then SettleOne(db, i, truth[db.bets[i].market]) else db
  }

  lemma StatsCommute(s: Stats, v: Settlement, w: Settlement)
    ensures AddSettlement(AddSettlement(s, v), w) == AddSettlement(AddSettlement(s, w), v)
  {
  }

  lemma FoldsCommute(stats: map<UserId, Stats>, a: UserId, v: Settlement, b: UserId, w: Settlement)
    ensures Fold(Fold(stats, a, v), b, w) == Fold(Fold(stats, b, w), a, v)
  {
    var ab, ba := Fold(Fold(stats, a, v), b, w), Fold(Fold(stats, b, w), a, v);
    if a == b {
      StatsCommute(StatsOf(stats, a), v, w);
      assert ab == stats[a := ab[a]] && ba == stats[a := ba[a]];
    } else {
      assert ab == ba;
    }
  }

  lemma ShapesCommute(db: Db, i: BetId, v: Settlement, j: BetId, w: Settlement)
    requires i < |db.bets| && j < |db.bets| && i != j
    ensures Equivalent(Shape(Shape(db, i, v), j, w), Shape(Shape(db, j, w), i, v))
  {
    var ij, ji := Shape(Shape(db, i, v), j, w), Shape(Shape(db, j, w), i, v);
    var a, b := db.bets[i].user, db.bets[j].user;
    FoldsCommute(db.stats, a, v, b, w);
    assert ij.bets == ji.bets;
    var ea, eb := SettleEntries(db, a, v), SettleEntries(db, b, w);
    assert ij.ledger == db.ledger + ea + eb;
    assert ji.ledger == db.ledger + eb + ea;
  }

  lemma StepsCommute(db: Db, i: BetId, j: BetId, truth: Resolutions)
    ensures Equivalent(Step(Step(db, i, truth), j, truth), Step(Step(db, j, truth), i, truth))
  {
    if i != j && Picks(db.bets, truth, {}, i) && Picks(db.bets, truth, {}, j) {
      var ra, rb := truth[db.bets[i].market], truth[db.bets[j].market];
      SettleOneShape(db, i, ra);
      SettleOneShape(db, j, rb);
      SettleOneShape(Step(db, i, truth), j, rb);
      SettleOneShape(Step(db, j, truth), i, ra);
      ShapesCommute(db, i, SettleBetValues(db.bets[i], ra), j, SettleBetValues(db.bets[j], rb));
    } else if i != j && Picks(db.bets, truth, {}, i) {
      SettleOneShape(db, i, truth[db.bets[i].market]);
    } else if i != j && Picks(db.bets, truth, {}, j) {
      SettleOneShape(db, j, truth[db.bets[j].market]);
    }
  }

  lemma StepRespects(a: Db, b: Db, i: BetId, truth: Resolutions)
    requires Equivalent(a, b)
    ensures Equivalent(Step(a, i, truth), Step(b, i, truth))
  {
    if Picks(a.bets, truth, {}, i) {
      SettleOneShape(a, i, truth[a.bets[i].market]);
      SettleOneShape(b, i, truth[b.bets[i].market]);
    }
  }

  // ── any sequence of settlements, in any order ────────────────────────────

  function Settle(db: Db, ids: seq<BetId>, truth: Resolutions): Db { SettleIds(db, ids, truth, {}) }

  lemma {:induction false} SettleRespects(a: Db, b: Db, ids: seq<BetId>, truth: Resolutions)
    requires Equivalent(a, b)
    ensures Equivalent(Settle(a, ids, truth), Settle(b, ids, truth))
    decreases |ids|
  {
    if |ids| > 0 {
      StepRespects(a, b, ids[0], truth);
      SettleRespects(Step(a, ids[0], truth), Step(b, ids[0], truth), ids[1..], truth);
    }
  }

  lemma {:induction false} SettleAppend(db: Db, a: seq<BetId>, b: seq<BetId>, truth: Resolutions)
    ensures Settle(db, a + b, truth) == Settle(Settle(db, a, truth), b, truth)
    decreases |a|
  {
    if |a| == 0 {
      assert a + b == b;
    } else {
      assert (a + b)[1..] == a[1..] + b;
      SettleAppend(Step(db, a[0], truth), a[1..], b, truth);
    }
  }

  lemma {:induction false} MoveToFront(db: Db, pre: seq<BetId>, x: BetId, post: seq<BetId>, truth: Resolutions)
    ensures Equivalent(Settle(db, pre + [x] + post, truth), Settle(Step(db, x, truth), pre + post, truth))
    decreases |pre|
  {
    if |pre| == 0 {
      assert pre + [x] + post == [x] + post && ([x] + post)[1..] == pre + post;
    } else {
      var p, rest := pre[0], pre[1..];
      assert (pre + [x] + post)[1..] == rest + [x] + post;
      assert (pre + post)[1..] == rest + post;
      MoveToFront(Step(db, p, truth), rest, x, post, truth);
      StepsCommute(db, p, x, truth);
      SettleRespects(Step(Step(db, p, truth), x, truth), Step(Step(db, x, truth), p, truth), rest + post, truth);
    }
  }

  lemma TakeOut(xs: seq<BetId>, ys: seq<BetId>) returns (pre: seq<BetId>, post: seq<BetId>)
    requires multiset(xs) == multiset(ys) && |xs| > 0
    ensures ys == pre + [xs[0]] + post
    ensures multiset(xs[1..]) == multiset(pre + post)
  {
    var x := xs[0];
    assert xs == [x] + xs[1..];
    assert x in multiset(ys);
    var k :| 0 <= k < |ys| && ys[k] == x;
    pre, post := ys[..k], ys[k + 1..];
    assert ys == pre + [x] + post;
    assert multiset(xs[1..]) == multiset(xs) - multiset{x};
    assert multiset(pre + post) == multiset(ys) - multiset{x};
  }

  lemma {:induction false} OrderDoesNotMatter(db: Db, xs: seq<BetId>, ys: seq<BetId>, truth: Resolutions)
    requires multiset(xs) == multiset(ys)
    ensures Equivalent(Settle(db, xs, truth), Settle(db, ys, truth))
    decreases |xs|
  {
    if |xs| == 0 {
      assert |multiset(ys)| == 0;
      assert ys == [];
    } else {
      var x := xs[0];
      var pre, post := TakeOut(xs, ys);
      MoveToFront(db, pre, x, post, truth);
      OrderDoesNotMatter(Step(db, x, truth), xs[1..], pre + post, truth);
    }
  }

  // ── passes with partial knowledge and failing savepoints ─────────────────

  datatype Pass = Pass(resolutions: Resolutions, faults: set<BetId>)

  /** The upstream data may lag behind the truth but never contradicts it. */
  ghost predicate Consistent(p: Pass, truth: Resolutions) {
    forall m <- p.resolutions | p.resolutions[m].resolved :: m in truth && truth[m] == p.resolutions[m]
  }

  function RunPasses(db: Db, passes: seq<Pass>): Db
    decreases |passes|
  {
    if |passes| == 0 then db else RunPasses(SettlePass(db, passes[0].resolutions, passes[0].faults), passes[1..])
  }

  function Picked(bets: seq<Bet>, ids: seq<BetId>, p: Pass): seq<BetId> {
    if |ids| == 0 then []
    else (if Picks(bets, p.resolutions, p.faults, ids[0]) then [ids[0]] else []) + Picked(bets, ids[1..], p)
  }

  /** What a settlement leaves of the bet rows it did not come for. */
  predicate SameBets(a: seq<Bet>, b: seq<Bet>) {
    |a| == |b| && forall i | 0 <= i < |a| :: a[i].market == b[i].market
  }

  lemma {:induction false} PickedIgnoresStatus(a: seq<Bet>, b: seq<Bet>, ids: seq<BetId>, p: Pass)
    requires SameBets(a, b)
    ensures Picked(a, ids, p) == Picked(b, ids, p)
    decreases |ids|
  {
    if |ids| > 0 {
      PickedIgnoresStatus(a, b, ids[1..], p);
    }
  }

  lemma {:induction false} PassIsSettle(db: Db, ids: seq<BetId>, p: Pass, truth: Resolutions)
    requires Consistent(p, truth)
    ensures SettleIds(db, ids, p.resolutions, p.faults) == Settle(db, Picked(db.bets, ids, p), truth)
    decreases |ids|
  {
    if |ids| > 0 {
      var i := ids[0];
      if Picks(db.bets, p.resolutions, p.faults, i) {
        var next := SettleOne(db, i, truth[db.bets[i].market]);
        SettleOneShape(db, i, truth[db.bets[i].market]);
        PickedIgnoresStatus(db.bets, next.bets, ids[1..], p);
        PassIsSettle(next, ids[1..], p, truth);
        assert Picked(db.bets, ids, p)[1..] == Picked(db.bets, ids[1..], p);
      } else {
        PassIsSettle(db, ids[1..], p, truth);
        assert Picked(db.bets, ids, p) == Picked(db.bets, ids[1..], p);
      }
    }
  }

  /** The ids a schedule settles, in the order it settles them. */
  function SettledBy(db: Db, passes: seq<Pass>): seq<BetId>
    decreases |passes|
  {
    if |passes| == 0 then []
    else Picked(db.bets, Window(db.bets), passes[0])
         + SettledBy(SettlePass(db, passes[0].resolutions, passes[0].faults), passes[1..])
  }

  lemma {:induction false} RunIsSettle(db: Db, passes: seq<Pass>, truth: Resolutions)
    requires forall p <- passes :: Consistent(p, truth)
    ensures RunPasses(db, passes) == Settle(db, SettledBy(db, passes), truth)
    decreases |passes|
  {
    if |passes| > 0 {
      var p := passes[0];
      var next := SettlePass(db, p.resolutions, p.faults);
      PassIsSettle(db, Window(db.bets), p, truth);
      RunIsSettle(next, passes[1..], truth);
      SettleAppend(db, Picked(db.bets, Window(db.bets), p), SettledBy(next, passes[1..]), truth);
    }
  }

  // ── a bet leaves OPEN at most once ───────────────────────────────────────

  predicate Distinct(ids: seq<int>) { forall i, j | 0 <= i < j < |ids| :: ids[i] != ids[j] }

  lemma {:induction false} OpenIdsAreTheOpenBets(bets: seq<Bet>)
    ensures Distinct(OpenIds(bets))
    ensures forall i :: i in OpenIds(bets) <==> 0 <= i < |bets| && bets[i].status == Open
  {
    if |bets| > 0 {
      var before := OpenIds(bets[..|bets| - 1]);
      OpenIdsAreTheOpenBets(bets[..|bets| - 1]);
      assert Distinct([|bets| - 1]);
      assert |bets| - 1 !in before;
      DistinctConcat(before, OpenIds(bets)[|before|..]);
      assert OpenIds(bets) == before + OpenIds(bets)[|before|..];
    }
  }

  lemma WindowIsOpen(bets: seq<Bet>)
    ensures Distinct(Window(bets))
    ensures forall i <- Window(bets) :: i < |bets| && bets[i].status == Open
    ensures |OpenIds(bets)| <= OPEN_BETS_LIMIT ==> forall i :: i in Window(bets) <==> 0 <= i < |bets| && bets[i].status == Open
  {
    OpenIdsAreTheOpenBets(bets);
  }

  lemma {:induction false} PickedMembers(bets: seq<Bet>, ids: seq<BetId>, p: Pass)
    ensures forall i :: i in Picked(bets, ids, p) <==> i in ids && Picks(bets, p.resolutions, p.faults, i)
    ensures Distinct(ids) ==> Distinct(Picked(bets, ids, p))
    decreases |ids|
  {
    if |ids| > 0 {
      PickedMembers(bets, ids[1..], p);
      assert ids == [ids[0]] + ids[1..];
      if Distinct(ids) {
        assert Distinct(ids[1..]);
        assert ids[0] !in ids[1..];
      }
    }
  }

  lemma {:induction false} NothingPicked(bets: seq<Bet>, ids: seq<BetId>, p: Pass)
    requires forall i <- ids :: !Picks(bets, p.resolutions, p.faults, i)
    ensures Picked(bets, ids, p) == []
    decreases |ids|
  {
    if |ids| > 0 {
      assert ids[0] in ids;
      NothingPicked(bets, ids[1..], p);
    }
  }

  /** Settling marks exactly the picked ids, and marked bets keep their row. */
  lemma {:induction false} SettleMarks(db: Db, ids: seq<BetId>, truth: Resolutions)
    ensures var after := Settle(db, ids, truth);
            && SameBets(db.bets, after.bets)
            && after.users == db.users && after.edges == db.edges
            && (forall i | 0 <= i < |db.bets| ::
                  if i in ids && Picks(db.bets, truth, {}, i) then after.bets[i].status != Open
                  else after.bets[i] == db.bets[i])
    decreases |ids|
  {
    if |ids| > 0 {
      var i := ids[0];
      var next := Step(db, i, truth);
      if Picks(db.bets, truth, {}, i) {
        SettleOneShape(db, i, truth[db.bets[i].market]);
      }
      SettleMarks(next, ids[1..], truth);
      assert ids == [i] + ids[1..];
    }
  }

  /** Over any schedule, a bet is settled at most once, the settled bets are exactly
      the ones that left OPEN, and a bet that had left OPEN before keeps its row. */
  lemma {:induction false} SettledOnce(db: Db, passes: seq<Pass>, truth: Resolutions)
    requires forall p <- passes :: Consistent(p, truth)
    ensures Distinct(SettledBy(db, passes))
    ensures var after := RunPasses(db, passes);
            && SameBets(db.bets, after.bets)
            && (forall i :: i in SettledBy(db, passes)
                  <==> 0 <= i < |db.bets| && db.bets[i].status == Open && after.bets[i].status != Open)
            && (forall i | 0 <= i < |db.bets| && db.bets[i].status != Open :: after.bets[i] == db.bets[i])
    decreases |passes|
  {
    if |passes| > 0 {
      var p := passes[0];
      var first := Picked(db.bets, Window(db.bets), p);
      var next := SettlePass(db, p.resolutions, p.faults);
      WindowIsOpen(db.bets);
      PickedMembers(db.bets, Window(db.bets), p);
      PassIsSettle(db, Window(db.bets), p, truth);
      SettleMarks(db, first, truth);
      SettledOnce(next, passes[1..], truth);
      forall i <- first
        ensures Picks(db.bets, truth, {}, i)
      {
        assert Picks(db.bets, p.resolutions, p.faults, i);
      }
      var rest := SettledBy(next, passes[1..]);
      assert forall i <- first :: i !in rest;
      DistinctConcat(first, rest);
    }
  }

  lemma DistinctConcat(a: seq<int>, b: seq<int>)
    requires Distinct(a) && Distinct(b) && forall i <- a :: i !in b
    ensures Distinct(a + b)
  {
    forall i, j | 0 <= i < j < |a + b|
      ensures (a + b)[i] != (a + b)[j]
    {
      if i < |a| <= j {
        assert a[i] in a && b[j - |a|] in b;
      }
    }
  }

  lemma {:induction false} DistinctCount(ids: seq<int>, i: int)
    requires Distinct(ids)
    ensures multiset(ids)[i] == if i in ids then 1 else 0
    decreases |ids|
  {
    if |ids| > 0 {
      assert ids == [ids[0]] + ids[1..];
      assert ids[0] !in ids[1..];
      DistinctCount(ids[1..], i);
    }
  }

  // ── the main results ─────────────────────────────────────────────────────

  /** Two schedules that leave the same bets open leave equivalent books: order,
      batching, lagging data and failed savepoints do not show. */
  lemma SettlementConfluent(db: Db, p: seq<Pass>, q: seq<Pass>, truth: Resolutions)
    requires forall x <- p :: Consistent(x, truth)
    requires forall x <- q :: Consistent(x, truth)
    requires forall i: nat | i < |db.bets| && i < |RunPasses(db, p).bets| && i < |RunPasses(db, q).bets| ::
               RunPasses(db, p).bets[i].status == Open <==> RunPasses(db, q).bets[i].status == Open
    ensures Equivalent(RunPasses(db, p), RunPasses(db, q))
  {
    var xs: seq<int>, ys: seq<int> := SettledBy(db, p), SettledBy(db, q);
    RunIsSettle(db, p, truth);
    RunIsSettle(db, q, truth);
    SettledOnce(db, p, truth);
    SettledOnce(db, q, truth);
    forall i: int
      ensures multiset(xs)[i] == multiset(ys)[i]
    {
      DistinctCount(xs, i);
      DistinctCount(ys, i);
    }
    OrderDoesNotMatter(db, xs, ys, truth);
  }

  /** A schedule that has settled every resolved bet ends where settling all the open bets at
      once does, however many of them there are and whatever the order. */
  lemma ScheduleSettlesAll(db: Db, passes: seq<Pass>, truth: Resolutions)
    requires forall m <- truth :: truth[m].resolved
    requires forall p <- passes :: Consistent(p, truth)
    requires forall i: nat | i < |db.bets| && i < |RunPasses(db, passes).bets| && db.bets[i].market in truth ::
               RunPasses(db, passes).bets[i].status != Open
    ensures Equivalent(RunPasses(db, passes), Settle(db, OpenIds(db.bets), truth))
  {
    var clean := Pass(truth, {});
    var xs: seq<int>, ys: seq<int> := SettledBy(db, passes), Picked(db.bets, OpenIds(db.bets), clean);
    RunIsSettle(db, passes, truth);
    SettledOnce(db, passes, truth);
    OnlyResolvedBetsSettle(db, passes, truth);
    OpenIdsAreTheOpenBets(db.bets);
    PickedMembers(db.bets, OpenIds(db.bets), clean);
    PassIsSettle(db, OpenIds(db.bets), clean, truth);
    forall i: int
      ensures multiset(xs)[i] == multiset(ys)[i]
    {
      DistinctCount(xs, i);
      DistinctCount(ys, i);
    }
    OrderDoesNotMatter(db, xs, ys, truth);
  }

  /** When a single pass has room for all the open bets, that is where a clean pass ends. */
  lemma ScheduleReachesCleanPass(db: Db, passes: seq<Pass>, truth: Resolutions)
    requires forall m <- truth :: truth[m].resolved
    requires forall p <- passes :: Consistent(p, truth)
    requires |OpenIds(db.bets)| <= OPEN_BETS_LIMIT
    requires forall i: nat | i < |db.bets| && i < |RunPasses(db, passes).bets| && db.bets[i].market in truth ::
               RunPasses(db, passes).bets[i].status != Open
    ensures Equivalent(RunPasses(db, passes), SettlePass(db, truth, {}))
  {
    ScheduleSettlesAll(db, passes, truth);
  }

  lemma {:induction false} OnlyResolvedBetsSettle(db: Db, passes: seq<Pass>, truth: Resolutions)
    requires forall p <- passes :: Consistent(p, truth)
    ensures var after := RunPasses(db, passes);
            && SameBets(db.bets, after.bets)
            && (forall i | 0 <= i < |db.bets| && db.bets[i].market !in truth :: after.bets[i] == db.bets[i])
            && (forall i | 0 <= i < |db.bets| && db.bets[i].status != Open :: after.bets[i] == db.bets[i])
    decreases |passes|
  {
    RunIsSettle(db, passes, truth);
    SettledOnce(db, passes, truth);
    SettleMarks(db, SettledBy(db, passes), truth);
  }
}

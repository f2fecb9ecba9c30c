/** What running the settlement job again on the same data does: exactly when it changes
    nothing, with any number of open bets. */
module SettlementRepeats {
  import opened Wrappers
  import opened Economy
  import opened SettlementOrder

  function Resolved(resolutions: Resolutions): Resolutions {
    map m | m in resolutions && resolutions[m].resolved :: resolutions[m]
  }

  function Clean(resolutions: Resolutions): Pass { Pass(resolutions, {}) }

  function Without(ids: seq<BetId>, gone: seq<BetId>): seq<BetId> {
    if |ids| == 0 then []
    else
      var last := ids[|ids| - 1];
      Without(ids[..|ids| - 1], gone) + if last in gone then [] else [last]
  }

  predicate Apart(ids: seq<BetId>, gone: seq<BetId>) { forall k | 0 <= k < |ids| :: ids[k] !in gone }

  /** The ids a pass settles. */
  function Settling(db: Db, resolutions: Resolutions): seq<BetId> {
    Picked(db.bets, Window(db.bets), Clean(resolutions))
  }

  /** The open bets next in line behind the window, as many as the pass makes room for. */
  function NextInLine(db: Db, resolutions: Resolutions): seq<BetId> {
    var ids, w := OpenIds(db.bets), |Window(db.bets)|;
    ids[w..Min(|ids|, w + |Settling(db, resolutions)|)]
  }

  // ── the queue of open bets ───────────────────────────────────────────────

  lemma {:induction false} WithoutAppend(a: seq<BetId>, b: seq<BetId>, gone: seq<BetId>)
    ensures Without(a + b, gone) == Without(a, gone) + Without(b, gone)
    decreases |b|
  {
    if |b| == 0 {
      assert a + b == a;
    } else {
      assert (a + b)[..|a + b| - 1] == a + b[..|b| - 1];
      WithoutAppend(a, b[..|b| - 1], gone);
    }
  }

  lemma {:induction false} WithoutOthers(ids: seq<BetId>, gone: seq<BetId>)
    requires Apart(ids, gone)
    ensures Without(ids, gone) == ids
    decreases |ids|
  {
    if |ids| > 0 {
      WithoutOthers(ids[..|ids| - 1], gone);
    }
  }

  lemma {:induction false} WithoutMembers(ids: seq<BetId>, gone: seq<BetId>, i: BetId)
    ensures i in Without(ids, gone) <==> i in ids && i !in gone
    decreases |ids|
  {
    if |ids| > 0 {
      WithoutMembers(ids[..|ids| - 1], gone, i);
      assert ids == ids[..|ids| - 1] + [ids[|ids| - 1]];
    }
  }

  /** The bets that leave the queue leave it as a filter; the rest keep their places. */
  lemma {:induction false} QueueAfter(before: seq<Bet>, after: seq<Bet>, gone: seq<BetId>)
    requires |before| == |after|
    requires forall i: nat | i < |before| ::
               after[i].status == Open <==> before[i].status == Open && i !in gone
    ensures OpenIds(after) == Without(OpenIds(before), gone)
    decreases |before|
  {
    if |before| > 0 {
      var n := |before| - 1;
      QueueAfter(before[..n], after[..n], gone);
      WithoutAppend(OpenIds(before[..n]), if before[n].status == Open then [n] else [], gone);
      assert [n][..0] == [];
    }
  }

  lemma {:induction false} PickedOfAppend(bets: seq<Bet>, a: seq<BetId>, b: seq<BetId>, p: Pass)
    ensures Picked(bets, a + b, p) == Picked(bets, a, p) + Picked(bets, b, p)
    decreases |a|
  {
    if |a| == 0 {
      assert a + b == b;
    } else {
      assert (a + b)[1..] == a[1..] + b;
      PickedOfAppend(bets, a[1..], b, p);
    }
  }

  /** What a pass picks and what it leaves add up. */
  lemma {:induction false} PickedAndLeft(bets: seq<Bet>, ids: seq<BetId>, p: Pass, gone: seq<BetId>)
    requires forall i <- ids :: i in gone <==> Picks(bets, p.resolutions, p.faults, i)
    ensures |Picked(bets, ids, p)| + |Without(ids, gone)| == |ids|
    decreases |ids|
  {
    if |ids| > 0 {
      var init, last := ids[..|ids| - 1], ids[|ids| - 1];
      assert ids == init + [last] && last in ids && forall i <- init :: i in ids;
      PickedAndLeft(bets, init, p, gone);
      PickedOfAppend(bets, init, [last], p);
      assert [last][1..] == [];
    }
  }

  // ── one pass ─────────────────────────────────────────────────────────────

  lemma PassSettlesWindow(db: Db, resolutions: Resolutions)
    ensures var once := SettlePass(db, resolutions, {});
            && SameBets(db.bets, once.bets)
            && forall i: nat | i < |db.bets| ::
                 if i in Settling(db, resolutions) then once.bets[i].status != Open else once.bets[i] == db.bets[i]
  {
    var p, truth := Clean(resolutions), Resolved(resolutions);
    PassIsSettle(db, Window(db.bets), p, truth);
    PickedMembers(db.bets, Window(db.bets), p);
    SettleMarks(db, Settling(db, resolutions), truth);
    forall i <- Settling(db, resolutions)
      ensures Picks(db.bets, truth, {}, i)
    {
      assert Picks(db.bets, p.resolutions, p.faults, i);
    }
  }

  /** A pass changes nothing exactly when its window holds nothing to settle. */
  lemma PassChangesNothing(db: Db, resolutions: Resolutions)
    ensures SettlePass(db, resolutions, {}) == db <==> Settling(db, resolutions) == []
  {
    var picked := Settling(db, resolutions);
    PassSettlesWindow(db, resolutions);
    WindowIsOpen(db.bets);
    PickedMembers(db.bets, Window(db.bets), Clean(resolutions));
    if picked == [] {
      PassIsSettle(db, Window(db.bets), Clean(resolutions), Resolved(resolutions));
    } else {
      assert picked[0] in picked;
    }
  }

  lemma QueueAfterPass(db: Db, resolutions: Resolutions)
    ensures OpenIds(SettlePass(db, resolutions, {}).bets) == Without(OpenIds(db.bets), Settling(db, resolutions))
  {
    var once := SettlePass(db, resolutions, {});
    PassSettlesWindow(db, resolutions);
    WindowIsOpen(db.bets);
    PickedMembers(db.bets, Window(db.bets), Clean(resolutions));
    QueueAfter(db.bets, once.bets, Settling(db, resolutions));
  }

  lemma DistinctApart(w: seq<BetId>, rest: seq<BetId>, gone: seq<BetId>)
    requires Distinct(w + rest) && forall i <- gone :: i in w
    ensures Apart(rest, gone)
  {
    var all := w + rest;
    forall k | 0 <= k < |rest|
      ensures rest[k] !in gone
    {
      forall j | 0 <= j < |w|
        ensures w[j] != rest[k]
      {
        assert all[j] != all[|w| + k];
      }
    }
  }

  lemma FrontOfQueue(ids: seq<BetId>, w: nat, left: seq<BetId>, n: nat, limit: nat)
    requires w == Min(|ids|, limit) && |left| + n == w
    ensures (left + ids[w..])[..Min(|left + ids[w..]|, limit)] == left + ids[w..Min(|ids|, w + n)]
  {
  }

  /** What a filter of the front of the queue leaves of the whole of it. */
  lemma FilterFront(w: seq<BetId>, rest: seq<BetId>, gone: seq<BetId>)
    requires Distinct(w + rest) && forall i <- gone :: i in w
    ensures Without(w + rest, gone) == Without(w, gone) + rest
  {
    DistinctApart(w, rest, gone);
    WithoutOthers(rest, gone);
    WithoutAppend(w, rest, gone);
  }

  lemma SettlingCounts(db: Db, resolutions: Resolutions)
    ensures var w, gone := Window(db.bets), Settling(db, resolutions);
            |gone| + |Without(w, gone)| == |w| && forall i <- gone :: i in w
  {
    var w, gone := Window(db.bets), Settling(db, resolutions);
    PickedMembers(db.bets, w, Clean(resolutions));
    PickedAndLeft(db.bets, w, Clean(resolutions), gone);
  }

  lemma WindowIsFront(bets: seq<Bet>)
    ensures var ids, w := OpenIds(bets), Window(bets);
            |w| == Min(|ids|, OPEN_BETS_LIMIT) && ids == w + ids[|w|..]
  {
  }

  /** The next window is what the pass left of its own, and then the bets next in line. */
  lemma WindowAfterPass(db: Db, resolutions: Resolutions)
    ensures Window(SettlePass(db, resolutions, {}).bets) ==
            Without(Window(db.bets), Settling(db, resolutions)) + NextInLine(db, resolutions)
  {
    var ids, w, gone := OpenIds(db.bets), Window(db.bets), Settling(db, resolutions);
    QueueAfterPass(db, resolutions);
    OpenIdsAreTheOpenBets(db.bets);
    SettlingCounts(db, resolutions);
    WindowIsFront(db.bets);
    WindowIsFront(SettlePass(db, resolutions, {}).bets);
    FilterFront(w, ids[|w|..], gone);
    FrontOfQueue(ids, |w|, Without(w, gone), |gone|, OPEN_BETS_LIMIT);
  }

  // ── the pass again ───────────────────────────────────────────────────────

  /** Running the job again on the same data changes nothing exactly when none of the open bets
      next in line, which the first run made room for, has a resolved market. */
  lemma RepeatChangesNothing(db: Db, resolutions: Resolutions)
    ensures var once := SettlePass(db, resolutions, {});
            SettlePass(once, resolutions, {}) == once <==>
            forall i <- NextInLine(db, resolutions) :: !Picks(db.bets, resolutions, {}, i)
  {
    var once, p := SettlePass(db, resolutions, {}), Clean(resolutions);
    var left, next := Without(Window(db.bets), Settling(db, resolutions)), NextInLine(db, resolutions);
    PassSettlesWindow(db, resolutions);
    WindowAfterPass(db, resolutions);
    PassChangesNothing(once, resolutions);
    PickedIgnoresStatus(db.bets, once.bets, Window(once.bets), p);
    PickedOfAppend(db.bets, left, next, p);
    PickedMembers(db.bets, Window(db.bets), p);
    forall i <- left
      ensures !Picks(db.bets, p.resolutions, p.faults, i)
    {
      WithoutMembers(Window(db.bets), Settling(db, resolutions), i);
    }
    NothingPicked(db.bets, left, p);
    PickedMembers(db.bets, next, p);
    if Picked(db.bets, next, p) == [] {
      assert forall i <- next :: i !in Picked(db.bets, next, p);
    } else {
      assert Picked(db.bets, next, p)[0] in Picked(db.bets, next, p);
    }
  }

  /** With room for all the open bets in one pass, repeating it never changes anything. */
  lemma PassIsIdempotent(db: Db, resolutions: Resolutions)
    requires |OpenIds(db.bets)| <= OPEN_BETS_LIMIT
    ensures var once := SettlePass(db, resolutions, {});
            SettlePass(once, resolutions, {}) == once
  {
    RepeatChangesNothing(db, resolutions);
  }

  /** One open bet more than the limit, all on one market. */
  function FullQueue(market: MarketId): Db {
    EMPTY.(bets := seq(OPEN_BETS_LIMIT + 1, i => NewBet(0, market, "", 1.0, None)))
  }

  lemma {:induction false} AllOpen(bets: seq<Bet>)
    requires forall i | 0 <= i < |bets| :: bets[i].status == Open
    ensures |OpenIds(bets)| == |bets|
    decreases |bets|
  {
    if |bets| > 0 {
      AllOpen(bets[..|bets| - 1]);
    }
  }

  lemma {:induction false} AllPicked(bets: seq<Bet>, ids: seq<BetId>, p: Pass)
    requires forall i <- ids :: Picks(bets, p.resolutions, p.faults, i)
    ensures |Picked(bets, ids, p)| == |ids|
    decreases |ids|
  {
    if |ids| > 0 {
      assert ids[0] in ids && forall i <- ids[1..] :: i in ids;
      AllPicked(bets, ids[1..], p);
    }
  }

  /** With one open bet more than a pass takes, all on a resolved market, the next pass still
      settles one. */
  lemma FullQueueKeepsSettling(market: MarketId, winner: TokenId)
    ensures var db, resolutions := FullQueue(market), map[market := Resolution(true, Some(winner), false)];
            var once := SettlePass(db, resolutions, {});
            SettlePass(once, resolutions, {}) != once
  {
    var db, resolutions := FullQueue(market), map[market := Resolution(true, Some(winner), false)];
    var p := Clean(resolutions);
    AllOpen(db.bets);
    OpenIdsAreTheOpenBets(db.bets);
    WindowIsOpen(db.bets);
    forall i <- OpenIds(db.bets)
      ensures Picks(db.bets, p.resolutions, p.faults, i)
    {
    }
    AllPicked(db.bets, Window(db.bets), p);
    RepeatChangesNothing(db, resolutions);
    assert NextInLine(db, resolutions)[0] in NextInLine(db, resolutions);
  }
}

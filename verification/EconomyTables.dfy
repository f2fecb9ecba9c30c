/** What each transaction of the economy does to the tables, in plain numbers and rows. */
module EconomyTables {
  import opened Wrappers
  import opened Economy
  import opened Propagation
  import opened SettlementOrder
  import opened EconomyRuns

  // ── users and referrals ──────────────────────────────────────────────────

  lemma JoinAddsUser(db: Db, u: UserId)
    ensures var after := Act(db, Join(u));
            && u in after.users && (u !in db.users ==> after.users[u] == None)
            && (forall v <- db.users :: v in after.users && after.users[v] == db.users[v])
            && after.users.Keys == db.users.Keys + {u}
            && after.edges == db.edges && after.stats == db.stats && after.bets == db.bets && after.ledger == db.ledger
  {
  }

  /** A referral is made exactly for an unreferred user by another existing one; it sets the
      referrer and adds the pending edge, and otherwise nothing happens. */
  lemma ReferralIsMade(db: Db, invitee: UserId, inviter: Option<UserId>)
    ensures var after := Act(db, Refer(invitee, inviter));
            var made := invitee in db.users && db.users[invitee].None? &&
                        inviter.Some? && inviter.value in db.users && inviter.value != invitee;
            && (made ==> after.users == db.users[invitee := inviter])
            && (made ==> after.edges ==
                           if invitee in db.edges then db.edges else db.edges[invitee := Edge(inviter.value, false)])
            && (!made ==> after.users == db.users && after.edges == db.edges)
            && after.stats == db.stats && after.bets == db.bets && after.ledger == db.ledger
  {
  }

  /** In every reachable state a made referral leaves its one pending edge. */
  lemma ReferralLeavesAnEdge(run: seq<Action>, invitee: UserId, inviter: UserId)
    requires var db := Run(run);
             invitee in db.users && db.users[invitee].None? && inviter in db.users && inviter != invitee
    ensures var after := Run(run + [Refer(invitee, Some(inviter))]);
            && after.users == Run(run).users[invitee := Some(inviter)]
            && invitee !in Run(run).edges && after.edges == Run(run).edges[invitee := Edge(inviter, false)]
  {
    var steps := run + [Refer(invitee, Some(inviter))];
    assert steps[..|run|] == run;
    UnreferredHasNoEdge(run, invitee);
    ReferralIsMade(Run(run), invitee, Some(inviter));
  }

  lemma {:induction false} UnreferredHasNoEdge(run: seq<Action>, v: UserId)
    ensures v in Run(run).edges ==> v in Run(run).users && Run(run).users[v].Some?
    decreases |run|
  {
    if |run| > 0 {
      var db, a := Run(run[..|run| - 1]), run[|run| - 1];
      UnreferredHasNoEdge(run[..|run| - 1], v);
      match a
      case Place(u, amount, day) => PlaceBetShape(db, u, amount, day);
      case Close(i, res) =>
        if i < |db.bets| && db.bets[i].status == Open {
          SettleOneShape(db, i, res);
        }
      case _ =>
    }
  }

  // ── placing a bet ────────────────────────────────────────────────────────

  /** Ten points and one for each whole dollar. */
  predicate AreBetPoints(points: int, amount: real) {
    points as real <= 10.0 + (if amount < 0.0 then 0.0 else amount) < (points + 1) as real
  }

  function BetsBefore(db: Db, u: UserId): nat { if u in db.stats then db.stats[u].totalBets else 0 }

  function VolumeBefore(db: Db, u: UserId): real { if u in db.stats then db.stats[u].volume else 0.0 }

  lemma PlaceCounts(db: Db, u: UserId, amount: real, day: Day)
    ensures var after := Act(db, Place(u, amount, day));
            && u in after.stats && after.stats == db.stats[u := after.stats[u]]
            && after.stats[u].totalBets == BetsBefore(db, u) + 1
            && after.stats[u].volume == VolumeBefore(db, u) + (if amount < 0.0 then 0.0 else amount)
            && after.stats[u].lastActive == Some(day)
            && after.users == db.users && after.bets == db.bets
  {
    PlaceBetShape(db, u, amount, day);
  }

  /** The invitee's third bet, or a later one, unlocks a pending edge and no other. */
  lemma PlaceUnlocks(db: Db, u: UserId, amount: real, day: Day)
    ensures var after := Act(db, Place(u, amount, day));
            after.edges == if u in db.edges && !db.edges[u].unlocked && BetsBefore(db, u) >= 2
                           then db.edges[u := Edge(db.edges[u].inviter, true)] else db.edges
  {
    PlaceBetShape(db, u, amount, day);
  }

  /** The rows an unlock pays: five hundred points to each end. */
  function BonusRows(u: UserId, inviter: UserId): seq<Entry> {
    [Entry(inviter, 500, ReferralSignup, Some(u), None), Entry(u, 500, ReferralWelcome, Some(inviter), None)]
  }

  /** A placed bet writes its points first, then at most one streak row, then the bonuses if it
      unlocked an edge, and last the shares of the upward walk over the edges as they now are. */
  lemma PlaceWrites(db: Db, u: UserId, amount: real, day: Day) returns (points: nat, streak: seq<Entry>, walk: seq<Entry>)
    ensures AreBetPoints(points, amount)
    ensures |streak| <= 1 && forall e <- streak :: e.user == u && e.reason == Streak && e.day == Some(day)
    ensures AreShares(db.users, Act(db, Place(u, amount, day)).edges, u, points, walk)
    ensures var after := Act(db, Place(u, amount, day));
            after.ledger == db.ledger + [Entry(u, points, BetMade, None, None)] + streak
                            + (if after.edges != db.edges then BonusRows(u, db.edges[u].inviter) else []) + walk
  {
    var after := Act(db, Place(u, amount, day));
    var placed := Placed(db, u, amount, day);
    points := BetPoints(amount);
    streak := StreakEntries(db.ledger, u, placed.currentStreak, day);
    walk := WalkRows(db, u, amount, day);
    PlaceBetShape(db, u, amount, day);
    WalkPaysShares(db.users, UnlockEdges(db, u, placed), u, points);
    UnlockPays(db, u, placed);
    Regroup(db.ledger, [BetEntry(u, points)], streak, UnlockRows(db, u, placed), walk);
  }

  lemma UnlockPays(db: Db, u: UserId, placed: Stats)
    ensures UnlockEdges(db, u, placed) != db.edges ==> u in db.edges
    ensures UnlockRows(db, u, placed) ==
            if UnlockEdges(db, u, placed) != db.edges then BonusRows(u, db.edges[u].inviter) else []
  {
    if UnlockRows(db, u, placed) != [] {
      assert UnlockEdges(db, u, placed)[u] != db.edges[u];
    }
  }

  // ── settling a bet ───────────────────────────────────────────────────────

  /** What a decided market makes of a bet: void without a winner, and otherwise won exactly on
      the winning token. */
  lemma SettlementMeans(bet: Bet, res: Resolution)
    ensures var v := SettleBetValues(bet, res);
            && (v.status == Void <==> res.isVoid || res.winningToken.None?)
            && (v.status == Won <==> !res.isVoid && res.winningToken == Some(bet.token))
            && (v.status == Void || v.status == Won || v.status == Lost)
            && (v.status == Void ==> v.payout == bet.amount && v.pnl == 0.0 && v.brier == None)
            && (v.status == Lost ==> v.payout == 0.0 && v.pnl == -bet.amount)
            && (v.status == Won ==> v.pnl == v.payout - bet.amount &&
                                    if bet.entryPrice.Some? && bet.entryPrice.value > 0.0
                                    then v.payout * bet.entryPrice.value == bet.amount else v.payout == bet.amount)
            && (v.status != Void ==> (v.brier.Some? <==> bet.entryPrice.Some?))
  {
    if bet.entryPrice.Some? && bet.entryPrice.value > 0.0 {
      QuotientTimes(bet.amount, bet.entryPrice.value);
    }
  }

  lemma QuotientTimes(amount: real, price: real)
    requires price > 0.0
    ensures amount / price * price == amount
  {
  }

  /** A settled bet keeps what was booked and takes the verdict; a win pays twenty-five points
      and their shares up the walk, and nothing else is written. */
  lemma SettleWrites(db: Db, i: BetId, res: Resolution) returns (walk: seq<Entry>)
    requires i < |db.bets| && db.bets[i].status == Open
    ensures AreShares(db.users, db.edges, db.bets[i].user, 25, walk)
    ensures var after, v := Act(db, Close(i, res)), SettleBetValues(db.bets[i], res);
            && after.users == db.users && after.edges == db.edges
            && after.bets == db.bets[i := db.bets[i].(status := v.status, payout := v.payout, pnl := v.pnl, brier := v.brier)]
            && after.ledger == db.ledger + if v.status == Won
                                           then [Entry(db.bets[i].user, 25, Win, None, None)] + walk else []
  {
    var user := db.bets[i].user;
    walk := PropagateEntries(db.users, db.edges, user, WIN_BONUS, LAYER_RATES);
    WalkPaysShares(db.users, db.edges, user, WIN_BONUS);
    SettleOneShape(db, i, res);
  }

  // ── a whole pass ─────────────────────────────────────────────────────────

  /** Open bets are selected oldest first. */
  lemma {:induction false} OpenIdsAscend(bets: seq<Bet>)
    ensures forall a, b | 0 <= a < b < |OpenIds(bets)| :: OpenIds(bets)[a] < OpenIds(bets)[b]
    decreases |bets|
  {
    if |bets| > 0 {
      var init := bets[..|bets| - 1];
      OpenIdsAscend(init);
      OpenIdsAreTheOpenBets(init);
      forall k | 0 <= k < |OpenIds(init)|
        ensures OpenIds(init)[k] < |init|
      {
        assert OpenIds(init)[k] in OpenIds(init);
      }
    }
  }

  /** The place of an open bet in the queue is the number of older open ones. */
  function OlderOpen(bets: seq<Bet>, i: nat): nat
    requires i <= |bets|
  {
    if i == 0 then 0 else OlderOpen(bets, i - 1) + if bets[i - 1].status == Open then 1 else 0
  }

  /** A pass reaches an open bet when fewer than five hundred older ones are open. */
  predicate InReach(bets: seq<Bet>, i: nat)
    requires i < |bets|
  {
    bets[i].status == Open && OlderOpen(bets, i) < 500
  }

  lemma {:induction false} OlderOpenIsPlace(bets: seq<Bet>, i: nat)
    requires i <= |bets|
    ensures |OpenIds(bets[..i])| == OlderOpen(bets, i)
    decreases i
  {
    if i > 0 {
      OlderOpenIsPlace(bets, i - 1);
      assert bets[..i][..i - 1] == bets[..i - 1];
    }
  }

  lemma {:induction false} OpenIdsOfPrefix(bets: seq<Bet>, i: nat)
    requires i <= |bets|
    ensures OpenIds(bets[..i]) <= OpenIds(bets)
    decreases |bets| - i
  {
    if i < |bets| {
      OpenIdsOfPrefix(bets, i + 1);
      assert bets[..i + 1][..i] == bets[..i];
    } else {
      assert bets[..i] == bets;
    }
  }

  lemma PlaceInQueue(bets: seq<Bet>, i: nat)
    requires i < |bets| && bets[i].status == Open
    ensures OlderOpen(bets, i) < |OpenIds(bets)| && OpenIds(bets)[OlderOpen(bets, i)] == i
  {
    OlderOpenIsPlace(bets, i);
    OpenIdsOfPrefix(bets, i + 1);
    assert bets[..i + 1][..i] == bets[..i];
  }

  lemma WindowIsReach(bets: seq<Bet>, i: nat)
    requires i < |bets|
    ensures i in Window(bets) <==> InReach(bets, i)
  {
    OpenIdsAreTheOpenBets(bets);
    OpenIdsAscend(bets);
    if bets[i].status == Open {
      PlaceInQueue(bets, i);
      var place, ids := OlderOpen(bets, i), OpenIds(bets);
      if place < 500 {
        assert Window(bets)[place] == i;
      } else {
        forall k | 0 <= k < |Window(bets)|
          ensures Window(bets)[k] != i
        {
          assert ids[k] < ids[place];
        }
      }
    }
  }

  /** One run of the job settles exactly the bets in its reach whose market is resolved and whose
      savepoint survives, each as its market decided, and leaves every other bet alone. */
  lemma PassSettlesExactly(db: Db, resolutions: Resolutions, faults: set<BetId>, i: nat)
    requires i < |db.bets|
    ensures var bet, after := db.bets[i], SettlePass(db, resolutions, faults).bets;
            var settles := InReach(db.bets, i) && bet.market in resolutions &&
                           resolutions[bet.market].resolved && i !in faults;
            |after| == |db.bets| &&
            after[i] == if settles then ApplySettlement(bet, SettleBetValues(bet, resolutions[bet.market])) else bet
  {
    WindowIsReach(db.bets, i);
    WindowIsOpen(db.bets);
    IdsSettleExactly(db, Window(db.bets), resolutions, faults, i);
  }

  lemma {:induction false} IdsSettleExactly(db: Db, ids: seq<BetId>, resolutions: Resolutions, faults: set<BetId>, i: nat)
    requires i < |db.bets| && Distinct(ids)
    ensures var bet, after := db.bets[i], SettleIds(db, ids, resolutions, faults).bets;
            var settles := i in ids && bet.market in resolutions && resolutions[bet.market].resolved && i !in faults;
            |after| == |db.bets| &&
            after[i] == if settles then ApplySettlement(bet, SettleBetValues(bet, resolutions[bet.market])) else bet
    decreases |ids|
  {
    if |ids| > 0 {
      var first, rest := ids[0], ids[1..];
      assert ids == [first] + rest && first !in rest && Distinct(rest);
      if Picks(db.bets, resolutions, faults, first) {
        var res := resolutions[db.bets[first].market];
        SettleOneShape(db, first, res);
        IdsSettleExactly(SettleOne(db, first, res), rest, resolutions, faults, i);
      } else {
        IdsSettleExactly(db, rest, resolutions, faults, i);
      }
    }
  }
}

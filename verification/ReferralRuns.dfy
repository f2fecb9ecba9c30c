/** Referral bookkeeping over whole runs: who referred whom, when an edge unlocks,
    which bonuses the ledger holds, and how much all the upward walks together pay. */
module ReferralRuns {
  import opened Wrappers
  import opened Economy
  import opened Propagation
  import opened SettlementOrder
  import opened EconomyRuns

  // ── edges and the referred-by column ─────────────────────────────────────

  /** `referred_by` is set exactly when an edge to that same inviter exists. */
  ghost predicate EdgesMatch(db: Db) {
    && (forall v <- db.users :: db.users[v].Some? <==> v in db.edges)
    && (forall v <- db.edges :: v in db.users && db.users[v] == Some(db.edges[v].inviter) && db.edges[v].inviter != v)
  }

  /** No edge is unlocked before its invitee's third bet. */
  ghost predicate UnlocksAreEarned(db: Db) {
    forall v <- db.edges | db.edges[v].unlocked :: StatsOf(db.stats, v).totalBets >= REFERRAL_UNLOCK_BETS
  }

  lemma ActKeepsEdges(db: Db, a: Action)
    requires EdgesMatch(db) && UnlocksAreEarned(db)
    ensures EdgesMatch(Act(db, a)) && UnlocksAreEarned(Act(db, a))
  {
    match a
    case Join(_) =>
    case Refer(_, _) =>
    case Place(u, amount, day) => PlaceBetShape(db, u, amount, day);
    case Book(_, _, _, _, _) =>
    case Close(i, res) =>
      if i < |db.bets| && db.bets[i].status == Open {
        SettleOneShape(db, i, res);
      }
  }

  lemma {:induction false} EdgesMatchInEveryRun(run: seq<Action>)
    ensures EdgesMatch(Run(run)) && UnlocksAreEarned(Run(run))
    decreases |run|
  {
    if |run| > 0 {
      EdgesMatchInEveryRun(run[..|run| - 1]);
      ActKeepsEdges(Run(run[..|run| - 1]), run[|run| - 1]);
    }
  }

  /** Right after any bet of the invitee, the edge is unlocked exactly when they have
      placed three. */
  lemma BetDecidesUnlock(run: seq<Action>, u: UserId, amount: real, day: Day)
    ensures var after := Run(run + [Place(u, amount, day)]);
            u in after.edges ==>
              (after.edges[u].unlocked <==> StatsOf(after.stats, u).totalBets >= REFERRAL_UNLOCK_BETS)
  {
    EdgesMatchInEveryRun(run);
    assert (run + [Place(u, amount, day)])[..|run + [Place(u, amount, day)]| - 1] == run;
    PlaceBetShape(Run(run), u, amount, day);
  }

  /** The number of bets a run placed for a user. */
  function BetsPlaced(run: seq<Action>, u: UserId): nat {
    if |run| == 0 then 0
    else BetsPlaced(run[..|run| - 1], u) + (if run[|run| - 1].Place? && run[|run| - 1].user == u then 1 else 0)
  }

  lemma {:induction false} TotalBetsCountsPlacements(run: seq<Action>, u: UserId)
    ensures StatsOf(Run(run).stats, u).totalBets == BetsPlaced(run, u)
    decreases |run|
  {
    if |run| > 0 {
      var db, a := Run(run[..|run| - 1]), run[|run| - 1];
      TotalBetsCountsPlacements(run[..|run| - 1], u);
      match a
      case Place(x, amount, day) => PlaceBetShape(db, x, amount, day);
      case Close(i, res) =>
        if i < |db.bets| && db.bets[i].status == Open {
          SettleOneShape(db, i, res);
        }
      case _ =>
    }
  }

  // ── what no transaction ever takes back ──────────────────────────────────

  /** `b` is a later state than `a`: the ledger only grew, referrers and unlocks stayed,
      and every bet that had left OPEN kept its row. */
  ghost predicate Persists(a: Db, b: Db) {
    && a.ledger <= b.ledger
    && (forall v <- a.users :: v in b.users && (a.users[v].Some? ==> b.users[v] == a.users[v]))
    && (forall v <- a.edges :: v in b.edges && b.edges[v].inviter == a.edges[v].inviter
                               && (a.edges[v].unlocked ==> b.edges[v].unlocked))
    && |a.bets| <= |b.bets|
    && (forall i | 0 <= i < |a.bets| :: a.bets[i].status != Open ==> b.bets[i] == a.bets[i])
  }

  lemma ActPersists(db: Db, a: Action)
    ensures Persists(db, Act(db, a))
  {
    match a
    case Place(u, amount, day) => PlaceBetShape(db, u, amount, day);
    case Close(i, res) =>
      if i < |db.bets| && db.bets[i].status == Open {
        SettleOneShape(db, i, res);
      }
    case _ =>
  }

  lemma {:induction false} RunsPersist(db: Db, run: seq<Action>)
    ensures Persists(db, RunFrom(db, run))
    decreases |run|
  {
    if |run| > 0 {
      RunsPersist(db, run[..|run| - 1]);
      ActPersists(RunFrom(db, run[..|run| - 1]), run[|run| - 1]);
    }
  }

  // ── the two-sided bonus ──────────────────────────────────────────────────

  predicate IsBonus(e: Entry) { e.reason == ReferralSignup || e.reason == ReferralWelcome }

  /** `e` is one of the two bonuses of the unlocked edge of `v`. */
  ghost predicate IsPaidFor(edges: map<UserId, Edge>, v: UserId, e: Entry) {
    v in edges && edges[v].unlocked && (e == SignupEntry(edges[v].inviter, v) || e == WelcomeEntry(v, edges[v].inviter))
  }

  /** Every bonus row was paid for an edge that is unlocked, to the two ends of it. */
  ghost predicate BonusesAreEarned(db: Db) {
    forall e <- db.ledger | IsBonus(e) :: exists v <- db.edges :: IsPaidFor(db.edges, v, e)
  }

  /** One inviter bonus and one invitee bonus if the edge is unlocked, none otherwise. */
  ghost predicate BonusesMatch(db: Db, v: UserId) {
    v in db.edges ==>
      var due := if db.edges[v].unlocked then 1 else 0;
      && multiset(db.ledger)[SignupEntry(db.edges[v].inviter, v)] == due
      && multiset(db.ledger)[WelcomeEntry(v, db.edges[v].inviter)] == due
  }

  lemma NoBonusBeforeEdge(db: Db, v: UserId, inviter: UserId)
    requires BonusesAreEarned(db) && v !in db.edges
    ensures multiset(db.ledger)[SignupEntry(inviter, v)] == 0
    ensures multiset(db.ledger)[WelcomeEntry(v, inviter)] == 0
  {
    assert SignupEntry(inviter, v) !in db.ledger;
    assert WelcomeEntry(v, inviter) !in db.ledger;
  }

  lemma CountInFour(a: seq<Entry>, b: seq<Entry>, c: seq<Entry>, d: seq<Entry>, e: Entry)
    ensures multiset(a + b + c + d)[e] == multiset(a)[e] + multiset(b)[e] + multiset(c)[e] + multiset(d)[e]
  {
  }

  /** Among the rows of one placed bet the only bonuses are those of the unlock. */
  lemma BonusRowsOfPlace(db: Db, u: UserId, amount: real, day: Day, e: Entry)
    requires IsBonus(e)
    ensures multiset(PlaceRows(db, u, amount, day))[e]
         == multiset(UnlockRows(db, u, Placed(db, u, amount, day)))[e]
  {
    var bet := [BetEntry(u, BetPoints(amount))];
    var streak := StreakEntries(db.ledger, u, Placed(db, u, amount, day).currentStreak, day);
    var walk := WalkRows(db, u, amount, day);
    WalkReasons(db.users, UnlockEdges(db, u, Placed(db, u, amount, day)), u, BetPoints(amount), LAYER_RATES);
    RowsOfOtherReasons(bet, e.reason, e);
    RowsOfOtherReasons(streak, e.reason, e);
    RowsOfOtherReasons(walk, e.reason, e);
    CountInFour(bet, streak, UnlockRows(db, u, Placed(db, u, amount, day)), walk, e);
  }

  lemma UnlockPaysForIts(db: Db, u: UserId, placed: Stats, e: Entry)
    requires e in UnlockRows(db, u, placed)
    ensures IsPaidFor(UnlockEdges(db, u, placed), u, e)
  {
  }

  lemma UnlockKeepsPaid(db: Db, u: UserId, placed: Stats, v: UserId, e: Entry)
    requires IsPaidFor(db.edges, v, e)
    ensures IsPaidFor(UnlockEdges(db, u, placed), v, e)
  {
  }

  lemma PlaceKeepsEarned(db: Db, u: UserId, amount: real, day: Day)
    requires BonusesAreEarned(db)
    ensures BonusesAreEarned(PlaceBet(db, u, amount, day))
  {
    var after, placed := PlaceBet(db, u, amount, day), Placed(db, u, amount, day);
    PlaceBetShape(db, u, amount, day);
    forall e <- after.ledger | IsBonus(e)
      ensures exists v <- after.edges :: IsPaidFor(after.edges, v, e)
    {
      if e in db.ledger {
        var v :| v in db.edges && IsPaidFor(db.edges, v, e);
        UnlockKeepsPaid(db, u, placed, v, e);
      } else {
        assert e in PlaceRows(db, u, amount, day) && multiset(PlaceRows(db, u, amount, day))[e] > 0;
        BonusRowsOfPlace(db, u, amount, day, e);
        assert e in multiset(UnlockRows(db, u, placed));
        UnlockPaysForIts(db, u, placed, e);
      }
    }
  }

  /** The unlock of `u` pays both bonuses of `u`'s edge and nobody else's. */
  lemma BonusRowsOfUnlock(db: Db, u: UserId, placed: Stats, v: UserId, inviter: UserId)
    requires v in db.edges && db.edges[v].inviter == inviter
    ensures var paid := if u == v && UnlockRows(db, u, placed) != [] then 1 else 0;
            && multiset(UnlockRows(db, u, placed))[SignupEntry(inviter, v)] == paid
            && multiset(UnlockRows(db, u, placed))[WelcomeEntry(v, inviter)] == paid
  {
  }

  lemma PlaceKeepsBonuses(db: Db, u: UserId, amount: real, day: Day, v: UserId)
    requires BonusesMatch(db, v)
    ensures BonusesMatch(PlaceBet(db, u, amount, day), v)
  {
    PlaceBetShape(db, u, amount, day);
    if v in db.edges {
      var inviter := db.edges[v].inviter;
      BonusRowsOfPlace(db, u, amount, day, SignupEntry(inviter, v));
      BonusRowsOfPlace(db, u, amount, day, WelcomeEntry(v, inviter));
      BonusRowsOfUnlock(db, u, Placed(db, u, amount, day), v, inviter);
    }
  }

  /** Rows that are no bonuses leave the bonuses as they were. */
  lemma OtherRowsKeepBonuses(db: Db, after: Db, rows: seq<Entry>, v: UserId)
    requires after.edges == db.edges && after.ledger == db.ledger + rows
    requires forall e <- rows :: !IsBonus(e)
    requires BonusesAreEarned(db) && BonusesMatch(db, v)
    ensures BonusesAreEarned(after) && BonusesMatch(after, v)
  {
    if v in db.edges {
      RowsOfOtherReasons(rows, ReferralSignup, SignupEntry(db.edges[v].inviter, v));
      RowsOfOtherReasons(rows, ReferralWelcome, WelcomeEntry(v, db.edges[v].inviter));
    }
  }

  lemma CloseKeepsBonuses(db: Db, i: BetId, res: Resolution, v: UserId)
    requires i < |db.bets|
    requires BonusesAreEarned(db) && BonusesMatch(db, v)
    ensures BonusesAreEarned(SettleOne(db, i, res)) && BonusesMatch(SettleOne(db, i, res), v)
  {
    var w := SettleBetValues(db.bets[i], res);
    SettleOneShape(db, i, res);
    WinRowsOfSettlement(db, db.bets[i].user, w, v);
    OtherRowsKeepBonuses(db, SettleOne(db, i, res), SettleEntries(db, db.bets[i].user, w), v);
  }

  lemma ActKeepsBonuses(db: Db, a: Action, v: UserId)
    requires BonusesAreEarned(db) && BonusesMatch(db, v)
    ensures BonusesAreEarned(Act(db, a)) && BonusesMatch(Act(db, a), v)
  {
    match a
    case Join(_) =>
    case Refer(invitee, inviter) => ReferKeepsBonuses(db, invitee, inviter, v);
    case Place(u, amount, day) =>
      PlaceKeepsEarned(db, u, amount, day);
      PlaceKeepsBonuses(db, u, amount, day, v);
    case Book(_, _, _, _, _) =>
    case Close(i, res) =>
      if i < |db.bets| && db.bets[i].status == Open {
        CloseKeepsBonuses(db, i, res, v);
      }
  }

  lemma ReferKeepsBonuses(db: Db, invitee: UserId, inviter: Option<UserId>, v: UserId)
    requires BonusesAreEarned(db) && BonusesMatch(db, v)
    ensures BonusesAreEarned(AttributeReferral(db, invitee, inviter))
    ensures BonusesMatch(AttributeReferral(db, invitee, inviter), v)
  {
    var after := AttributeReferral(db, invitee, inviter);
    assert forall x <- db.edges :: x in after.edges && after.edges[x] == db.edges[x];
    if v !in db.edges && v in after.edges {
      NoBonusBeforeEdge(db, v, after.edges[v].inviter);
    }
  }

  /** In every reachable state the ledger holds exactly one inviter bonus and one
      invitee bonus per unlocked edge, and no bonus row for anything else. */
  lemma {:induction false} BonusesMatchInEveryRun(run: seq<Action>, v: UserId)
    ensures BonusesAreEarned(Run(run)) && BonusesMatch(Run(run), v)
    decreases |run|
  {
    if |run| > 0 {
      BonusesMatchInEveryRun(run[..|run| - 1], v);
      ActKeepsBonuses(Run(run[..|run| - 1]), run[|run| - 1], v);
    }
  }

  // ── the 21% bound ────────────────────────────────────────────────────────

  /** All upward payments, against all the points they were taken from. */
  ghost predicate WithinRates(ledger: seq<Entry>) {
    0 <= 100 * SumOf(ledger, ReferralLayer) <= 21 * (SumOf(ledger, BetMade) + SumOf(ledger, Win))
  }

  lemma SumOfReward(ledger: seq<Entry>, reward: Entry, other: seq<Entry>, walk: seq<Entry>, reason: Reason)
    ensures SumOf(ledger + ([reward] + other + walk), reason)
         == SumOf(ledger, reason) + (if reward.reason == reason then reward.delta else 0)
            + SumOf(other, reason) + SumOf(walk, reason)
  {
    SumAppend(ledger, [reward] + other + walk, reason);
    SumAppend([reward] + other, walk, reason);
    SumAppend([reward], other, reason);
    assert [reward][..0] == [];
  }

  lemma RewardStaysWithinRates(ledger: seq<Entry>, reward: Entry, other: seq<Entry>, walk: seq<Entry>)
    requires WithinRates(ledger)
    requires (reward.reason == BetMade || reward.reason == Win) && reward.delta >= 0
    requires SumOf(other, ReferralLayer) == SumOf(other, BetMade) == SumOf(other, Win) == 0
    requires 0 <= SumOf(walk, ReferralLayer) <= 21 * reward.delta / 100
    requires SumOf(walk, BetMade) == SumOf(walk, Win) == 0
    ensures WithinRates(ledger + ([reward] + other + walk))
  {
    SumOfReward(ledger, reward, other, walk, ReferralLayer);
    SumOfReward(ledger, reward, other, walk, BetMade);
    SumOfReward(ledger, reward, other, walk, Win);
  }

  lemma {:induction false} SumOfOthers(rows: seq<Entry>, reason: Reason)
    requires forall r <- rows :: r.reason != reason
    ensures SumOf(rows, reason) == 0
    decreases |rows|
  {
    if |rows| > 0 {
      assert forall r <- rows[..|rows| - 1] :: r in rows;
      SumOfOthers(rows[..|rows| - 1], reason);
    }
  }

  lemma StreakAndUnlockRows(db: Db, u: UserId, placed: Stats, day: Day, reason: Reason)
    requires reason == ReferralLayer || reason == BetMade || reason == Win
    ensures SumOf(StreakEntries(db.ledger, u, placed.currentStreak, day) + UnlockRows(db, u, placed), reason) == 0
  {
    SumOfOthers(StreakEntries(db.ledger, u, placed.currentStreak, day) + UnlockRows(db, u, placed), reason);
  }

  lemma Reassociate(a: seq<Entry>, b: seq<Entry>, c: seq<Entry>, d: seq<Entry>)
    ensures a + b + c + d == a + (b + c) + d
  {
  }

  lemma PlaceStaysWithinRates(db: Db, u: UserId, amount: real, day: Day)
    requires WithinRates(db.ledger)
    ensures WithinRates(PlaceBet(db, u, amount, day).ledger)
  {
    var placed := Placed(db, u, amount, day);
    var streak, unlock := StreakEntries(db.ledger, u, placed.currentStreak, day), UnlockRows(db, u, placed);
    var bet, walk := BetEntry(u, BetPoints(amount)), WalkRows(db, u, amount, day);
    PlaceBetShape(db, u, amount, day);
    WalkBound(db.users, UnlockEdges(db, u, placed), u, BetPoints(amount));
    StreakAndUnlockRows(db, u, placed, day, ReferralLayer);
    StreakAndUnlockRows(db, u, placed, day, BetMade);
    StreakAndUnlockRows(db, u, placed, day, Win);
    Reassociate([bet], streak, unlock, walk);
    RewardStaysWithinRates(db.ledger, bet, streak + unlock, walk);
  }

  lemma CloseStaysWithinRates(db: Db, i: BetId, res: Resolution)
    requires WithinRates(db.ledger) && i < |db.bets|
    ensures WithinRates(SettleOne(db, i, res).ledger)
  {
    var user, v := db.bets[i].user, SettleBetValues(db.bets[i], res);
    SettleOneShape(db, i, res);
    if v.status == Won {
      var walk := PropagateEntries(db.users, db.edges, user, WIN_BONUS, LAYER_RATES);
      WalkBound(db.users, db.edges, user, WIN_BONUS);
      assert SettleEntries(db, user, v) == [WinEntry(user)] + [] + walk;
      RewardStaysWithinRates(db.ledger, WinEntry(user), [], walk);
    }
  }

  /** Over any run, with any referral graph it builds, cycles included, all referral
      points together are at most 21% of all the bet and win points. */
  lemma {:induction false} ReferralPointsBounded(run: seq<Action>)
    ensures WithinRates(Run(run).ledger)
    decreases |run|
  {
    if |run| > 0 {
      var db := Run(run[..|run| - 1]);
      ReferralPointsBounded(run[..|run| - 1]);
      match run[|run| - 1]
      case Place(u, amount, day) => PlaceStaysWithinRates(db, u, amount, day);
      case Close(i, res) =>
        if i < |db.bets| && db.bets[i].status == Open {
          CloseStaysWithinRates(db, i, res);
        }
      case _ =>
    }
  }
}

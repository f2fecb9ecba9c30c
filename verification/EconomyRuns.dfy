/** Whole runs of the economy: what every reachable state of the tables keeps, from
    an empty database, through any sequence of transactions. */
module EconomyRuns {
  import opened Wrappers
  import opened Economy
  import opened Propagation
  import opened Streaks
  import opened SettlementOrder

  datatype Action =
    | Join(user: UserId)
    | Refer(invitee: UserId, inviter: Option<UserId>)
    | Place(user: UserId, amount: real, day: Day)
    | Book(user: UserId, market: MarketId, token: TokenId, amount: real, entryPrice: Option<real>)
    | Close(bet: BetId, resolution: Resolution)

  /** `Close` is one bet's savepoint surviving inside a settlement pass; the job only
      ever selects open bets. */
  function Act(db: Db, a: Action): Db {
    match a
    case Join(u) => AddUser(db, u)
    case Refer(invitee, inviter) => AttributeReferral(db, invitee, inviter)
    case Place(u, amount, day) => PlaceBet(db, u, amount, day)
    case Book(u, market, token, amount, price) => db.(bets := db.bets + [NewBet(u, market, token, amount, price)])
    case Close(i, res) => if i < |db.bets| && db.bets[i].status == Open then SettleOne(db, i, res) else db
  }

  function RunFrom(db: Db, run: seq<Action>): Db
    decreases |run|
  {
    if |run| == 0 then db else Act(RunFrom(db, run[..|run| - 1]), run[|run| - 1])
  }

  function Run(run: seq<Action>): Db { RunFrom(EMPTY, run) }

  lemma {:induction false} RunFromAppend(db: Db, a: seq<Action>, b: seq<Action>)
    ensures RunFrom(db, a + b) == RunFrom(RunFrom(db, a), b)
    decreases |b|
  {
    if |b| == 0 {
      assert a + b == a;
    } else {
      assert (a + b)[..|a + b| - 1] == a + b[..|b| - 1];
      RunFromAppend(db, a, b[..|b| - 1]);
    }
  }

  /** A settlement pass is a run of `Close` actions, so what holds in every state of
      every run holds after, and in the middle of, every pass. */
  lemma PassIsARun(db: Db, resolutions: Resolutions, faults: set<BetId>) returns (run: seq<Action>)
    ensures RunFrom(db, run) == SettlePass(db, resolutions, faults)
    ensures forall a <- run :: a.Close?
  {
    WindowIsOpen(db.bets);
    forall k | 0 <= k < |Window(db.bets)|
      ensures Window(db.bets)[k] < |db.bets| && db.bets[Window(db.bets)[k]].status == Open
    {
      assert Window(db.bets)[k] in Window(db.bets);
    }
    run := IdsAreARun(db, Window(db.bets), resolutions, faults);
  }

  lemma {:induction false} IdsAreARun(db: Db, ids: seq<BetId>, resolutions: Resolutions, faults: set<BetId>)
      returns (run: seq<Action>)
    requires Distinct(ids)
    requires forall k | 0 <= k < |ids| :: ids[k] < |db.bets| && db.bets[ids[k]].status == Open
    ensures RunFrom(db, run) == SettleIds(db, ids, resolutions, faults)
    ensures forall a <- run :: a.Close?
    decreases |ids|
  {
    run := [];
    if |ids| > 0 {
      var i := ids[0];
      if Picks(db.bets, resolutions, faults, i) {
        var res := resolutions[db.bets[i].market];
        SettleOneShape(db, i, res);
        var rest := IdsAreARun(SettleOne(db, i, res), ids[1..], resolutions, faults);
        run := [Close(i, res)] + rest;
        assert RunFrom(db, [Close(i, res)]) == SettleOne(db, i, res) by {
          assert [Close(i, res)][..0] == [];
        }
        RunFromAppend(db, [Close(i, res)], rest);
      } else {
        run := IdsAreARun(db, ids[1..], resolutions, faults);
      }
    }
  }

  // ── what one placed bet writes ───────────────────────────────────────────

  function UnlockRows(db: Db, u: UserId, placed: Stats): seq<Entry> {
    if u in db.edges && !db.edges[u].unlocked && placed.totalBets >= REFERRAL_UNLOCK_BETS
    then [SignupEntry(db.edges[u].inviter, u), WelcomeEntry(u, db.edges[u].inviter)] else []
  }

  function UnlockEdges(db: Db, u: UserId, placed: Stats): map<UserId, Edge> {
    if UnlockRows(db, u, placed) == [] then db.edges else db.edges[u := db.edges[u].(unlocked := true)]
  }

  function Placed(db: Db, u: UserId, amount: real, day: Day): Stats {
    NextStats(StatsOf(db.stats, u), amount, day)
  }

  function WalkRows(db: Db, u: UserId, amount: real, day: Day): seq<Entry> {
    PropagateEntries(db.users, UnlockEdges(db, u, Placed(db, u, amount, day)), u, BetPoints(amount), LAYER_RATES)
  }

  function PlaceRows(db: Db, u: UserId, amount: real, day: Day): seq<Entry> {
    var placed := Placed(db, u, amount, day);
    [BetEntry(u, BetPoints(amount))] + StreakEntries(db.ledger, u, placed.currentStreak, day)
    + UnlockRows(db, u, placed) + WalkRows(db, u, amount, day)
  }

  /** The stored streak rows decide; the bet's own row is not one of them. */
  lemma StreakSeesOldRows(db: Db, u: UserId, amount: real, day: Day)
    ensures AwardDailyStreak(Append(RecordBet(db, u, amount, day), [BetEntry(u, BetPoints(amount))]), u, day)
         == Append(Append(RecordBet(db, u, amount, day), [BetEntry(u, BetPoints(amount))]),
                   StreakEntries(db.ledger, u, Placed(db, u, amount, day).currentStreak, day))
  {
    var awarded := Append(RecordBet(db, u, amount, day), [BetEntry(u, BetPoints(amount))]);
    assert HasStreak(awarded.ledger, u, day) <==> HasStreak(db.ledger, u, day) by {
      assert forall e <- db.ledger :: e in awarded.ledger;
    }
  }

  lemma UnlockShape(db: Db, u: UserId)
    requires u in db.stats
    ensures MaybeUnlock(db, u)
         == Db(db.users, UnlockEdges(db, u, db.stats[u]), db.stats, db.bets, db.ledger + UnlockRows(db, u, db.stats[u]))
  {
    assert db.ledger + [] == db.ledger;
  }

  lemma Regroup(a: seq<Entry>, b: seq<Entry>, c: seq<Entry>, d: seq<Entry>, e: seq<Entry>)
    ensures a + b + c + d + e == a + (b + c + d + e)
  {
  }

  lemma PlaceBetShape(db: Db, u: UserId, amount: real, day: Day)
    ensures PlaceBet(db, u, amount, day)
         == Db(db.users, UnlockEdges(db, u, Placed(db, u, amount, day)), db.stats[u := Placed(db, u, amount, day)],
               db.bets, db.ledger + PlaceRows(db, u, amount, day))
  {
    var placed := Placed(db, u, amount, day);
    var bet := [BetEntry(u, BetPoints(amount))];
    var streak := StreakEntries(db.ledger, u, placed.currentStreak, day);
    var streaked := Append(Append(RecordBet(db, u, amount, day), bet), streak);
    StreakSeesOldRows(db, u, amount, day);
    UnlockShape(streaked, u);
    var unlock := UnlockRows(db, u, placed);
    var walk := WalkRows(db, u, amount, day);
    Regroup(db.ledger, bet, streak, unlock, walk);
  }

  lemma {:induction false} WalkReasons(users: map<UserId, Option<UserId>>, edges: map<UserId, Edge>, u: UserId,
                                       base: nat, rates: seq<nat>)
    ensures forall e <- PropagateEntries(users, edges, u, base, rates) :: e.reason == ReferralLayer
    decreases |rates|
  {
    if |rates| > 0 && Up(users, edges, u).Some? {
      WalkReasons(users, edges, users[u].value, base, rates[1..]);
    }
  }

  lemma RowsOfOtherReasons(rows: seq<Entry>, reason: Reason, e: Entry)
    requires forall r <- rows :: r.reason != reason
    requires e.reason == reason
    ensures multiset(rows)[e] == 0
  {
    assert e !in rows;
  }

  // ── stats agree with the bets they summarise ─────────────────────────────

  datatype Tally = Tally(user: UserId, wins: nat, losses: nat, pnl: real, brier: real)

  /** A tally with one more bet row; only decided bets count. */
  function Count(t: Tally, bet: Bet): Tally {
    if bet.status != Won && bet.status != Lost then t
    else
      Tally(t.user, t.wins + (if bet.status == Won then 1 else 0), t.losses + (if bet.status == Lost then 1 else 0),
            t.pnl + bet.pnl, t.brier + (if bet.brier.Some? then bet.brier.value else 0.0))
  }

  /** Counts and sums over one user's bets among the first `n`. */
  function TallyUpTo(bets: seq<Bet>, u: UserId, n: nat): Tally
    requires n <= |bets|
  {
    if n == 0 then Tally(u, 0, 0, 0.0, 0.0)
    else
      var before := TallyUpTo(bets, u, n - 1);
      if bets[n - 1].user == u then Count(before, bets[n - 1]) else before
  }

  function TallyOf(bets: seq<Bet>, u: UserId): Tally { TallyUpTo(bets, u, |bets|) }

  lemma CountsCommute(t: Tally, a: Bet, b: Bet)
    ensures Count(Count(t, a), b) == Count(Count(t, b), a)
  {
  }

  lemma {:induction false} TallyOfSettled(bets: seq<Bet>, i: nat, settled: Bet, u: UserId, n: nat)
    requires i < |bets| && bets[i].status == Open && settled.user == bets[i].user && n <= |bets|
    ensures TallyUpTo(bets[i := settled], u, n)
         == if i < n && settled.user == u then Count(TallyUpTo(bets, u, n), settled) else TallyUpTo(bets, u, n)
  {
    if n > 0 {
      TallyOfSettled(bets, i, settled, u, n - 1);
      CountsCommute(TallyUpTo(bets, u, n - 1), settled, bets[n - 1]);
    }
  }

  lemma {:induction false} TallyOfLonger(bets: seq<Bet>, more: seq<Bet>, u: UserId, n: nat)
    requires n <= |bets|
    ensures TallyUpTo(bets + more, u, n) == TallyUpTo(bets, u, n)
  {
    if n > 0 {
      TallyOfLonger(bets, more, u, n - 1);
    }
  }

  /** The counters a stats row holds, as a tally, with the settled count they imply. */
  function Counters(s: Stats): (Tally, nat) { (Tally(s.user, s.wins, s.losses, s.pnl, s.brierSum), s.settled) }

  function Decided(t: Tally): (Tally, nat) { (t, t.wins + t.losses) }

  ghost predicate Summarises(s: Stats, t: Tally) { Counters(s) == Decided(t) }

  /** Payout and profit of a bet row are those of its status. */
  ghost predicate BetIsSound(bet: Bet) {
    match bet.status
    case Open => bet.payout == 0.0 && bet.pnl == 0.0 && bet.brier.None?
    case Won =>
      bet.pnl == bet.payout - bet.amount
      && bet.payout == (if bet.shares.Some? then bet.shares.value else bet.amount)
    case Lost => bet.payout == 0.0 && bet.pnl == bet.payout - bet.amount
    case Void => bet.payout == bet.amount && bet.pnl == bet.payout - bet.amount && bet.brier.None?
  }

  /** A decided bet's Brier score is the squared distance of its entry price from what came
      true, one for a win and zero for a loss. */
  ghost predicate BrierIsSound(bet: Bet) {
    bet.status == Won || bet.status == Lost ==>
      (bet.brier.Some? <==> bet.entryPrice.Some?) &&
      (bet.brier.Some? ==>
         var miss := bet.entryPrice.value - if bet.status == Won then 1.0 else 0.0;
         bet.brier.value == miss * miss)
  }

  ghost predicate SharesAreSound(bet: Bet) {
    bet.shares == if bet.entryPrice.Some? && bet.entryPrice.value > 0.0
                  then Some(bet.amount / bet.entryPrice.value) else None
  }

  /** One user's counters, profit and Brier sum are those of their decided bets, and
      they hold one win row per win. */
  ghost predicate StatsAgree(db: Db, u: UserId) {
    && Summarises(StatsOf(db.stats, u), TallyOf(db.bets, u))
    && multiset(db.ledger)[WinEntry(u)] == TallyOf(db.bets, u).wins
  }

  ghost predicate BooksAreSound(db: Db) {
    && (forall bet <- db.bets :: BetIsSound(bet) && BrierIsSound(bet) && SharesAreSound(bet))
    && (forall e <- db.ledger | e.reason == Win :: e == WinEntry(e.user))
  }

  lemma PowerTwo(x: real)
    ensures Power(x, 2) == x * x
  {
    assert Power(x, 1) == x * Power(x, 0);
  }

  lemma SettledBetIsSound(bet: Bet, res: Resolution)
    requires SharesAreSound(bet)
    ensures var settled := ApplySettlement(bet, SettleBetValues(bet, res));
            BetIsSound(settled) && BrierIsSound(settled) && SharesAreSound(settled) && settled.status != Open
  {
    if bet.entryPrice.Some? {
      PowerTwo(bet.entryPrice.value);
      PowerTwo(bet.entryPrice.value - 1.0);
    }
  }

  lemma CountersAdd(s: Stats, t: Tally, bet: Bet, v: Settlement)
    requires Summarises(s, t) && v.status != Open
    ensures Summarises(AddSettlement(s, v), Count(t, ApplySettlement(bet, v)))
  {
  }

  lemma FoldKeepsSummary(stats: map<UserId, Stats>, bets: seq<Bet>, i: BetId, v: Settlement, u: UserId)
    requires Summarises(StatsOf(stats, u), TallyOf(bets, u))
    requires i < |bets| && bets[i].status == Open && v.status != Open
    ensures var after := TallyOf(bets[i := ApplySettlement(bets[i], v)], u);
            && Summarises(StatsOf(Fold(stats, bets[i].user, v), u), after)
            && after.wins == TallyOf(bets, u).wins + (if v.status == Won && bets[i].user == u then 1 else 0)
  {
    TallyOfSettled(bets, i, ApplySettlement(bets[i], v), u, |bets|);
    CountersAdd(StatsOf(stats, u), TallyOf(bets, u), bets[i], v);
  }

  lemma CloseKeepsStats(db: Db, i: BetId, res: Resolution, u: UserId)
    requires StatsAgree(db, u)
    requires i < |db.bets| && db.bets[i].status == Open
    ensures StatsAgree(SettleOne(db, i, res), u)
  {
    var v := SettleBetValues(db.bets[i], res);
    SettleOneShape(db, i, res);
    FoldKeepsSummary(db.stats, db.bets, i, v, u);
    WinRowsOfSettlement(db, db.bets[i].user, v, u);
  }

  lemma PlaceKeepsStats(db: Db, x: UserId, amount: real, day: Day, u: UserId)
    requires StatsAgree(db, u)
    ensures StatsAgree(PlaceBet(db, x, amount, day), u)
  {
    PlaceBetShape(db, x, amount, day);
    PlaceWritesNoWin(db, x, amount, day);
    RowsOfOtherReasons(PlaceRows(db, x, amount, day), Win, WinEntry(u));
  }

  lemma WinRowsOfSettlement(db: Db, winner: UserId, v: Settlement, u: UserId)
    ensures multiset(SettleEntries(db, winner, v))[WinEntry(u)] == if v.status == Won && winner == u then 1 else 0
    ensures forall e <- SettleEntries(db, winner, v) :: e == WinEntry(winner) || e.reason == ReferralLayer
  {
    if v.status == Won {
      var walk := PropagateEntries(db.users, db.edges, winner, WIN_BONUS, LAYER_RATES);
      WalkReasons(db.users, db.edges, winner, WIN_BONUS, LAYER_RATES);
      RowsOfOtherReasons(walk, Win, WinEntry(u));
    }
  }

  lemma PlaceWritesNoWin(db: Db, u: UserId, amount: real, day: Day)
    ensures forall r <- PlaceRows(db, u, amount, day) :: r.reason != Win
  {
    WalkReasons(db.users, UnlockEdges(db, u, Placed(db, u, amount, day)), u, BetPoints(amount), LAYER_RATES);
  }

  lemma BookKeepsStats(db: Db, bet: Bet, u: UserId)
    requires StatsAgree(db, u) && bet.status == Open
    ensures StatsAgree(db.(bets := db.bets + [bet]), u)
  {
    TallyOfLonger(db.bets, [bet], u, |db.bets|);
  }

  lemma SameBooksAgree(a: Db, b: Db, u: UserId)
    requires StatsAgree(a, u) && b.stats == a.stats && b.bets == a.bets && b.ledger == a.ledger
    ensures StatsAgree(b, u)
  {
  }

  lemma BookkeepingKeepsStats(db: Db, a: Action, u: UserId)
    requires StatsAgree(db, u) && !a.Place? && !a.Close?
    ensures StatsAgree(Act(db, a), u)
  {
    if a.Book? {
      BookKeepsStats(db, NewBet(a.user, a.market, a.token, a.amount, a.entryPrice), u);
    } else {
      SameBooksAgree(db, Act(db, a), u);
    }
  }

  lemma ActKeepsStats(db: Db, a: Action, u: UserId)
    requires StatsAgree(db, u)
    ensures StatsAgree(Act(db, a), u)
  {
    if a.Place? {
      PlaceKeepsStats(db, a.user, a.amount, a.day, u);
    } else if !a.Close? {
      BookkeepingKeepsStats(db, a, u);
    } else if a.bet < |db.bets| && db.bets[a.bet].status == Open {
      CloseKeepsStats(db, a.bet, a.resolution, u);
    }
  }

  /** In every reachable state each user's counters, realised P&L and Brier sum are
      those of that user's decided bets, and their win rows are as many as their wins. */
  lemma {:induction false} StatsAgreeInEveryRun(run: seq<Action>, u: UserId)
    ensures StatsAgree(Run(run), u)
    decreases |run|
  {
    if |run| > 0 {
      StatsAgreeInEveryRun(run[..|run| - 1], u);
      ActKeepsStats(Run(run[..|run| - 1]), run[|run| - 1], u);
    }
  }

  /** In every reachable state a settled bet's profit is its payout less its stake, a
      win pays the shares bought, a void refunds, the Brier score measures the entry price
      against the result, and every win row is the fixed bonus. */
  lemma {:induction false} BooksAreSoundInEveryRun(run: seq<Action>)
    ensures BooksAreSound(Run(run))
    decreases |run|
  {
    if |run| > 0 {
      var db := Run(run[..|run| - 1]);
      BooksAreSoundInEveryRun(run[..|run| - 1]);
      match run[|run| - 1]
      case Join(_) =>
      case Refer(_, _) =>
      case Place(x, amount, day) =>
        PlaceBetShape(db, x, amount, day);
        PlaceWritesNoWin(db, x, amount, day);
      case Book(_, _, _, _, _) =>
      case Close(i, res) =>
        if i < |db.bets| && db.bets[i].status == Open {
          var bet := db.bets[i];
          SettleOneShape(db, i, res);
          SettledBetIsSound(bet, res);
          WalkReasons(db.users, db.edges, bet.user, WIN_BONUS, LAYER_RATES);
        }
    }
  }

  // ── accuracy stays in range ──────────────────────────────────────────────

  function WinRate(s: Stats): Option<real> {
    if s.settled == 0 then None else Some(100.0 * s.wins as real / s.settled as real)
  }

  function AverageBrier(s: Stats): Option<real> {
    if s.settled == 0 then None else Some(s.brierSum / s.settled as real)
  }

  predicate IsProbability(p: Option<real>) { p.Some? ==> 0.0 <= p.value <= 1.0 }

  ghost predicate BriersInRange(bets: seq<Bet>) {
    forall bet <- bets :: IsProbability(bet.entryPrice) && IsProbability(bet.brier)
  }

  lemma ProductOfNonNegatives(x: real, y: real)
    requires x >= 0.0 && y >= 0.0
    ensures x * y >= 0.0
  {
  }

  lemma SquareOfProbability(x: real)
    requires -1.0 <= x <= 1.0
    ensures 0.0 <= x * x <= 1.0
  {
    ProductOfNonNegatives(1.0 - x, 1.0 + x);
    assert (1.0 - x) * (1.0 + x) == 1.0 - x * x;
  }

  lemma SettledBrierInRange(bet: Bet, res: Resolution)
    requires IsProbability(bet.entryPrice) && IsProbability(bet.brier)
    ensures var settled := ApplySettlement(bet, SettleBetValues(bet, res));
            IsProbability(settled.entryPrice) && IsProbability(settled.brier)
  {
    if bet.entryPrice.Some? {
      PowerTwo(bet.entryPrice.value);
      PowerTwo(bet.entryPrice.value - 1.0);
      SquareOfProbability(bet.entryPrice.value);
      SquareOfProbability(bet.entryPrice.value - 1.0);
    }
  }

  lemma {:induction false} BriersStayInRange(run: seq<Action>)
    requires forall a <- run | a.Book? :: IsProbability(a.entryPrice)
    ensures BriersInRange(Run(run).bets)
    decreases |run|
  {
    if |run| > 0 {
      var db, a := Run(run[..|run| - 1]), run[|run| - 1];
      assert forall b <- run[..|run| - 1] :: b in run;
      BriersStayInRange(run[..|run| - 1]);
      match a
      case Place(x, amount, day) => PlaceBetShape(db, x, amount, day);
      case Close(i, res) =>
        if i < |db.bets| && db.bets[i].status == Open {
          SettleOneShape(db, i, res);
          SettledBrierInRange(db.bets[i], res);
        }
      case _ =>
    }
  }

  lemma {:induction false} BrierSumInRange(bets: seq<Bet>, u: UserId, n: nat)
    requires n <= |bets| && BriersInRange(bets)
    ensures var t := TallyUpTo(bets, u, n);
            0.0 <= t.brier <= (t.wins + t.losses) as real
  {
    if n > 0 {
      BrierSumInRange(bets, u, n - 1);
    }
  }

  lemma RatioInRange(part: real, whole: real, scale: real)
    requires 0.0 <= part <= scale * whole && whole > 0.0
    ensures 0.0 <= part / whole <= scale
  {
  }

  lemma AccuracyOfTally(s: Stats, t: Tally)
    requires Summarises(s, t) && 0.0 <= t.brier <= (t.wins + t.losses) as real
    ensures WinRate(s).Some? ==> 0.0 <= WinRate(s).value <= 100.0
    ensures IsProbability(AverageBrier(s))
    ensures WinRate(s).None? <==> t.wins + t.losses == 0
  {
    if s.settled > 0 {
      var wins, settled := s.wins as real, s.settled as real;
      RatioInRange(100.0 * wins, settled, 100.0);
      RatioInRange(s.brierSum, settled, 1.0);
    }
  }

  /** With entry prices that are probabilities, every user's win rate stays within
      0-100 and their average Brier score within 0-1, in every reachable state. */
  lemma AccuracyInRange(run: seq<Action>, u: UserId)
    requires forall a <- run | a.Book? :: IsProbability(a.entryPrice)
    ensures var s := StatsOf(Run(run).stats, u);
            && (WinRate(s).Some? ==> 0.0 <= WinRate(s).value <= 100.0)
            && IsProbability(AverageBrier(s))
            && (WinRate(s).None? <==> TallyOf(Run(run).bets, u).wins + TallyOf(Run(run).bets, u).losses == 0)
  {
    StatsAgreeInEveryRun(run, u);
    BriersStayInRange(run);
    BrierSumInRange(Run(run).bets, u, |Run(run).bets|);
    AccuracyOfTally(StatsOf(Run(run).stats, u), TallyOf(Run(run).bets, u));
  }
}

/** The points, referral, streak and settlement economy on values: one database
    state and, for every repository function, the state it leaves behind. */
module Economy {
  import opened Wrappers

  type UserId = nat
  type BetId = nat
  type Day = int
  type MarketId = string
  type TokenId = string

  // Referral rates per layer, in percent.
  const LAYER_RATES: seq<nat> := [10, 5, 3, 2, 1]
  const POINTS_BET_BASE: nat := 10
  const WIN_BONUS: nat := 25
  const DAILY_STREAK_BONUS: nat := 5
  const DAILY_STREAK_CAP: nat := 7
  const SIGNUP_BONUS: nat := 500
  const REFERRAL_UNLOCK_BETS: nat := 3
  const OPEN_BETS_LIMIT: nat := 500

  datatype Reason = BetMade | Win | Streak | ReferralSignup | ReferralWelcome | ReferralLayer

  /** One row of the append-only points ledger. */
  datatype Entry = Entry(user: UserId, delta: int, reason: Reason, ref: Option<UserId>, day: Option<Day>)

  /** A referral row; rows are keyed by their unique invitee. */
  datatype Edge = Edge(inviter: UserId, unlocked: bool)

  /** One row per user, made on their first bet or settlement. */
  datatype Stats = Stats(
    user: UserId, currentStreak: int, longestStreak: int, lastActive: Option<Day>, totalBets: nat, volume: real,
    wins: nat, losses: nat, settled: nat, pnl: real, brierSum: real)

  datatype BetStatus = Open | Won | Lost | Void

  datatype Bet = Bet(
    user: UserId, market: MarketId, token: TokenId, amount: real, entryPrice: Option<real>, shares: Option<real>,
    status: BetStatus, payout: real, pnl: real, brier: Option<real>)

  /** What the upstream market data says about one market. */
  datatype Resolution = Resolution(resolved: bool, winningToken: Option<TokenId>, isVoid: bool)

  datatype Settlement = Settlement(status: BetStatus, payout: real, pnl: real, brier: Option<real>)

  /** The tables the economy touches. `users` maps a user to its `referred_by`
      column, and a bet's id is its position in creation order. */
  datatype Db = Db(
    users: map<UserId, Option<UserId>>, edges: map<UserId, Edge>, stats: map<UserId, Stats>,
    bets: seq<Bet>, ledger: seq<Entry>)

  const EMPTY: Db := Db(map[], map[], map[], [], [])

  function NewStats(u: UserId): Stats { Stats(u, 0, 0, None, 0, 0.0, 0, 0, 0, 0.0, 0.0) }

  function StatsOf(stats: map<UserId, Stats>, u: UserId): Stats {
    if u in stats then stats[u] else NewStats(u)
  }

  // ── ledger rows ──────────────────────────────────────────────────────────

  function BetEntry(u: UserId, points: nat): Entry { Entry(u, points, BetMade, None, None) }
  function WinEntry(u: UserId): Entry { Entry(u, WIN_BONUS, Win, None, None) }
  function StreakEntry(u: UserId, day: Day, bonus: int): Entry { Entry(u, bonus, Streak, None, Some(day)) }
  function SignupEntry(inviter: UserId, invitee: UserId): Entry {
    Entry(inviter, SIGNUP_BONUS, ReferralSignup, Some(invitee), None)
  }
  function WelcomeEntry(invitee: UserId, inviter: UserId): Entry {
    Entry(invitee, SIGNUP_BONUS, ReferralWelcome, Some(inviter), None)
  }
  function LayerEntry(earner: UserId, points: nat, child: UserId): Entry {
    Entry(earner, points, ReferralLayer, Some(child), None)
  }

  function Append(db: Db, entries: seq<Entry>): Db { db.(ledger := db.ledger + entries) }

  // ── users and referral edges ─────────────────────────────────────────────

  function AddUser(db: Db, u: UserId): Db {
    if u in db.users then db else db.(users := db.users[u := None])
  }

  /** `inviter` is what the referral code resolved to. */
  function AttributeReferral(db: Db, invitee: UserId, inviter: Option<UserId>): Db {
    if invitee !in db.users || db.users[invitee].Some? || inviter.None? || inviter.value == invitee then db
    else if inviter.value !in db.users then db
    else
      var linked := db.(users := db.users[invitee := inviter]);
      if invitee in db.edges then linked
      else linked.(edges := db.edges[invitee := Edge(inviter.value, false)])
  }

  function MaybeUnlock(db: Db, u: UserId): Db {
    if u !in db.edges || db.edges[u].unlocked then db
    else if u !in db.stats || db.stats[u].totalBets < REFERRAL_UNLOCK_BETS then db
    else
      var inviter := db.edges[u].inviter;
      Append(db.(edges := db.edges[u := Edge(inviter, true)]), [SignupEntry(inviter, u), WelcomeEntry(u, inviter)])
  }

  function LayerPoints(base: nat, rate: nat): nat { base * rate / 100 }

  /** The rows the upward walk appends when it stands at `current` with the layers
      `rates` still to go. */
  function PropagateEntries(users: map<UserId, Option<UserId>>, edges: map<UserId, Edge>,
                            current: UserId, base: nat, rates: seq<nat>): seq<Entry>
    decreases |rates|
  {
    if |rates| == 0 || current !in users || users[current].None? then []
    else if current !in edges || !edges[current].unlocked then []
    else
      var inviter := users[current].value;
      var points := LayerPoints(base, rates[0]);
      (if points > 0 then [LayerEntry(inviter, points, current)] else [])
      + PropagateEntries(users, edges, inviter, base, rates[1..])
  }

  function Propagate(db: Db, u: UserId, base: nat): Db {
    Append(db, PropagateEntries(db.users, db.edges, u, base, LAYER_RATES))
  }

  // ── a bet being placed ───────────────────────────────────────────────────

  function NextStreak(s: Stats, day: Day): int {
    if s.lastActive == Some(day) then s.currentStreak
    else if s.lastActive == Some(day - 1) then s.currentStreak + 1
    else 1
  }

  function NextStats(s: Stats, amount: real, day: Day): Stats {
    s.(currentStreak := NextStreak(s, day),
       longestStreak := Max(s.longestStreak, NextStreak(s, day)),
       lastActive := Some(day),
       totalBets := s.totalBets + 1,
       volume := s.volume + NonNegative(amount))
  }

  function RecordBet(db: Db, u: UserId, amount: real, day: Day): Db {
    db.(stats := db.stats[u := NextStats(StatsOf(db.stats, u), amount, day)])
  }

  function BetPoints(amount: real): nat {
    POINTS_BET_BASE + NonNegative(amount).Floor
  }

  predicate HasStreak(ledger: seq<Entry>, u: UserId, day: Day) {
    exists e <- ledger :: e.reason == Streak && e.user == u && e.day == Some(day)
  }

  function StreakBonus(streak: int): int { DAILY_STREAK_BONUS * Min(Max(streak, 0), DAILY_STREAK_CAP) }

  /** The streak row, unless it would break the unique (user, day) key. */
  function StreakEntries(ledger: seq<Entry>, u: UserId, streak: int, day: Day): seq<Entry> {
    if StreakBonus(streak) <= 0 || HasStreak(ledger, u, day) then []
    else [StreakEntry(u, day, StreakBonus(streak))]
  }

  function AwardDailyStreak(db: Db, u: UserId, day: Day): Db {
    Append(db, StreakEntries(db.ledger, u, if u in db.stats then db.stats[u].currentStreak else 1, day))
  }

  function RewardForBet(db: Db, u: UserId, amount: real, day: Day): Db {
    var points := BetPoints(amount);
    var awarded := Append(db, [BetEntry(u, points)]);
    var streaked := AwardDailyStreak(awarded, u, day);
    Propagate(MaybeUnlock(streaked, u), u, points)
  }

  /** One successful order: the stats update, then the rewards, in one transaction. */
  function PlaceBet(db: Db, u: UserId, amount: real, day: Day): Db {
    RewardForBet(RecordBet(db, u, amount, day), u, amount, day)
  }

  // ── bet rows and their settlement ────────────────────────────────────────

  function NewBet(u: UserId, market: MarketId, token: TokenId, amount: real, entryPrice: Option<real>): Bet {
    var shares := if entryPrice.Some? && entryPrice.value > 0.0 then Some(amount / entryPrice.value) else None;
    Bet(u, market, token, amount, entryPrice, shares, Open, 0.0, 0.0, None)
  }

  function Power(x: real, n: nat): real
    decreases n, x
  {
    if n == 0 then 1.0 else x * Power(x, n - 1)
  }

  function SettleBetValues(bet: Bet, res: Resolution): Settlement {
    if res.isVoid || res.winningToken.None? then Settlement(Void, bet.amount, 0.0, None)
    else if bet.token == res.winningToken.value then
      var payout := if bet.entryPrice.Some? && bet.entryPrice.value > 0.0
                    then bet.amount / bet.entryPrice.value else bet.amount;
      var brier := if bet.entryPrice.Some?
                   then Some(Power(bet.entryPrice.value - 1.0, 2)) else None;
      Settlement(Won, payout, payout - bet.amount, brier)
    else
      var brier := if bet.entryPrice.Some? then Some(Power(bet.entryPrice.value, 2)) else None;
      Settlement(Lost, 0.0, -bet.amount, brier)
  }

  function ApplySettlement(bet: Bet, v: Settlement): Bet {
    bet.(status := v.status, payout := v.payout, pnl := v.pnl, brier := v.brier)
  }

  function AddSettlement(s: Stats, v: Settlement): Stats {
    if v.status == Won || v.status == Lost then
      s.(wins := s.wins + (if v.status == Won then 1 else 0),
         losses := s.losses + (if v.status == Lost then 1 else 0),
         settled := s.settled + 1,
         pnl := s.pnl + v.pnl,
         brierSum := s.brierSum + (if v.brier.Some? then v.brier.value else 0.0))
    else s
  }

  function RecordSettlement(db: Db, u: UserId, v: Settlement): Db {
    db.(stats := db.stats[u := AddSettlement(StatsOf(db.stats, u), v)])
  }

  function RewardForWin(db: Db, u: UserId): Db {
    Propagate(Append(db, [WinEntry(u)]), u, WIN_BONUS)
  }

  /** One bet inside its savepoint: the row, the stats, and a winner's points. */
  function SettleOne(db: Db, i: BetId, res: Resolution): Db
    requires i < |db.bets|
  {
    var bet := db.bets[i];
    var v := SettleBetValues(bet, res);
    var marked := db.(bets := db.bets[i := ApplySettlement(bet, v)]);
    var recorded := RecordSettlement(marked, bet.user, v);
    if v.status == Won then RewardForWin(recorded, bet.user) else recorded
  }

  /** The ids of the open bets, in creation order. */
  function OpenIds(bets: seq<Bet>): seq<BetId> {
    if |bets| == 0 then []
    else OpenIds(bets[..|bets| - 1]) + (if bets[|bets| - 1].status == Open then [|bets| - 1] else [])
  }

  function Window(bets: seq<Bet>): seq<BetId> {
    var ids := OpenIds(bets);
    if |ids| <= OPEN_BETS_LIMIT then ids else ids[..OPEN_BETS_LIMIT]
  }

  /** A pass settles an id exactly when its market resolved and its savepoint survived. */
  predicate Picks(bets: seq<Bet>, resolutions: map<MarketId, Resolution>, faults: set<BetId>, i: BetId) {
    i < |bets| && bets[i].market in resolutions && resolutions[bets[i].market].resolved && i !in faults
  }

  function SettleIds(db: Db, ids: seq<BetId>, resolutions: map<MarketId, Resolution>, faults: set<BetId>): Db
    decreases |ids|
  {
    if |ids| == 0 then db
    else if Picks(db.bets, resolutions, faults, ids[0]) then
      SettleIds(SettleOne(db, ids[0], resolutions[db.bets[ids[0]].market]), ids[1..], resolutions, faults)
    else SettleIds(db, ids[1..], resolutions, faults)
  }

  /** One run of the settlement job. */
  function SettlePass(db: Db, resolutions: map<MarketId, Resolution>, faults: set<BetId>): Db {
    SettleIds(db, Window(db.bets), resolutions, faults)
  }
}

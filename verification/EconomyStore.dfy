/** The repositories as the program runs them: every method updates the session's
    tables in place, and is proved to leave exactly the state `Economy` names. */
module EconomyStore {
  import opened Wrappers
  import opened Economy
  import opened Propagation

  /** What one turn of the upward walk adds to the rows already paid. */
  lemma OneLayerUp(users: map<UserId, Option<UserId>>, edges: map<UserId, Edge>, base: nat, rates: seq<nat>,
                   k: nat, current: UserId, paid: seq<Entry>) returns (paid': seq<Entry>)
    requires k < |rates| && current in users && users[current].Some?
    requires current in edges && edges[current].unlocked
    ensures paid' == var points := LayerPoints(base, rates[k]);
                     if points > 0 then paid + [LayerEntry(users[current].value, points, current)] else paid
    ensures paid + PropagateEntries(users, edges, current, base, rates[k..])
         == paid' + PropagateEntries(users, edges, users[current].value, base, rates[k + 1..])
  {
    var inviter, points := users[current].value, LayerPoints(base, rates[k]);
    var layer := if points > 0 then [LayerEntry(inviter, points, current)] else [];
    assert rates[k..][1..] == rates[k + 1..];
    paid' := paid + layer;
    var above := PropagateEntries(users, edges, inviter, base, rates[k + 1..]);
    assert paid + (layer + above) == paid' + above;
  }

  class Store {
    var users: map<UserId, Option<UserId>>
    var edges: map<UserId, Edge>
    var stats: map<UserId, Stats>
    var bets: seq<Bet>
    var ledger: seq<Entry>

    function View(): Db
      reads this
    {
      Db(users, edges, stats, bets, ledger)
    }

    constructor ()
      ensures View() == EMPTY
    {
      users, edges, stats, bets, ledger := map[], map[], map[], [], [];
    }

    method AttributeReferral(invitee: UserId, inviter: Option<UserId>) returns (attributed: bool)
      modifies this
      ensures View() == Economy.AttributeReferral(old(View()), invitee, inviter)
      ensures attributed <==>
                invitee in old(users) && old(users)[invitee].None? &&
                inviter.Some? && inviter.value in old(users) && inviter.value != invitee
      ensures users == if attributed then old(users)[invitee := inviter] else old(users)
      ensures edges == if attributed && invitee !in old(edges)
                       then old(edges)[invitee := Edge(inviter.value, false)] else old(edges)
      ensures stats == old(stats) && bets == old(bets) && ledger == old(ledger)
    {
      if invitee !in users || users[invitee].Some? {
        return false;
      }
      if inviter.None? || inviter.value == invitee || inviter.value !in users {
        return false;
      }
      users := users[invitee := inviter];
      if invitee !in edges {
        edges := edges[invitee := Edge(inviter.value, false)];
      }
      return true;
    }

    method Award(entry: Entry)
      modifies `ledger
      ensures ledger == if entry.delta == 0 then old(ledger) else old(ledger) + [entry]
    {
      if entry.delta == 0 {
        return;
      }
      ledger := ledger + [entry];
    }

    method RecordBet(u: UserId, amount: real, day: Day)
      modifies `stats
      ensures View() == Economy.RecordBet(old(View()), u, amount, day)
    {
      var s := if u in stats then stats[u] else NewStats(u);
      if s.lastActive == Some(day) {
        // already counted today's streak
      } else if s.lastActive == Some(day - 1) {
        s := s.(currentStreak := s.currentStreak + 1);
      } else {
        s := s.(currentStreak := 1);
      }
      s := s.(longestStreak := Max(s.longestStreak, s.currentStreak));
      s := s.(lastActive := Some(day));
      s := s.(totalBets := s.totalBets + 1);
      s := s.(volume := s.volume + NonNegative(amount));
      stats := stats[u := s];
    }

    /** The insert runs in a savepoint that a duplicate (user, day) key rolls back. */
    method RewardForStreak(u: UserId, streak: int, day: Day)
      modifies `ledger
      ensures ledger == old(ledger) + StreakEntries(old(ledger), u, streak, day)
    {
      var bonus := DAILY_STREAK_BONUS * Min(Max(streak, 0), DAILY_STREAK_CAP);
      if bonus <= 0 {
        return;
      }
      var duplicate := false;
      for i := 0 to |ledger|
        invariant duplicate <==> HasStreak(ledger[..i], u, day)
        invariant ledger == old(ledger)
      {
        assert ledger[..i + 1] == ledger[..i] + [ledger[i]];
        if ledger[i].reason == Streak && ledger[i].user == u && ledger[i].day == Some(day) {
          duplicate := true;
        }
      }
      assert ledger[..|ledger|] == ledger;
      if !duplicate {
        ledger := ledger + [StreakEntry(u, day, bonus)];
      }
    }

    method TryUnlock(u: UserId)
      modifies `edges, `ledger
      ensures View() == MaybeUnlock(old(View()), u)
    {
      if u !in edges || edges[u].unlocked {
        return;
      }
      if u !in stats || stats[u].totalBets < REFERRAL_UNLOCK_BETS {
        return;
      }
      var inviter := edges[u].inviter;
      edges := edges[u := edges[u].(unlocked := true)];
      Award(SignupEntry(inviter, u));
      Award(WelcomeEntry(u, inviter));
      assert ledger == old(ledger) + [SignupEntry(inviter, u), WelcomeEntry(u, inviter)];
    }

    /** Walks up the chain, stopping at the first edge that is not unlocked. */
    method PropagateUp(earner: UserId, base: nat)
      modifies `ledger
      ensures View() == Propagate(old(View()), earner, base)
      ensures old(ledger) <= ledger && AreShares(users, edges, earner, base, ledger[|old(ledger)|..])
    {
      WalkPaysShares(users, edges, earner, base);
      var current := earner;
      ghost var paid: seq<Entry> := [];
      for k := 0 to |LAYER_RATES|
        invariant ledger == old(ledger) + paid
        invariant PropagateEntries(users, edges, earner, base, LAYER_RATES)
               == paid + PropagateEntries(users, edges, current, base, LAYER_RATES[k..])
      {
        if current !in users || users[current].None? {
          return;
        }
        if current !in edges || !edges[current].unlocked {
          return;
        }
        var inviter := users[current].value;
        var points := LayerPoints(base, LAYER_RATES[k]);
        if points > 0 {
          Award(LayerEntry(inviter, points, current));
        }
        paid := OneLayerUp(users, edges, base, LAYER_RATES, k, current, paid);
        current := inviter;
      }
    }

    method RewardForBet(u: UserId, amount: real, day: Day) returns (points: nat)
      modifies `edges, `ledger
      ensures View() == Economy.RewardForBet(old(View()), u, amount, day)
      ensures points == BetPoints(amount)
    {
      points := POINTS_BET_BASE + NonNegative(amount).Floor;
      Award(BetEntry(u, points));
      RewardForStreak(u, if u in stats then stats[u].currentStreak else 1, day);
      TryUnlock(u);
      PropagateUp(u, points);
    }

    method RewardForWin(u: UserId)
      modifies `ledger
      ensures View() == Economy.RewardForWin(old(View()), u)
    {
      Award(WinEntry(u));
      PropagateUp(u, WIN_BONUS);
    }

    method CreateBet(u: UserId, market: MarketId, token: TokenId, amount: real, entryPrice: Option<real>)
        returns (id: BetId)
      modifies `bets
      ensures bets == old(bets) + [NewBet(u, market, token, amount, entryPrice)]
      ensures id == |old(bets)|
      ensures bets[id].user == u && bets[id].market == market && bets[id].token == token
      ensures bets[id].amount == amount && bets[id].entryPrice == entryPrice && bets[id].status == Open
      ensures bets[id].shares.Some? <==> entryPrice.Some? && entryPrice.value > 0.0
    {
      var shares: Option<real> := None;
      if entryPrice.Some? && entryPrice.value > 0.0 {
        shares := Some(amount / entryPrice.value);
      }
      id := |bets|;
      bets := bets + [Bet(u, market, token, amount, entryPrice, shares, Open, 0.0, 0.0, None)];
    }

    method RecordSettlement(u: UserId, v: Settlement)
      modifies `stats
      ensures View() == Economy.RecordSettlement(old(View()), u, v)
    {
      var s := if u in stats then stats[u] else NewStats(u);
      if v.status == Won {
        s := s.(wins := s.wins + 1);
      } else if v.status == Lost {
        s := s.(losses := s.losses + 1);
      }
      if v.status == Won || v.status == Lost {
        s := s.(settled := s.settled + 1, pnl := s.pnl + v.pnl);
        if v.brier.Some? {
          s := s.(brierSum := s.brierSum + v.brier.value);
        }
      }
      stats := stats[u := s];
    }

    /** One bet inside its savepoint. `fault` is the number of writes that succeed
        before the savepoint fails; a failure restores every table it touched. */
    method SettleBet(i: BetId, res: Resolution, fault: Option<nat>) returns (ok: bool)
      requires i < |bets|
      modifies `bets, `stats, `ledger
      ensures ok <==> fault.None?
      ensures View() == if ok then SettleOne(old(View()), i, res) else old(View())
    {
      var savedBets, savedStats, savedLedger := bets, stats, ledger;
      var user := bets[i].user;
      var v := SettleBetValues(bets[i], res);
      bets := bets[i := ApplySettlement(bets[i], v)];
      if fault != Some(0) {
        RecordSettlement(user, v);
        if fault != Some(1) && v.status == Won {
          RewardForWin(user);
        }
      }
      ok := fault.None?;
      if !ok {
        bets, stats, ledger := savedBets, savedStats, savedLedger;
      }
    }

    method SelectOpen() returns (ids: seq<BetId>)
      ensures ids == Window(bets)
      ensures forall k | 0 <= k < |ids| :: ids[k] < |bets|
    {
      ids := [];
      for i := 0 to |bets|
        invariant ids == OpenIds(bets[..i])
        invariant forall k | 0 <= k < |ids| :: ids[k] < i
      {
        assert bets[..i + 1][..i] == bets[..i];
        if bets[i].status == Open {
          ids := ids + [i];
        }
      }
      assert bets[..|bets|] == bets;
      if |ids| > OPEN_BETS_LIMIT {
        ids := ids[..OPEN_BETS_LIMIT];
      }
    }

    /** One run of the settlement job; `faults` gives the bets whose savepoint fails
        and how far each of them gets first. */
    method SettlementJob(resolutions: map<MarketId, Resolution>, faults: map<BetId, nat>)
      modifies `bets, `stats, `ledger
      ensures View() == SettlePass(old(View()), resolutions, faults.Keys)
    {
      var ids := SelectOpen();
      var n := 0;
      while n < |ids|
        invariant n <= |ids|
        invariant |bets| == |old(bets)|
        invariant forall k | 0 <= k < |ids| :: ids[k] < |bets|
        invariant SettleIds(View(), ids[n..], resolutions, faults.Keys) == SettlePass(old(View()), resolutions, faults.Keys)
      {
        var i := ids[n];
        assert ids[n..][1..] == ids[n + 1..];
        if bets[i].market in resolutions && resolutions[bets[i].market].resolved {
          var _ := SettleBet(i, resolutions[bets[i].market], if i in faults then Some(faults[i]) else None);
        }
        n := n + 1;
      }
    }
  }
}

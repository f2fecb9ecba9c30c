/** Streaks over whole runs in which the clock never goes back: the stored streak
    columns, and the streak rows of the ledger, said of the days each user bet on. */
module StreakRuns {
  import opened Wrappers
  import opened Economy
  import opened Streaks
  import opened SettlementOrder
  import opened EconomyRuns

  function BetDays(run: seq<Action>, u: UserId): set<Day> {
    if |run| == 0 then {}
    else
      var a, before := run[|run| - 1], BetDays(run[..|run| - 1], u);
      if a.Place? && a.user == u then before + {a.day} else before
  }

  /** Bets are placed on non-decreasing days. */
  ghost predicate InOrder(run: seq<Action>) {
    forall i, j | 0 <= i < j < |run| && run[i].Place? && run[j].Place? :: run[i].day <= run[j].day
  }

  lemma {:induction false} EarlierDays(run: seq<Action>, u: UserId, bound: Day)
    requires forall i | 0 <= i < |run| && run[i].Place? :: run[i].day <= bound
    ensures forall d <- BetDays(run, u) :: d <= bound
    decreases |run|
  {
    if |run| > 0 {
      EarlierDays(run[..|run| - 1], u, bound);
    }
  }

  lemma LastDayIsLatest(run: seq<Action>, u: UserId, earlier: set<Day>)
    requires InOrder(run) && |run| > 0 && run[|run| - 1].Place?
    requires earlier == BetDays(run[..|run| - 1], u)
    ensures forall d <- earlier :: d <= run[|run| - 1].day
  {
    EarlierDays(run[..|run| - 1], u, run[|run| - 1].day);
  }

  // ── the streak columns ───────────────────────────────────────────────────

  /** In every reachable state `current_streak` is the length of the block of
      consecutive bet days that ends at the last bet day, and `longest_streak` is the
      longest such block of the whole history. */
  lemma {:induction false} StreakColumnsInEveryRun(run: seq<Action>, u: UserId)
    requires InOrder(run)
    ensures StreakMatches(StatsOf(Run(run).stats, u), BetDays(run, u))
    decreases |run|
  {
    if |run| > 0 {
      var db, a := Run(run[..|run| - 1]), run[|run| - 1];
      StreakColumnsInEveryRun(run[..|run| - 1], u);
      match a
      case Place(x, amount, day) =>
        PlaceBetShape(db, x, amount, day);
        if x == u {
          LastDayIsLatest(run, u, BetDays(run[..|run| - 1], u));
          BetKeepsStreak(StatsOf(db.stats, u), BetDays(run[..|run| - 1], u), amount, day);
        }
      case Close(i, res) =>
        if i < |db.bets| && db.bets[i].status == Open {
          SettleOneShape(db, i, res);
        }
      case _ =>
    }
  }

  // ── the streak rows ──────────────────────────────────────────────────────

  /** The row a user is owed for a bet day: five points per day of the run ending
      there, seven days at most. */
  ghost function OwedRow(days: set<Day>, u: UserId, d: Day): Entry {
    StreakEntry(u, d, StreakBonus(RunLength(days, d)))
  }

  /** One user's streak rows: one per bet day, each worth what that day is owed. */
  ghost predicate StreakRowsMatch(ledger: seq<Entry>, u: UserId, days: set<Day>) {
    && (forall e <- ledger | e.reason == Streak && e.user == u ::
          e.day.Some? && e.day.value in days && e == OwedRow(days, u, e.day.value))
    && (forall d <- days :: multiset(ledger)[OwedRow(days, u, d)] == 1)
  }

  lemma RowsWithoutStreak(ledger: seq<Entry>, rows: seq<Entry>, u: UserId, days: set<Day>)
    requires StreakRowsMatch(ledger, u, days)
    requires forall r <- rows :: r.reason != Streak || r.user != u
    ensures StreakRowsMatch(ledger + rows, u, days)
  {
    forall d <- days
      ensures multiset(rows)[OwedRow(days, u, d)] == 0
    {
      assert OwedRow(days, u, d) !in rows;
    }
  }

  lemma NewStreakRow(ledger: seq<Entry>, u: UserId, days: set<Day>, today: Day)
    requires StreakRowsMatch(ledger, u, days)
    requires today !in days && forall d <- days :: d < today
    ensures StreakRowsMatch(ledger + [OwedRow(days + {today}, u, today)], u, days + {today})
  {
    var days' := days + {today};
    forall d <- days
      ensures OwedRow(days', u, d) == OwedRow(days, u, d)
    {
      LaterDayKeepsRun(days, d, today);
    }
    assert OwedRow(days', u, today) !in ledger;
  }

  lemma StreakRowsOfBet(ledger: seq<Entry>, u: UserId, days: set<Day>, today: Day, streak: int)
    requires StreakRowsMatch(ledger, u, days)
    requires forall d <- days :: d <= today
    requires streak == RunLength(days + {today}, today)
    ensures StreakRowsMatch(ledger + StreakEntries(ledger, u, streak, today), u, days + {today})
  {
    if today in days {
      assert days + {today} == days;
      assert OwedRow(days, u, today) in multiset(ledger);
      assert HasStreak(ledger, u, today) by {
        assert OwedRow(days, u, today) in ledger;
      }
      assert ledger + [] == ledger;
    } else {
      assert !HasStreak(ledger, u, today);
      NewStreakRow(ledger, u, days, today);
    }
  }

  lemma PlaceKeepsStreakRows(db: Db, x: UserId, amount: real, day: Day, u: UserId, days: set<Day>)
    requires StreakRowsMatch(db.ledger, u, days)
    requires x == u ==> forall d <- days :: d <= day
    requires x == u ==> Placed(db, u, amount, day).currentStreak == RunLength(days + {day}, day)
    ensures StreakRowsMatch(PlaceBet(db, x, amount, day).ledger, u, if x == u then days + {day} else days)
  {
    var placed := Placed(db, x, amount, day);
    var bet, streak := [BetEntry(x, BetPoints(amount))], StreakEntries(db.ledger, x, placed.currentStreak, day);
    var unlock, walk := UnlockRows(db, x, placed), WalkRows(db, x, amount, day);
    PlaceBetShape(db, x, amount, day);
    Regroup(db.ledger, bet, streak, unlock, walk);
    StreakIgnoresBetRow(db.ledger, x, BetPoints(amount), placed.currentStreak, day);
    WalkReasons(db.users, UnlockEdges(db, x, placed), x, BetPoints(amount), LAYER_RATES);
    RowsWithoutStreak(db.ledger, bet, u, days);
    var days' := if x == u then days + {day} else days;
    if x == u {
      StreakRowsOfBet(db.ledger + bet, u, days, day, placed.currentStreak);
    } else {
      RowsWithoutStreak(db.ledger + bet, streak, u, days);
    }
    RowsWithoutStreak(db.ledger + bet + streak, unlock, u, days');
    RowsWithoutStreak(db.ledger + bet + streak + unlock, walk, u, days');
  }

  lemma StreakIgnoresBetRow(ledger: seq<Entry>, u: UserId, points: nat, streak: int, day: Day)
    ensures StreakEntries(ledger + [BetEntry(u, points)], u, streak, day) == StreakEntries(ledger, u, streak, day)
  {
    assert HasStreak(ledger + [BetEntry(u, points)], u, day) <==> HasStreak(ledger, u, day) by {
      assert forall e <- ledger :: e in ledger + [BetEntry(u, points)];
    }
  }

  lemma CloseKeepsStreakRows(db: Db, i: BetId, res: Resolution, u: UserId, days: set<Day>)
    requires i < |db.bets| && StreakRowsMatch(db.ledger, u, days)
    ensures StreakRowsMatch(SettleOne(db, i, res).ledger, u, days)
  {
    var v := SettleBetValues(db.bets[i], res);
    SettleOneShape(db, i, res);
    WinRowsOfSettlement(db, db.bets[i].user, v, u);
    RowsWithoutStreak(db.ledger, SettleEntries(db, db.bets[i].user, v), u, days);
  }

  lemma ActKeepsStreakRows(db: Db, a: Action, u: UserId, days: set<Day>)
    requires StreakRowsMatch(db.ledger, u, days) && StreakMatches(StatsOf(db.stats, u), days)
    requires a.Place? && a.user == u ==> forall d <- days :: d <= a.day
    ensures StreakRowsMatch(Act(db, a).ledger, u, if a.Place? && a.user == u then days + {a.day} else days)
  {
    match a
    case Place(x, amount, day) =>
      if x == u {
        BetKeepsStreak(StatsOf(db.stats, u), days, amount, day);
      }
      PlaceKeepsStreakRows(db, x, amount, day, u, days);
    case Close(i, res) =>
      if i < |db.bets| && db.bets[i].status == Open {
        CloseKeepsStreakRows(db, i, res, u, days);
      }
    case _ =>
  }

  /** In every reachable state each bet day of each user has exactly one streak row,
      worth five points per day of the run ending on it (seven at most), and there is
      no other streak row, however many bets were placed on a day. */
  lemma {:induction false} StreakRowsInEveryRun(run: seq<Action>, u: UserId)
    requires InOrder(run)
    ensures StreakRowsMatch(Run(run).ledger, u, BetDays(run, u))
    decreases |run|
  {
    if |run| > 0 {
      var before, a := run[..|run| - 1], run[|run| - 1];
      StreakRowsInEveryRun(before, u);
      StreakColumnsInEveryRun(before, u);
      if a.Place? {
        LastDayIsLatest(run, u, BetDays(before, u));
      }
      ActKeepsStreakRows(Run(before), a, u, BetDays(before, u));
    }
  }

  /** In plain numbers: a streak row is worth five points for each day of the run that ends on
      its day, and thirty-five from the seventh day on. */
  lemma StreakRowWorth(run: seq<Action>, u: UserId, e: Entry)
    requires InOrder(run) && e in Run(run).ledger && e.reason == Streak && e.user == u
    ensures e.day.Some? && e.day.value in BetDays(run, u)
    ensures var n := RunLength(BetDays(run, u), e.day.value);
            n >= 1 && e.delta == if n < 7 then 5 * n else 35
  {
    StreakRowsInEveryRun(run, u);
  }

  // ── the closed form ──────────────────────────────────────────────────────

  /** A user's points under the streak reason. */
  function StreakPoints(ledger: seq<Entry>, u: UserId): int {
    if |ledger| == 0 then 0
    else
      var last := ledger[|ledger| - 1];
      StreakPoints(ledger[..|ledger| - 1], u) + if last.reason == Streak && last.user == u then last.delta else 0
  }

  lemma {:induction false} StreakPointsAppend(a: seq<Entry>, b: seq<Entry>, u: UserId)
    ensures StreakPoints(a + b, u) == StreakPoints(a, u) + StreakPoints(b, u)
    decreases |b|
  {
    if |b| == 0 {
      assert a + b == a;
    } else {
      assert (a + b)[..|a + b| - 1] == a + b[..|b| - 1];
      StreakPointsAppend(a, b[..|b| - 1], u);
    }
  }

  lemma {:induction false} OtherRowsPayNoStreak(rows: seq<Entry>, u: UserId)
    requires forall r <- rows :: r.reason != Streak || r.user != u
    ensures StreakPoints(rows, u) == 0
    decreases |rows|
  {
    if |rows| > 0 {
      assert rows[|rows| - 1] in rows && forall r <- rows[..|rows| - 1] :: r in rows;
      OtherRowsPayNoStreak(rows[..|rows| - 1], u);
    }
  }

  /** One bet adds the day's bonus the first time that day, and nothing after. */
  lemma StreakRowPays(ledger: seq<Entry>, u: UserId, days: set<Day>, today: Day)
    requires StreakRowsMatch(ledger, u, days)
    requires forall d <- days :: d <= today
    ensures var paid := StreakPoints(StreakEntries(ledger, u, RunLength(days + {today}, today), today), u);
            OwedPoints(days + {today}, days + {today}) == OwedPoints(days, days) + paid
  {
    var after := days + {today};
    var entries := StreakEntries(ledger, u, RunLength(after, today), today);
    if today in days {
      assert after == days;
      assert OwedRow(days, u, today) in multiset(ledger);
      assert HasStreak(ledger, u, today) by {
        assert OwedRow(days, u, today) in ledger;
      }
    } else {
      assert !HasStreak(ledger, u, today);
      assert RunLength(after, today) >= 1;
      assert entries == [StreakEntry(u, today, StreakBonus(RunLength(after, today)))] && entries[..0] == [];
      OwedByLatest(days, after, today);
      LaterDayOwesNothingMore(days, days, today);
    }
  }

  lemma PlacePaysStreak(db: Db, x: UserId, amount: real, day: Day, u: UserId)
    ensures StreakPoints(PlaceBet(db, x, amount, day).ledger, u) == StreakPoints(db.ledger, u) +
            if x == u then StreakPoints(StreakEntries(db.ledger, u, Placed(db, u, amount, day).currentStreak, day), u)
            else 0
  {
    var placed := Placed(db, x, amount, day);
    var bet, streak := [BetEntry(x, BetPoints(amount))], StreakEntries(db.ledger, x, placed.currentStreak, day);
    var unlock, walk := UnlockRows(db, x, placed), WalkRows(db, x, amount, day);
    PlaceBetShape(db, x, amount, day);
    WalkReasons(db.users, UnlockEdges(db, x, placed), x, BetPoints(amount), LAYER_RATES);
    StreakPointsOfFour(db.ledger, bet, streak, unlock, walk, u);
    OtherRowsPayNoStreak(bet, u);
    OtherRowsPayNoStreak(unlock, u);
    OtherRowsPayNoStreak(walk, u);
    if x != u {
      OtherRowsPayNoStreak(streak, u);
    }
  }

  lemma StreakPointsOfFour(ledger: seq<Entry>, a: seq<Entry>, b: seq<Entry>, c: seq<Entry>, d: seq<Entry>, u: UserId)
    ensures StreakPoints(ledger + (a + b + c + d), u) ==
            StreakPoints(ledger, u) + StreakPoints(a, u) + StreakPoints(b, u) + StreakPoints(c, u) + StreakPoints(d, u)
  {
    StreakPointsAppend(ledger, a + b + c + d, u);
    StreakPointsAppend(a + b + c, d, u);
    StreakPointsAppend(a + b, c, u);
    StreakPointsAppend(a, b, u);
  }

  /** In every reachable state a user's streak points are the sum over their bet days of what
      each day is owed, however many bets were placed on a day. */
  lemma {:induction false} StreakPointsInEveryRun(run: seq<Action>, u: UserId)
    requires InOrder(run)
    ensures StreakPoints(Run(run).ledger, u) == OwedPoints(BetDays(run, u), BetDays(run, u))
    decreases |run|
  {
    if |run| > 0 {
      var before, a := run[..|run| - 1], run[|run| - 1];
      var db, days := Run(before), BetDays(before, u);
      StreakPointsInEveryRun(before, u);
      match a
      case Place(x, amount, day) =>
        PlacePaysStreak(db, x, amount, day, u);
        if x == u {
          StreakRowsInEveryRun(before, u);
          StreakColumnsInEveryRun(before, u);
          LastDayIsLatest(run, u, days);
          BetKeepsStreak(StatsOf(db.stats, u), days, amount, day);
          StreakRowPays(db.ledger, u, days, day);
        }
      case Close(i, res) =>
        if i < |db.bets| && db.bets[i].status == Open {
          ClosePaysNoStreak(db, i, res, u);
        }
      case _ =>
    }
  }

  lemma SettlementPaysNoStreak(db: Db, winner: UserId, v: Settlement, u: UserId)
    ensures StreakPoints(SettleEntries(db, winner, v), u) == 0
  {
    WinRowsOfSettlement(db, winner, v, u);
    OtherRowsPayNoStreak(SettleEntries(db, winner, v), u);
  }

  lemma ClosePaysNoStreak(db: Db, i: BetId, res: Resolution, u: UserId)
    requires i < |db.bets|
    ensures StreakPoints(SettleOne(db, i, res).ledger, u) == StreakPoints(db.ledger, u)
  {
    var v := SettleBetValues(db.bets[i], res);
    SettlementPaysNoStreak(db, db.bets[i].user, v, u);
    StreakPointsAppend(db.ledger, SettleEntries(db, db.bets[i].user, v), u);
    SettleOneShape(db, i, res);
  }
}

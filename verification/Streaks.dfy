/** Streaks said of the set of days a user bet on: blocks of consecutive days. */
module Streaks {
  import opened Wrappers
  import opened Economy

  /** The length of the block of consecutive days of `days` that ends at `d`. */
  ghost function RunLength(days: set<Day>, d: Day): nat
    decreases |days|
  {
    if d !in days then 0 else 1 + RunLength(days - {d}, d - 1)
  }

  /** The last `n` days up to `d` are all there, and the day before them is not. */
  ghost predicate IsMaximalBlock(days: set<Day>, d: Day, n: nat) {
    && (forall e | d - n < e <= d :: e in days)
    && d - n !in days
  }

  lemma {:induction false} RunIsMaximalBlock(days: set<Day>, d: Day)
    ensures IsMaximalBlock(days, d, RunLength(days, d))
    decreases |days|
  {
    if d in days {
      RunIsMaximalBlock(days - {d}, d - 1);
      var n := RunLength(days - {d}, d - 1);
      assert d - 1 - n !in days;
      forall e | d - (n + 1) < e <= d
        ensures e in days
      {
        assert e == d || e in days - {d};
      }
    }
  }

  lemma BlockDeterminesRun(days: set<Day>, d: Day, n: nat)
    requires IsMaximalBlock(days, d, n)
    ensures RunLength(days, d) == n
  {
    RunIsMaximalBlock(days, d);
    var m := RunLength(days, d);
    assert m < n ==> d - m in days;
    assert n < m ==> d - n in days;
  }

  /** A later bet day does not change the block that ends at an earlier one. */
  lemma LaterDayKeepsRun(days: set<Day>, d: Day, today: Day)
    requires d < today
    ensures RunLength(days + {today}, d) == RunLength(days, d)
  {
    RunIsMaximalBlock(days, d);
    assert IsMaximalBlock(days + {today}, d, RunLength(days, d));
    BlockDeterminesRun(days + {today}, d, RunLength(days, d));
  }

  lemma NewDayExtendsRun(days: set<Day>, today: Day)
    requires today !in days
    ensures RunLength(days + {today}, today) == 1 + RunLength(days, today - 1)
  {
    assert days + {today} - {today} == days;
  }

  ghost predicate IsLongestRun(days: set<Day>, n: int) {
    && (forall d <- days :: RunLength(days, d) <= n)
    && (if days == {} then n == 0 else exists d <- days :: RunLength(days, d) == n)
  }

  /** The streak columns agree with the days the user bet on. */
  ghost predicate StreakMatches(s: Stats, days: set<Day>) {
    && IsLongestRun(days, s.longestStreak)
    && (if s.lastActive.None? then days == {} && s.currentStreak == 0
        else
          && s.lastActive.value in days
          && (forall d <- days :: d <= s.lastActive.value)
          && s.currentStreak == RunLength(days, s.lastActive.value))
  }

  /** A bet on the last bet day or later keeps the streak columns in agreement. */
  lemma BetKeepsStreak(s: Stats, days: set<Day>, amount: real, today: Day)
    requires StreakMatches(s, days)
    requires forall d <- days :: d <= today
    ensures StreakMatches(NextStats(s, amount, today), days + {today})
  {
    var s' := NextStats(s, amount, today);
    var days' := days + {today};
    if today in days {
      assert days' == days;
      assert s.lastActive == Some(today);
    } else {
      NewDayExtendsRun(days, today);
      if s.lastActive != Some(today - 1) {
        assert today - 1 !in days;
      }
      assert s'.currentStreak == RunLength(days', today);
      forall d | d in days
        ensures RunLength(days', d) == RunLength(days, d)
      {
        LaterDayKeepsRun(days, d, today);
      }
      LongestAfter(days, today, s.longestStreak);
    }
  }

  lemma LongestAfter(days: set<Day>, today: Day, longest: int)
    requires IsLongestRun(days, longest)
    requires forall d <- days :: d < today && RunLength(days + {today}, d) == RunLength(days, d)
    ensures IsLongestRun(days + {today}, Max(longest, RunLength(days + {today}, today)))
  {
    var days' := days + {today};
    assert today in days';
    if RunLength(days', today) < longest && days != {} {
      var d :| d in days && RunLength(days, d) == longest;
      assert d in days' && RunLength(days', d) == longest;
    }
  }

  // ── what the bet days are owed ───────────────────────────────────────────

  ghost predicate IsLatest(days: set<Day>, d: Day) { d in days && forall e <- days :: e <= d }

  /** Any days at all have a latest one, so the sum below leaves none out. */
  lemma {:induction false} HasLatest(days: set<Day>, x: Day)
    requires x in days
    ensures exists d :: IsLatest(days, d)
    decreases |days|
  {
    if y :| y in days && y > x {
      HasLatest(days - {x}, y);
      var d :| IsLatest(days - {x}, d);
      assert forall e <- days :: e == x || e in days - {x};
      assert IsLatest(days, d);
    } else {
      assert IsLatest(days, x);
    }
  }

  /** What `days` are owed together, each by the run of `all` that ends on it. */
  ghost function OwedPoints(days: set<Day>, all: set<Day>): int
    decreases |days|
  {
    if exists d :: IsLatest(days, d) then
      var d :| IsLatest(days, d);
      StreakBonus(RunLength(all, d)) + OwedPoints(days - {d}, all)
    else 0
  }

  lemma OwedByLatest(days: set<Day>, all: set<Day>, today: Day)
    requires forall d <- days :: d < today
    ensures OwedPoints(days + {today}, all) == StreakBonus(RunLength(all, today)) + OwedPoints(days, all)
  {
    var more := days + {today};
    assert IsLatest(more, today) && more - {today} == days;
    forall d | IsLatest(more, d)
      ensures d == today
    {
      assert today in more;
    }
  }

  lemma {:induction false} LaterDayOwesNothingMore(days: set<Day>, all: set<Day>, today: Day)
    requires forall d <- days :: d < today
    ensures OwedPoints(days, all + {today}) == OwedPoints(days, all)
    decreases |days|
  {
    if d :| IsLatest(days, d) {
      LaterDayOwesNothingMore(days - {d}, all, today);
      LaterDayKeepsRun(all, d, today);
      OwedByLatest(days - {d}, all, d);
      OwedByLatest(days - {d}, all + {today}, d);
      assert days - {d} + {d} == days;
    }
  }

  /** The points owed are a plain sum over the days: any one of them can be taken out. */
  lemma {:induction false} OwedIsASum(days: set<Day>, all: set<Day>, d: Day)
    requires d in days
    ensures OwedPoints(days, all) == StreakBonus(RunLength(all, d)) + OwedPoints(days - {d}, all)
    decreases |days|
  {
    HasLatest(days, d);
    var m :| IsLatest(days, m);
    assert days - {m} + {m} == days;
    OwedByLatest(days - {m}, all, m);
    if d != m {
      OwedIsASum(days - {m}, all, d);
      assert days - {d} - {m} + {m} == days - {d} && days - {m} - {d} == days - {d} - {m};
      OwedByLatest(days - {d} - {m}, all, m);
    }
  }
}

/** The gamification service: points and levels, badges, a daily streak and achievements that
    unlock at fixed thresholds. Points, badges and the streak are the values the service keeps
    in storage; here they are fields of a class. Calendar days are day numbers, so "yesterday"
    is `today - 1`. */
module Gamification {
  import opened Common

  datatype PointsResult = PointsResult(points: int, levelUp: bool, newLevel: int, reason: string)

  /** The integer parts of `getProgressToNextLevel`. */
  datatype Progress = Progress(progress: int, total: int)

  /** The streak record: the current run of days, the best run, and the last day counted. */
  datatype Streak = Streak(current: int, best: int, lastDate: Option<int>)

  datatype Achievement = Achievement(
    id: string, name: string, description: string, icon: string, points: int)

  /** The statistics `checkAchievements` is asked about. */
  datatype UserStats = UserStats(points: int, streak: int)

  /** What `completeActivity` returns: the `addPoints` result, the streak and the new
      achievements. */
  datatype Completion = Completion(
    points: int, levelUp: bool, newLevel: int, reason: string,
    streak: Streak, newAchievements: seq<Achievement>)

  // ---------------------------------------------------------------------------------------
  // Levels

  /** `Math.floor(points / 100) + 1`. Dafny's `/` by a positive divisor rounds down like
      `Math.floor`, negative totals included. */
  function CalculateLevel(points: int): (level: int)
    ensures (level - 1) * 100 <= points < level * 100
  {
    points / 100 + 1
  }

  /** More points never mean a lower level. */
  lemma LevelMonotone(p: int, q: int)
    requires p <= q
    ensures CalculateLevel(p) <= CalculateLevel(q)
  {
    var lp, lq := CalculateLevel(p), CalculateLevel(q);
    assert (lp - 1) * 100 <= p <= q < lq * 100;
  }

  /** A non-negative total is at level 1 or above. */
  lemma LevelAtLeastOne(p: int)
    requires p >= 0
    ensures CalculateLevel(p) >= 1
  {
    assert p < CalculateLevel(p) * 100;
  }

  /** `getProgressToNextLevel` without the floating-point percentage: the points gathered in
      the current level, out of a span of 100. */
  function GetProgressToNextLevel(points: int): (r: Progress)
    ensures r.total == 100 && 0 <= r.progress < r.total
    ensures points == (CalculateLevel(points) - 1) * 100 + r.progress
  {
    var currentLevel := CalculateLevel(points);
    var pointsForCurrentLevel := (currentLevel - 1) * 100;
    var pointsForNextLevel := currentLevel * 100;
    Progress(points - pointsForCurrentLevel, pointsForNextLevel - pointsForCurrentLevel)
  }

  /** Adding to a total raises the level exactly when the new total reaches the next level's
      threshold; a gain of at most 100 raises it by at most one, and no gain never raises it. */
  lemma LevelUpIffThresholdReached(oldPoints: int, amount: int)
    ensures CalculateLevel(oldPoints + amount) > CalculateLevel(oldPoints) <==>
            oldPoints + amount >= CalculateLevel(oldPoints) * 100
    ensures amount <= 0 ==> CalculateLevel(oldPoints + amount) <= CalculateLevel(oldPoints)
    ensures 0 <= amount <= 100 ==> CalculateLevel(oldPoints + amount) <= CalculateLevel(oldPoints) + 1
  {
    var lo, ln := CalculateLevel(oldPoints), CalculateLevel(oldPoints + amount);
    assert (lo - 1) * 100 <= oldPoints < lo * 100;
    assert (ln - 1) * 100 <= oldPoints + amount < ln * 100;
  }

  // ---------------------------------------------------------------------------------------
  // Activity points

  /** The points map of `completeActivity`. */
  const ActivityPoints: map<string, int> :=
    map["exercise" := 20, "therapy" := 30, "education" := 25, "social" := 15, "general" := 10]

  /** `pointsMap[activityType] || 10`: the mapped points, 10 for an unknown type. */
  function PointsFor(activityType: string): (p: int)
    ensures 10 <= p <= 30
    ensures activityType in ActivityPoints ==> p == ActivityPoints[activityType]
    ensures activityType !in ActivityPoints ==> p == 10
  {
    if activityType in ActivityPoints && ActivityPoints[activityType] != 0
    then ActivityPoints[activityType] else 10
  }

  // ---------------------------------------------------------------------------------------
  // Streaks

  /** The streak after `updateStreak` on day `today`: unchanged when already counted today,
      one longer when last counted yesterday, restarted at 1 otherwise; the best run is kept up
      to date and today becomes the last day counted. */
  function NextStreak(s: Streak, today: int): (r: Streak)
    ensures s.lastDate == Some(today) ==> r == s
    ensures s.lastDate != Some(today) ==>
      r.lastDate == Some(today) &&
      r.current == (if s.lastDate == Some(today - 1) then s.current + 1 else 1) &&
      r.best == (if s.best > r.current then s.best else r.current)
  {
    if s.lastDate == Some(today) then s
    else
      var current := if s.lastDate == Some(today - 1) then s.current + 1 else 1;
      Streak(current, if s.best > current then s.best else current, Some(today))
  }

  /** The best run never drops below the current run, never decreases, and today is always
      the last day counted afterwards. */
  lemma NextStreakKeepsBest(s: Streak, today: int)
    requires s.best >= s.current
    ensures NextStreak(s, today).best >= NextStreak(s, today).current
    ensures NextStreak(s, today).best >= s.best
    ensures NextStreak(s, today).lastDate == Some(today)
  {
  }

  /** The streak after updating on each of the `n` days starting at `first`. */
  function StreakOverDays(s: Streak, first: int, n: nat): Streak
    decreases n
  {
    if n == 0 then s else StreakOverDays(NextStreak(s, first), first + 1, n - 1)
  }

  /** Updating on `n` consecutive days right after the last day counted lengthens the current
      run by `n`, and the best run keeps up with it. */
  lemma {:induction false} ConsecutiveDaysExtendStreak(s: Streak, first: int, n: nat)
    requires s.lastDate == Some(first - 1) && s.best >= s.current
    ensures StreakOverDays(s, first, n).current == s.current + n
    ensures StreakOverDays(s, first, n).best >= s.current + n
    ensures n > 0 ==> StreakOverDays(s, first, n).lastDate == Some(first + n - 1)
    decreases n
  {
    if n > 0 {
      var next := NextStreak(s, first);
      assert next.lastDate == Some(first) && next.current == s.current + 1;
      ConsecutiveDaysExtendStreak(next, first + 1, n - 1);
    }
  }

  /** A missed day restarts the run at 1, whatever its length. */
  lemma MissedDayRestarts(s: Streak, today: int)
    requires s.lastDate.Some? && s.lastDate.value < today - 1
    ensures NextStreak(s, today).current == 1
  {
  }

  // ---------------------------------------------------------------------------------------
  // Achievements

  /** `getAvailableAchievements`. */
  function AvailableAchievements(): (r: seq<Achievement>)
    ensures |r| == 6
  {
    [ Achievement("first_login", "Primeiro Passo", "Fez seu primeiro login", "star", 10),
      Achievement("week_streak", "Dedicado", "7 dias consecutivos", "flame", 50),
      Achievement("month_streak", "Comprometido", "30 dias consecutivos", "trophy", 200),
      Achievement("points_100", "Iniciante", "100 pontos conquistados", "medal", 0),
      Achievement("points_500", "Experiente", "500 pontos conquistados", "ribbon", 0),
      Achievement("points_1000", "Mestre", "1000 pontos conquistados", "diamond", 0) ]
  }

  /** No two achievements of `s` share an id. */
  ghost predicate DistinctIds(s: seq<Achievement>) {
    forall i, j :: 0 <= i < j < |s| ==> s[i].id != s[j].id
  }

  /** No two available achievements share an id. */
  lemma AchievementIdsDistinct()
    ensures DistinctIds(AvailableAchievements())
  {
    var a := AvailableAchievements();
    assert a[0].id[0] == 'f' && a[1].id[0] == 'w' && a[2].id[0] == 'm' && a[3].id[0] == 'p';
    assert a[3].id[7] == '1' && a[4].id[7] == '5' && |a[5].id| == 11 && |a[3].id| == 10;
  }

  /** The unlocking rule of `checkAchievements` for each achievement id. */
  function ShouldUnlock(id: string, stats: UserStats): (r: bool)
    ensures id == "first_login" ==> r
    ensures r && id != "first_login" ==> stats.streak >= 7 || stats.points >= 100
    ensures r ==> id in {"first_login", "week_streak", "month_streak", "points_100", "points_500", "points_1000"}
  {
    if id == "first_login" then true
    else if id == "week_streak" then stats.streak >= 7
    else if id == "month_streak" then stats.streak >= 30
    else if id == "points_100" then stats.points >= 100
    else if id == "points_500" then stats.points >= 500
    else if id == "points_1000" then stats.points >= 1000
    else false
  }

  /** Better statistics never take an unlock rule back. */
  lemma ShouldUnlockMonotone(id: string, before: UserStats, after: UserStats)
    requires before.points <= after.points && before.streak <= after.streak
    ensures ShouldUnlock(id, before) ==> ShouldUnlock(id, after)
  {
  }

  /** An achievement `checkAchievements` unlocks: not yet among the badges and its rule holds. */
  predicate Unlocks(a: Achievement, badges: seq<string>, stats: UserStats) {
    a.id !in badges && ShouldUnlock(a.id, stats)
  }

  /** The achievements a call of `checkAchievements` unlocks, in the order they are listed. */
  function NewUnlocks(badges: seq<string>, stats: UserStats): (r: seq<Achievement>)
    ensures forall i :: 0 <= i < |r| ==> r[i] in AvailableAchievements() && r[i].id !in badges
    ensures forall i :: 0 <= i < |r| ==> ShouldUnlock(r[i].id, stats)
  {
    UnlocksAmong(AvailableAchievements(), badges, stats)
  }

  /** The achievements of `s` that a check against `badges` and `stats` unlocks, in order.
      It is the filter of `s` by `Unlocks`, taken from the end of the list so that it matches
      the prefixes a loop over `s` has walked. */
  function UnlocksAmong(s: seq<Achievement>, badges: seq<string>, stats: UserStats): (r: seq<Achievement>)
    ensures |r| <= |s|
    ensures forall k :: 0 <= k < |r| ==> r[k] in s && Unlocks(r[k], badges, stats)
  {
    if s == [] then []
    else
      var last := s[|s| - 1];
      UnlocksAmong(s[..|s| - 1], badges, stats) + (if Unlocks(last, badges, stats) then [last] else [])
  }

  /** Every achievement of `s` that unlocks is among those `UnlocksAmong` returns. */
  lemma {:induction false} UnlocksAmongComplete(s: seq<Achievement>, badges: seq<string>, stats: UserStats, k: nat)
    requires k < |s| && Unlocks(s[k], badges, stats)
    ensures s[k] in UnlocksAmong(s, badges, stats)
  {
    if k < |s| - 1 {
      UnlocksAmongComplete(s[..|s| - 1], badges, stats, k);
    }
  }

  /** Nothing unlocks from a list none of whose achievements unlocks. */
  lemma {:induction false} UnlocksAmongNone(s: seq<Achievement>, badges: seq<string>, stats: UserStats)
    requires forall k :: 0 <= k < |s| ==> !Unlocks(s[k], badges, stats)
    ensures UnlocksAmong(s, badges, stats) == []
  {
    if s != [] {
      UnlocksAmongNone(s[..|s| - 1], badges, stats);
    }
  }

  /** When the first achievement of a list unlocks, it is the first one returned. */
  lemma {:induction false} UnlocksAmongFirst(s: seq<Achievement>, badges: seq<string>, stats: UserStats)
    requires |s| > 0 && Unlocks(s[0], badges, stats)
    ensures UnlocksAmong(s, badges, stats) != [] && UnlocksAmong(s, badges, stats)[0] == s[0]
  {
    if |s| > 1 {
      var init := s[..|s| - 1];
      assert init[0] == s[0];
      UnlocksAmongFirst(init, badges, stats);
    } else {
      assert s[..|s| - 1] == [];
    }
  }

  /** One step of a walk over a list with distinct ids: the `i`-th achievement is added when
      it unlocks, and its id is not among those unlocked before it. */
  lemma UnlocksStep(s: seq<Achievement>, i: nat, badges: seq<string>, stats: UserStats)
    requires DistinctIds(s) && i < |s|
    ensures UnlocksAmong(s[..i + 1], badges, stats) ==
      UnlocksAmong(s[..i], badges, stats) + (if Unlocks(s[i], badges, stats) then [s[i]] else [])
    ensures s[i].id !in Ids(UnlocksAmong(s[..i], badges, stats))
  {
    assert s[..i + 1][..i] == s[..i];
    var before := UnlocksAmong(s[..i], badges, stats);
    forall k | 0 <= k < |before| ensures Ids(before)[k] != s[i].id {
      var m :| 0 <= m < i && s[..i][m] == before[k];
      assert s[m] == before[k];
    }
  }

  /** Checking a list twice with the same statistics, the badges of the first check added,
      unlocks nothing the second time. */
  lemma UnlocksAmongTwice(s: seq<Achievement>, badges: seq<string>, stats: UserStats)
    ensures UnlocksAmong(s, badges + Ids(UnlocksAmong(s, badges, stats)), stats) == []
  {
    var first := UnlocksAmong(s, badges, stats);
    var after := badges + Ids(first);
    forall k | 0 <= k < |s| ensures !Unlocks(s[k], after, stats) {
      if Unlocks(s[k], badges, stats) {
        UnlocksAmongComplete(s, badges, stats, k);
        var m :| 0 <= m < |first| && first[m] == s[k];
        assert Ids(first)[m] == s[k].id;
      }
    }
    UnlocksAmongNone(s, after, stats);
  }

  /** The ids of a list of achievements. */
  function Ids(s: seq<Achievement>): (r: seq<string>)
    ensures |r| == |s|
    ensures forall i :: 0 <= i < |s| ==> r[i] == s[i].id
  {
    if s == [] then [] else Ids(s[..|s| - 1]) + [s[|s| - 1].id]
  }

  /** Unlocking one more achievement adds its id to the ids and its positive points to the
      bonus. */
  lemma UnlockOneMore(s: seq<Achievement>, a: Achievement)
    ensures Ids(s + [a]) == Ids(s) + [a.id]
    ensures Bonus(s + [a]) == Bonus(s) + (if a.points > 0 then a.points else 0)
  {
    assert (s + [a])[..|s|] == s;
  }

  /** The points added for a list of achievements: each one's points when positive. */
  function Bonus(s: seq<Achievement>): int {
    if s == [] then 0
    else Bonus(s[..|s| - 1]) + (if s[|s| - 1].points > 0 then s[|s| - 1].points else 0)
  }

  /** "first_login" is unlocked by the first check after it is missing from the badges. */
  lemma FirstLoginAlwaysUnlocks(badges: seq<string>, stats: UserStats)
    requires "first_login" !in badges
    ensures NewUnlocks(badges, stats) != [] && NewUnlocks(badges, stats)[0].id == "first_login"
  {
    var all := AvailableAchievements();
    assert Unlocks(all[0], badges, stats);
    UnlocksAmongFirst(all, badges, stats);
  }

  /** A second check with the same statistics unlocks nothing: everything the first one could
      unlock is among the badges by then. */
  lemma CheckTwiceUnlocksNothingNew(badges: seq<string>, stats: UserStats)
    ensures NewUnlocks(badges + Ids(NewUnlocks(badges, stats)), stats) == []
  {
    UnlocksAmongTwice(AvailableAchievements(), badges, stats);
  }

  class GamificationService {
    /** The stored point total ('user_points'). */
    var points: int
    /** The stored badge ids ('user_badges'). */
    var badges: seq<string>
    /** The stored streak ('user_streaks'). */
    var streak: Streak

    /** No badge is listed twice and the best run is at least the current one. */
    ghost predicate Valid()
      reads this
    {
      NoDup(badges) && streak.best >= streak.current
    }

    /** A service over empty storage: the defaults of `getPoints`, `getBadges`, `getStreak`. */
    constructor ()
      ensures Valid()
      ensures points == 0 && badges == [] && streak == Streak(0, 0, None)
    {
      points, badges, streak := 0, [], Streak(0, 0, None);
    }

    /** `addPoints`: stores the old total plus `amount` and reports a level-up exactly when the
        new total's level exceeds the old total's. */
    method AddPoints(amount: int, reason: string) returns (r: PointsResult)
      modifies this
      ensures points == old(points) + amount
      ensures r.points == points && r.newLevel == CalculateLevel(points) && r.reason == reason
      ensures r.levelUp <==> CalculateLevel(points) > CalculateLevel(old(points))
      ensures badges == old(badges) && streak == old(streak)
    {
      var currentPoints := points;
      var newPoints := currentPoints + amount;
      points := newPoints;
      var newLevel := CalculateLevel(newPoints);
      var oldLevel := CalculateLevel(currentPoints);
      r := PointsResult(newPoints, newLevel > oldLevel, newLevel, reason);
    }

    /** `unlockBadge`: appends the id and answers true when it is absent; otherwise answers
        false and leaves the badges alone. */
    method UnlockBadge(badgeId: string) returns (unlocked: bool)
      requires Valid()
      modifies this
      ensures Valid()
      ensures unlocked <==> badgeId !in old(badges)
      ensures badges == if unlocked then old(badges) + [badgeId] else old(badges)
      ensures points == old(points) && streak == old(streak)
    {
      if badgeId !in badges {
        AppendFreshNoDup(badges, badgeId);
        badges := badges + [badgeId];
        return true;
      }
      return false;
    }

    /** `updateStreak` on day `today`. */
    method UpdateStreak(today: int) returns (s: Streak)
      requires Valid()
      modifies this
      ensures Valid()
      ensures streak == NextStreak(old(streak), today) && s == streak
      ensures points == old(points) && badges == old(badges)
    {
      if streak.lastDate == Some(today) {
        return streak;
      }
      var current := streak.current;
      if streak.lastDate == Some(today - 1) {
        current := current + 1;
      } else {
        current := 1;
      }
      var best := if streak.best > current then streak.best else current;
      streak := Streak(current, best, Some(today));
      s := streak;
    }

    /** `checkAchievements`: walks the available achievements in order, skips those already
        among the badges, and unlocks (badge plus its positive points) every one whose rule
        holds; returns the ones it unlocked. */
    method CheckAchievements(stats: UserStats) returns (newUnlocks: seq<Achievement>)
      requires Valid()
      modifies this
      ensures Valid()
      ensures newUnlocks == NewUnlocks(old(badges), stats)
      ensures badges == old(badges) + Ids(newUnlocks)
      ensures points == old(points) + Bonus(newUnlocks)
      ensures streak == old(streak)
    {
      AchievementIdsDistinct();
      newUnlocks := UnlockEach(AvailableAchievements(), stats);
    }

    /** The loop of `checkAchievements` over a list `achievements` with distinct ids. */
    method UnlockEach(achievements: seq<Achievement>, stats: UserStats) returns (newUnlocks: seq<Achievement>)
      requires Valid() && DistinctIds(achievements)
      modifies this
      ensures Valid()
      ensures newUnlocks == UnlocksAmong(achievements, old(badges), stats)
      ensures badges == old(badges) + Ids(newUnlocks)
      ensures points == old(points) + Bonus(newUnlocks)
      ensures streak == old(streak)
    {
      var unlockedBadges := badges;
      newUnlocks := [];
      for i := 0 to |achievements|
        invariant Valid()
        invariant newUnlocks == UnlocksAmong(achievements[..i], unlockedBadges, stats)
        invariant badges == unlockedBadges + Ids(newUnlocks)
        invariant points == old(points) + Bonus(newUnlocks)
        invariant streak == old(streak)
      {
        var achievement := achievements[i];
        UnlocksStep(achievements, i, unlockedBadges, stats);
        if achievement.id in unlockedBadges {
          continue;
        }
        var unlocked := UnlockIfDue(achievement, stats);
        if unlocked {
          UnlockOneMore(newUnlocks, achievement);
          newUnlocks := newUnlocks + [achievement];
        }
      }
      assert achievements[..|achievements|] == achievements;
    }

    /** One round of the loop of `checkAchievements`, for an achievement not yet unlocked:
        when its rule holds, unlocks its badge and adds its positive points. */
    method UnlockIfDue(achievement: Achievement, stats: UserStats) returns (unlocked: bool)
      requires Valid() && achievement.id !in badges
      modifies this
      ensures Valid()
      ensures unlocked <==> ShouldUnlock(achievement.id, stats)
      ensures badges == old(badges) + (if unlocked then [achievement.id] else [])
      ensures points == old(points) + (if unlocked && achievement.points > 0 then achievement.points else 0)
      ensures streak == old(streak)
    {
      var shouldUnlock := ShouldUnlock(achievement.id, stats);
      if shouldUnlock {
        var _ := UnlockBadge(achievement.id);
        if achievement.points > 0 {
          var _ := AddPoints(achievement.points, "Conquista: " + achievement.name);
        }
      }
      return shouldUnlock;
    }

    /** `completeActivity`: awards the mapped points, updates the streak on day `today`, then
        checks achievements against the new total and streak. The returned `points` are the
        total before any achievement bonus; the stored total includes it. */
    method CompleteActivity(activityType: string, today: int) returns (r: Completion)
      requires Valid()
      modifies this
      ensures Valid()
      ensures r.points == old(points) + PointsFor(activityType)
      ensures r.levelUp <==> CalculateLevel(r.points) > CalculateLevel(old(points))
      ensures r.streak == NextStreak(old(streak), today) && streak == r.streak
      ensures r.newAchievements == NewUnlocks(old(badges), UserStats(r.points, r.streak.current))
      ensures badges == old(badges) + Ids(r.newAchievements)
      ensures points == r.points + Bonus(r.newAchievements)
      ensures r.newLevel == CalculateLevel(r.points) && r.reason == "Atividade: " + activityType
    {
      var amount := PointsFor(activityType);
      var result := AddPoints(amount, "Atividade: " + activityType);
      var s := UpdateStreak(today);
      var achievements := CheckAchievements(UserStats(result.points, s.current));
      r := Completion(result.points, result.levelUp, result.newLevel, result.reason, s, achievements);
    }
  }
}

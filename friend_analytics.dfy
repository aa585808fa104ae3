/**
 * A friend's analytics: the accepted-friendship gate, the friend's privacy choices, the last
 * thirty statistic rows, the overall sums, and the streaks over a year of days counted back
 * from today. Dates are day numbers.
 */
module FriendAnalytics {
  import opened Wrappers
  import opened Ordering

  datatype Friendship = Friendship(userId: string, friendId: string, status: string)

  datatype PrivacyRow = PrivacyRow(userId: string, shareWritingStats: bool, shareProjects: bool,
                                   shareAchievements: bool)

  datatype StatRow = StatRow(userId: string, date: int, wordsWritten: int, timeSpent: int, sessionsCount: int)

  /** A statistic row as selected for the response. */
  datatype DailyStat = DailyStat(date: int, wordsWritten: int, timeSpent: int, sessionsCount: int)

  datatype ProjectRow = ProjectRow(id: string, userId: string, title: string, status: string, createdAt: int)

  /** SQL `sum` over no rows is null, hence the options; `count(date)` counts every row. */
  datatype OverallStats = OverallStats(totalWords: Option<int>, totalTime: Option<int>,
                                       totalSessions: Option<int>, daysActive: nat)

  datatype Streaks = Streaks(current: nat, longest: nat)

  datatype Analytics = Analytics(
    canViewStats: bool,
    canViewProjects: bool,
    dailyStats: Option<seq<DailyStat>>,
    overallStats: Option<OverallStats>,
    streaks: Option<Streaks>,
    projects: Option<seq<ProjectRow>>)

  datatype Response = Failure(status: int, message: string) | Success(analytics: Analytics)

  /** The days the streak loop looks at. */
  const WindowDays: nat := 365

  /** The number of statistic rows fetched. */
  const DailyLimit: nat := 30

  // ---------------------------------------------------------------------------
  // The gate and the privacy row

  /** The rows the gate's query selects: accepted, between the two users in either direction. */
  predicate AcceptedBetween(f: Friendship, me: string, other: string) {
    ((f.userId == me && f.friendId == other) || (f.userId == other && f.friendId == me)) && f.status == "accepted"
  }

  /** An accepted friendship between the two users, in either direction: the gate passes
      exactly when its query finds a row. */
  predicate AreFriends(friendships: seq<Friendship>, me: string, other: string): (r: bool)
    ensures r <==> Keep(friendships, (f: Friendship) => AcceptedBetween(f, me, other)) != []
  {
    var found := Keep(friendships, (f: Friendship) => AcceptedBetween(f, me, other));
    assert found != [] ==> found[0] in found;
    assert (exists k :: 0 <= k < |friendships| && AcceptedBetween(friendships[k], me, other)) ==> found != [] by {
      if exists k :: 0 <= k < |friendships| && AcceptedBetween(friendships[k], me, other) {
        var k :| 0 <= k < |friendships| && AcceptedBetween(friendships[k], me, other);
        assert friendships[k] in friendships;
      }
    }
    exists k :: 0 <= k < |friendships| &&
      var f := friendships[k];
      ((f.userId == me && f.friendId == other) || (f.userId == other && f.friendId == me))
      && f.status == "accepted"
  }

  /** A friendship row only counts once it is accepted. */
  lemma PendingRowsDoNotCount(friendships: seq<Friendship>, me: string, other: string)
    requires forall k :: 0 <= k < |friendships| ==> friendships[k].status != "accepted"
    ensures !AreFriends(friendships, me, other)
  {
  }

  /** Friendship is symmetric. */
  lemma AreFriendsSymmetric(friendships: seq<Friendship>, a: string, b: string)
    ensures AreFriends(friendships, a, b) <==> AreFriends(friendships, b, a)
  {
  }

  /** The friend's privacy row, or the defaults when there is none. */
  function PrivacyOf(rows: seq<PrivacyRow>, friendId: string): (p: PrivacyRow)
    ensures (forall k :: 0 <= k < |rows| ==> rows[k].userId != friendId) ==>
              p.shareWritingStats && !p.shareProjects && p.shareAchievements
    ensures (exists k :: 0 <= k < |rows| && rows[k].userId == friendId) ==> p in rows && p.userId == friendId
  {
    if rows == [] then PrivacyRow(friendId, true, false, true)
    else if rows[0].userId == friendId then rows[0]
    else PrivacyOf(rows[1..], friendId)
  }

  // ---------------------------------------------------------------------------
  // The statistics

  predicate LaterOrSame(a: DailyStat, b: DailyStat) {
    a.date >= b.date
  }

  lemma LaterOrSameIsTotalPreorder()
    ensures TotalPreorder(LaterOrSame)
  {
  }

  function Daily(r: StatRow): DailyStat {
    DailyStat(r.date, r.wordsWritten, r.timeSpent, r.sessionsCount)
  }

  function DailyOf(rows: seq<StatRow>): (r: seq<DailyStat>)
    ensures |r| == |rows|
    ensures forall k :: 0 <= k < |rows| ==> r[k] == Daily(rows[k])
  {
    if rows == [] then [] else [Daily(rows[0])] + DailyOf(rows[1..])
  }

  function FriendRows(stats: seq<StatRow>, friendId: string): seq<StatRow> {
    Keep(stats, (s: StatRow) => s.userId == friendId)
  }

  /** The friend's thirty latest rows by descending date (`ORDER BY date DESC LIMIT 30`). */
  function DailyStats(stats: seq<StatRow>, friendId: string): (r: seq<DailyStat>)
    ensures FirstInOrder(r, DailyOf(FriendRows(stats, friendId)), LaterOrSame, DailyLimit)
    ensures forall x :: x in r ==> exists s :: s in stats && s.userId == friendId && Daily(s) == x
  {
    LaterOrSameIsTotalPreorder();
    var rows := FriendRows(stats, friendId);
    var r := Top(DailyOf(rows), LaterOrSame, DailyLimit);
    forall x | x in r
      ensures exists s :: s in stats && s.userId == friendId && Daily(s) == x
    {
      assert x in multiset(DailyOf(rows));
      var k :| 0 <= k < |rows| && DailyOf(rows)[k] == x;
      assert rows[k] in rows;
    }
    r
  }

  function SumOrNull(rows: seq<StatRow>, f: StatRow -> int): (r: Option<int>)
    ensures r.None? <==> rows == []
  {
    if rows == [] then None else Some(Sum(rows, f))
  }

  function Overall(stats: seq<StatRow>, friendId: string): (o: OverallStats)
    ensures o.daysActive == |FriendRows(stats, friendId)|
    ensures o.totalWords.None? <==> o.daysActive == 0
  {
    var rows := FriendRows(stats, friendId);
    OverallStats(SumOrNull(rows, (s: StatRow) => s.wordsWritten), SumOrNull(rows, (s: StatRow) => s.timeSpent),
                 SumOrNull(rows, (s: StatRow) => s.sessionsCount), |rows|)
  }

  // ---------------------------------------------------------------------------
  // The streak loop

  /** `sortedStats.some(stat => stat.date === day && stat.wordsWritten > 0)`. */
  function HasActivity(stats: seq<DailyStat>, day: int): (b: bool)
    ensures b <==> exists k :: 0 <= k < |stats| && stats[k].date == day && stats[k].wordsWritten > 0
  {
    if stats == [] then false
    else (stats[0].date == day && stats[0].wordsWritten > 0) || HasActivity(stats[1..], day)
  }

  /** Whether each of the days `today`, `today - 1`, … of the year has activity. */
  function Window(stats: seq<DailyStat>, today: int): (w: seq<bool>)
    ensures |w| == WindowDays
    ensures forall i :: 0 <= i < WindowDays ==> w[i] == HasActivity(stats, today - i)
  {
    seq(WindowDays, i => HasActivity(stats, today - i))
  }

  /** Positions `lo` up to `hi` (exclusive) of `w` are all active days. */
  ghost predicate IsRun(w: seq<bool>, lo: int, hi: int) {
    0 <= lo <= hi <= |w| && forall k :: lo <= k < hi ==> w[k]
  }

  ghost predicate IsLongestRun(w: seq<bool>, n: nat) {
    (exists lo, hi :: IsRun(w, lo, hi) && hi - lo == n)
    && forall lo, hi :: IsRun(w, lo, hi) ==> hi - lo <= n
  }

  /** The 365-iteration loop. `current` is only ever set at the first iteration. */
  method StreakLoop(sortedStats: seq<DailyStat>, today: int) returns (current: nat, longest: nat)
    ensures current == (if HasActivity(sortedStats, today) then 1 else 0)
    ensures IsLongestRun(Window(sortedStats, today), longest)
  {
    ghost var w := Window(sortedStats, today);
    current, longest := 0, 0;
    var temp := 0;
    ghost var best := 0;
    var checkDate := today;
    for i := 0 to WindowDays
      invariant checkDate == today - i
      invariant i > 0 ==> current == (if w[0] then 1 else 0)
      invariant IsRun(w, i - temp, i)
      invariant i - temp > 0 ==> !w[i - temp - 1]
      invariant IsRun(w, best, best + longest)
      invariant forall lo, hi :: hi <= i && IsRun(w, lo, hi) ==> hi - lo <= Max(longest, temp)
    {
      var dateStr := checkDate;
      var hasActivity := HasActivity(sortedStats, dateStr);
      if hasActivity {
        temp := temp + 1;
        if dateStr == today || i == 0 {
          current := temp;
        }
      } else {
        if temp > longest {
          best := i - temp;
          longest := temp;
        }
        if i == 0 {
          current := 0;
        }
        temp := 0;
      }
      checkDate := checkDate - 1;
    }
    if temp > longest {
      best := WindowDays - temp;
      longest := temp;
    }
  }

  function Max(a: int, b: int): int {
    if a >= b then a else b
  }

  /** A run of active days never outnumbers the fetched rows, since every active day is the
      date of one of them. */
  lemma {:induction false} RunAtMostRows(stats: seq<DailyStat>, today: int, lo: int, hi: int)
    requires IsRun(Window(stats, today), lo, hi)
    ensures hi - lo <= |stats|
  {
    var days := DaysBack(today, lo, hi);
    DaysBackSize(today, lo, hi);
    forall d | d in days
      ensures d in DatesOf(stats)
    {
      var i := today - d;
      assert Window(stats, today)[i];
      var k :| 0 <= k < |stats| && stats[k].date == d && stats[k].wordsWritten > 0;
    }
    SubsetSize(days, DatesOf(stats));
    DatesOfSize(stats);
  }

  /** The days `today - lo` back to `today - hi + 1`. */
  function DaysBack(today: int, lo: int, hi: int): (r: set<int>)
    ensures forall d :: d in r <==> today - hi < d <= today - lo
    decreases hi - lo
  {
    if lo >= hi then {} else DaysBack(today, lo, hi - 1) + {today - hi + 1}
  }

  lemma {:induction false} DaysBackSize(today: int, lo: int, hi: int)
    requires lo <= hi
    ensures |DaysBack(today, lo, hi)| == hi - lo
    decreases hi - lo
  {
    if lo < hi {
      DaysBackSize(today, lo, hi - 1);
      assert DaysBack(today, lo, hi) == DaysBack(today, lo, hi - 1) + {today - hi + 1};
    } else {
      assert DaysBack(today, lo, hi) == {};
    }
  }

  function DatesOf(stats: seq<DailyStat>): set<int> {
    set s | s in stats :: s.date
  }

  lemma {:induction false} DatesOfSize(stats: seq<DailyStat>)
    ensures |DatesOf(stats)| <= |stats|
  {
    if stats == [] {
      assert DatesOf(stats) == {};
    } else {
      DatesOfSize(stats[1..]);
      assert DatesOf(stats) <= DatesOf(stats[1..]) + {stats[0].date};
      SubsetSize(DatesOf(stats), DatesOf(stats[1..]) + {stats[0].date});
    }
  }

  lemma SubsetSize(a: set<int>, b: set<int>)
    requires a <= b
    ensures |a| <= |b|
  {
    assert |b| == |a| + |b - a| by {
      assert b == a + (b - a);
    }
  }

  /** The streaks reported: the longest is at least the current one, and at most the number of
      rows fetched, so never more than thirty. */
  lemma StreakBounds(stats: seq<StatRow>, friendId: string, today: int, current: nat, longest: nat)
    requires current == (if HasActivity(SortedStats(stats, friendId), today) then 1 else 0)
    requires IsLongestRun(Window(SortedStats(stats, friendId), today), longest)
    ensures current <= longest <= DailyLimit
  {
    var sorted := SortedStats(stats, friendId);
    var w := Window(sorted, today);
    var lo, hi :| IsRun(w, lo, hi) && hi - lo == longest;
    RunAtMostRows(sorted, today, lo, hi);
    LaterOrSameIsTotalPreorder();
    SortBySameRows(DailyStats(stats, friendId), LaterOrSame);
    if current == 1 {
      assert IsRun(w, 0, 1);
    }
  }

  /** `[...dailyStats].sort(...)`: the fetched rows, sorted again by descending date. */
  function SortedStats(stats: seq<StatRow>, friendId: string): seq<DailyStat> {
    LaterOrSameIsTotalPreorder();
    SortBy(DailyStats(stats, friendId), LaterOrSame)
  }

  // ---------------------------------------------------------------------------
  // The handler

  /** The projects of the friend, newest first (`ORDER BY created_at DESC`). */
  function FriendProjects(projects: seq<ProjectRow>, friendId: string): (r: seq<ProjectRow>)
    ensures forall p :: p in r <==> p in projects && p.userId == friendId
    ensures SortedBy(r, NewerOrSame)
  {
    NewerOrSameIsTotalPreorder();
    var mine := Keep(projects, (p: ProjectRow) => p.userId == friendId);
    SortBySameRows(mine, NewerOrSame);
    SortBy(mine, NewerOrSame)
  }

  predicate NewerOrSame(a: ProjectRow, b: ProjectRow) {
    a.createdAt >= b.createdAt
  }

  lemma NewerOrSameIsTotalPreorder()
    ensures TotalPreorder(NewerOrSame)
  {
  }

  /** `GET`. `friendIdParam` is the query parameter (absent or a string); `storeFails` says
      whether a query throws; `today` is the current day. */
  method Get(me: Option<string>, friendIdParam: Option<string>, friendships: seq<Friendship>,
             privacyRows: seq<PrivacyRow>, stats: seq<StatRow>, projects: seq<ProjectRow>,
             today: int, storeFails: bool)
    returns (response: Response)
    ensures me.None? ==> response == Failure(401, "Unauthorized")
    ensures me.Some? && (friendIdParam.None? || friendIdParam.value == "") ==>
              response == Failure(400, "Friend ID is required")
    ensures me.Some? && friendIdParam.Some? && friendIdParam.value != "" ==>
              (response.Failure? <==> storeFails || !AreFriends(friendships, me.value, friendIdParam.value))
    ensures response.Failure? && me.Some? && friendIdParam.Some? && friendIdParam.value != "" ==>
              response == Failure(500, "Failed to fetch analytics")
    ensures response.Success? ==>
              var fid := friendIdParam.value;
              var privacy := PrivacyOf(privacyRows, fid);
              var a := response.analytics;
              && a.canViewStats == privacy.shareWritingStats
              && a.canViewProjects == privacy.shareProjects
              && (a.dailyStats.Some? <==> privacy.shareWritingStats)
              && (a.overallStats.Some? <==> privacy.shareWritingStats)
              && (a.streaks.Some? <==> privacy.shareWritingStats)
              && (a.projects.Some? <==> privacy.shareProjects)
              && (a.dailyStats.Some? ==> a.dailyStats.value == DailyStats(stats, fid))
              && (a.overallStats.Some? ==> a.overallStats.value == Overall(stats, fid))
              && (a.streaks.Some? ==>
                    && a.streaks.value.current == (if HasActivity(SortedStats(stats, fid), today) then 1 else 0)
                    && IsLongestRun(Window(SortedStats(stats, fid), today), a.streaks.value.longest))
              && (a.projects.Some? ==> a.projects.value == FriendProjects(projects, fid))
  {
    if me.None? {
      return Failure(401, "Unauthorized");
    }
    if friendIdParam.None? || friendIdParam.value == "" {
      return Failure(400, "Friend ID is required");
    }
    var friendId := friendIdParam.value;
    // The 403 for strangers is thrown inside the `try`, whose `catch` turns every error into a 500.
    if storeFails || !AreFriends(friendships, me.value, friendId) {
      return Failure(500, "Failed to fetch analytics");
    }
    var privacy := PrivacyOf(privacyRows, friendId);
    var analytics := Analytics(privacy.shareWritingStats, privacy.shareProjects, None, None, None, None);
    if privacy.shareWritingStats {
      var dailyStats := DailyStats(stats, friendId);
      var sortedStats := SortedStats(stats, friendId);
      var current, longest := StreakLoop(sortedStats, today);
      analytics := analytics.(dailyStats := Some(dailyStats), overallStats := Some(Overall(stats, friendId)),
                              streaks := Some(Streaks(current, longest)));
    }
    if privacy.shareProjects {
      analytics := analytics.(projects := Some(FriendProjects(projects, friendId)));
    }
    return Success(analytics);
  }
}

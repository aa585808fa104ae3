/**
 * The analytics page: project counts by status, the mean word count, and the current and
 * longest writing streaks over the user's day activity, which the page first sorts in place
 * by descending date. Dates are day numbers; an ISO `YYYY-MM-DD` string compares like its day.
 */
module AnalyticsPage {
  import opened Wrappers
  import opened Ordering
  import Services

  /** One project as the page sees it; a missing word count is `None`. */
  datatype ProjectSummary = ProjectSummary(status: string, currentWordCount: Option<int>)

  /** The words written on one day. */
  datatype DayActivity = DayActivity(date: int, words: int)

  datatype Analytics = Analytics(
    totalProjectsCompleted: nat,
    totalProjectsInProgress: nat,
    averageWordsPerProject: int,
    currentStreak: nat,
    longestStreak: nat)

  datatype PageData = PageData(
    user: string,
    projects: seq<ProjectSummary>,
    stats: Services.WritingStatistics,
    activityData: seq<DayActivity>,
    analytics: Analytics)

  datatype LoadOutcome = Redirect(location: string) | Page(data: PageData)

  // ---------------------------------------------------------------------------
  // Project counts

  predicate Completed(p: ProjectSummary) {
    p.status == "completed"
  }

  predicate InProgress(p: ProjectSummary) {
    p.status == "in_progress"
  }

  /** No project is counted under both statuses, so the two counts never exceed the total. */
  lemma {:induction false} StatusCountsAtMostTotal(projects: seq<ProjectSummary>)
    ensures Count(projects, Completed) + Count(projects, InProgress) <= |projects|
  {
    if projects != [] {
      StatusCountsAtMostTotal(projects[1..]);
    }
  }

  /** `p.currentWordCount || 0`. */
  function WordCountOrZero(p: ProjectSummary): int {
    p.currentWordCount.GetOr(0)
  }

  /** `Math.round(total / count)` of the word counts: 0 with no projects, otherwise the
      integer nearest the mean (half rounding up). */
  function AverageWords(projects: seq<ProjectSummary>): (average: int)
    ensures projects == [] ==> average == 0
    ensures projects != [] ==>
              var n := |projects|;
              var total := Sum(projects, WordCountOrZero);
              2 * n * average - n <= 2 * total < 2 * n * average + n
  {
    if |projects| > 0 then Services.RoundDiv(Sum(projects, WordCountOrZero), |projects|) else 0
  }

  /** Projects without a word count weigh in as 0. */
  lemma {:induction false} MissingCountsAsZero(projects: seq<ProjectSummary>, i: nat)
    requires i < |projects| && projects[i].currentWordCount.None?
    ensures Sum(projects[i := projects[i].(currentWordCount := Some(0))], WordCountOrZero)
            == Sum(projects, WordCountOrZero)
  {
    if i > 0 {
      MissingCountsAsZero(projects[1..], i - 1);
      assert projects[i := projects[i].(currentWordCount := Some(0))][1..]
             == projects[1..][i - 1 := projects[i].(currentWordCount := Some(0))];
    }
  }

  // ---------------------------------------------------------------------------
  // Sorting by descending date

  predicate DescendingByDate(s: seq<DayActivity>) {
    forall i, j :: 0 <= i < j < |s| ==> s[i].date >= s[j].date
  }

  /** `activityData.sort((a, b) => b.date.localeCompare(a.date))`, in place. */
  method SortByDateDescending(a: array<DayActivity>)
    modifies a
    ensures DescendingByDate(a[..])
    ensures multiset(a[..]) == multiset(old(a[..]))
  {
    for i := 0 to a.Length
      invariant DescendingByDate(a[..i])
      invariant multiset(a[..]) == multiset(old(a[..]))
    {
      InsertDescending(a, i);
    }
    assert a[..a.Length] == a[..];
  }

  /** Moves `a[i]` left past every entry with an earlier date. */
  method InsertDescending(a: array<DayActivity>, i: nat)
    requires i < a.Length && DescendingByDate(a[..i])
    modifies a
    ensures DescendingByDate(a[..i + 1])
    ensures multiset(a[..]) == multiset(old(a[..]))
  {
    var j := i;
    InsertionStart(a[..], i);
    while j > 0 && a[j - 1].date < a[j].date
      invariant InsertionState(a[..], i, j)
      invariant multiset(a[..]) == multiset(old(a[..]))
    {
      ghost var before := a[..];
      a[j - 1], a[j] := a[j], a[j - 1];
      assert a[..] == before[j - 1 := before[j]][j := before[j - 1]];
      InsertionStep(before, i, j);
      j := j - 1;
    }
    InsertionDone(a[..], i, j);
  }

  /** Midway through inserting entry `i`: it sits at `j`, is at least as late as everything
      after it up to `i`, and the other entries up to `i` are in order. */
  ghost predicate InsertionState(s: seq<DayActivity>, i: int, j: int) {
    && 0 <= j <= i < |s|
    && (forall m, n :: 0 <= m < n <= i && m != j && n != j ==> s[m].date >= s[n].date)
    && (forall n :: j < n <= i ==> s[j].date >= s[n].date)
  }

  lemma InsertionStart(s: seq<DayActivity>, i: nat)
    requires i < |s| && DescendingByDate(s[..i])
    ensures InsertionState(s, i, i)
  {
    assert forall m, n :: 0 <= m < n < i ==> s[..i][m] == s[m] && s[..i][n] == s[n];
  }

  lemma InsertionStep(s: seq<DayActivity>, i: int, j: int)
    requires InsertionState(s, i, j) && j > 0 && s[j - 1].date < s[j].date
    ensures InsertionState(s[j - 1 := s[j]][j := s[j - 1]], i, j - 1)
    ensures multiset(s[j - 1 := s[j]][j := s[j - 1]]) == multiset(s)
  {
  }

  lemma InsertionDone(s: seq<DayActivity>, i: int, j: int)
    requires InsertionState(s, i, j) && (j == 0 || s[j - 1].date >= s[j].date)
    ensures DescendingByDate(s[..i + 1])
  {
  }

  // ---------------------------------------------------------------------------
  // Current streak

  /** The index of the first entry for day `d`, as `find` looks it up. */
  function FindDay(s: seq<DayActivity>, d: int): Option<nat> {
    if s == [] then None
    else if s[0].date == d then Some(0)
    else match FindDay(s[1..], d)
      case None => None
      case Some(k) => Some(k + 1)
  }

  /** `find` gives the first entry of the day, and nothing exactly when the day has no entry. */
  lemma {:induction false} FindDayFirst(s: seq<DayActivity>, d: int)
    ensures FindDay(s, d).None? <==> forall k :: 0 <= k < |s| ==> s[k].date != d
    ensures FindDay(s, d).Some? ==>
              var i := FindDay(s, d).value;
              i < |s| && s[i].date == d && forall k :: 0 <= k < i ==> s[k].date != d
  {
    if s != [] && s[0].date != d {
      FindDayFirst(s[1..], d);
      assert forall k :: 1 <= k < |s| ==> s[k] == s[1..][k - 1];
    }
  }

  /** Day `d` has an entry, and its first entry has words. */
  predicate ActiveOn(s: seq<DayActivity>, d: int) {
    var found := FindDay(s, d);
    found.Some? && found.value < |s| && s[found.value].words > 0
  }

  /** The number of active days `d`, `d - 1`, … before the first inactive one, looking at no more
      than `budget` days. */
  function StreakFrom(s: seq<DayActivity>, d: int, budget: nat): (r: nat)
    ensures r <= budget
    ensures forall e :: d - r < e <= d ==> ActiveOn(s, e)
    ensures r < budget ==> !ActiveOn(s, d - r)
    decreases budget
  {
    if budget == 0 || !ActiveOn(s, d) then 0
    else 1 + StreakFrom(s, d - 1, budget - 1)
  }

  /** The streak is pinned down by its two properties: active days up to it, an inactive day
      just after it (unless the budget ran out). */
  lemma StreakFromUnique(s: seq<DayActivity>, d: int, budget: nat, k: nat)
    requires k <= budget
    requires forall e :: d - k < e <= d ==> ActiveOn(s, e)
    requires k < budget ==> !ActiveOn(s, d - k)
    ensures StreakFrom(s, d, budget) == k
  {
  }

  /** One more active day lengthens a full streak by one. */
  lemma StreakGrows(s: seq<DayActivity>, d: int, k: nat)
    requires StreakFrom(s, d, k) == k && ActiveOn(s, d - k)
    ensures StreakFrom(s, d, k + 1) == k + 1
  {
    StreakFromUnique(s, d, k + 1, k + 1);
  }

  /** An inactive day ends a full streak, however many more days could be looked at. */
  lemma StreakEnds(s: seq<DayActivity>, d: int, k: nat, budget: nat)
    requires StreakFrom(s, d, k) == k && k <= budget && !ActiveOn(s, d - k)
    ensures StreakFrom(s, d, budget) == k
  {
    StreakFromUnique(s, d, budget, k);
  }

  /** The streak the loop counts: from today when today is active, otherwise from yesterday with
      one iteration fewer. */
  function CurrentStreakOf(s: seq<DayActivity>, today: int): nat {
    if s == [] then 0
    else if ActiveOn(s, today) then StreakFrom(s, today, |s|)
    else StreakFrom(s, today - 1, |s| - 1)
  }

  /** The current streak never exceeds the number of entries, and it is the run of active days
      back from today (or from yesterday when today has no activity). */
  lemma CurrentStreakMeaning(s: seq<DayActivity>, today: int)
    ensures CurrentStreakOf(s, today) <= |s|
    ensures ActiveOn(s, today) ==>
              forall e :: today - CurrentStreakOf(s, today) < e <= today ==> ActiveOn(s, e)
    ensures !ActiveOn(s, today) ==>
              forall e :: today - 1 - CurrentStreakOf(s, today) < e <= today - 1 ==> ActiveOn(s, e)
    ensures !ActiveOn(s, today) && CurrentStreakOf(s, today) < |s| - 1 ==>
              !ActiveOn(s, today - 1 - CurrentStreakOf(s, today))
    ensures ActiveOn(s, today) && CurrentStreakOf(s, today) < |s| ==>
              !ActiveOn(s, today - CurrentStreakOf(s, today))
  {
  }

  /** The current-streak loop over the sorted entries. */
  method CurrentStreak(a: array<DayActivity>, today: int) returns (streak: nat)
    ensures streak == CurrentStreakOf(a[..], today)
  {
    ghost var s := a[..];
    ghost var skip := if s != [] && !ActiveOn(s, today) then 1 else 0;
    ghost var start := today - skip;
    streak := 0;
    for i := 0 to a.Length
      invariant i == 0 ==> streak == 0
      invariant i > 0 ==> i >= skip && streak == i - skip && StreakFrom(s, start, i - skip) == i - skip
    {
      var expected := today - i;
      var found := FindDay(a[..], expected);
      FindDayFirst(a[..], expected);
      ghost var k := i - skip;
      assert start - k == expected;
      if found.Some? && a[found.value].words > 0 {
        StreakGrows(s, start, k);
        streak := streak + 1;
      } else if i == 0 {
        continue;
      } else {
        StreakEnds(s, start, k, |s| - skip);
        return;
      }
    }
    if s != [] {
      assert streak == |s| - skip;
    }
  }

  // ---------------------------------------------------------------------------
  // Longest streak

  /** Entries `lo` up to `hi` (exclusive) all have words. */
  ghost predicate IsActiveRun(s: seq<DayActivity>, lo: int, hi: int) {
    0 <= lo <= hi <= |s| && forall k :: lo <= k < hi ==> s[k].words > 0
  }

  /** `n` is the length of the longest run of adjacent entries with words. */
  ghost predicate IsLongestActiveRun(s: seq<DayActivity>, n: nat) {
    (exists lo, hi :: IsActiveRun(s, lo, hi) && hi - lo == n)
    && forall lo, hi :: IsActiveRun(s, lo, hi) ==> hi - lo <= n
  }

  /** The longest-streak loop, over the entries in array order. */
  method LongestStreak(a: array<DayActivity>) returns (longest: nat)
    ensures IsLongestActiveRun(a[..], longest)
    ensures longest <= a.Length
  {
    ghost var s := a[..];
    longest := 0;
    var temp := 0;
    ghost var best := 0;
    for i := 0 to a.Length
      invariant temp <= longest
      invariant IsActiveRun(s, i - temp, i)
      invariant i - temp > 0 ==> s[i - temp - 1].words <= 0
      invariant IsActiveRun(s, best, best + longest)
      invariant forall lo, hi :: hi <= i && IsActiveRun(s, lo, hi) ==> hi - lo <= longest
    {
      if a[i].words > 0 {
        temp := temp + 1;
        if temp > longest {
          best := i + 1 - temp;
        }
        longest := if longest >= temp then longest else temp;
        forall lo, hi | hi <= i + 1 && IsActiveRun(s, lo, hi)
          ensures hi - lo <= longest
        {
        }
      } else {
        temp := 0;
        forall lo, hi | hi <= i + 1 && IsActiveRun(s, lo, hi)
          ensures hi - lo <= longest
        {
        }
      }
    }
  }

  // ---------------------------------------------------------------------------
  // The load function

  const ZeroStatistics: Services.WritingStatistics := Services.WritingStatistics(0, 0, 0, 0)
  const ZeroAnalytics: Analytics := Analytics(0, 0, 0, 0, 0)

  /** The page data when any call throws: no projects, zeroed statistics and analytics, and the
      sample activity. */
  function ErrorPage(user: string, sample: seq<DayActivity>): PageData {
    PageData(user, [], ZeroStatistics, sample, ZeroAnalytics)
  }

  /** `load`. `projects` and `activity` are `None` when the corresponding query throws, `stats`
      is what `getUserWritingStatistics` returns (it never throws), `sample` is the generated
      sample activity and `today` the current day. */
  method Load(user: Option<string>, projects: Option<seq<ProjectSummary>>, stats: Services.WritingStatistics,
              activity: Option<seq<DayActivity>>, sample: seq<DayActivity>, today: int)
    returns (outcome: LoadOutcome)
    ensures user.None? ==> outcome == Redirect("/login")
    ensures user.Some? && (projects.None? || activity.None?) ==> outcome == Page(ErrorPage(user.value, sample))
    ensures user.Some? && projects.Some? && activity.Some? ==>
              && outcome.Page?
              && outcome.data.user == user.value
              && outcome.data.projects == projects.value
              && outcome.data.stats == stats
              && DescendingByDate(outcome.data.activityData)
              && multiset(outcome.data.activityData)
                 == multiset(if activity.value == [] then sample else activity.value)
              && outcome.data.analytics.totalProjectsCompleted == Count(projects.value, Completed)
              && outcome.data.analytics.totalProjectsInProgress == Count(projects.value, InProgress)
              && outcome.data.analytics.averageWordsPerProject == AverageWords(projects.value)
              && outcome.data.analytics.currentStreak == CurrentStreakOf(outcome.data.activityData, today)
              && IsLongestActiveRun(outcome.data.activityData, outcome.data.analytics.longestStreak)
  {
    if user.None? {
      return Redirect("/login");
    }
    if projects.None? || activity.None? {
      return Page(ErrorPage(user.value, sample));
    }
    var ps := projects.value;
    var data := activity.value;
    if |data| == 0 {
      data := sample;
    }
    var sorted := new DayActivity[|data|](k requires 0 <= k < |data| => data[k]);
    assert sorted[..] == data;
    SortByDateDescending(sorted);
    var current := CurrentStreak(sorted, today);
    var longest := LongestStreak(sorted);
    var analytics := Analytics(Count(ps, Completed), Count(ps, InProgress), AverageWords(ps), current, longest);
    return Page(PageData(user.value, ps, stats, sorted[..], analytics));
  }
}

/**
 * The browser-side writing-session tracker: it starts a session at a word count, follows the
 * word count while the writer types, and reports the session (minutes and words) to the
 * server when it is saved. The clock is the `now` argument (milliseconds); the reports
 * sent are recorded in order in `sent`; the two timers are flags that say whether they are
 * set.
 */
module SessionTracker {
  import Services

  /** The body of a `POST /api/writing-session` request. */
  datatype SessionReport = SessionReport(projectId: string, wordsWritten: int, timeSpent: int)

  const InactivityThreshold: int := 60000
  const MinSessionDuration: int := 30000
  const AutosaveInterval: int := 60000

  /** `Math.round(elapsed / 60000)`: the elapsed time in whole minutes, to the nearest. */
  function Minutes(elapsed: int): (m: int)
    ensures 120000 * m - 60000 <= 2 * elapsed < 120000 * m + 60000
  {
    Services.RoundDiv(elapsed, 60000)
  }

  /** A session long enough to be ended with a save is also long enough for the save to send
      its report: half a minute rounds up to one minute. */
  lemma MinimumSessionRoundsToAMinute(elapsed: int)
    ensures Minutes(elapsed) >= 1 <==> elapsed >= MinSessionDuration
  {
  }

  function WordsToReport(lastWordCount: int): (w: int)
    ensures w >= 0
    ensures w >= lastWordCount
    ensures lastWordCount >= 0 ==> w == lastWordCount
  {
    if lastWordCount < 0 then 0 else lastWordCount
  }

  class WritingSessionTracker {
    const projectId: string
    var startTime: int
    var lastWordCount: int
    var isActive: bool
    /** `sessionTimeout`, the autosave interval, is set. */
    var autosaveSet: bool
    /** `inactivityTimeout` is set. */
    var inactivitySet: bool
    /** The reports sent so far, oldest first. */
    var sent: seq<SessionReport>

    /** The timers run only while a session is active. */
    predicate Valid()
      reads this
    {
      (autosaveSet ==> isActive) && (inactivitySet ==> isActive)
    }

    /** The report a save at `now` sends, if it sends one. */
    function PendingReport(now: int): (r: seq<SessionReport>)
      reads this
      ensures |r| <= 1
      ensures r != [] <==> isActive && now - startTime >= MinSessionDuration
      ensures r != [] ==> r[0].projectId == projectId && r[0].wordsWritten >= 0 && r[0].timeSpent >= 1
    {
      MinimumSessionRoundsToAMinute(now - startTime);
      if isActive && Minutes(now - startTime) >= 1 then
        [SessionReport(projectId, WordsToReport(lastWordCount), Minutes(now - startTime))]
      else []
    }

    constructor(projectId0: string)
      ensures Valid()
      ensures projectId == projectId0 && startTime == 0 && lastWordCount == 0
      ensures !isActive && !autosaveSet && !inactivitySet && sent == []
    {
      projectId := projectId0;
      startTime := 0;
      lastWordCount := 0;
      isActive := false;
      autosaveSet := false;
      inactivitySet := false;
      sent := [];
    }

    /** `start`: ignored while a session is active. */
    method Start(initialWordCount: int, now: int)
      requires Valid()
      modifies this
      ensures Valid()
      ensures old(isActive) ==> unchanged(this)
      ensures !old(isActive) ==>
                && isActive && autosaveSet && startTime == now && lastWordCount == initialWordCount
                && inactivitySet == old(inactivitySet) && sent == old(sent)
    {
      if isActive {
        return;
      }
      startTime := now;
      lastWordCount := initialWordCount;
      isActive := true;
      autosaveSet := true;
    }

    /** `updateActivity`: ignored when no session is active; otherwise it (re)sets the
        inactivity timer and replaces the word count by the total reported. */
    method UpdateActivity(currentWordCount: int)
      requires Valid()
      modifies this
      ensures Valid()
      ensures !old(isActive) ==> unchanged(this)
      ensures old(isActive) ==>
                && lastWordCount == currentWordCount && inactivitySet
                && isActive && autosaveSet == old(autosaveSet) && startTime == old(startTime) && sent == old(sent)
    {
      if !isActive {
        return;
      }
      inactivitySet := true;
      lastWordCount := currentWordCount;
    }

    /** `saveSession`, run by the autosave interval and by `end`: reports the rounded elapsed
        minutes and the last word count, unless inactive or under a minute. A failed request
        is caught, so the state is the same either way. */
    method SaveSession(now: int)
      requires Valid()
      modifies this
      ensures Valid()
      ensures sent == old(sent) + old(PendingReport(now))
      ensures isActive == old(isActive) && startTime == old(startTime) && lastWordCount == old(lastWordCount)
      ensures autosaveSet == old(autosaveSet) && inactivitySet == old(inactivitySet)
    {
      if !isActive {
        return;
      }
      var timeSpentMinutes := Minutes(now - startTime);
      var wordsWritten := WordsToReport(lastWordCount);
      if timeSpentMinutes < 1 {
        return;
      }
      sent := sent + [SessionReport(projectId, wordsWritten, timeSpentMinutes)];
    }

    /** `cleanup`: inactive, with both timers cleared. */
    method Cleanup()
      modifies this
      ensures Valid()
      ensures !isActive && !autosaveSet && !inactivitySet
      ensures startTime == old(startTime) && lastWordCount == old(lastWordCount) && sent == old(sent)
    {
      isActive := false;
      autosaveSet := false;
      inactivitySet := false;
    }

    /** `end`, also what the inactivity timer runs: ignored when inactive; otherwise a session
        of at least half a minute is reported, and the tracker stops. */
    method End(now: int)
      requires Valid()
      modifies this
      ensures Valid()
      ensures !old(isActive) ==> unchanged(this)
      ensures old(isActive) ==> !isActive && !autosaveSet && !inactivitySet
      ensures sent == old(sent) + old(PendingReport(now))
      ensures startTime == old(startTime) && lastWordCount == old(lastWordCount)
    {
      if !isActive {
        return;
      }
      var sessionDuration := now - startTime;
      if sessionDuration >= MinSessionDuration {
        SaveSession(now);
      }
      Cleanup();
    }

    /** `duration`: zero when inactive, else the rounded elapsed minutes. */
    function Duration(now: int): (m: int)
      reads this
      ensures !isActive ==> m == 0
      ensures isActive ==> 120000 * m - 60000 <= 2 * (now - startTime) < 120000 * m + 60000
    {
      if !isActive then 0 else Minutes(now - startTime)
    }

    /** `destroy`: ends an active session, then always leaves the tracker stopped. */
    method Destroy(now: int)
      requires Valid()
      modifies this
      ensures Valid()
      ensures !isActive && !autosaveSet && !inactivitySet
      ensures sent == old(sent) + old(PendingReport(now))
      ensures startTime == old(startTime) && lastWordCount == old(lastWordCount)
    {
      if isActive {
        End(now);
      }
      Cleanup();
    }
  }

  /** The number of autosave ticks strictly before `elapsed` milliseconds have passed: the
      interval fires at 60000, 120000, … after the start. */
  function Ticks(elapsed: int): (n: nat)
    ensures elapsed > 0 ==> AutosaveInterval * n < elapsed <= AutosaveInterval * (n + 1)
    ensures elapsed <= AutosaveInterval ==> n == 0
  {
    if elapsed <= 0 then 0 else (elapsed - 1) / AutosaveInterval
  }

  /** The reports of the first `n` autosave ticks with last count `w`: tick `k` reports `k`
      minutes. */
  function AutosaveReports(projectId: string, w: int, n: nat): (r: seq<SessionReport>)
    ensures |r| == n
    ensures forall k :: 0 <= k < n ==> r[k] == SessionReport(projectId, WordsToReport(w), k + 1)
  {
    seq(n, k requires 0 <= k < n => SessionReport(projectId, WordsToReport(w), k + 1))
  }

  /** A tick of the interval reports whole minutes exactly. */
  lemma MinutesOfTick(i: int)
    ensures Minutes(AutosaveInterval * i) == i
  {
  }

  /** A whole session: started at `t0` with count `w0`, the last reported count `w`, the
      autosave interval firing every minute, ended at `t1` (by `end` or the inactivity timer).
      Every tick reports the minutes so far with the last count, and the end adds one more
      report when the session lasted half a minute. What is reported depends on the last count
      alone, never on the count the session started with. */
  method Session(projectId: string, w0: int, t0: int, w: int, t1: int) returns (reports: seq<SessionReport>)
    ensures reports == AutosaveReports(projectId, w, Ticks(t1 - t0)) +
                       (if t1 - t0 >= MinSessionDuration
                        then [SessionReport(projectId, WordsToReport(w), Minutes(t1 - t0))] else [])
    ensures t1 - t0 <= AutosaveInterval ==> |reports| <= 1
  {
    var tracker := new WritingSessionTracker(projectId);
    tracker.Start(w0, t0);
    tracker.UpdateActivity(w);
    var i := 1;
    while AutosaveInterval * i < t1 - t0
      invariant tracker.Valid() && tracker.isActive
      invariant tracker.projectId == projectId && tracker.startTime == t0 && tracker.lastWordCount == w
      invariant i >= 1 && (i == 1 || AutosaveInterval * (i - 1) < t1 - t0)
      invariant tracker.sent == AutosaveReports(projectId, w, i - 1)
      decreases t1 - t0 - AutosaveInterval * i
    {
      MinutesOfTick(i);
      tracker.SaveSession(t0 + AutosaveInterval * i);
      assert tracker.sent == AutosaveReports(projectId, w, i);
      i := i + 1;
    }
    assert i - 1 == Ticks(t1 - t0);
    tracker.End(t1);
    reports := tracker.sent;
  }
}

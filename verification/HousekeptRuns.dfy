/** The poller and the housekeeper together: which history the retention job leaves the current rows. */
module HousekeptRuns {
  import opened Wrappers
  import opened Calendar
  import opened Tables
  import opened Retention
  import opened Poller
  import opened PollerRuns

  /** A drop of history as the retention job makes it on a day. */
  function Drop(today: Date, retention: int): Step {
    DropHistory(Midnight(CutOff(today, retention)))
  }

  /** History is dropped by the retention job only. */
  ghost predicate Housekept(steps: seq<Step>, retention: int) {
    forall j :: 0 <= j < |steps| && steps[j].DropHistory? ==> exists today: Date :: steps[j] == Drop(today, retention)
  }

  /** The job ran on that day in the first `n` steps, and no run of it has cut later. */
  ghost predicate LatestCut(states: seq<System>, steps: seq<Step>, n: nat, retention: int, today: Date)
    requires n <= |steps| < |states|
  {
    && (exists j :: 0 <= j < n && steps[j] == Drop(today, retention))
    && states[n].floor == Some(Midnight(CutOff(today, retention)))
  }

  /** Only the retention job drops history, and nothing was dropped before. */
  ghost predicate HousekeptRun(cfg: PollConfig, states: seq<System>, steps: seq<Step>, retention: int) {
    IsRun(cfg, states, steps) && Housekept(steps, retention) && states[0].floor.None?
  }

  ghost predicate NoneOrLatest(states: seq<System>, steps: seq<Step>, n: nat, retention: int, today: Date)
    requires n <= |steps| < |states|
  {
    states[n].floor.None? || LatestCut(states, steps, n, retention, today)
  }

  lemma FromMidnightOn(t: Instant, d: Date)
    ensures Midnight(d) <= t <==> !Before(DateOf(t), d)
  {
    DayNumberOrder(DateOf(t), d);
    if Midnight(d) <= t {
      DayOfMonotone(Midnight(d), t);
    } else {
      BeforeMidnight(t, DayNumber(d));
    }
  }

  lemma BeforeMidnight(t: Instant, day: int)
    requires t < day * NS_PER_DAY
    ensures DayOf(t) < day
  {
    assert t == DayOf(t) * NS_PER_DAY + t % NS_PER_DAY;
  }

  /** After a step the latest cut is that of the step or the one before. */
  lemma CutAfterStep(cfg: PollConfig, states: seq<System>, steps: seq<Step>, n: nat, retention: int, before: Date)
    returns (today: Date)
    requires HousekeptRun(cfg, states, steps, retention) && 0 < n <= |steps|
    requires NoneOrLatest(states, steps, n - 1, retention, before)
    ensures NoneOrLatest(states, steps, n, retention, today)
  {
    RunStep(cfg, states, steps, n - 1);
    today := before;
    if states[n].floor != states[n - 1].floor {
      today :| steps[n - 1] == Drop(today, retention);
    }
  }

  lemma {:induction false} FloorIsACut(cfg: PollConfig, states: seq<System>, steps: seq<Step>, n: nat, retention: int)
    returns (today: Date)
    requires HousekeptRun(cfg, states, steps, retention) && n <= |steps|
    ensures NoneOrLatest(states, steps, n, retention, today)
  {
    today := EPOCH;
    if n > 0 {
      var before := FloorIsACut(cfg, states, steps, n - 1, retention);
      today := CutAfterStep(cfg, states, steps, n, retention, before);
    }
  }

  /** In every run in which only the retention job drops history, from a state without any drop: each current
      container row that ends on or after the date of the latest cut has its history row; so has each that is
      within the period on the day of that cut, except when the job takes the wrong month that day. */
  lemma HistoryWithinRetention(cfg: PollConfig, states: seq<System>, steps: seq<Step>, n: nat, retention: int, k: ContainerKey)
    requires HousekeptRun(cfg, states, steps, retention) && n <= |steps|
    requires HistoryComplete(states[0].db, None) && k in states[n].db.current
    ensures (forall today: Date :: !LatestCut(states, steps, n, retention, today)) ==> HasHistory(states[n].db, k)
    ensures forall today: Date :: LatestCut(states, steps, n, retention, today) ==>
              var ended := DateOf(states[n].db.current[k].end);
              && (!Before(ended, CutOff(today, retention)) ==> HasHistory(states[n].db, k))
              && (!Before(ended, Threshold(today, retention)) && !TakenFromCurrentMonth(today, retention) ==>
                    HasHistory(states[n].db, k))
  {
    ContainerHistoryComplete(cfg, states, steps, n);
    var latest := FloorIsACut(cfg, states, steps, n, retention);
    var end := states[n].db.current[k].end;
    forall today: Date | LatestCut(states, steps, n, retention, today)
      ensures !Before(DateOf(end), CutOff(today, retention)) ==> HasHistory(states[n].db, k)
      ensures !Before(DateOf(end), Threshold(today, retention)) && !TakenFromCurrentMonth(today, retention) ==>
                HasHistory(states[n].db, k)
    {
      FromMidnightOn(end, CutOff(today, retention));
      CutOffTooLateIff(today, retention);
      DayNumberOrder(DateOf(end), CutOff(today, retention));
      DayNumberOrder(DateOf(end), Threshold(today, retention));
      DayNumberOrder(Threshold(today, retention), CutOff(today, retention));
    }
  }
}

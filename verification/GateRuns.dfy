/** What the time gate guarantees over whole runs: how often a workload is saved, and that delivering a
    settled message again changes nothing. */
module GateRuns {
  import opened Wrappers
  import opened Calendar
  import opened Payload
  import opened Tables
  import opened Gate
  import opened Poller
  import opened PollerRuns

  /** What a gate guards: the row of a namespace workload, or the rows of a container workload. */
  datatype Gated = NamespaceGate(workload: nat) | ContainerGate(workload: nat)

  predicate Concerns(d: Delivery, g: Gated) {
    && d.Decoded? && d.msg.workload == g.workload
    && (if g.NamespaceGate? then d.msg.experimentType.NamespaceType? else d.msg.experimentType.ContainerType?)
  }

  predicate HasRow(db: Database, w: nat, container: string) {
    ContainerKey(w, container) in db.current
  }

  function EndOf(db: Database, w: nat, container: string): Instant
    requires HasRow(db, w, container)
  {
    db.current[ContainerKey(w, container)].end
  }

  /** All current rows of the guarded workload end at one time. */
  ghost predicate Uniform(db: Database, g: Gated) {
    g.ContainerGate? ==>
      forall c, d :: HasRow(db, g.workload, c) && HasRow(db, g.workload, d) ==>
        EndOf(db, g.workload, c) == EndOf(db, g.workload, d)
  }

  /** That time; None when there is no row. */
  ghost function StoredEnd(db: Database, g: Gated): Option<Instant> {
    match g
    case NamespaceGate(w) => if w in db.namespaceCurrent then Some(db.namespaceCurrent[w].values.end) else None
    case ContainerGate(w) =>
      if exists c :: HasRow(db, w, c) then
        var c :| HasRow(db, w, c);
        Some(EndOf(db, w, c))
      else None
  }

  // ----- Names written

  predicate NameWritten(ws: seq<Write>, name: string) {
    exists i :: 0 <= i < |ws| && ws[i].name == name
  }

  lemma {:induction false} SavedRowAt(db: Database, msg: Message, ws: seq<Write>, now: Instant, name: string, t: Instant)
    requires msg.experimentType.ContainerType?
    requires forall i :: 0 <= i < |ws| ==> ws[i].data.monitoringEndTime == t
    ensures FoundEnd(Saved(db, msg, ws, now), msg, name) == if NameWritten(ws, name) then Some(t) else FoundEnd(db, msg, name)
    decreases |ws|
  {
    SavedPairByPair(db, msg, ws, now);
    if ws != [] {
      var n := |ws| - 1;
      SavedRowAt(db, msg, ws[..n], now, name, t);
      SaveOneReplacesRow(Saved(db, msg, ws[..n], now), msg, ws[n], now);
      assert NameWritten(ws, name) <==> NameWritten(ws[..n], name) || ws[n].name == name by {
        if NameWritten(ws, name) {
          var i :| 0 <= i < |ws| && ws[i].name == name;
          assert i < n ==> ws[..n][i].name == name;
        }
        if NameWritten(ws[..n], name) {
          var i :| 0 <= i < n && ws[..n][i].name == name;
          assert ws[i].name == name;
        }
      }
    }
  }

  // ----- Regular replies

  /** What is saved of the reply ends at the requested time, and covers every container that has a current row. */
  ghost predicate RegularReply(db: Database, msg: Message, env: Env, g: Gated) {
    var ws := Writes(msg, env);
    && (forall i :: 0 <= i < |ws| ==> ws[i].data.monitoringEndTime == msg.maxEndTime)
    && (g.ContainerGate? && ws != [] ==> forall c :: HasRow(db, g.workload, c) ==> NameWritten(ws, c))
  }

  ghost predicate RegularStep(s: System, step: Step, g: Gated) {
    step.Deliver? && Concerns(step.d, g) ==> RegularReply(s.db, step.d.msg, step.env, g)
  }

  ghost predicate RegularRun(states: seq<System>, steps: seq<Step>, g: Gated) {
    |steps| < |states| && forall j {:trigger steps[j]} :: 0 <= j < |steps| ==> RegularStep(states[j], steps[j], g)
  }

  lemma SingleAnswerIsRegular(db: Database, msg: Message, env: Env, g: Gated)
    requires SingleAnswer(msg, env)
    requires g.ContainerGate? ==> forall c :: HasRow(db, g.workload, c) ==>
               forall i :: 0 <= i < |ObjectsOf(msg, env)| ==> ObjectsOf(msg, env)[i].name == c
    ensures RegularReply(db, msg, env, g)
  {
    if Writes(msg, env) != [] {
      SingleWrite(msg, env);
      assert forall c :: ObjectsOf(msg, env)[0].name == c ==> NameWritten(Writes(msg, env), c);
    }
  }

  // ----- One step

  lemma StoredEndIs(db: Database, g: Gated, container: string)
    requires g.ContainerGate? && Uniform(db, g) && HasRow(db, g.workload, container)
    ensures StoredEnd(db, g) == Some(EndOf(db, g.workload, container))
  {
  }

  lemma FoundEndIsStored(db: Database, d: Delivery, env: Env, g: Gated)
    requires Concerns(d, g) && Uniform(db, g) && ValidPick(db, d.msg, env.pick)
    ensures FoundEnd(db, d.msg, env.pick) == StoredEnd(db, g)
  {
    if g.ContainerGate? {
      if HasRow(db, g.workload, env.pick) {
        StoredEndIs(db, g, env.pick);
      } else {
        assert forall c :: HasRow(db, g.workload, c) ==> ContainerKey(d.msg.workload, c) in db.current;
      }
    }
  }

  /** After a regular container save every row of the workload ends at the requested time. */
  lemma AllRowsEndAt(db: Database, msg: Message, env: Env, g: Gated)
    requires g.ContainerGate? && Concerns(Decoded(msg), g) && RegularReply(db, msg, env, g) && Writes(msg, env) != []
    ensures var after := Saved(db, msg, Writes(msg, env), env.now);
            && (forall c :: HasRow(after, g.workload, c) ==> EndOf(after, g.workload, c) == msg.maxEndTime)
            && HasRow(after, g.workload, Writes(msg, env)[0].name)
  {
    var ws := Writes(msg, env);
    var after := Saved(db, msg, ws, env.now);
    forall c | HasRow(after, g.workload, c) ensures EndOf(after, g.workload, c) == msg.maxEndTime {
      SavedRowAt(db, msg, ws, env.now, c, msg.maxEndTime);
      assert FoundEnd(after, msg, c) == Some(EndOf(after, g.workload, c));
      assert !NameWritten(ws, c) ==> !HasRow(db, g.workload, c);
    }
    assert NameWritten(ws, ws[0].name);
    SavedRowAt(db, msg, ws, env.now, ws[0].name, msg.maxEndTime);
  }

  /** A delivery for the workload either leaves everything or stores exactly its time. */
  lemma DeliveryStoresItsTime(cfg: PollConfig, db: Database, d: Delivery, env: Env, g: Gated)
    requires Concerns(d, g) && Uniform(db, g) && RegularReply(db, d.msg, env, g)
    ensures var after := After(cfg, db, d, env);
            && after.workloads == db.workloads && Uniform(after, g)
            && (if Saves(cfg, db, d, env) then StoredEnd(after, g) == Some(d.msg.maxEndTime) else after == db)
  {
    if Saves(cfg, db, d, env) {
      var ws := Writes(d.msg, env);
      var after := After(cfg, db, d, env);
      if g.NamespaceGate? {
        LastCurrentWins(db, d.msg, ws, env.now);
      } else {
        AllRowsEndAt(db, d.msg, env, g);
        StoredEndIs(after, g, ws[0].name);
      }
    }
  }

  /** The guarded rows are the same in both. */
  ghost predicate SameGuarded(a: Database, b: Database, g: Gated) {
    match g
    case NamespaceGate(w) => SameAt(a.namespaceCurrent, b.namespaceCurrent, w)
    case ContainerGate(w) => forall c :: SameAt(a.current, b.current, ContainerKey(w, c))
  }

  lemma SameEnds(a: Database, b: Database, g: Gated)
    requires SameGuarded(a, b, g) && Uniform(b, g)
    ensures StoredEnd(a, g) == StoredEnd(b, g) && Uniform(a, g)
  {
    if g.ContainerGate? {
      forall c ensures HasRow(a, g.workload, c) == HasRow(b, g.workload, c)
        ensures HasRow(a, g.workload, c) ==> EndOf(a, g.workload, c) == EndOf(b, g.workload, c)
      {
        assert SameAt(a.current, b.current, ContainerKey(g.workload, c));
      }
      if c :| HasRow(b, g.workload, c) {
        StoredEndIs(a, g, c);
        StoredEndIs(b, g, c);
      }
    }
  }

  lemma {:induction false} SavingElsewhere(db: Database, msg: Message, ws: seq<Write>, now: Instant, g: Gated)
    requires !Concerns(Decoded(msg), g) && !msg.experimentType.OtherType?
    ensures SameGuarded(Saved(db, msg, ws, now), db, g)
    decreases |ws|
  {
    SavedPairByPair(db, msg, ws, now);
    if ws != [] {
      SavingElsewhere(db, msg, ws[..|ws| - 1], now, g);
      SaveOneReplacesRow(Saved(db, msg, ws[..|ws| - 1], now), msg, ws[|ws| - 1], now);
    }
  }

  /** Every other step but the deletion of the workload leaves its stored time. */
  lemma OtherStepsLeaveIt(cfg: PollConfig, s: System, step: Step, g: Gated)
    requires Uniform(s.db, g) && step != DeleteWorkload(g.workload)
    requires step.Deliver? ==> !Concerns(step.d, g)
    ensures var after := Apply(cfg, s, step).db;
            StoredEnd(after, g) == StoredEnd(s.db, g) && Uniform(after, g)
  {
    var after := Apply(cfg, s, step).db;
    if step.Deliver? && Saves(cfg, s.db, step.d, step.env) {
      SavingElsewhere(s.db, step.d.msg, Writes(step.d.msg, step.env), step.env.now, g);
    }
    assert SameGuarded(after, s.db, g);
    SameEnds(after, s.db, g);
  }

  // ----- How often

  predicate SavesFor(cfg: PollConfig, s: System, step: Step, g: Gated) {
    step.Deliver? && Concerns(step.d, g) && Saves(cfg, s.db, step.d, step.env)
  }

  /** The end times saved for the workload in the first `n` steps. */
  function SavedEnds(cfg: PollConfig, states: seq<System>, steps: seq<Step>, g: Gated, n: nat): seq<Instant>
    requires n <= |steps| < |states|
  {
    if n == 0 then []
    else
      SavedEnds(cfg, states, steps, g, n - 1)
      + (if SavesFor(cfg, states[n - 1], steps[n - 1], g) then [steps[n - 1].d.msg.maxEndTime] else [])
  }

  /** The chain of saved times so far, with the last one stored. */
  ghost predicate ChainStored(cfg: PollConfig, db: Database, g: Gated, ends: seq<Instant>) {
    && DueChain(cfg.interval, ends)
    && (ends != [] ==> StoredEnd(db, g) == Some(ends[|ends| - 1]))
  }

  lemma ChainGrows(interval: int, ends: seq<Instant>, t: Instant)
    requires DueChain(interval, ends) && (ends != [] ==> Due(interval, ends[|ends| - 1], t))
    ensures DueChain(interval, ends + [t])
  {
  }

  lemma StepKeepsChain(cfg: PollConfig, s: System, step: Step, g: Gated, ends: seq<Instant>)
    requires Enabled(s, step) && RegularStep(s, step, g) && step != DeleteWorkload(g.workload)
    requires Uniform(s.db, g) && ChainStored(cfg, s.db, g, ends)
    ensures var after := Apply(cfg, s, step).db;
            && Uniform(after, g)
            && ChainStored(cfg, after, g,
                           if SavesFor(cfg, s, step, g) then ends + [step.d.msg.maxEndTime] else ends)
  {
    if step.Deliver? && Concerns(step.d, g) {
      FoundEndIsStored(s.db, step.d, step.env, g);
      DeliveryStoresItsTime(cfg, s.db, step.d, step.env, g);
      if SavesFor(cfg, s, step, g) {
        ChainGrows(cfg.interval, ends, step.d.msg.maxEndTime);
      }
    } else {
      OtherStepsLeaveIt(cfg, s, step, g);
    }
  }

  predicate NeverDeleted(steps: seq<Step>, w: nat) {
    forall j :: 0 <= j < |steps| ==> steps[j] != DeleteWorkload(w)
  }

  /** A run with regular replies for the workload, which is not deleted. */
  ghost predicate KeptRun(cfg: PollConfig, states: seq<System>, steps: seq<Step>, g: Gated) {
    && IsRun(cfg, states, steps) && RegularRun(states, steps, g) && NeverDeleted(steps, g.workload)
    && Uniform(states[0].db, g)
  }

  ghost predicate ChainAt(cfg: PollConfig, states: seq<System>, steps: seq<Step>, g: Gated, n: nat)
    requires n <= |steps| < |states|
  {
    Uniform(states[n].db, g) && ChainStored(cfg, states[n].db, g, SavedEnds(cfg, states, steps, g, n))
  }

  lemma {:induction false} SavedEndsAreDue(cfg: PollConfig, states: seq<System>, steps: seq<Step>, g: Gated, n: nat)
    requires KeptRun(cfg, states, steps, g) && n <= |steps|
    ensures ChainAt(cfg, states, steps, g, n)
  {
    if n > 0 {
      SavedEndsAreDue(cfg, states, steps, g, n - 1);
      ChainGoesOn(cfg, states, steps, g, n);
    }
  }

  lemma ChainGoesOn(cfg: PollConfig, states: seq<System>, steps: seq<Step>, g: Gated, n: nat)
    requires KeptRun(cfg, states, steps, g) && 0 < n <= |steps| && ChainAt(cfg, states, steps, g, n - 1)
    ensures ChainAt(cfg, states, steps, g, n)
  {
    RunStep(cfg, states, steps, n - 1);
    assert RegularStep(states[n - 1], steps[n - 1], g) && steps[n - 1] != DeleteWorkload(g.workload);
    StepKeepsChain(cfg, states[n - 1], steps[n - 1], g, SavedEnds(cfg, states, steps, g, n - 1));
    SavedEndsGrow(cfg, states, steps, g, n);
  }

  lemma SavedEndsGrow(cfg: PollConfig, states: seq<System>, steps: seq<Step>, g: Gated, n: nat)
    requires 0 < n <= |steps| < |states|
    ensures var ends := SavedEnds(cfg, states, steps, g, n - 1);
            SavedEnds(cfg, states, steps, g, n) ==
              if SavesFor(cfg, states[n - 1], steps[n - 1], g) then ends + [steps[n - 1].d.msg.maxEndTime] else ends
  {
  }

  predicate SavesAt(cfg: PollConfig, states: seq<System>, steps: seq<Step>, g: Gated, j: int) {
    0 <= j < |steps| < |states| && SavesFor(cfg, states[j], steps[j], g)
  }

  /** One end time for each save. */
  lemma SavedEndsAreSaves(cfg: PollConfig, states: seq<System>, steps: seq<Step>, g: Gated, n: nat)
    requires n <= |steps| < |states|
    ensures |SavedEnds(cfg, states, steps, g, n)| == |set j | -1 < j <= n - 1 && SavesAt(cfg, states, steps, g, j)|
  {
    var p := j => SavesAt(cfg, states, steps, g, j);
    SavedEndsCounted(cfg, states, steps, g, n, p);
    CountIsNumber(p, -1, n - 1);
    assert (set j | -1 < j <= n - 1 && p(j)) == (set j | -1 < j <= n - 1 && SavesAt(cfg, states, steps, g, j));
  }

  lemma {:induction false} SavedEndsCounted(cfg: PollConfig, states: seq<System>, steps: seq<Step>, g: Gated, n: nat,
                                            p: int -> bool)
    requires n <= |steps| < |states| && forall j :: p(j) <==> SavesAt(cfg, states, steps, g, j)
    ensures |SavedEnds(cfg, states, steps, g, n)| == Count(p, -1, n - 1)
  {
    if n > 0 {
      SavedEndsCounted(cfg, states, steps, g, n - 1, p);
      assert p(n - 1) <==> SavesFor(cfg, states[n - 1], steps[n - 1], g);
      SavedEndsGrow(cfg, states, steps, g, n);
    }
  }

  /** Throttle bound: a workload that is not deleted and gets regular replies is saved at most once more
      than the poll intervals that fit between its first and last saved end times plus the firsts of a
      month after the first date up to the last. */
  lemma SavesAreThrottled(cfg: PollConfig, states: seq<System>, steps: seq<Step>, g: Gated)
    requires cfg.interval >= 1 && KeptRun(cfg, states, steps, g)
    ensures Throttled(cfg.interval, SavedEnds(cfg, states, steps, g, |steps|))
  {
    SavedEndsAreDue(cfg, states, steps, g, |steps|);
    var ends := SavedEnds(cfg, states, steps, g, |steps|);
    if ends != [] {
      ThrottleBound(cfg.interval, ends);
    }
  }

  // ----- Redelivery

  /** No later delivery with end time `t` can be due: the workload is gone for good, or the gate is shut. */
  ghost predicate Settled(cfg: PollConfig, s: System, g: Gated, t: Instant) {
    && g.workload in s.issued
    && (g.workload in s.db.workloads ==> !GateOpen(cfg, StoredEnd(s.db, g), t))
  }

  /** A gate that is shut for a time stays shut when a later time is stored. */
  lemma GateStaysShut(cfg: PollConfig, stored: Instant, later: Instant, t: Instant)
    requires cfg.interval >= 1 && !GateOpen(cfg, Some(stored), t) && GateOpen(cfg, Some(stored), later)
    ensures !GateOpen(cfg, Some(later), t)
  {
    DueIsLater(cfg.interval, stored, later);
    if Due(cfg.interval, later, t) {
      DueAntitone(cfg.interval, stored, later, t);
    }
  }

  lemma SettledStays(cfg: PollConfig, s: System, step: Step, g: Gated, t: Instant)
    requires cfg.interval >= 1 && Enabled(s, step) && RegularStep(s, step, g)
    requires Uniform(s.db, g) && Settled(cfg, s, g, t)
    ensures var after := Apply(cfg, s, step); Uniform(after.db, g) && Settled(cfg, after, g, t)
  {
    if step.Deliver? && Concerns(step.d, g) {
      FoundEndIsStored(s.db, step.d, step.env, g);
      DeliveryStoresItsTime(cfg, s.db, step.d, step.env, g);
      if Saves(cfg, s.db, step.d, step.env) {
        GateStaysShut(cfg, StoredEnd(s.db, g).value, step.d.msg.maxEndTime, t);
      }
    } else if step != DeleteWorkload(g.workload) {
      OtherStepsLeaveIt(cfg, s, step, g);
    }
  }

  /** The delivery was looked into, and was saved or found not due. */
  predicate SavedOrNotDue(cfg: PollConfig, s: System, d: Delivery, env: Env) {
    && d.Decoded? && Supported(cfg, d.msg.experimentType) && env.lookupOk && WorkloadSeen(s.db, d.msg, env)
    && (Saves(cfg, s.db, d, env) || !GateOpen(cfg, FoundEnd(s.db, d.msg, env.pick), d.msg.maxEndTime))
  }

  lemma JustStoredIsShut(cfg: PollConfig, t: Instant)
    requires cfg.interval >= 1
    ensures !GateOpen(cfg, Some(t), t)
  {
    NotDueAgain(cfg.interval, t);
  }

  lemma ShutIsSettled(cfg: PollConfig, s: System, g: Gated, end: Option<Instant>, t: Instant)
    requires g.workload in s.issued && StoredEnd(s.db, g) == end && !GateOpen(cfg, end, t)
    ensures Settled(cfg, s, g, t)
  {
  }

  lemma SavedOrNotDueSettles(cfg: PollConfig, s: System, d: Delivery, env: Env, g: Gated)
    requires cfg.interval >= 1 && Concerns(d, g) && Uniform(s.db, g) && RegularReply(s.db, d.msg, env, g)
    requires ValidPick(s.db, d.msg, env.pick) && s.db.workloads <= s.issued && SavedOrNotDue(cfg, s, d, env)
    ensures var after := Apply(cfg, s, Deliver(d, env)); Uniform(after.db, g) && Settled(cfg, after, g, d.msg.maxEndTime)
  {
    var after := Apply(cfg, s, Deliver(d, env));
    DeliveryStoresItsTime(cfg, s.db, d, env, g);
    if Saves(cfg, s.db, d, env) {
      JustStoredIsShut(cfg, d.msg.maxEndTime);
      ShutIsSettled(cfg, after, g, Some(d.msg.maxEndTime), d.msg.maxEndTime);
    } else {
      FoundEndIsStored(s.db, d, env, g);
      ShutIsSettled(cfg, after, g, FoundEnd(s.db, d.msg, env.pick), d.msg.maxEndTime);
    }
  }

  lemma SettledIsLeft(cfg: PollConfig, s: System, d: Delivery, env: Env, g: Gated)
    requires Concerns(d, g) && Uniform(s.db, g) && Settled(cfg, s, g, d.msg.maxEndTime)
    requires ValidPick(s.db, d.msg, env.pick)
    ensures After(cfg, s.db, d, env) == s.db
  {
    FoundEndIsStored(s.db, d, env, g);
  }

  lemma StepKeepsUniform(cfg: PollConfig, s: System, step: Step, g: Gated)
    requires RegularStep(s, step, g) && Uniform(s.db, g)
    ensures Uniform(Apply(cfg, s, step).db, g)
  {
    if step.Deliver? && Concerns(step.d, g) {
      DeliveryStoresItsTime(cfg, s.db, step.d, step.env, g);
    } else if step == DeleteWorkload(g.workload) {
      assert forall c :: !HasRow(WithoutWorkload(s.db, g.workload), g.workload, c);
    } else {
      OtherStepsLeaveIt(cfg, s, step, g);
    }
  }

  lemma {:induction false} IssuedAlways(cfg: PollConfig, states: seq<System>, steps: seq<Step>, n: nat)
    requires IsRun(cfg, states, steps) && n < |states| && states[0].db.workloads <= states[0].issued
    ensures states[n].db.workloads <= states[n].issued
  {
    if n > 0 {
      IssuedAlways(cfg, states, steps, n - 1);
      RunStep(cfg, states, steps, n - 1);
    }
  }

  lemma {:induction false} UniformAlways(cfg: PollConfig, states: seq<System>, steps: seq<Step>, g: Gated, n: nat)
    requires IsRun(cfg, states, steps) && n < |states| && RegularRun(states, steps, g) && Uniform(states[0].db, g)
    ensures Uniform(states[n].db, g)
  {
    if n > 0 {
      UniformAlways(cfg, states, steps, g, n - 1);
      RunStep(cfg, states, steps, n - 1);
      StepKeepsUniform(cfg, states[n - 1], steps[n - 1], g);
    }
  }

  lemma {:induction false} SettledForGood(cfg: PollConfig, states: seq<System>, steps: seq<Step>, g: Gated,
                                          t: Instant, i: nat, j: nat)
    requires cfg.interval >= 1 && IsRun(cfg, states, steps) && i <= j < |states|
    requires Uniform(states[i].db, g) && Settled(cfg, states[i], g, t)
    requires RegularRun(states, steps, g)
    ensures Uniform(states[j].db, g) && Settled(cfg, states[j], g, t)
    decreases j
  {
    if i < j {
      SettledForGood(cfg, states, steps, g, t, i, j - 1);
      RunStep(cfg, states, steps, j - 1);
      SettledStays(cfg, states[j - 1], steps[j - 1], g, t);
    }
  }

  /** A run with regular replies for the workload, from a state in which its rows end at one time. */
  ghost predicate GatedRun(cfg: PollConfig, states: seq<System>, steps: seq<Step>, g: Gated) {
    && cfg.interval >= 1 && IsRun(cfg, states, steps) && RegularRun(states, steps, g)
    && Uniform(states[0].db, g) && states[0].db.workloads <= states[0].issued
  }

  ghost predicate SettledMessage(cfg: PollConfig, s: System, g: Gated, d: Delivery) {
    Concerns(d, g) && Uniform(s.db, g) && Settled(cfg, s, g, d.msg.maxEndTime)
  }

  /** The `i`-th step delivers the message, which is saved or found not due. */
  predicate HandledAt(cfg: PollConfig, states: seq<System>, steps: seq<Step>, g: Gated, i: nat, d: Delivery)
    requires i < |steps| && i < |states|
  {
    && steps[i].Deliver? && steps[i].d == d && Concerns(d, g)
    && SavedOrNotDue(cfg, states[i], d, steps[i].env)
  }

  /** Once a message has been saved or found not due, delivering it again at any later point of the run,
      whatever the surroundings then do, changes no table. Workloads may be deleted in between. */
  lemma RedeliveryChangesNothing(cfg: PollConfig, states: seq<System>, steps: seq<Step>, g: Gated,
                                 i: nat, j: nat, d: Delivery, again: Env)
    requires GatedRun(cfg, states, steps, g) && i < j < |states| && HandledAt(cfg, states, steps, g, i, d)
    requires Enabled(states[j], Deliver(d, again))
    ensures After(cfg, states[j].db, d, again) == states[j].db
  {
    SettledByStep(cfg, states, steps, g, i, d);
    SettledIsLeftForGood(cfg, states, steps, g, i + 1, j, d, again);
  }

  lemma SettledIsLeftForGood(cfg: PollConfig, states: seq<System>, steps: seq<Step>, g: Gated, i: nat, j: nat,
                             d: Delivery, again: Env)
    requires GatedRun(cfg, states, steps, g) && i <= j < |states|
    requires SettledMessage(cfg, states[i], g, d)
    requires Enabled(states[j], Deliver(d, again))
    ensures After(cfg, states[j].db, d, again) == states[j].db
  {
    SettledForGood(cfg, states, steps, g, d.msg.maxEndTime, i, j);
    SettledIsLeft(cfg, states[j], d, again, g);
  }

  lemma SettledByStep(cfg: PollConfig, states: seq<System>, steps: seq<Step>, g: Gated, i: nat, d: Delivery)
    requires GatedRun(cfg, states, steps, g) && i < |steps| && HandledAt(cfg, states, steps, g, i, d)
    ensures SettledMessage(cfg, states[i + 1], g, d)
  {
    UniformAlways(cfg, states, steps, g, i);
    IssuedAlways(cfg, states, steps, i);
    RunStep(cfg, states, steps, i);
    assert RegularStep(states[i], steps[i], g);
    SavedOrNotDueSettles(cfg, states[i], d, steps[i].env, g);
  }

  // ----- Replies that leave a container out

  /** The gate looks at the workload's first row only. After a save at the requested time the same message is
      due again exactly when the first row is then one that the save did not write and for which the message
      was due before: a container that is no longer reported keeps its gate open. */
  lemma DueAgainIff(cfg: PollConfig, db: Database, d: Delivery, env: Env, pick: string)
    requires cfg.interval >= 1 && Saves(cfg, db, d, env) && d.msg.experimentType.ContainerType?
    requires forall i :: 0 <= i < |Writes(d.msg, env)| ==>
               Writes(d.msg, env)[i].data.monitoringEndTime == d.msg.maxEndTime
    ensures GateOpen(cfg, FoundEnd(After(cfg, db, d, env), d.msg, pick), d.msg.maxEndTime) <==>
              && !NameWritten(Writes(d.msg, env), pick)
              && GateOpen(cfg, FoundEnd(db, d.msg, pick), d.msg.maxEndTime)
  {
    SavedRowAt(db, d.msg, Writes(d.msg, env), env.now, pick, d.msg.maxEndTime);
    NotDueAgain(cfg.interval, d.msg.maxEndTime);
  }

  /** Two containers were reported, and now only the first. */
  function TwoContainers(t: Instant, row: SetRow): Database {
    var earlier := row.(end := t - NS_PER_DAY);
    Database({1}, map[ContainerKey(1, "a") := earlier, ContainerKey(1, "b") := earlier], map[], map[], map[])
  }

  function OnlyTheFirst(t: Instant, data: RecommendationData): Env {
    var answer := Recommendation({VALID_RECOMMENDATION_CODE}, [Entry(TimeKey(t), true, data.(monitoringEndTime := t))]);
    Env(true, "b", true, Answer(ContainerType, [Named("a", answer)]), FetchFailed, Commits, t)
  }

  /** The save of the first leaves the message due again as long as the second is the first row found. */
  lemma DueAgainWhenLeftOut(t: Instant, row: SetRow, data: RecommendationData)
    requires t - NS_PER_DAY != ZERO_TIME
    ensures var cfg := PollConfig(24, false);
            var db, env := TwoContainers(t, row), OnlyTheFirst(t, data);
            var d := Decoded(Message("org", 1, t, ContainerType));
            && Saves(cfg, db, d, env)
            && GateOpen(cfg, FoundEnd(After(cfg, db, d, env), d.msg, "b"), t)
            && Saves(cfg, After(cfg, db, d, env), d, env)
  {
    var cfg := PollConfig(24, false);
    var db, env := TwoContainers(t, row), OnlyTheFirst(t, data);
    var d := Decoded(Message("org", 1, t, ContainerType));
    var objects := ObjectsOf(d.msg, env);
    var entries := objects[0].recommendation.data;
    assert entries[0].key == TimeKey(t);
    assert objects[..0] == [] && entries[..0] == [] && EntryWrites("a", entries[..0]) == [];
    assert WritesOf(objects[..0], t) == [];
    var ws := Writes(d.msg, env);
    assert ws == [Write("a", data.(monitoringEndTime := t))];
    assert Due(24, t - NS_PER_DAY, t);
    assert FoundEnd(db, d.msg, "b") == Some(t - NS_PER_DAY);
    DueAgainIff(cfg, db, d, env, "b");
  }
}

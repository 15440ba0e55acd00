/** What every interleaving of a drill, operators and a reader keeps. */
module KillSwitchRuns {
  import opened Wrappers
  import opened KillSwitch

  const INITIAL := State(Files(None, map[], map[]), Idle, 0, map[], map[], 0, 0)

  /** The state after a schedule; None when some step does not apply. */
  function Run(s: State, schedule: seq<Step>): Option<State>
    decreases |schedule|
  {
    if schedule == [] then Some(s)
    else
      var next := Next(s, schedule[0]);
      if next.None? then None else Run(next.value, schedule[1..])
  }

  lemma RunCons(s: State, step: Step, t: State, rest: seq<Step>)
    requires Next(s, step) == Some(t)
    ensures Run(s, [step] + rest) == Run(t, rest)
  {
    assert ([step] + rest)[1..] == rest;
  }

  lemma {:induction false} RunJoin(s: State, a: seq<Step>, t: State, b: seq<Step>)
    requires Run(s, a) == Some(t)
    ensures Run(s, a + b) == Run(t, b)
    decreases |a|
  {
    if a == [] {
      assert a + b == b;
    } else {
      assert (a + b)[1..] == a[1..] + b;
      RunJoin(Next(s, a[0]).value, a[1..], t, b);
    }
  }

  ghost predicate Reachable(s: State) {
    exists schedule :: Run(INITIAL, schedule) == Some(s)
  }

  // ------------------------------------------------------------ the invariant

  lemma DrillKeepsExists(s: State, step: Step)
    requires Inv(s) && DrillNext(s, step).Some?
    ensures Exists(DrillNext(s, step).value)
  {}

  lemma DrillKeepsNames(s: State, step: Step)
    requires Inv(s) && DrillNext(s, step).Some?
    ensures Exists(DrillNext(s, step).value) && OneName(DrillNext(s, step).value)
  {
    DrillKeepsExists(s, step);
  }

  lemma DrillKeepsContents(s: State, step: Step)
    requires Inv(s) && DrillNext(s, step).Some?
    ensures Stamps(DrillNext(s, step).value) && Findings(DrillNext(s, step).value)
  {
    DrillKeepsNames(s, step);
  }

  lemma ReleaseKeepsExists(s: State, step: Step)
    requires Inv(s) && ReleaseNext(s, step).Some?
    ensures Exists(ReleaseNext(s, step).value)
  {}

  lemma ReleaseKeepsNames(s: State, step: Step)
    requires Inv(s) && ReleaseNext(s, step).Some?
    ensures Exists(ReleaseNext(s, step).value) && OneName(ReleaseNext(s, step).value)
  {
    ReleaseKeepsExists(s, step);
  }

  lemma ReleaseKeepsContents(s: State, step: Step)
    requires Inv(s) && ReleaseNext(s, step).Some?
    ensures Stamps(ReleaseNext(s, step).value) && Findings(ReleaseNext(s, step).value)
  {
    ReleaseKeepsNames(s, step);
  }

  lemma EngageKeepsNames(s: State, step: Step)
    requires Inv(s) && OperatorNext(s, step).Some? && !Lifting(step)
    ensures Exists(OperatorNext(s, step).value) && OneName(OperatorNext(s, step).value)
  {}

  lemma EngageKeepsContents(s: State, step: Step)
    requires Inv(s) && OperatorNext(s, step).Some? && !Lifting(step)
    ensures Stamps(OperatorNext(s, step).value) && Findings(OperatorNext(s, step).value)
  {
    EngageKeepsNames(s, step);
  }

  lemma LiftKeepsNames(s: State, step: Step)
    requires Inv(s) && OperatorNext(s, step).Some? && Lifting(step)
    ensures Exists(OperatorNext(s, step).value) && OneName(OperatorNext(s, step).value)
  {}

  lemma LiftKeepsContents(s: State, step: Step)
    requires Inv(s) && OperatorNext(s, step).Some? && Lifting(step)
    ensures Stamps(OperatorNext(s, step).value) && Findings(OperatorNext(s, step).value)
  {
    LiftKeepsNames(s, step);
  }

  predicate Lifting(step: Step) {
    step.LiftPath? || step.LiftScan? || step.LiftClaim? || step.LiftEnds?
  }

  lemma InvNext(s: State, step: Step)
    requires Inv(s) && Next(s, step).Some?
    ensures Inv(Next(s, step).value)
  {
    if DrillNext(s, step).Some? {
      DrillKeepsNames(s, step);
      DrillKeepsContents(s, step);
    } else if ReleaseNext(s, step).Some? {
      ReleaseKeepsNames(s, step);
      ReleaseKeepsContents(s, step);
    } else if Lifting(step) {
      LiftKeepsNames(s, step);
      LiftKeepsContents(s, step);
    } else {
      EngageKeepsNames(s, step);
      EngageKeepsContents(s, step);
    }
  }

  lemma {:induction false} InvRun(s: State, schedule: seq<Step>)
    requires Inv(s) && Run(s, schedule).Some?
    ensures Inv(Run(s, schedule).value)
    decreases |schedule|
  {
    if schedule != [] {
      InvNext(s, schedule[0]);
      InvRun(Next(s, schedule[0]).value, schedule[1..]);
    }
  }

  lemma ReachableInv(s: State)
    requires Reachable(s)
    ensures Inv(s)
  {
    var schedule :| Run(INITIAL, schedule) == Some(s);
    InvRun(INITIAL, schedule);
  }

  // ------------------------------------------------------------ who may lift a stop

  lemma DrillLeavesEach(s: State, step: Step, i: Inode)
    requires Inv(s) && DrillNext(s, step).Some? && Foreign(s, i)
    ensures Foreign(DrillNext(s, step).value, i)
  {}

  lemma ReleaseLeavesEach(s: State, step: Step, i: Inode)
    requires Inv(s) && ReleaseNext(s, step).Some? && Foreign(s, i) && step != DrillPutBack
    ensures Foreign(ReleaseNext(s, step).value, i)
  {
    var f, f' := s.files, ReleaseNext(s, step).value.files;
    if step.DrillRename? && f.path == Some(i) {
      assert f'.claims[s.nextClaim] == i;
    } else if f.path != Some(i) {
      var n :| n in f.claims && f.claims[n] == i;
      assert n in f'.claims && f'.claims[n] == i;
    }
  }

  lemma EngageLeavesEach(s: State, step: Step, i: Inode)
    requires Inv(s) && OperatorNext(s, step).Some? && Foreign(s, i) && !Lifts(step)
    ensures Foreign(OperatorNext(s, step).value, i)
  {
    var f, f' := s.files, OperatorNext(s, step).value.files;
    assert f'.claims == f.claims;
    assert f.path.Some? ==> f'.path == f.path;
  }

  lemma PutBackLeavesEach(s: State, i: Inode)
    requires Inv(s) && s.drill.NotMine? && Foreign(s, i)
    requires s.files.path != Some(i) || s.drill.claim !in s.files.claims
    ensures Foreign(ReleaseNext(s, DrillPutBack).value, i)
  {
    var f, f' := s.files, ReleaseNext(s, DrillPutBack).value.files;
    if f.path != Some(i) {
      var n :| n in f.claims && f.claims[n] == i;
      assert n != s.drill.claim ==> n in f'.claims && f'.claims[n] == i;
    }
  }

  /** How a single foreign stop loses its name: an operator unlinks it, or a release
      hands another foreign stop back over it. */
  lemma HowAForeignStopGoes(s: State, step: Step, i: Inode)
    requires Inv(s) && Next(s, step).Some? && Foreign(s, i) && !Foreign(Next(s, step).value, i)
    ensures
      || Lifts(step)
      || (step == DrillPutBack && s.drill.NotMine? && s.files.path == Some(i) && s.drill.claim in s.files.claims
          && Foreign(Next(s, step).value, s.files.claims[s.drill.claim]))
  {
    if !Lifts(step) {
      if DrillNext(s, step).Some? {
        DrillLeavesEach(s, step, i);
      } else if ReleaseNext(s, step).Some? {
        if step == DrillPutBack {
          if s.files.path != Some(i) || s.drill.claim !in s.files.claims {
            PutBackLeavesEach(s, i);
          }
        } else {
          ReleaseLeavesEach(s, step, i);
        }
      } else {
        EngageLeavesEach(s, step, i);
      }
    }
  }

  /** Only an operator's unlink can take the last foreign stop away: no step of a
      drill, dead or alive, and no engage ever does. */
  lemma OnlyAnOperatorLifts(s: State, step: Step)
    requires Inv(s) && Next(s, step).Some? && ForeignStop(s) && !ForeignStop(Next(s, step).value)
    ensures Lifts(step)
  {
    var i: Inode :| Foreign(s, i);
    HowAForeignStopGoes(s, step, i);
  }

  lemma EngageStops(s: State, op: Operator)
    requires Inv(s) && Next(s, EngageOpen(op)).Some?
    ensures ForeignStop(Next(s, EngageOpen(op)).value)
  {
    var t := Next(s, EngageOpen(op)).value;
    assert Foreign(t, t.files.path.value);
  }

  /** An engage that dies after opening the path leaves its stop, without the text. */
  lemma DyingEngageLeavesItsStop(s: State, op: Operator)
    requires Inv(s)
    ensures Next(s, EngageDies(op)).Some? <==> op in s.engaging
    ensures op in s.engaging ==>
      var t := Next(s, EngageDies(op)).value;
      op !in t.engaging && t.files == s.files && t.drill == s.drill && t.lifting == s.lifting
  {}

  lemma ForeignStopIsInForce(s: State)
    requires Inv(s) && ForeignStop(s)
    ensures InForce(s.files)
  {
    var i: Inode :| Foreign(s, i);
    if s.files.path != Some(i) {
      var n :| n in s.files.claims && s.files.claims[n] == i;
      assert n in s.files.claims.Keys;
    }
  }

  lemma {:induction false} ForeignStopStays(s: State, schedule: seq<Step>)
    requires Inv(s) && ForeignStop(s) && Run(s, schedule).Some?
    requires forall step :: step in schedule ==> !Lifts(step)
    ensures ForeignStop(Run(s, schedule).value)
    decreases |schedule|
  {
    if schedule != [] {
      assert schedule[0] in schedule;
      InvNext(s, schedule[0]);
      if !ForeignStop(Next(s, schedule[0]).value) {
        OnlyAnOperatorLifts(s, schedule[0]);
      }
      ForeignStopStays(Next(s, schedule[0]).value, schedule[1..]);
    }
  }

  lemma {:induction false} EachForeignStopStays(s: State, schedule: seq<Step>, i: Inode)
    requires Inv(s) && Foreign(s, i) && Run(s, schedule).Some?
    requires forall step :: step in schedule ==> !Lifts(step) && step != DrillPutBack
    ensures Foreign(Run(s, schedule).value, i)
    decreases |schedule|
  {
    if schedule != [] {
      assert schedule[0] in schedule;
      InvNext(s, schedule[0]);
      if !Foreign(Next(s, schedule[0]).value, i) {
        HowAForeignStopGoes(s, schedule[0], i);
      }
      EachForeignStopStays(Next(s, schedule[0]).value, schedule[1..], i);
    }
  }

  /** Once an engage has opened the sentinel, the switch is on after every
      schedule of drills and operators without an operator's unlink. */
  lemma EngagedStaysEngaged(s: State, op: Operator, schedule: seq<Step>)
    requires Reachable(s) && Next(s, EngageOpen(op)).Some?
    requires Run(Next(s, EngageOpen(op)).value, schedule).Some?
    requires forall step :: step in schedule ==> !Lifts(step)
    ensures InForce(Run(Next(s, EngageOpen(op)).value, schedule).value.files)
  {
    ReachableInv(s);
    InvNext(s, EngageOpen(op));
    EngageStops(s, op);
    ForeignStopStays(Next(s, EngageOpen(op)).value, schedule);
    InvRun(Next(s, EngageOpen(op)).value, schedule);
    ForeignStopIsInForce(Run(Next(s, EngageOpen(op)).value, schedule).value);
  }

  lemma RenameKeepsInForce(s: State)
    requires s.drill.Verified? && InForce(s.files)
    ensures InForce(ReleaseNext(s, DrillRename).value.files)
  {
    var f' := ReleaseNext(s, DrillRename).value.files;
    if s.files.path.Some? {
      assert s.nextClaim in f'.claims.Keys;
    }
  }

  /** The switch goes off in exactly two ways: an operator's unlink, or the drill
      unlinking the claim it has just re-read as its own untouched stop. */
  lemma HowTheSwitchGoesOff(s: State, step: Step)
    requires Inv(s) && Next(s, step).Some? && InForce(s.files) && !InForce(Next(s, step).value.files)
    ensures Lifts(step) || (step == DrillUnlinkClaim && s.drill.Mine?)
    ensures step == DrillUnlinkClaim && s.drill.claim in s.files.claims ==>
      s.files.content[s.files.claims[s.drill.claim]] == Marker(s.drillId)
  {
    if step.DrillRename? && s.drill.Verified? {
      RenameKeepsInForce(s);
    }
  }

  /** The steps spare a stop in force: no operator unlinks one, and the drill does not
      unlink its own, or there is another. */
  ghost predicate Spares(s: State, steps: seq<Step>) {
    && (forall i :: 0 <= i < |steps| ==> !Lifts(steps[i]))
    && (ForeignStop(s) || (InForce(s.files) && DrillUnlinkClaim !in steps))
  }

  lemma SparedIsInForce(s: State, steps: seq<Step>)
    requires Inv(s) && Spares(s, steps)
    ensures InForce(s.files)
  {
    if ForeignStop(s) {
      ForeignStopIsInForce(s);
    }
  }

  lemma SparesNext(s: State, steps: seq<Step>)
    requires Inv(s) && steps != [] && Spares(s, steps) && Next(s, steps[0]).Some?
    ensures Spares(Next(s, steps[0]).value, steps[1..])
  {
    var t := Next(s, steps[0]).value;
    if ForeignStop(s) && !ForeignStop(t) {
      OnlyAnOperatorLifts(s, steps[0]);
    }
    if InForce(s.files) && !InForce(t.files) {
      HowTheSwitchGoesOff(s, steps[0]);
    }
  }

  /** So whatever steps follow the first of them find a stop in force. */
  lemma {:induction false} SparesRest(s: State, first: seq<Step>, t: State, rest: seq<Step>)
    requires Inv(s) && Spares(s, first + rest) && Run(s, first) == Some(t)
    ensures Spares(t, rest) && InForce(t.files)
    decreases |first|
  {
    if first == [] {
      assert first + rest == rest;
      SparedIsInForce(s, rest);
    } else {
      assert (first + rest)[1..] == first[1..] + rest;
      InvNext(s, first[0]);
      SparesNext(s, first + rest);
      SparesRest(Next(s, first[0]).value, first[1..], t, rest);
    }
  }

  /** Nothing in the schedule can turn the switch on. */
  predicate Unraised(schedule: seq<Step>) {
    forall i :: 0 <= i < |schedule| ==> !Raises(schedule[i])
  }

  /** The switch goes on in exactly two ways: an engage, or the drill's link. */
  lemma HowTheSwitchGoesOn(s: State, step: Step)
    requires Next(s, step).Some? && !InForce(s.files) && InForce(Next(s, step).value.files)
    ensures step.EngageOpen? || (step == DrillLink && s.drill.Written?)
  {}
}

/** Exactly when a disengage leaves nothing of the switch, whatever else goes on. */
module KillSwitchDisengage {
  import opened Wrappers
  import opened KillSwitch
  import opened KillSwitchRuns
  import opened KillSwitchEngage

  /** Nobody engages, neither an operator nor a drill, and this disengage goes on. */
  predicate NobodyEngages(schedule: seq<Step>, op: Operator) {
    forall i :: 0 <= i < |schedule| ==> Harmless(schedule[i], op)
  }

  predicate Harmless(step: Step, op: Operator) {
    !step.EngageOpen? && !step.DrillLink? && step != LiftEnds(op)
  }

  /** The disengage has unlinked everything on its list. */
  predicate Through(s: State, op: Operator) {
    op in s.lifting && s.lifting[op] == Scanned({})
  }

  // ------------------------------------------------------------ why it works

  /** Nothing is at the path or on its way back there, and the list is complete. */
  ghost predicate GoingOff(s: State, op: Operator) {
    && op in s.lifting && s.files.path.None? && !HandingBack(s)
    && (s.lifting[op].Scanned? ==> s.files.claims.Keys <= s.lifting[op].claims)
  }

  lemma GoesOnDrill(s: State, op: Operator, step: Step)
    requires Inv(s) && GoingOff(s, op) && Harmless(step, op) && DrillNext(s, step).Some?
    ensures GoingOff(DrillNext(s, step).value, op)
  {}

  lemma GoesOnRelease(s: State, op: Operator, step: Step)
    requires Inv(s) && GoingOff(s, op) && Harmless(step, op) && ReleaseNext(s, step).Some?
    ensures GoingOff(ReleaseNext(s, step).value, op)
  {}

  lemma GoesOnOperator(s: State, op: Operator, step: Step)
    requires Inv(s) && GoingOff(s, op) && Harmless(step, op) && OperatorNext(s, step).Some?
    ensures GoingOff(OperatorNext(s, step).value, op)
  {}

  lemma GoesOnNext(s: State, op: Operator, step: Step)
    requires Inv(s) && GoingOff(s, op) && Harmless(step, op) && Next(s, step).Some?
    ensures GoingOff(Next(s, step).value, op)
  {
    if DrillNext(s, step).Some? {
      GoesOnDrill(s, op, step);
    } else if ReleaseNext(s, step).Some? {
      GoesOnRelease(s, op, step);
    } else {
      GoesOnOperator(s, op, step);
    }
  }

  lemma {:induction false} GoesOn(s: State, op: Operator, schedule: seq<Step>)
    requires Inv(s) && GoingOff(s, op) && NobodyEngages(schedule, op) && Run(s, schedule).Some?
    ensures GoingOff(Run(s, schedule).value, op)
    decreases |schedule|
  {
    if schedule != [] {
      InvNext(s, schedule[0]);
      GoesOnNext(s, op, schedule[0]);
      GoesOn(Next(s, schedule[0]).value, op, schedule[1..]);
    }
  }

  lemma FirstUnlink(s: State, op: Operator)
    requires Inv(s) && op !in s.lifting
    ensures Next(s, LiftPath(op)) == Some(s.(lifting := s.lifting[op := PathUnlinked], files := s.files.(path := None)))
    ensures !HandingBack(s) ==> GoingOff(Next(s, LiftPath(op)).value, op)
  {}

  lemma ThroughIsOff(s: State, op: Operator)
    requires GoingOff(s, op) && Through(s, op)
    ensures !InForce(s.files)
  {}

  // ------------------------------------------------------------ how it fails

  /** The drill puts back what it took. */
  lemma PutsBack(s: State) returns (schedule: seq<Step>)
    requires Inv(s) && HandingBack(s)
    ensures forall i :: 0 <= i < |schedule| ==>
      schedule[i].DrillOpenClaim? || schedule[i].DrillReadClaim? || schedule[i].DrillPutBack?
    ensures Run(s, schedule).Some?
    ensures Run(s, schedule).value.files.path.Some? && Run(s, schedule).value.lifting == s.lifting
    decreases if s.drill.Claimed? then 2 else if s.drill.ClaimOpened? then 1 else 0
  {
    var step := if s.drill.Claimed? then DrillOpenClaim else if s.drill.ClaimOpened? then DrillReadClaim else DrillPutBack;
    var t := Next(s, step).value;
    InvNext(s, step);
    var rest := [];
    if step != DrillPutBack {
      rest := PutsBack(t);
    }
    RunCons(s, step, t, rest);
    schedule := [step] + rest;
  }

  /** The stop goes back to the path before the claims are listed. */
  lemma HandedBackStays(s: State, op: Operator) returns (schedule: seq<Step>)
    requires Inv(s) && op !in s.lifting && HandingBack(s)
    ensures Next(s, LiftPath(op)).Some? && NobodyEngages(schedule, op)
    ensures
      var after := Run(Next(s, LiftPath(op)).value, schedule);
      after.Some? && Through(after.value, op) && InForce(after.value.files)
  {
    FirstUnlink(s, op);
    InvNext(s, LiftPath(op));
    var t := Next(s, LiftPath(op)).value;
    var back := PutsBack(t);
    var u := Run(t, back).value;
    var v := Next(u, LiftScan(op)).value;
    var drained := Drain(v, op);
    RunCons(u, LiftScan(op), v, drained);
    RunJoin(t, back, u, [LiftScan(op)] + drained);
    schedule := back + ([LiftScan(op)] + drained);
  }

  // ------------------------------------------------------------ exactly when

  /** What disengage promises, from its first unlink on: when it is through, the
      switch is off, unless somebody engaged meanwhile. */
  ghost predicate TurnsOff(t: State, op: Operator) {
    forall schedule ::
      NobodyEngages(schedule, op) && Run(t, schedule).Some? && Through(Run(t, schedule).value, op) ==>
        !InForce(Run(t, schedule).value.files)
  }

  /** A disengage lifts the stop and every claim over every schedule in which nobody
      engages, if and only if no release was about to hand a stop back. */
  lemma DisengageWorksExactlyWhen(s: State, op: Operator)
    requires Reachable(s) && op !in s.lifting
    ensures Next(s, LiftPath(op)).Some?
    ensures TurnsOff(Next(s, LiftPath(op)).value, op) <==> !HandingBack(s)
  {
    ReachableInv(s);
    FirstUnlink(s, op);
    var t := Next(s, LiftPath(op)).value;
    if HandingBack(s) {
      var schedule := HandedBackStays(s, op);
    } else {
      InvNext(s, LiftPath(op));
      forall schedule | NobodyEngages(schedule, op) && Run(t, schedule).Some? && Through(Run(t, schedule).value, op)
        ensures !InForce(Run(t, schedule).value.files)
      {
        GoesOn(t, op, schedule);
        ThroughIsOff(Run(t, schedule).value, op);
      }
    }
  }
}

/** Two races between a disengage and a drill's release, each with its schedule. */
module KillSwitchRaces {
  import opened Wrappers
  import opened KillSwitch
  import opened KillSwitchRuns

  lemma {:induction false} RunSnoc(s: State, schedule: seq<Step>, t: State, step: Step)
    requires Run(s, schedule) == Some(t)
    ensures Run(s, schedule + [step]) == Next(t, step)
    decreases |schedule|
  {
    if schedule == [] {
      assert schedule + [step] == [step] && [step][1..] == [];
    } else {
      assert (schedule + [step])[1..] == schedule[1..] + [step];
      RunSnoc(Next(s, schedule[0]).value, schedule[1..], t, step);
    }
  }

  lemma ReachNext(s: State, step: Step, t: State)
    requires Reachable(s) && Next(s, step) == Some(t)
    ensures Reachable(t)
  {
    var schedule :| Run(INITIAL, schedule) == Some(s);
    RunSnoc(INITIAL, schedule, s, step);
  }

  // ------------------------------------------------------------ the starting point

  const ENGAGED := State(Files(Some(0), map[], map[0 := Marker(1)]), Linked, 1, map[], map[], 1, 0)

  /** A drill alone, just after it has read its own marker at the path. */
  const VERIFIED := ENGAGED.(drill := Verified)

  lemma EngagedIsReached()
    ensures Reachable(ENGAGED)
  {
    var s1 := State(Files(None, map[], map[0 := Text("")]), Created(0), 1, map[], map[], 1, 0);
    var s2 := State(Files(None, map[], map[0 := Marker(1)]), Written(0), 1, map[], map[], 1, 0);
    assert Run(INITIAL, []) == Some(INITIAL);
    ReachNext(INITIAL, DrillCreate, s1);
    assert s1.files.content[0 := Marker(1)] == s2.files.content;
    ReachNext(s1, DrillWrite, s2);
    ReachNext(s2, DrillLink, ENGAGED);
  }

  lemma VerifiedIsReached()
    ensures Reachable(VERIFIED)
  {
    EngagedIsReached();
    ReachNext(ENGAGED, DrillUnlinkTemp, ENGAGED.(drill := Canary(true)));
    ReachNext(ENGAGED.(drill := Canary(true)), DrillCanaryDone, ENGAGED.(drill := Releasing));
    ReachNext(ENGAGED.(drill := Releasing), DrillOpen, ENGAGED.(drill := Opened(0)));
    ReachNext(ENGAGED.(drill := Opened(0)), DrillRead, VERIFIED);
  }

  // ------------------------------------------------------------ an older disengage

  const OLDER1 := State(Files(None, map[], map[0 := Marker(1)]), Verified, 1, map[], map[0 := PathUnlinked], 1, 0)
  const OLDER2 := State(
    Files(Some(1), map[], map[0 := Marker(1), 1 := Text("")]), Verified, 1, map[1 := 1], map[0 := PathUnlinked], 2, 0)
  const OLDER3 := State(
    Files(None, map[0 := 1], map[0 := Marker(1), 1 := Text("")]), Claimed(0), 1, map[1 := 1], map[0 := PathUnlinked], 2, 1)
  const OLDER4 := OLDER3.(lifting := map[0 := Scanned({0})])

  lemma OlderSteps()
    ensures Exposed(OLDER1)
    ensures Next(VERIFIED, LiftPath(0)) == Some(OLDER1) && Next(OLDER1, EngageOpen(1)) == Some(OLDER2)
  {
    assert OLDER1.lifting[0].PathUnlinked?;
  }

  lemma OlderStepsEnd()
    ensures Next(OLDER2, DrillRename) == Some(OLDER3) && Next(OLDER3, LiftScan(0)) == Some(OLDER4)
  {
    assert OLDER3.files.claims.Keys == {0};
    assert OLDER3.lifting[0 := Scanned({0})] == OLDER4.lifting;
  }

  lemma OlderLastStep()
    ensures Next(OLDER4, LiftClaim(0, 0)).Some? && !InForce(Next(OLDER4, LiftClaim(0, 0)).value.files)
  {}

  /**
   A disengage that began before an engage can still lift it: the drill, sure of
   the stop it read, renames the operator's new one to a claim, and the older
   disengage then finds and unlinks that claim. So a stop is safe once no
   disengage is running, not from the moment it is engaged.
  */
  lemma OlderDisengageLiftsNewerStop()
    ensures Reachable(VERIFIED) && Next(VERIFIED, LiftPath(0)).Some? && Exposed(Next(VERIFIED, LiftPath(0)).value)
    ensures
      var s := Run(VERIFIED,
        [LiftPath(0)] + ([EngageOpen(1)] + ([DrillRename] + ([LiftScan(0)] + ([LiftClaim(0, 0)] + [])))));
      s.Some? && !InForce(s.value.files)
  {
    VerifiedIsReached();
    OlderSteps();
    OlderStepsEnd();
    OlderLastStep();
    var last := Next(OLDER4, LiftClaim(0, 0));
    RunCons(OLDER4, LiftClaim(0, 0), last.value, []);
    RunCons(OLDER3, LiftScan(0), OLDER4, [LiftClaim(0, 0)] + []);
    RunCons(OLDER2, DrillRename, OLDER3, [LiftScan(0)] + ([LiftClaim(0, 0)] + []));
    RunCons(OLDER1, EngageOpen(1), OLDER2, [DrillRename] + ([LiftScan(0)] + ([LiftClaim(0, 0)] + [])));
    RunCons(VERIFIED, LiftPath(0), OLDER1, [EngageOpen(1)] + ([DrillRename] + ([LiftScan(0)] + ([LiftClaim(0, 0)] + []))));
  }

  // ------------------------------------------------------------ a put-back in the gap

  const REWRITTEN := Files(None, map[0 := 0], map[0 := Text("")])

  /** An operator emptied the drill's stop before the rename; the drill has seen it. */
  const HANDED_BACK := State(REWRITTEN, NotMine(0), 1, map[1 := 0], map[], 1, 1)

  const EMPTIED := State(Files(Some(0), map[], map[0 := Text("")]), Verified, 1, map[1 := 0], map[], 1, 0)

  const TAKEN := State(REWRITTEN, Claimed(0), 1, map[1 := 0], map[], 1, 1)

  lemma TakenIsReached()
    ensures Reachable(TAKEN)
  {
    VerifiedIsReached();
    assert VERIFIED.files.content[0 := Text("")] == EMPTIED.files.content;
    ReachNext(VERIFIED, EngageOpen(1), EMPTIED);
    ReachNext(EMPTIED, DrillRename, TAKEN);
  }

  lemma HandedBackIsReached()
    ensures Reachable(HANDED_BACK)
  {
    TakenIsReached();
    ReachNext(TAKEN, DrillOpenClaim, TAKEN.(drill := ClaimOpened(0, 0)));
    ReachNext(TAKEN.(drill := ClaimOpened(0, 0)), DrillReadClaim, HANDED_BACK);
  }

  const GAP1 := HANDED_BACK.(lifting := map[0 := PathUnlinked])
  const GAP2 := State(Files(Some(0), map[], map[0 := Text("")]), Idle, 1, map[1 := 0], map[0 := PathUnlinked], 1, 1)
  const GAP3 := GAP2.(lifting := map[0 := Scanned({})])

  lemma GapSteps()
    ensures Next(HANDED_BACK, LiftPath(0)) == Some(GAP1) && Next(GAP1, DrillPutBack) == Some(GAP2)
  {
    assert Remove(GAP1.files.claims, 0) == map[];
  }

  lemma GapScan()
    ensures Next(GAP2, LiftScan(0)) == Some(GAP3)
  {
    assert GAP2.files.claims.Keys == {};
    assert GAP2.lifting[0 := Scanned({})] == GAP3.lifting;
  }

  /** A whole disengage can run and leave the switch on: the drill puts the stop
      back between its unlink of the path and its scan for claims. */
  lemma DisengageMayMissAPutBack()
    ensures Reachable(HANDED_BACK) && HandingBack(HANDED_BACK)
    ensures
      var s := Run(HANDED_BACK, [LiftPath(0)] + ([DrillPutBack] + ([LiftScan(0)] + ([LiftEnds(0)] + []))));
      s.Some? && s.value.lifting == map[] && InForce(s.value.files)
  {
    HandedBackIsReached();
    GapSteps();
    GapScan();
    var last := Next(GAP3, LiftEnds(0));
    RunCons(GAP3, LiftEnds(0), last.value, []);
    RunCons(GAP2, LiftScan(0), GAP3, [LiftEnds(0)] + []);
    RunCons(GAP1, DrillPutBack, GAP2, [LiftScan(0)] + ([LiftEnds(0)] + []));
    RunCons(HANDED_BACK, LiftPath(0), GAP1, [DrillPutBack] + ([LiftScan(0)] + ([LiftEnds(0)] + [])));
  }
}

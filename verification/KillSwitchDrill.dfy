/** What a drill promises: its canary is stopped, and it leaves the switch as it found it. */
module KillSwitchDrill {
  import opened Wrappers
  import opened KillSwitch
  import opened KillSwitchRuns
  import opened KillSwitchReader

  /** Moves of others and of the canary's reader, before the drill goes on to its
      release or dies, with no operator's unlink. */
  predicate DuringCanary(moves: seq<Move>) {
    forall m :: m in moves && m.Others? ==> !Lifts(m.step) && m.step != DrillCanaryDone && m.step != DrillDies
  }

  predicate Engaged(d: Drill) {
    d.Linked? || d.Refused? || d.Canary?
  }

  lemma {:induction false} SteadyCanary(s: State, moves: seq<Move>)
    requires Inv(s) && InForce(s.files) && Engaged(s.drill) && DuringCanary(moves)
    ensures Steady(s, moves)
    decreases |moves|
  {
    if moves != [] {
      var m := moves[0];
      assert m in moves;
      if m.Reads? {
        SteadyCanary(s, moves[1..]);
      } else if Next(s, m.step).Some? {
        InvNext(s, m.step);
        var s' := Next(s, m.step).value;
        if !InForce(s'.files) {
          HowTheSwitchGoesOff(s, m.step);
        }
        SteadyCanary(s', moves[1..]);
      }
    }
  }

  /**
   A drill never fails on account of other processes: from the moment its link
   succeeds or finds the path taken, a canary's reading of the switch is not
   False, whatever engages land meanwhile, unless an operator unlinks a stop.
  */
  lemma CanaryIsStopped(s: State, moves: seq<Move>)
    requires Reachable(s) && s.drill.Written? && DuringCanary(moves)
    requires Play(Scene(Next(s, DrillLink).value, Ready), moves).Some?
    ensures Play(Scene(Next(s, DrillLink).value, Ready), moves).value.r != Answer(false)
  {
    ReachableInv(s);
    InvNext(s, DrillLink);
    SteadyCanary(Next(s, DrillLink).value, moves);
    WillFindOverall(Scene(Next(s, DrillLink).value, Ready), moves);
  }

  // ------------------------------------------------------------ a drill on its own

  lemma EngageAlone(s: State)
    requires Inv(s) && s.drill.Idle?
    ensures
      var t := Run(s, [DrillCreate] + ([DrillWrite] + ([DrillLink] + ([DrillUnlinkTemp] + ([DrillCanaryDone] + [])))));
      && t.Some? && Inv(t.value) && t.value.files.claims == s.files.claims
      && (if s.files.path.Some? then t.value.drill.Idle? && t.value.files.path == s.files.path
          else t.value.drill.Releasing? && t.value.files.path.Some?
               && t.value.files.path.value in t.value.files.content
               && t.value.files.content[t.value.files.path.value] == Marker(t.value.drillId))
  {
    var s1 := Next(s, DrillCreate).value;
    var s2 := Next(s1, DrillWrite).value;
    var s3 := Next(s2, DrillLink).value;
    var s4 := Next(s3, DrillUnlinkTemp).value;
    var s5 := Next(s4, DrillCanaryDone).value;
    RunCons(s4, DrillCanaryDone, s5, []);
    RunCons(s3, DrillUnlinkTemp, s4, [DrillCanaryDone] + []);
    RunCons(s2, DrillLink, s3, [DrillUnlinkTemp] + ([DrillCanaryDone] + []));
    RunCons(s1, DrillWrite, s2, [DrillLink] + ([DrillUnlinkTemp] + ([DrillCanaryDone] + [])));
    RunCons(s, DrillCreate, s1, [DrillWrite] + ([DrillLink] + ([DrillUnlinkTemp] + ([DrillCanaryDone] + []))));
    InvRun(s, [DrillCreate] + ([DrillWrite] + ([DrillLink] + ([DrillUnlinkTemp] + ([DrillCanaryDone] + [])))));
  }

  lemma ReclaimAlone(s: State)
    requires s.drill.Claimed? && s.drill.claim in s.files.claims
    requires s.files.claims[s.drill.claim] in s.files.content
    requires s.files.content[s.files.claims[s.drill.claim]] == Marker(s.drillId)
    ensures Run(s, [DrillOpenClaim] + ([DrillReadClaim] + ([DrillUnlinkClaim] + [])))
         == Some(s.(drill := Idle, files := s.files.(claims := Remove(s.files.claims, s.drill.claim))))
  {
    var s4 := Next(s, DrillOpenClaim).value;
    var s5 := Next(s4, DrillReadClaim).value;
    var s6 := Next(s5, DrillUnlinkClaim).value;
    RunCons(s5, DrillUnlinkClaim, s6, []);
    RunCons(s4, DrillReadClaim, s5, [DrillUnlinkClaim] + []);
    RunCons(s, DrillOpenClaim, s4, [DrillReadClaim] + ([DrillUnlinkClaim] + []));
  }

  lemma RenameAlone(s: State)
    requires Inv(s) && s.drill.Verified? && s.files.path.Some?
    requires s.files.content[s.files.path.value] == Marker(s.drillId)
    ensures
      var t := Run(s, [DrillRename] + ([DrillOpenClaim] + ([DrillReadClaim] + ([DrillUnlinkClaim] + []))));
      t.Some? && t.value.drill.Idle? && t.value.files.path == None && t.value.files.claims == s.files.claims
  {
    var s' := Next(s, DrillRename).value;
    ReclaimAlone(s');
    assert Remove(s'.files.claims, s.nextClaim) == s.files.claims;
    RunCons(s, DrillRename, s', [DrillOpenClaim] + ([DrillReadClaim] + ([DrillUnlinkClaim] + [])));
  }

  /** With EngageAlone: a drill nobody disturbs takes its own stop down again, and
      nothing else; one that found the path taken leaves every name where it was. */
  lemma ReleaseAlone(s: State)
    requires Inv(s) && s.drill.Releasing? && s.files.path.Some?
    requires s.files.content[s.files.path.value] == Marker(s.drillId)
    ensures
      var t := Run(s, [DrillOpen] + ([DrillRead] + ([DrillRename] + ([DrillOpenClaim] + ([DrillReadClaim] + ([DrillUnlinkClaim] + []))))));
      t.Some? && t.value.drill.Idle? && t.value.files.path == None && t.value.files.claims == s.files.claims
  {
    var s1 := Next(s, DrillOpen).value;
    var s2 := Next(s1, DrillRead).value;
    InvNext(s, DrillOpen);
    InvNext(s1, DrillRead);
    RenameAlone(s2);
    var rest := [DrillRename] + ([DrillOpenClaim] + ([DrillReadClaim] + ([DrillUnlinkClaim] + [])));
    RunCons(s1, DrillRead, s2, rest);
    RunCons(s, DrillOpen, s1, [DrillRead] + rest);
  }
}

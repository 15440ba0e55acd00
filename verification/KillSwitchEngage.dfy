/** Exactly when a stop just engaged is there to stay until a new disengage begins. */
module KillSwitchEngage {
  import opened Wrappers
  import opened KillSwitch
  import opened KillSwitchRuns

  /** No disengage begins. */
  predicate NoneBegins(schedule: seq<Step>) {
    forall i :: 0 <= i < |schedule| ==> !schedule[i].LiftPath?
  }

  // ------------------------------------------------------------ why a stop stays

  /** A disengage only lists claims that were there when it listed them. */
  ghost predicate ListsAreOld(s: State) {
    forall p, n :: p in s.lifting && s.lifting[p].Scanned? && n in s.lifting[p].claims ==> n < s.nextClaim
  }

  lemma ListsStayOld(s: State, step: Step)
    requires Exists(s) && ListsAreOld(s) && Next(s, step).Some?
    ensures ListsAreOld(Next(s, step).value)
  {
    var t := Next(s, step).value;
    assert s.nextClaim <= t.nextClaim;
    forall p, n | p in t.lifting && t.lifting[p].Scanned? && n in t.lifting[p].claims ensures n < t.nextClaim {
      if step.LiftScan? && step.op == p {
        assert n in s.files.claims;
      } else {
        assert p in s.lifting && s.lifting[p].Scanned? && n in s.lifting[p].claims;
      }
    }
  }

  lemma {:induction false} ListsAreOldOverall(s: State, schedule: seq<Step>)
    requires Inv(s) && ListsAreOld(s) && Run(s, schedule).Some?
    ensures ListsAreOld(Run(s, schedule).value)
    decreases |schedule|
  {
    if schedule != [] {
      InvNext(s, schedule[0]);
      ListsStayOld(s, schedule[0]);
      ListsAreOldOverall(Next(s, schedule[0]).value, schedule[1..]);
    }
  }

  /** An operator's stop is at the path. */
  ghost predicate TextAtPath(s: State) {
    s.files.path.Some? && s.files.path.value in s.files.content && s.files.content[s.files.path.value].Text?
  }

  /** An operator's stop is in a claim that no disengage has on its list. */
  ghost predicate TextUnlisted(s: State, n: ClaimName) {
    && n in s.files.claims && s.files.claims[n] in s.files.content && s.files.content[s.files.claims[n]].Text?
    && forall p :: p in s.lifting ==> s.lifting[p].Scanned? && n !in s.lifting[p].claims
  }

  /** Every disengage has its list, and an operator's stop is not on any. */
  ghost predicate OutOfReach(s: State) {
    && ListsAreOld(s)
    && (forall p :: p in s.lifting ==> s.lifting[p].Scanned?)
    && (TextAtPath(s) || exists n :: TextUnlisted(s, n))
  }

  /** An operator's stop is at the path and the drill will not move it. */
  ghost predicate LeftAlone(s: State) {
    && TextAtPath(s) && !s.drill.Verified?
    && !(s.drill.Opened? && s.drill.fd in s.files.content && s.files.content[s.drill.fd] == Marker(s.drillId))
  }

  lemma StaysOutOfReachDrill(s: State, step: Step)
    requires Inv(s) && OutOfReach(s) && DrillNext(s, step).Some?
    ensures OutOfReach(DrillNext(s, step).value)
  {
    var t := DrillNext(s, step).value;
    if TextAtPath(s) {
      assert TextAtPath(t);
    } else {
      var n :| TextUnlisted(s, n);
      assert TextUnlisted(t, n);
    }
  }

  lemma StaysOutOfReachRelease(s: State, step: Step)
    requires Inv(s) && OutOfReach(s) && ReleaseNext(s, step).Some?
    ensures OutOfReach(ReleaseNext(s, step).value)
  {
    var t := ReleaseNext(s, step).value;
    assert s.nextClaim <= t.nextClaim;
    if step.DrillPutBack? && OwnClaim(s.drill).value in s.files.claims {
      assert TextAtPath(t);
    } else if TextAtPath(s) {
      if step.DrillRename? {
        assert TextUnlisted(t, s.nextClaim);
      } else {
        assert TextAtPath(t);
      }
    } else {
      var n :| TextUnlisted(s, n);
      assert TextUnlisted(t, n);
    }
  }

  lemma StaysOutOfReachOperator(s: State, step: Step)
    requires Inv(s) && OutOfReach(s) && OperatorNext(s, step).Some? && !step.LiftPath?
    ensures OutOfReach(OperatorNext(s, step).value)
  {
    var t := OperatorNext(s, step).value;
    if TextAtPath(s) || step.EngageOpen? {
      assert TextAtPath(t);
    } else {
      var n :| TextUnlisted(s, n);
      assert TextUnlisted(t, n);
    }
  }

  lemma StaysAloneDrill(s: State, step: Step)
    requires Inv(s) && LeftAlone(s) && DrillNext(s, step).Some?
    ensures LeftAlone(DrillNext(s, step).value)
  {}

  lemma StaysAloneRelease(s: State, step: Step)
    requires Inv(s) && LeftAlone(s) && ReleaseNext(s, step).Some?
    ensures LeftAlone(ReleaseNext(s, step).value)
  {}

  lemma StaysAloneOperator(s: State, step: Step)
    requires Inv(s) && LeftAlone(s) && OperatorNext(s, step).Some? && !step.LiftPath?
    ensures LeftAlone(OperatorNext(s, step).value)
  {}

  lemma SafeNext(s: State, step: Step)
    requires Inv(s) && (OutOfReach(s) || LeftAlone(s)) && Next(s, step).Some? && !step.LiftPath?
    ensures OutOfReach(Next(s, step).value) || LeftAlone(Next(s, step).value)
  {
    if DrillNext(s, step).Some? {
      if LeftAlone(s) {
        StaysAloneDrill(s, step);
      } else {
        StaysOutOfReachDrill(s, step);
      }
    } else if ReleaseNext(s, step).Some? {
      if LeftAlone(s) {
        StaysAloneRelease(s, step);
      } else {
        StaysOutOfReachRelease(s, step);
      }
    } else {
      if LeftAlone(s) {
        StaysAloneOperator(s, step);
      } else {
        StaysOutOfReachOperator(s, step);
      }
    }
  }

  lemma SafeIsInForce(s: State)
    requires OutOfReach(s) || LeftAlone(s)
    ensures InForce(s.files)
  {
    if !TextAtPath(s) {
      var n :| TextUnlisted(s, n);
      assert n in s.files.claims.Keys;
    }
  }

  lemma {:induction false} SafeStays(s: State, schedule: seq<Step>)
    requires Inv(s) && (OutOfReach(s) || LeftAlone(s)) && NoneBegins(schedule) && Run(s, schedule).Some?
    ensures InForce(Run(s, schedule).value.files)
    decreases |schedule|
  {
    if schedule == [] {
      SafeIsInForce(s);
    } else {
      InvNext(s, schedule[0]);
      SafeNext(s, schedule[0]);
      SafeStays(Next(s, schedule[0]).value, schedule[1..]);
    }
  }

  lemma EngageIsSafe(s: State, op: Operator)
    requires Inv(s) && ListsAreOld(s) && op !in s.engaging && !Exposed(s)
    ensures Next(s, EngageOpen(op)).Some?
    ensures OutOfReach(Next(s, EngageOpen(op)).value) || LeftAlone(Next(s, EngageOpen(op)).value)
  {
    var t := Next(s, EngageOpen(op)).value;
    assert TextAtPath(t) && t.lifting == s.lifting && t.drill == s.drill;
  }

  // ------------------------------------------------------------ how an exposed one goes

  /** From its list on, a disengage nobody disturbs unlinks all that is listed. */
  lemma {:induction false} Drain(s: State, op: Operator) returns (schedule: seq<Step>)
    requires op in s.lifting && s.lifting[op].Scanned?
    ensures forall i :: 0 <= i < |schedule| ==> schedule[i].LiftClaim? && schedule[i].op == op
    ensures Run(s, schedule).Some?
    ensures
      var t := Run(s, schedule).value;
      && op in t.lifting && t.lifting[op] == Scanned({})
      && t.files.path == s.files.path && t.files.claims.Keys == s.files.claims.Keys - s.lifting[op].claims
    decreases |s.lifting[op].claims|
  {
    schedule := [];
    if s.lifting[op].claims != {} {
      var n :| n in s.lifting[op].claims;
      var t := Next(s, LiftClaim(op, n)).value;
      var rest := Drain(t, op);
      RunCons(s, LiftClaim(op, n), t, rest);
      schedule := [LiftClaim(op, n)] + rest;
    }
  }

  /** The drill renames the new stop, the disengage lists the claim and unlinks it. */
  lemma VerifiedLosesIt(s: State, p: Operator) returns (schedule: seq<Step>)
    requires s.drill.Verified? && s.files.path.Some? && p in s.lifting && s.lifting[p].PathUnlinked?
    ensures NoneBegins(schedule) && Run(s, schedule).Some? && !InForce(Run(s, schedule).value.files)
  {
    var t := Next(s, DrillRename).value;
    var u := Next(t, LiftScan(p)).value;
    var rest := Drain(u, p);
    RunCons(t, LiftScan(p), u, rest);
    RunCons(s, DrillRename, t, [LiftScan(p)] + rest);
    schedule := [DrillRename] + ([LiftScan(p)] + rest);
  }

  lemma ExposedLosesIt(s: State, op: Operator) returns (schedule: seq<Step>)
    requires Inv(s) && op !in s.engaging && Exposed(s)
    ensures Next(s, EngageOpen(op)).Some? && NoneBegins(schedule)
    ensures
      var after := Run(Next(s, EngageOpen(op)).value, schedule);
      after.Some? && !InForce(after.value.files)
  {
    var t := Next(s, EngageOpen(op)).value;
    var p :| p in s.lifting && s.lifting[p].PathUnlinked?;
    if s.drill.Verified? {
      schedule := VerifiedLosesIt(t, p);
    } else {
      var u := Next(t, DrillRead).value;
      var rest := VerifiedLosesIt(u, p);
      RunCons(t, DrillRead, u, rest);
      schedule := [DrillRead] + rest;
    }
  }

  // ------------------------------------------------------------ exactly when

  /** What the switch promises an operator whose engage has opened the sentinel. */
  ghost predicate StaysOn(t: State) {
    forall schedule :: NoneBegins(schedule) && Run(t, schedule).Some? ==> InForce(Run(t, schedule).value.files)
  }

  /** An engaged stop stays on over every schedule in which no disengage begins, if
      and only if it was not exposed to one already running. */
  lemma EngagedStaysExactlyWhen(s: State, op: Operator)
    requires Reachable(s) && op !in s.engaging
    ensures Next(s, EngageOpen(op)).Some?
    ensures StaysOn(Next(s, EngageOpen(op)).value) <==> !Exposed(s)
  {
    ReachableInv(s);
    var t := Next(s, EngageOpen(op)).value;
    if Exposed(s) {
      var schedule := ExposedLosesIt(s, op);
    } else {
      var before :| Run(INITIAL, before) == Some(s);
      ListsAreOldOverall(INITIAL, before);
      EngageIsSafe(s, op);
      InvNext(s, EngageOpen(op));
      forall schedule | NoneBegins(schedule) && Run(t, schedule).Some?
        ensures InForce(Run(t, schedule).value.files)
      {
        SafeStays(t, schedule);
      }
    }
  }
}

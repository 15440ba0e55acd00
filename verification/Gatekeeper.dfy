/** The gatekeeper at work: its checks in order, one device call at most, one record always. */
module Gatekeeper {
  import opened Wrappers
  import opened Actions
  import opened AuditChain
  import opened AuditLog
  import opened Freshness
  import opened GateState
  import opened GatekeeperRules
  import opened Snapshots
  import opened KillSwitch
  import opened KillSwitchProgram
  import KillSwitchReader

  /** What the audit log records besides the chain's own fields. */
  datatype Note =
    | DecisionNote(frameHash: string, decision: Decision)
    | EnvelopeNote(receipt: Receipt)

  /** The log has grown by exactly these notes, in order. */
  ghost predicate Grown(before: seq<Line<Note>>, after: seq<Line<Note>>, notes: seq<Note>) {
    && |after| == |before| + |notes|
    && after[..|before|] == before
    && forall k :: |before| <= k < |after| ==> Notes(after[k], notes[k - |before|])
  }

  predicate Notes(line: Line<Note>, note: Note) {
    line.Entry? && line.content.body == note
  }

  lemma GrownJoin(a: seq<Line<Note>>, b: seq<Line<Note>>, c: seq<Line<Note>>, m: seq<Note>, n: seq<Note>)
    requires Grown(a, b, m) && Grown(b, c, n)
    ensures Grown(a, c, m + n)
  {
    assert forall k :: 0 <= k < |b| ==> c[k] == c[..|b|][k] == b[k];
    assert c[..|a|] == b[..|a|];
    forall k | |a| <= k < |c| ensures Notes(c[k], (m + n)[k - |a|]) {
      if k < |b| {
        assert Notes(b[k], m[k - |a|]);
      } else {
        assert Notes(c[k], n[k - |b|]);
      }
    }
  }

  /** The device behind the gatekeeper, with the actions it was told to perform. */
  class Executor {
    const dryRun: bool
    var calls: seq<Action>

    constructor (dryRun: bool)
      ensures calls == [] && this.dryRun == dryRun
    {
      this.dryRun, calls := dryRun, [];
    }

    method Execute(a: Action, works: bool) returns (ok: bool)
      modifies this
      ensures calls == old(calls) + [a] && ok == works
    {
      calls := calls + [a];
      ok := works;
    }
  }

  class Gatekeeper {
    const rules: Rules
    const stop: KillSwitchProgram.Switch
    const freshness: FreshnessTracker
    const executor: Executor
    const audit: AuditLog<Note>

    constructor (rules: Rules, stop: KillSwitchProgram.Switch, freshness: FreshnessTracker, executor: Executor, audit: AuditLog<Note>)
      ensures this.rules == rules && this.stop == stop && this.freshness == freshness
      ensures this.executor == executor && this.audit == audit
    {
      this.rules, this.stop, this.freshness, this.executor, this.audit := rules, stop, freshness, executor, audit;
    }

    /** The log verifies and nothing else writes to it. */
    ghost predicate Sound()
      reads audit
    {
      audit.Continues() && Verifies(audit.hasher, audit.Lines())
    }

    method Note(note: Note)
      modifies audit
      ensures Grown(old(audit.Lines()), audit.Lines(), [note])
      ensures old(Sound()) ==> Sound()
    {
      var entry := audit.Append(note);
    }

    method Record(kind: DecisionKind, action: Action, risk: Option<Risk>, approver: Approver, frame: Frame) returns (d: Decision)
      modifies audit
      ensures d == Decision(kind, action, risk, approver)
      ensures Grown(old(audit.Lines()), audit.Lines(), [DecisionNote(frame.sha256, d)])
      ensures old(Sound()) ==> Sound()
    {
      d := Decision(kind, action, risk, approver);
      Note(DecisionNote(frame.sha256, d));
    }

    /** Across the service boundary, why an action is refused. */
    method ServiceContractRefusal(a: Action, snapshot: Option<Snapshot>) returns (r: Option<DecisionKind>)
      ensures r.None? <==> InContract(a, snapshot)
      ensures r.Some? ==> r.value == if a.kind == Scroll || a.kind == Drag then Denied else RejectedTarget
    {
      if a.kind == Scroll || a.kind == Drag {
        return Some(Denied);
      }
      if !IsClick(a.kind) && !IsKeyboard(a.kind) {
        return None;
      }
      if a.target.None? {
        return Some(RejectedTarget);
      }
      var element := if snapshot.Some? then Find(snapshot.value.scene.elements, a.target.value) else None;
      if element.None? || (IsKeyboard(a.kind) && element.value.source != A11y) {
        return Some(RejectedTarget);
      }
      return None;
    }

    /**
     The one way to a device: read the kill switch, one file at a time while
     operators move, and then follow what it says. The device is told to act
     exactly when every requirement holds, with the resolved action, once; every
     request leaves one record. A stop in force when the request comes in blocks it
     unless an operator unlinks one meanwhile; no stop, and none engaged meanwhile,
     does not block it.
    */
    method RequestAction(r: Request, approves: bool, works: bool, others: KillSwitchProgram.Interference)
      returns (d: Decision, ghost w: World, ghost reading: KillSwitchReader.Reading)
      requires stop.Valid()
      modifies stop, executor, audit
      ensures stop.Valid() && Witnessed(reading, w.engaged)
      ensures w.approves == approves && w.works == works
      ensures NobodyLifts(others) && InForce(old(stop.s).files) ==> w.engaged && d.kind == KillSwitched
      ensures NobodyStops(others) && !InForce(old(stop.s).files) ==> !w.engaged && d.kind != KillSwitched
      ensures d.Acted() <==> MayAct(rules, freshness.latest, r, w)
      ensures executor.calls == old(executor.calls) + if d.Acted() then [r.Acting()] else []
      ensures Grown(old(audit.Lines()), audit.Lines(), [DecisionNote(r.frame.sha256, d)])
      ensures old(Sound()) ==> Sound()
      ensures Explains(d, r, w)
    {
      var engaged := stop.IsEngaged(others);
      reading := KillSwitchReader.Reading(stop.log.began, stop.log.moves);
      w := World(engaged, approves, works);
      d := Follow(r, World(engaged, approves, works));
    }

    /** The reading began where the switch was, made it move as it did, and ended with
        this answer. */
    twostate predicate Witnessed(reading: KillSwitchReader.Reading, engaged: bool)
      reads stop
    {
      && reading.start == old(stop.s) && KillSwitchReader.Took(reading, stop.s, engaged)
      && stop.log.trace == old(stop.log).trace + KillSwitchReader.StepsOf(reading.moves)
    }

    /** What each kind of decision says about the request. */
    ghost predicate Explains(d: Decision, r: Request, w: World)
      reads freshness
    {
      var tier := r.RiskUnder(rules).tier;
      var asked := (tier == 2 && rules.requireApprovalT2) || (tier == 3 && rules.requireApprovalT3);
      var timely := !w.engaged && IsFresh(freshness.latest, r.action, r.frame, r.snapshot);
      var outside := r.boundOnly && (r.action.kind == Scroll || r.action.kind == Drag);
      var final := r.action.kind == Done || r.action.kind == Fail;
      && (d.Acted() ==>
            && d.action == r.Acting() && d.risk == Some(r.RiskUnder(rules))
            && d.kind == (if !w.works then ExecutionFailed else if executor.dryRun then DryRun else Executed)
            && d.approver == if asked then ByHuman else AutoTier)
      && (d.kind == KillSwitched <==> w.engaged)
      && (d.kind == RejectedStale <==> !w.engaged && !timely)
      && (d.kind == RejectedTarget <==> timely && !r.OnTarget() && !outside)
      && (d.kind == DoneDeclared <==> timely && r.OnTarget() && r.action.kind == Done)
      && (d.kind == FailDeclared <==> timely && r.OnTarget() && r.action.kind == Fail)
      && (d.kind == Denied <==>
            timely && (outside || (r.OnTarget() && !final && ((tier == 3 && rules.hardBlockT3) || (asked && !w.approves)))))
      && (d.kind == Denied && !outside ==> d.approver == if tier == 3 && rules.hardBlockT3 then ByPolicy else ByHuman)
      && (d.kind == DoneDeclared || d.kind == FailDeclared ==> d.approver == AutoTerminal)
      && (d.kind == KillSwitched || d.kind == RejectedStale || d.kind == RejectedTarget || (d.kind == Denied && outside) ==>
            d.approver == ByGatekeeper && d.risk == None && (d.kind != RejectedTarget ==> d.action == r.action))
      && (d.kind == DoneDeclared || d.kind == FailDeclared || (d.kind == Denied && !outside) ==>
            d.action == r.Acting() && d.risk == Some(r.RiskUnder(rules)))
    }

    /** The checks in their order, once the kill switch has been read. */
    method Follow(r: Request, w: World) returns (d: Decision)
      modifies executor, audit
      ensures d.Acted() <==> MayAct(rules, freshness.latest, r, w)
      ensures executor.calls == old(executor.calls) + if d.Acted() then [r.Acting()] else []
      ensures Grown(old(audit.Lines()), audit.Lines(), [DecisionNote(r.frame.sha256, d)])
      ensures old(Sound()) ==> Sound()
      ensures Explains(d, r, w)
    {
      if w.engaged {
        d := Record(KillSwitched, r.action, None, ByGatekeeper, r.frame);
        return;
      }
      var verdict := freshness.Check(r.action);
      var evidenceMismatch := r.action.frameId != r.frame.frameId;
      var snapshotMismatch := r.snapshot.Some?
        && (r.snapshot.value.frameId != r.frame.frameId || r.snapshot.value.frameHash != r.frame.sha256);
      if verdict != Fresh || evidenceMismatch || snapshotMismatch {
        d := Record(RejectedStale, r.action, None, ByGatekeeper, r.frame);
        return;
      }
      if r.boundOnly {
        var refusal := ServiceContractRefusal(r.action, r.snapshot);
        if refusal.Some? {
          d := Record(refusal.value, r.action, None, ByGatekeeper, r.frame);
          return;
        }
      }
      if !IsBound(r.action, r.snapshot) {
        d := Record(RejectedTarget, r.action, None, ByGatekeeper, r.frame);
        return;
      }
      var action := Resolved(r.action, r.snapshot);
      if !OnScreen(action, ScreenSize(r.frame, r.snapshot)) {
        d := Record(RejectedTarget, action, None, ByGatekeeper, r.frame);
        return;
      }
      d := Decide(action, r, w);
    }

    /** Risk, policy and execution of an action that is fresh and on target. */
    method Decide(action: Action, r: Request, w: World) returns (d: Decision)
      requires action == r.Acting() && !w.engaged && r.OnTarget() && IsFresh(freshness.latest, r.action, r.frame, r.snapshot)
      modifies executor, audit
      ensures d.Acted() <==> MayAct(rules, freshness.latest, r, w)
      ensures executor.calls == old(executor.calls) + if d.Acted() then [action] else []
      ensures Grown(old(audit.Lines()), audit.Lines(), [DecisionNote(r.frame.sha256, d)])
      ensures old(Sound()) ==> Sound()
      ensures d.action == action && d.risk == Some(r.RiskUnder(rules))
      ensures Explains(d, r, w)
    {
      var risk := Worst(rules, action, Readings(r.action, r.context, r.snapshot));
      if action.kind == Done {
        d := Record(DoneDeclared, action, Some(risk), AutoTerminal, r.frame);
        return;
      }
      if action.kind == Fail {
        d := Record(FailDeclared, action, Some(risk), AutoTerminal, r.frame);
        return;
      }
      if risk.tier == T3_DESTRUCTIVE && rules.hardBlockT3 {
        d := Record(Denied, action, Some(risk), ByPolicy, r.frame);
        return;
      }
      var approver := AutoTier;
      if NeedsApproval(rules, risk.tier) {
        if !w.approves {
          d := Record(Denied, action, Some(risk), ByHuman, r.frame);
          return;
        }
        approver := ByHuman;
      }
      var ok := executor.Execute(action, w.works);
      if !ok {
        d := Record(ExecutionFailed, action, Some(risk), approver, r.frame);
        return;
      }
      d := Record(if executor.dryRun then DryRun else Executed, action, Some(risk), approver, r.frame);
    }
  }
}

/** The service an untrusted planner talks to: authenticate, observe, decide. */
module GatekeeperService {
  import opened Actions
  import opened AttestationGate
  import opened Freshness
  import opened Gatekeeper
  import opened GateRuns
  import opened GatekeeperRules
  import opened GateState
  import opened KillSwitch
  import opened KillSwitchProgram
  import opened ServiceRuns

  /** What a client sends, once parsed; parsing authenticates nothing. */
  datatype Message = Malformed | Message(e: Envelope, action: Action, context: Context)

  /** Fault is an error the caller of the service sees, with no decision made. */
  datatype Reply = InvalidRequest | Unauthenticated(reason: Reason) | Fault | Reply(decision: Decision)

  function EnvelopeNotes(receipts: seq<Receipt>): (r: seq<Note>)
    ensures |r| == |receipts| && forall i :: 0 <= i < |r| ==> r[i] == EnvelopeNote(receipts[i])
  {
    seq(|receipts|, i requires 0 <= i < |receipts| => EnvelopeNote(receipts[i]))
  }

  class GatekeeperService {
    const gatekeeper: Gatekeeper
    const gate: AttestationGate
    ghost var calls: seq<Call>

    ghost predicate Valid()
      reads this, gate, gate.disk, gatekeeper.stop
    {
      gate.Valid() && gatekeeper.stop.Valid()
    }

    /** This process as whole runs see it. */
    ghost function View(): Service
      requires gate.disk != null
      reads this, gate, gate.disk, gatekeeper.stop, gatekeeper.freshness
    {
      Service(gate.System(), gatekeeper.stop.s, gatekeeper.stop.log.trace, gatekeeper.freshness.latest, calls)
    }

    constructor (gatekeeper: Gatekeeper, gate: AttestationGate)
      requires gate.Valid() && gatekeeper.stop.Valid()
      ensures Valid() && this.gatekeeper == gatekeeper && this.gate == gate && calls == []
    {
      this.gatekeeper, this.gate, calls := gatekeeper, gate, [];
    }

    /** The gate's new receipts go to the audit log, one entry each. */
    method RecordReceipts(receipts: seq<Receipt>)
      modifies gatekeeper.audit
      ensures Grown(old(gatekeeper.audit.Lines()), gatekeeper.audit.Lines(), EnvelopeNotes(receipts))
      ensures old(gatekeeper.Sound()) ==> gatekeeper.Sound()
    {
      for k := 0 to |receipts|
        invariant Grown(old(gatekeeper.audit.Lines()), gatekeeper.audit.Lines(), EnvelopeNotes(receipts[..k]))
        invariant old(gatekeeper.Sound()) ==> gatekeeper.Sound()
      {
        ghost var before := gatekeeper.audit.Lines();
        gatekeeper.Note(EnvelopeNote(receipts[k]));
        GrownJoin(old(gatekeeper.audit.Lines()), before, gatekeeper.audit.Lines(),
                  EnvelopeNotes(receipts[..k]), [EnvelopeNote(receipts[k])]);
        assert EnvelopeNotes(receipts[..k + 1]) == EnvelopeNotes(receipts[..k]) + [EnvelopeNote(receipts[k])];
      }
      assert receipts[..|receipts|] == receipts;
    }

    /** Show the envelope to the gate, and put its receipts in the audit log. */
    method Authenticate(e: Envelope, now: real, faults: Faults) returns (outcome: Outcome)
      requires Valid()
      modifies gate, gate.disk, gatekeeper.audit
      ensures Valid()
      ensures outcome.Refused? <==> old(Decide(gate.cfg, gate.View(), e, now)).Rejected?
      ensures outcome.Refused? ==> old(Decide(gate.cfg, gate.View(), e, now)) == Rejected(outcome.reason)
      ensures outcome.StateError? <==> old(Decide(gate.cfg, gate.View(), e, now)).Accepted? && !gate.Persists(e, faults)
      ensures gate.disk != null ==> match outcome {
        case Admitted(_) => Admits(gate.cfg, old(gate.System()), gate.System(), e, now)
        case Refused(_) => Refuses(gate.cfg, old(gate.System()), gate.System(), e, now)
        case StateError => Interrupted(gate.cfg, old(gate.System()), gate.System(), e, now)
      }
      ensures gate.disk != null ==> View() == old(View()).(gate := gate.System())
      ensures old(gate.receipts) <= gate.receipts
      ensures Grown(old(gatekeeper.audit.Lines()), gatekeeper.audit.Lines(),
                    EnvelopeNotes(gate.receipts[|old(gate.receipts)|..]))
      ensures old(gatekeeper.Sound()) ==> gatekeeper.Sound()
    {
      var known := |gate.receipts|;
      outcome := gate.Admit(e, now, faults);
      RecordReceipts(gate.receipts[known..]);
    }

    /** Decide on the action of an envelope that has just been admitted. */
    method Answer(e: Envelope, action: Action, context: Context, approves: bool, works: bool, others: Interference)
      returns (d: Decision, ghost w: World, ghost reading: Reading)
      requires gatekeeper.stop.Valid()
      modifies this`calls, gatekeeper.stop, gatekeeper.freshness, gatekeeper.executor, gatekeeper.audit
      ensures gatekeeper.stop.Valid() && gatekeeper.Witnessed(reading, w.engaged)
      ensures w.approves == approves && w.works == works && (d.kind == KillSwitched <==> w.engaged)
      ensures NobodyLifts(others) && InForce(old(gatekeeper.stop.s).files) ==> w.engaged
      ensures NobodyStops(others) && !InForce(old(gatekeeper.stop.s).files) ==> !w.engaged
      ensures gatekeeper.freshness.latest == Observe(old(gatekeeper.freshness.latest), e.body.frameId)
      ensures d.Acted() <==> MayAct(gatekeeper.rules, gatekeeper.freshness.latest, Asked(e, action, context), w)
      ensures gate.disk != null ==> Answered(gatekeeper.rules, old(View()), View(), e, action, context, w, reading)
      ensures gatekeeper.executor.calls == old(gatekeeper.executor.calls)
        + if d.Acted() then [Asked(e, action, context).Acting()] else []
      ensures calls == old(calls)
        + if d.Acted() then [CallOf(gatekeeper.rules, e, Asked(e, action, context), w, reading)] else []
      ensures d.Acted() ==> d.risk.Some? && calls[|calls| - 1] == Call(e, d.action, d.risk.value.tier, approves, reading)
      ensures Grown(old(gatekeeper.audit.Lines()), gatekeeper.audit.Lines(), [DecisionNote(e.body.frameHash, d)])
      ensures old(gatekeeper.Sound()) ==> gatekeeper.Sound()
    {
      gatekeeper.freshness.ObserveFrame(e.body.frameId);
      d, w, reading := gatekeeper.RequestAction(Asked(e, action, context), approves, works, others);
      if d.Acted() {
        calls := calls + [CallOf(gatekeeper.rules, e, Asked(e, action, context), w, reading)];
      }
    }

    /** Authenticate the envelope and, when it is admitted, answer. */
    method Serve(e: Envelope, action: Action, context: Context, now: real, faults: Faults,
                 approves: bool, works: bool, others: Interference)
      returns (reply: Reply, ghost w: World, ghost reading: Reading)
      requires Valid()
      modifies this, gate, gate.disk, gatekeeper.stop, gatekeeper.freshness, gatekeeper.executor, gatekeeper.audit
      ensures Valid() && !reply.InvalidRequest?
      ensures reply.Unauthenticated? <==> old(Decide(gate.cfg, gate.View(), e, now)).Rejected?
      ensures reply.Unauthenticated? ==> old(Decide(gate.cfg, gate.View(), e, now)) == Rejected(reply.reason)
      ensures reply.Fault? <==> old(Decide(gate.cfg, gate.View(), e, now)).Accepted? && !gate.Persists(e, faults)
      ensures Settled(reply, e, action, context, w, reading) && w.approves == approves && w.works == works
      ensures NobodyLifts(others) && InForce(old(gatekeeper.stop.s).files) ==> Stopped(reply)
      ensures NobodyStops(others) && !InForce(old(gatekeeper.stop.s).files) && reply.Reply? ==>
        !w.engaged && reply.decision.kind != KillSwitched
      ensures old(gate.receipts) <= gate.receipts
      ensures Grown(old(gatekeeper.audit.Lines()), gatekeeper.audit.Lines(),
                    EnvelopeNotes(gate.receipts[|old(gate.receipts)|..])
                    + if reply.Reply? then [DecisionNote(e.body.frameHash, reply.decision)] else [])
      ensures old(gatekeeper.Sound()) ==> gatekeeper.Sound()
      ensures gate.disk != null ==> IsStep(e, now, action, context, w, reading, reply)
    {
      w, reading := World(true, approves, works), Unread();
      ghost var log, known := gatekeeper.audit.Lines(), |gate.receipts|;
      var outcome := Authenticate(e, now, faults);
      ghost var recorded := EnvelopeNotes(gate.receipts[known..]);
      if !outcome.Admitted? {
        assert recorded + [] == recorded;
        reply := if outcome.Refused? then Unauthenticated(outcome.reason) else Fault;
        return;
      }
      ghost var before := gatekeeper.audit.Lines();
      var decision;
      decision, w, reading := Answer(e, action, context, approves, works, others);
      GrownJoin(log, before, gatekeeper.audit.Lines(), recorded, [DecisionNote(e.body.frameHash, decision)]);
      reply := Reply(decision);
    }

    /** What happened is one step of a run. */
    twostate predicate IsStep(e: Envelope, now: real, action: Action, context: Context, w: World, reading: Reading, reply: Reply)
      requires gate.disk != null
      reads this, gate, gate.disk, gatekeeper.stop, gatekeeper.freshness
    {
      if reply.Reply? then Decided(gate.cfg, gatekeeper.rules, old(View()), View(), e, now, action, context, w, reading)
      else TurnsAway(gate.cfg, old(View()), View(), e, now)
    }

    /** The switch was not read. */
    ghost function Unread(): Reading
      reads gatekeeper.stop
    {
      KillSwitchReader.Reading(gatekeeper.stop.s, [])
    }

    /** No device was touched, and a request that was decided on was refused as stopped. */
    twostate predicate Stopped(reply: Reply)
      reads gatekeeper.executor
    {
      && gatekeeper.executor.calls == old(gatekeeper.executor.calls)
      && (reply.Reply? ==> reply.decision.kind == KillSwitched)
    }

    /** What a reply says about the kill switch, the frame, the decision and the device. */
    twostate predicate Settled(reply: Reply, e: Envelope, action: Action, context: Context, w: World, reading: Reading)
      reads gatekeeper.stop, gatekeeper.freshness, gatekeeper.executor
    {
      && (if reply.Reply? then gatekeeper.Witnessed(reading, w.engaged) && (reply.decision.kind == KillSwitched <==> w.engaged)
          else gatekeeper.stop.s == old(gatekeeper.stop.s) && gatekeeper.stop.log == old(gatekeeper.stop.log))
      && gatekeeper.freshness.latest
         == (if reply.Reply? then Observe(old(gatekeeper.freshness.latest), e.body.frameId) else old(gatekeeper.freshness.latest))
      && (reply.Reply? ==>
            (reply.decision.Acted() <==> MayAct(gatekeeper.rules, gatekeeper.freshness.latest, Asked(e, action, context), w)))
      && gatekeeper.executor.calls
         == old(gatekeeper.executor.calls) + if reply.Reply? && reply.decision.Acted() then [Asked(e, action, context).Acting()] else []
    }

    /**
     One request. A malformed one changes nothing; any other is one step of a run.
     Only an admitted envelope is decided on, by what the kill switch was read as,
     and none while a stop is in force that no operator unlinks meanwhile; the audit
     log gains the gate's receipts and, when there is a decision, exactly one record
     of it.
    */
    method Handle(m: Message, now: real, faults: Faults, approves: bool, works: bool, others: Interference)
      returns (reply: Reply, ghost w: World, ghost reading: Reading)
      requires Valid()
      modifies this, gate, gate.disk, gatekeeper.stop, gatekeeper.freshness, gatekeeper.executor, gatekeeper.audit
      ensures Valid()
      ensures reply.InvalidRequest? <==> m.Malformed?
      ensures m.Malformed? ==>
        && unchanged(this, gate, gatekeeper.stop, gatekeeper.freshness, gatekeeper.executor, gatekeeper.audit)
        && (gate.disk != null ==> unchanged(gate.disk))
      ensures m.Message? ==>
        && (reply.Unauthenticated? <==> old(Decide(gate.cfg, gate.View(), m.e, now)).Rejected?)
        && (reply.Unauthenticated? ==> old(Decide(gate.cfg, gate.View(), m.e, now)) == Rejected(reply.reason))
        && (reply.Fault? <==> old(Decide(gate.cfg, gate.View(), m.e, now)).Accepted? && !gate.Persists(m.e, faults))
        && Settled(reply, m.e, m.action, m.context, w, reading) && w.approves == approves && w.works == works
      ensures NobodyLifts(others) && InForce(old(gatekeeper.stop.s).files) ==> Stopped(reply)
      ensures NobodyStops(others) && !InForce(old(gatekeeper.stop.s).files) && reply.Reply? ==>
        !w.engaged && reply.decision.kind != KillSwitched
      ensures old(gate.receipts) <= gate.receipts
      ensures Grown(old(gatekeeper.audit.Lines()), gatekeeper.audit.Lines(),
                    EnvelopeNotes(gate.receipts[|old(gate.receipts)|..])
                    + if reply.Reply? then [DecisionNote(m.e.body.frameHash, reply.decision)] else [])
      ensures old(gatekeeper.Sound()) ==> gatekeeper.Sound()
      ensures gate.disk != null && m.Message? ==> ServiceRuns.Next(gate.cfg, gatekeeper.rules, old(View()), View())
    {
      match m {
        case Malformed =>
          assert gate.receipts[|gate.receipts|..] == [];
          reply, w, reading := InvalidRequest, World(true, approves, works), Unread();
        case Message(e, action, context) =>
          reply, w, reading := Serve(e, action, context, now, faults, approves, works, others);
      }
    }
  }
}

/**
 Whole runs of the service, with its gate, its kill switch and everybody who moves
 it: no observed frame is ever acted on twice, and none while a stop is in force.
*/
module ServiceRuns {
  import opened Wrappers
  import opened Actions
  import opened Freshness
  import opened GateRuns
  import opened GatekeeperRules
  import opened GateState
  import opened Snapshots
  import KillSwitch
  import KillSwitchReader
  import KillSwitchRuns

  type Reading = KillSwitchReader.Reading

  /** A device was told to perform `acted`, for the snapshot of this envelope, after
      this reading of the kill switch. */
  datatype Call = Call(e: Envelope, acted: Action, tier: Tier, approved: bool, reading: Reading)

  /** The gate with its disk, the kill switch and the steps it has taken since it was
      first there, the newest frame seen by this process, and the calls made over all
      process lifetimes. */
  datatype Service = Service(gate: System, switch: KillSwitch.State, trace: seq<KillSwitch.Step>,
                             latest: Option<int>, calls: seq<Call>)

  function ShotOf(e: Envelope): Snapshot {
    Snapshot(e.body.frameId, e.body.frameHash, e.body.scene)
  }

  /** The request a client's action and words become, for an admitted envelope. */
  function Asked(e: Envelope, a: Action, context: Context): Request {
    Request(a, Frame(e.body.frameId, e.body.frameHash, None), Some(context), Some(ShotOf(e)), true)
  }

  function CallOf(rules: Rules, e: Envelope, r: Request, w: World, reading: Reading): Call {
    Call(e, r.Acting(), r.RiskUnder(rules).tier, w.approves, reading)
  }

  // ------------------------------------------------------------ steps

  /** A reading of the kill switch: it begins where the switch is, the switch moves as
      the reading has it, and this is its answer. */
  ghost predicate ReadsSwitch(s: Service, s': Service, reading: Reading, engaged: bool) {
    && reading.start == s.switch && KillSwitchReader.Took(reading, s'.switch, engaged)
    && s'.trace == s.trace + KillSwitchReader.StepsOf(reading.moves)
  }

  ghost predicate LeavesSwitch(s: Service, s': Service) {
    s'.switch == s.switch && s'.trace == s.trace
  }

  /** A drill or an operator moves the switch between requests. */
  ghost predicate SwitchMoves(s: Service, s': Service, step: KillSwitch.Step) {
    && KillSwitch.Next(s.switch, step) == Some(s'.switch) && s'.trace == s.trace + [step]
    && s'.gate == s.gate && s'.latest == s.latest && s'.calls == s.calls
  }

  /** The request of an admitted envelope is decided, by what the kill switch was read as. */
  ghost predicate Answered(rules: Rules, s: Service, s': Service,
                           e: Envelope, a: Action, context: Context, w: World, reading: Reading) {
    var r := Asked(e, a, context);
    && ReadsSwitch(s, s', reading, w.engaged)
    && s'.latest == Observe(s.latest, e.body.frameId)
    && s'.calls == s.calls + if MayAct(rules, s'.latest, r, w) then [CallOf(rules, e, r, w, reading)] else []
  }

  /** An envelope is admitted, and then its request is decided. */
  ghost predicate Decided(cfg: Config, rules: Rules, s: Service, s': Service,
                          e: Envelope, now: real, a: Action, context: Context, w: World, reading: Reading) {
    Admits(cfg, s.gate, s'.gate, e, now) && Answered(rules, s, s', e, a, context, w, reading)
  }

  /** An envelope is admitted and the process dies before deciding. */
  ghost predicate DiesAdmitting(cfg: Config, s: Service, s': Service, e: Envelope, now: real) {
    Admits(cfg, s.gate, s'.gate, e, now) && LeavesSwitch(s, s') && s'.calls == s.calls
  }

  /** An envelope is refused, or its admission cannot be made durable. */
  ghost predicate TurnsAway(cfg: Config, s: Service, s': Service, e: Envelope, now: real) {
    && (Refuses(cfg, s.gate, s'.gate, e, now) || Interrupted(cfg, s.gate, s'.gate, e, now))
    && LeavesSwitch(s, s') && s'.latest == s.latest && s'.calls == s.calls
  }

  ghost predicate ComesBack(cfg: Config, s: Service, s': Service) {
    && (Restarts(cfg, s.gate, s'.gate) || LosesPower(cfg, s.gate, s'.gate))
    && LeavesSwitch(s, s') && s'.latest == None && s'.calls == s.calls
  }

  ghost predicate Next(cfg: Config, rules: Rules, s: Service, s': Service) {
    || (exists e, now, a, context, w, reading :: Decided(cfg, rules, s, s', e, now, a, context, w, reading))
    || (exists e, now :: DiesAdmitting(cfg, s, s', e, now))
    || (exists e, now :: TurnsAway(cfg, s, s', e, now))
    || (exists step :: SwitchMoves(s, s', step))
    || ComesBack(cfg, s, s')
  }

  ghost predicate Init(cfg: Config, s: Service) {
    && GateRuns.Init(cfg, s.gate) && KillSwitchRuns.Run(KillSwitchRuns.INITIAL, s.trace) == Some(s.switch)
    && s.latest == None && s.calls == []
  }

  ghost predicate StepAt(cfg: Config, rules: Rules, run: seq<Service>, i: nat)
    requires i + 1 < |run|
  {
    Next(cfg, rules, run[i], run[i + 1])
  }

  ghost predicate IsRun(cfg: Config, rules: Rules, run: seq<Service>) {
    && |run| > 0 && Init(cfg, run[0])
    && forall i :: 0 <= i < |run| - 1 ==> StepAt(cfg, rules, run, i)
  }

  // ------------------------------------------------------------ what every call passed

  /** The element a call acts on is in the attested snapshot; a click is on its
      centre and on the screen; keys go to accessibility elements only. */
  predicate OnItsElement(c: Call) {
    var el := Target(c.acted, Some(ShotOf(c.e)));
    && (IsClick(c.acted.kind) || IsKeyboard(c.acted.kind) ==> el.Some?)
    && (IsKeyboard(c.acted.kind) ==> el.value.source == A11y)
    && (IsClick(c.acted.kind) ==>
          && c.acted.x == Some(el.value.CentreX()) && c.acted.y == Some(el.value.CentreY())
          && 0 <= el.value.CentreX() < c.e.body.scene.width && 0 <= el.value.CentreY() < c.e.body.scene.height)
  }

  /** The tier acted under is no lower than the attested element's own, and the
      policy for it was met. */
  predicate WithinPolicy(rules: Rules, c: Call) {
    var el := Target(c.acted, Some(ShotOf(c.e)));
    && (el.Some? ==> rules.classify(c.acted, Some(Attested(el.value))).tier <= c.tier)
    && (c.tier == 2 && rules.requireApprovalT2 ==> c.approved)
    && (c.tier == 3 ==> !rules.hardBlockT3 && (rules.requireApprovalT3 ==> c.approved))
  }

  predicate Checked(rules: Rules, c: Call) {
    && c.acted.frameId == c.e.body.frameId
    && (IsClick(c.acted.kind) || IsKeyboard(c.acted.kind) || c.acted.kind == Wait)
    && OnItsElement(c)
    && WithinPolicy(rules, c)
  }

  lemma CallIsChecked(rules: Rules, latest: Option<int>, e: Envelope, a: Action, context: Context, w: World, reading: Reading)
    requires MayAct(rules, latest, Asked(e, a, context), w)
    ensures Checked(rules, CallOf(rules, e, Asked(e, a, context), w, reading))
  {
    var r := Asked(e, a, context);
    var el := Target(a, Some(ShotOf(e)));
    assert Target(r.Acting(), r.snapshot) == el;
    if el.Some? {
      CallerCannotLowerTheTier(rules, r, el.value);
    }
  }

  // ------------------------------------------------------------ the invariant

  ghost predicate CallsIncrease(calls: seq<Call>) {
    forall i, j :: 0 <= i < j < |calls| ==> Later(calls[j].e, calls[i].e)
  }

  ghost predicate Inv(cfg: Config, rules: Rules, s: Service) {
    && GateRuns.Inv(cfg, s.gate)
    && KillSwitchRuns.Run(KillSwitchRuns.INITIAL, s.trace) == Some(s.switch)
    && CallsIncrease(s.calls)
    && (forall i :: 0 <= i < |s.calls| ==> s.calls[i].e in s.gate.admitted && Checked(rules, s.calls[i]))
  }

  /** A step of the service is a step of its gate, or moves only the switch. */
  lemma StepsOfTheGate(cfg: Config, rules: Rules, s: Service, s': Service)
    requires Next(cfg, rules, s, s')
    ensures GateRuns.Next(cfg, s.gate, s'.gate) || s'.gate == s.gate
  {}

  lemma GateKeepsInv(cfg: Config, rules: Rules, s: Service, s': Service)
    requires Faithful(cfg.codec) && GateRuns.Inv(cfg, s.gate) && Next(cfg, rules, s, s')
    ensures GateRuns.Inv(cfg, s'.gate) && s.gate.admitted <= s'.gate.admitted
  {
    StepsOfTheGate(cfg, rules, s, s');
    if s'.gate != s.gate {
      GateRuns.InvNext(cfg, s.gate, s'.gate);
    }
  }

  /** The steps the switch takes in one step of a run; and calls are only added, one at
      a time, where the switch was read as off. */
  lemma HowItMoves(cfg: Config, rules: Rules, s: Service, s': Service) returns (steps: seq<KillSwitch.Step>)
    requires Next(cfg, rules, s, s')
    ensures s'.trace == s.trace + steps && KillSwitchRuns.Run(s.switch, steps) == Some(s'.switch)
    ensures s'.calls == s.calls || (s.calls <= s'.calls && |s'.calls| == |s.calls| + 1 && MadeBy(s, s', steps))
  {
    steps := [];
    if e, now, a, context, w, reading :| Decided(cfg, rules, s, s', e, now, a, context, w, reading) {
      steps := KillSwitchReader.StepsOf(reading.moves);
      KillSwitchReader.PlayRuns(KillSwitchReader.Scene(s.switch, KillSwitchReader.Ready), reading.moves);
    } else if step :| SwitchMoves(s, s', step) {
      steps := [step];
      KillSwitchRuns.RunCons(s.switch, step, s'.switch, []);
      assert [step] + [] == [step];
    }
  }

  /** The newest call is that of a reading which found no stop. */
  ghost predicate MadeBy(s: Service, s': Service, steps: seq<KillSwitch.Step>)
    requires |s'.calls| == |s.calls| + 1
  {
    var reading := s'.calls[|s.calls|].reading;
    ReadsSwitch(s, s', reading, false) && steps == KillSwitchReader.StepsOf(reading.moves)
  }

  lemma MadeWhenOff(s: Service, s': Service, steps: seq<KillSwitch.Step>)
    requires KillSwitchRuns.Reachable(s.switch) && |s'.calls| == |s.calls| + 1 && MadeBy(s, s', steps)
    ensures !KillSwitchRuns.Spares(s.switch, steps)
  {
    if KillSwitchRuns.Spares(s.switch, steps) {
      KillSwitchReader.FindsWhatIsSpared(s'.calls[|s.calls|].reading, s'.switch, false);
    }
  }

  lemma SwitchKeepsInv(cfg: Config, rules: Rules, s: Service, s': Service)
    requires KillSwitchRuns.Run(KillSwitchRuns.INITIAL, s.trace) == Some(s.switch) && Next(cfg, rules, s, s')
    ensures KillSwitchRuns.Run(KillSwitchRuns.INITIAL, s'.trace) == Some(s'.switch)
  {
    var steps := HowItMoves(cfg, rules, s, s');
    KillSwitchRuns.RunJoin(KillSwitchRuns.INITIAL, s.trace, s.switch, steps);
  }

  lemma DecidedKeepsInv(cfg: Config, rules: Rules, s: Service, s': Service,
                        e: Envelope, now: real, a: Action, context: Context, w: World, reading: Reading)
    requires Inv(cfg, rules, s) && Decided(cfg, rules, s, s', e, now, a, context, w, reading)
    requires GateRuns.Inv(cfg, s'.gate) && KillSwitchRuns.Run(KillSwitchRuns.INITIAL, s'.trace) == Some(s'.switch)
    ensures Inv(cfg, rules, s')
  {
    AdvancingIsLater(s.gate.mem.last, e, s.gate.admitted);
    if MayAct(rules, s'.latest, Asked(e, a, context), w) {
      CallIsChecked(rules, s'.latest, e, a, context, w, reading);
    }
  }

  lemma InvNext(cfg: Config, rules: Rules, s: Service, s': Service)
    requires Faithful(cfg.codec) && Inv(cfg, rules, s) && Next(cfg, rules, s, s')
    ensures Inv(cfg, rules, s')
  {
    GateKeepsInv(cfg, rules, s, s');
    SwitchKeepsInv(cfg, rules, s, s');
    if e, now, a, context, w, reading :| Decided(cfg, rules, s, s', e, now, a, context, w, reading) {
      DecidedKeepsInv(cfg, rules, s, s', e, now, a, context, w, reading);
    } else {
      assert s'.calls == s.calls && s.gate.admitted <= s'.gate.admitted;
    }
  }

  lemma {:induction false} InvRun(cfg: Config, rules: Rules, run: seq<Service>, k: nat)
    requires Faithful(cfg.codec) && IsRun(cfg, rules, run) && k < |run|
    ensures Inv(cfg, rules, run[k])
    decreases k
  {
    if k > 0 {
      InvRun(cfg, rules, run, k - 1);
      assert StepAt(cfg, rules, run, k - 1);
      InvNext(cfg, rules, run[k - 1], run[k]);
    }
  }

  // ------------------------------------------------------------ main results

  /** Over every run, across restarts and power losses, each envelope leads to at
      most one device call, and calls are made in the order the frames were seen. */
  lemma NoFrameIsActedOnTwice(cfg: Config, rules: Rules, run: seq<Service>, i: nat, j: nat)
    requires Faithful(cfg.codec) && IsRun(cfg, rules, run)
    requires i < j < |run[|run| - 1].calls|
    ensures run[|run| - 1].calls[i].e != run[|run| - 1].calls[j].e
    ensures Later(run[|run| - 1].calls[j].e, run[|run| - 1].calls[i].e)
  {
    InvRun(cfg, rules, run, |run| - 1);
  }

  lemma {:induction false} CallsStay(cfg: Config, rules: Rules, run: seq<Service>, k: nat, j: nat)
    requires IsRun(cfg, rules, run) && k <= j < |run|
    ensures run[k].calls <= run[j].calls
  {
    for m := k to j
      invariant run[k].calls <= run[m].calls
    {
      assert StepAt(cfg, rules, run, m);
      var steps := HowItMoves(cfg, rules, run[m], run[m + 1]);
    }
  }

  /** The step that made call i. */
  lemma WhereCallsGrow(run: seq<Service>, i: nat) returns (k: nat)
    requires |run| > 0 && run[0].calls == [] && i < |run[|run| - 1].calls|
    ensures k + 1 < |run| && |run[k].calls| <= i < |run[k + 1].calls|
  {
    k := 0;
    while |run[k + 1].calls| <= i
      invariant k + 1 < |run| && |run[k].calls| <= i
      decreases |run| - k
    {
      k := k + 1;
    }
  }

  /** Every device call was for an admitted envelope and passed every check: at tier 2 a
      human agreed if the policy asks for it, at tier 3 too, and only if it is not
      blocked. It was made by the step of the run that read the kill switch as off;
      either there was no stop when that reading began, or the steps of others during
      it did not spare it. */
  lemma EveryCallWasChecked(cfg: Config, rules: Rules, run: seq<Service>, i: nat) returns (k: nat)
    requires Faithful(cfg.codec) && IsRun(cfg, rules, run) && i < |run[|run| - 1].calls|
    ensures run[|run| - 1].calls[i].e in run[|run| - 1].gate.admitted && Checked(rules, run[|run| - 1].calls[i])
    ensures run[|run| - 1].calls[i].tier == 2 && rules.requireApprovalT2 ==> run[|run| - 1].calls[i].approved
    ensures run[|run| - 1].calls[i].tier == 3 ==>
      !rules.hardBlockT3 && (rules.requireApprovalT3 ==> run[|run| - 1].calls[i].approved)
    ensures k + 1 < |run| && |run[k].calls| == i && |run[k + 1].calls| == i + 1
    ensures ReadsSwitch(run[k], run[k + 1], run[|run| - 1].calls[i].reading, false)
    ensures !KillSwitchRuns.Spares(run[k].switch, KillSwitchReader.StepsOf(run[|run| - 1].calls[i].reading.moves))
  {
    InvRun(cfg, rules, run, |run| - 1);
    k := WhereCallsGrow(run, i);
    CallsStay(cfg, rules, run, k + 1, |run| - 1);
    MadeAtStep(cfg, rules, run, k, i);
  }

  /** The step that made call i made it alone, on a reading that found no stop. */
  ghost predicate MadeCall(s: Service, s': Service, i: nat) {
    && |s.calls| == i && |s'.calls| == i + 1 && ReadsSwitch(s, s', s'.calls[i].reading, false)
    && !KillSwitchRuns.Spares(s.switch, KillSwitchReader.StepsOf(s'.calls[i].reading.moves))
  }

  lemma MadeAtStep(cfg: Config, rules: Rules, run: seq<Service>, k: nat, i: nat)
    requires k + 1 < |run| && |run[k].calls| <= i < |run[k + 1].calls|
    ensures Faithful(cfg.codec) && IsRun(cfg, rules, run) ==> MadeCall(run[k], run[k + 1], i)
  {
    if Faithful(cfg.codec) && IsRun(cfg, rules, run) {
      InvRun(cfg, rules, run, k);
      assert StepAt(cfg, rules, run, k);
      MadeCallNext(cfg, rules, run[k], run[k + 1], i);
    }
  }

  lemma MadeCallNext(cfg: Config, rules: Rules, s: Service, s': Service, i: nat)
    requires KillSwitchRuns.Reachable(s.switch) && Next(cfg, rules, s, s') && |s.calls| <= i < |s'.calls|
    ensures MadeCall(s, s', i)
  {
    var steps := HowItMoves(cfg, rules, s, s');
    MadeWhenOff(s, s', steps);
  }

  // ------------------------------------------------------------ the kill switch stops the service

  /** Without a stop nothing is blocked: a request that comes in with none in force, and
      none engaged while it reads the switch, makes its call if everything else allows it. */
  lemma NoStopBlocksNothing(cfg: Config, rules: Rules, s: Service, s': Service,
                            e: Envelope, now: real, a: Action, context: Context, w: World, reading: Reading)
    requires Decided(cfg, rules, s, s', e, now, a, context, w, reading)
    requires !KillSwitch.InForce(s.switch.files) && KillSwitchRuns.Unraised(KillSwitchReader.StepsOf(reading.moves))
    ensures !w.engaged
    ensures |s'.calls| == |s.calls| + 1 <==> MayAct(rules, s'.latest, Asked(e, a, context), w.(engaged := false))
  {
    KillSwitchReader.FindsNothing(reading, s'.switch, w.engaged);
  }

  /** The steps the switch has taken from s to t. */
  ghost function Between(s: Service, t: Service): seq<KillSwitch.Step> {
    if s.trace <= t.trace then t.trace[|s.trace|..] else []
  }

  lemma SparedBetween(s: Service, steps: seq<KillSwitch.Step>, s': Service, t: Service)
    requires s'.trace == s.trace + steps && s'.trace <= t.trace && KillSwitch.Inv(s.switch)
    requires KillSwitchRuns.Run(s.switch, steps) == Some(s'.switch)
    requires KillSwitchRuns.Spares(s.switch, Between(s, t))
    ensures KillSwitchRuns.Spares(s.switch, steps) && KillSwitchRuns.Spares(s'.switch, Between(s', t))
    ensures KillSwitch.InForce(s'.switch.files)
  {
    var all, rest := Between(s, t), Between(s', t);
    assert all == steps + rest;
    assert forall i :: 0 <= i < |steps| ==> all[i] == steps[i];
    KillSwitchRuns.SparesRest(s.switch, steps, s'.switch, rest);
  }

  lemma StoppedNext(cfg: Config, rules: Rules, s: Service, s': Service, t: Service)
    requires KillSwitchRuns.Reachable(s.switch) && Next(cfg, rules, s, s') && s'.trace <= t.trace
    requires KillSwitchRuns.Spares(s.switch, Between(s, t))
    ensures s'.calls == s.calls && KillSwitchRuns.Spares(s'.switch, Between(s', t))
    ensures KillSwitch.InForce(s'.switch.files)
  {
    var steps := HowItMoves(cfg, rules, s, s');
    KillSwitchRuns.ReachableInv(s.switch);
    SparedBetween(s, steps, s', t);
    if s'.calls != s.calls {
      MadeWhenOff(s, s', steps);
    }
  }

  lemma {:induction false} TraceGrows(cfg: Config, rules: Rules, run: seq<Service>, j: nat, k: nat)
    requires j <= k < |run|
    ensures IsRun(cfg, rules, run) ==> run[j].trace <= run[k].trace
  {
    if IsRun(cfg, rules, run) {
      for m := j to k
        invariant run[j].trace <= run[m].trace
      {
        assert StepAt(cfg, rules, run, m);
        var steps := HowItMoves(cfg, rules, run[m], run[m + 1]);
      }
    }
  }

  /** These are the calls so far, and a stop in force is spared up to t. */
  ghost predicate Halted(s: Service, t: Service, calls: seq<Call>) {
    s.calls == calls && KillSwitchRuns.Spares(s.switch, Between(s, t))
  }

  lemma HaltedNext(cfg: Config, rules: Rules, run: seq<Service>, m: nat, k: nat, calls: seq<Call>)
    requires m < k < |run|
    ensures Faithful(cfg.codec) && IsRun(cfg, rules, run) && Halted(run[m], run[k], calls)
        ==> Halted(run[m + 1], run[k], calls) && KillSwitch.InForce(run[m + 1].switch.files)
  {
    if Faithful(cfg.codec) && IsRun(cfg, rules, run) && Halted(run[m], run[k], calls) {
      InvRun(cfg, rules, run, m);
      TraceGrows(cfg, rules, run, m + 1, k);
      assert StepAt(cfg, rules, run, m);
      StoppedNext(cfg, rules, run[m], run[m + 1], run[k]);
    }
  }

  /** Over every run, once a stop is in force no request handled from then on reaches a
      device, however drills and engages move it about, for as long as no operator
      unlinks a stop and, if it is only the drill's own, the drill does not unlink it. */
  lemma {:induction false} AStopStopsTheService(cfg: Config, rules: Rules, run: seq<Service>, j: nat, k: nat)
    requires Faithful(cfg.codec) && IsRun(cfg, rules, run) && j < k < |run|
    requires KillSwitchRuns.Spares(run[j].switch, Between(run[j], run[k]))
    ensures run[k].calls == run[j].calls && KillSwitch.InForce(run[k].switch.files)
  {
    for m := j to k
      invariant Halted(run[m], run[k], run[j].calls)
      invariant m > j ==> KillSwitch.InForce(run[m].switch.files)
    {
      HaltedNext(cfg, rules, run, m, k, run[j].calls);
    }
  }

  // ------------------------------------------------------------ freshness after admission

  /** An admitted envelope's action is fresh exactly when it names the envelope's
      frame and this process has seen no newer frame id. */
  lemma FreshAfterAdmission(latest: Option<int>, e: Envelope, a: Action, context: Context)
    ensures
      var r := Asked(e, a, context);
      IsFresh(Observe(latest, e.body.frameId), a, r.frame, r.snapshot)
      <==> a.frameId == e.body.frameId && (latest.None? || latest.value <= e.body.frameId)
  {}

  /** An envelope the current epoch's observer issued later than any admitted one is
      admitted, however low its frame id... */
  lemma LaterIssuedIsAdmitted(cfg: Config, mem: Memory, e: Envelope, now: real)
    requires Authentic(cfg, e) && (mem.epoch.None? || mem.epoch.value == e.body.observerEpoch)
    requires e.body.issuedAt <= now <= e.body.expiresAt && !Remembers(mem.seen, e.body.nonce)
    requires mem.last.Some? && mem.last.value.issuedAt.Some? && e.body.issuedAt > mem.last.value.issuedAt.value
    ensures Decide(cfg, mem, e, now) == Accepted
  {}

  /** ...but the service refuses all its actions as stale until the observer has
      counted past the frames of its previous life, or the service restarts too. */
  lemma RestartedObserverIsStale(rules: Rules, latest: int, e: Envelope, a: Action, context: Context, w: World)
    requires e.body.frameId < latest
    ensures !MayAct(rules, Observe(Some(latest), e.body.frameId), Asked(e, a, context), w)
  {}

  /** Admitted, and no device call was ever made for it. */
  predicate Spent(s: Service, e: Envelope) {
    e in s.gate.admitted && forall i :: 0 <= i < |s.calls| ==> s.calls[i].e != e
  }

  lemma DecidedStaysSpent(cfg: Config, rules: Rules, s: Service, s': Service, e: Envelope,
                          e': Envelope, now: real, a: Action, context: Context, w: World, reading: Reading)
    requires GateRuns.Inv(cfg, s.gate) && Decided(cfg, rules, s, s', e', now, a, context, w, reading) && Spent(s, e)
    ensures Spent(s', e)
  {
    AdvancingIsLater(s.gate.mem.last, e', s.gate.admitted);
  }

  lemma SpentStaysSpent(cfg: Config, rules: Rules, s: Service, s': Service, e: Envelope)
    requires Faithful(cfg.codec) && GateRuns.Inv(cfg, s.gate) && Next(cfg, rules, s, s') && Spent(s, e)
    ensures Spent(s', e)
  {
    if e', now, a, context, w, reading :| Decided(cfg, rules, s, s', e', now, a, context, w, reading) {
      DecidedStaysSpent(cfg, rules, s, s', e, e', now, a, context, w, reading);
    } else {
      GateKeepsInv(cfg, rules, s, s');
      assert s'.calls == s.calls;
    }
  }

  lemma SpentNext(cfg: Config, rules: Rules, run: seq<Service>, j: nat, e: Envelope)
    requires j + 1 < |run|
    ensures Faithful(cfg.codec) && IsRun(cfg, rules, run) && Spent(run[j], e) ==> Spent(run[j + 1], e)
  {
    if Faithful(cfg.codec) && IsRun(cfg, rules, run) && Spent(run[j], e) {
      InvRun(cfg, rules, run, j);
      var s, s' := run[j], run[j + 1];
      assert StepAt(cfg, rules, run, j);
      SpentStaysSpent(cfg, rules, s, s', e);
    }
  }

  lemma {:induction false} SpentForever(cfg: Config, rules: Rules, run: seq<Service>, k: nat, j: nat, e: Envelope)
    requires Faithful(cfg.codec) && IsRun(cfg, rules, run) && k <= j < |run| && Spent(run[k], e)
    ensures Spent(run[j], e)
  {
    for m := k to j
      invariant Spent(run[m], e)
    {
      SpentNext(cfg, rules, run, m, e);
    }
  }

  lemma StaleIsSpent(cfg: Config, rules: Rules, s: Service, s': Service,
                     e: Envelope, now: real, a: Action, context: Context, w: World, reading: Reading)
    requires Inv(cfg, rules, s) && Decided(cfg, rules, s, s', e, now, a, context, w, reading)
    requires s.latest.Some? && e.body.frameId < s.latest.value
    ensures Spent(s', e)
  {
    RestartedObserverIsStale(rules, s.latest.value, e, a, context, w);
    AdvancingIsLater(s.gate.mem.last, e, s.gate.admitted);
  }

  /** Over every run, an envelope admitted with a frame id below the newest one seen is
      lost: it is never acted on, then or later, though the gate took it. */
  lemma StaleFrameIsLost(cfg: Config, rules: Rules, run: seq<Service>, k: nat, j: nat,
                         e: Envelope, now: real, a: Action, context: Context, w: World, reading: Reading)
    requires Faithful(cfg.codec) && IsRun(cfg, rules, run) && k < j < |run|
    requires Decided(cfg, rules, run[k], run[k + 1], e, now, a, context, w, reading)
    requires run[k].latest.Some? && e.body.frameId < run[k].latest.value
    ensures Spent(run[j], e)
  {
    InvRun(cfg, rules, run, k);
    StaleIsSpent(cfg, rules, run[k], run[k + 1], e, now, a, context, w, reading);
    SpentForever(cfg, rules, run, k + 1, j, e);
  }
}

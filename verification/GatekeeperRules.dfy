/** What the gatekeeper requires of an action before it may reach a device. */
module GatekeeperRules {
  import opened Wrappers
  import opened Actions
  import opened Snapshots

  /** Evidence of the frame acted on; an in-process frame also has its image's size. */
  datatype Frame = Frame(frameId: int, sha256: string, size: Option<(int, int)>)

  datatype Context = Context(windowTitle: string, appName: string, targetText: string)

  /** 0 read-only, 1 reversible, 2 sensitive, 3 destructive. */
  type Tier = t: int | 0 <= t <= 3

  const T2_SENSITIVE: Tier := 2
  const T3_DESTRUCTIVE: Tier := 3

  datatype Risk = Risk(tier: Tier, reasons: seq<string>)

  /** The policy: a fixed classification by patterns, and what its tiers need. */
  datatype Rules = Rules(
    classify: (ActionFields, Option<Context>) -> Risk,
    requireApprovalT2: bool,
    requireApprovalT3: bool,
    hardBlockT3: bool)

  datatype DecisionKind =
    | Executed | DryRun | RejectedStale | RejectedTarget | KillSwitched | Denied | ExecutionFailed | DoneDeclared | FailDeclared

  datatype Approver = ByGatekeeper | ByPolicy | AutoTerminal | AutoTier | ByHuman

  datatype Decision = Decision(kind: DecisionKind, action: Action, risk: Option<Risk>, approver: Approver) {
    /** A device was told to act. */
    predicate Acted() {
      kind == Executed || kind == DryRun || kind == ExecutionFailed
    }
  }

  // ------------------------------------------------------------ the requirements

  predicate IsFresh(latest: Option<int>, a: Action, frame: Frame, snapshot: Option<Snapshot>) {
    && latest == Some(a.frameId) && a.frameId >= 0
    && a.frameId == frame.frameId
    && (snapshot.Some? ==> snapshot.value.frameId == frame.frameId && snapshot.value.frameHash == frame.sha256)
  }

  predicate IsKeyboard(kind: ActionKind) {
    kind == Type || kind == Key
  }

  /** The element an action names, if the snapshot has it. */
  function Target(a: Action, snapshot: Option<Snapshot>): Option<Element> {
    if a.target.Some? && snapshot.Some? then Find(snapshot.value.scene.elements, a.target.value) else None
  }

  /** What a client across the service boundary may ask for: no scroll or drag, and
      no input that does not name an element of the snapshot; keys only into an
      accessibility element. */
  predicate InContract(a: Action, snapshot: Option<Snapshot>) {
    && a.kind != Scroll && a.kind != Drag
    && (IsClick(a.kind) || IsKeyboard(a.kind) ==> Target(a, snapshot).Some?)
    && (IsKeyboard(a.kind) ==> Target(a, snapshot).value.source == A11y)
  }

  /** An element that is named must exist. */
  predicate IsBound(a: Action, snapshot: Option<Snapshot>) {
    a.target.Some? ==> Target(a, snapshot).Some?
  }

  /** A click on an element goes to its centre, whatever point came with it. */
  function Resolved(a: Action, snapshot: Option<Snapshot>): (r: Action)
    ensures r.kind == a.kind && r.frameId == a.frameId && r.target == a.target && r.text == a.text && r.keys == a.keys
    ensures !IsClick(a.kind) || Target(a, snapshot).None? ==> r == a
    ensures IsClick(a.kind) && Target(a, snapshot).Some? ==>
      var box := Target(a, snapshot).value.bbox;
      r.x == Some(box.x + box.w / 2) && r.y == Some(box.y + box.h / 2)
  {
    match Target(a, snapshot)
    case Some(el) => if IsClick(a.kind) then a.(x := Some(el.CentreX()), y := Some(el.CentreY())) else a
    case None => a
  }

  predicate Inside(x: Option<int>, y: Option<int>, size: (int, int)) {
    x.Some? && y.Some? ==> 0 <= x.value < size.0 && 0 <= y.value < size.1
  }

  function ScreenSize(frame: Frame, snapshot: Option<Snapshot>): Option<(int, int)> {
    if frame.size.Some? then frame.size
    else if snapshot.Some? then Some((snapshot.value.scene.width, snapshot.value.scene.height))
    else None
  }

  predicate OnScreen(a: Action, size: Option<(int, int)>) {
    size.Some? ==> Inside(a.x, a.y, size.value) && (a.kind == Drag ==> Inside(a.toX, a.toY, size.value))
  }

  function Attested(el: Element): Context {
    Context("", "", el.labelText)
  }

  /** The readings an action is scored on: on a named element the caller's words are
      only one of them. */
  function Readings(a: Action, context: Option<Context>, snapshot: Option<Snapshot>): (r: seq<Option<Context>>)
    ensures r != []
    ensures context in r || (context.None? && Target(a, snapshot).Some?)
    ensures Target(a, snapshot).Some? ==> Some(Attested(Target(a, snapshot).value)) in r
    ensures forall c :: c in r <==>
      match Target(a, snapshot) {
        case None => c == context
        case Some(el) =>
          || c == Some(Context("", "", el.labelText))
          || (context.Some? && (c == context || c == Some(Context(context.value.windowTitle, context.value.appName, el.labelText))))
      }
  {
    match Target(a, snapshot)
    case None => [context]
    case Some(el) =>
      if context.None? then [Some(Attested(el))]
      else [Some(context.value.(targetText := el.labelText)), Some(Attested(el)), context]
  }

  /** The first of the highest. */
  function Worst(rules: Rules, a: ActionFields, readings: seq<Option<Context>>): (r: Risk)
    requires readings != []
    ensures forall i :: 0 <= i < |readings| ==> rules.classify(a, readings[i]).tier <= r.tier
    ensures exists i :: 0 <= i < |readings| && rules.classify(a, readings[i]) == r
  {
    var last := rules.classify(a, readings[|readings| - 1]);
    if |readings| == 1 then last
    else
      var best := Worst(rules, a, readings[..|readings| - 1]);
      assert forall i :: 0 <= i < |readings| - 1 ==> readings[..|readings| - 1][i] == readings[i];
      if last.tier > best.tier then last else best
  }

  predicate NeedsApproval(rules: Rules, tier: Tier) {
    (tier == T2_SENSITIVE && rules.requireApprovalT2) || (tier == T3_DESTRUCTIVE && rules.requireApprovalT3)
  }

  /** A request as the gatekeeper gets it. */
  datatype Request = Request(action: Action, frame: Frame, context: Option<Context>, snapshot: Option<Snapshot>, boundOnly: bool) {
    function Acting(): Action {
      Resolved(action, snapshot)
    }

    function RiskUnder(rules: Rules): Risk {
      Worst(rules, Acting(), Readings(action, context, snapshot))
    }

    predicate OnTarget() {
      && (boundOnly ==> InContract(action, snapshot))
      && IsBound(action, snapshot)
      && OnScreen(Acting(), ScreenSize(frame, snapshot))
    }
  }

  /** What the world answers during one request: the stop file, the human, the device. */
  datatype World = World(engaged: bool, approves: bool, works: bool)

  /** Everything that must hold for a device to be told to act. */
  predicate MayAct(rules: Rules, latest: Option<int>, r: Request, w: World) {
    && !w.engaged
    && IsFresh(latest, r.action, r.frame, r.snapshot)
    && r.OnTarget()
    && r.action.kind != Done && r.action.kind != Fail
    && !(r.RiskUnder(rules).tier == T3_DESTRUCTIVE && rules.hardBlockT3)
    && (NeedsApproval(rules, r.RiskUnder(rules).tier) ==> w.approves)
  }

  /** What freshness and being on target come to, one by one. */
  lemma OnTargetExactlyWhen(latest: Option<int>, r: Request)
    ensures
      var a := r.action;
      var shot := r.snapshot;
      var named := a.target.Some? && shot.Some? && exists i :: 0 <= i < |shot.value.scene.elements| && shot.value.scene.elements[i].id == a.target.value;
      var points := a.kind == Click || a.kind == RightClick || a.kind == DoubleClick;
      var types := a.kind == Type || a.kind == Key;
      && (IsFresh(latest, a, r.frame, shot) <==>
            && latest == Some(a.frameId) && a.frameId >= 0 && a.frameId == r.frame.frameId
            && (shot.Some? ==> shot.value.frameId == a.frameId && shot.value.frameHash == r.frame.sha256))
      && (r.OnTarget() <==>
            && (a.target.Some? ==> named)
            && (r.boundOnly ==> a.kind != Scroll && a.kind != Drag)
            && (r.boundOnly && (points || types) ==> named)
            && (r.boundOnly && types && named ==> Target(a, shot).value.source == A11y)
            && OnTheScreen(r.Acting(), r.frame, shot))
  {
    if r.action.target.Some? && r.snapshot.Some? {
      var elements, id := r.snapshot.value.scene.elements, r.action.target.value;
      assert Find(elements, id).None? ==> forall i :: 0 <= i < |elements| ==> elements[i].id != id;
    }
  }

  /** The point, and where a drag ends, are pixels of the frame, or of the snapshot if
      the frame says nothing of its size. */
  predicate OnTheScreen(a: Action, frame: Frame, shot: Option<Snapshot>) {
    var known := frame.size.Some? || shot.Some?;
    var w := if frame.size.Some? then frame.size.value.0 else if shot.Some? then shot.value.scene.width else 0;
    var h := if frame.size.Some? then frame.size.value.1 else if shot.Some? then shot.value.scene.height else 0;
    && (known && a.x.Some? && a.y.Some? ==> 0 <= a.x.value < w && 0 <= a.y.value < h)
    && (known && a.kind == Drag ==> 0 <= a.toX.value < w && 0 <= a.toY.value < h)
  }

  /** The tiers that reach a device, by number: 3 unless it is blocked, and only with the
      human's word if the policy asks for it; 2 likewise; 0 and 1 whatever he says. */
  lemma MayActExactlyWhen(rules: Rules, latest: Option<int>, r: Request, w: World)
    ensures
      var tier := r.RiskUnder(rules).tier;
      MayAct(rules, latest, r, w) <==>
        && !w.engaged && IsFresh(latest, r.action, r.frame, r.snapshot) && r.OnTarget()
        && r.action.kind != Done && r.action.kind != Fail
        && (|| tier == 0 || tier == 1
            || (tier == 2 && (rules.requireApprovalT2 ==> w.approves))
            || (tier == 3 && !rules.hardBlockT3 && (rules.requireApprovalT3 ==> w.approves)))
  {}

  /** No words of the caller bring the tier below that of the element acted on. */
  lemma CallerCannotLowerTheTier(rules: Rules, r: Request, el: Element)
    requires Target(r.action, r.snapshot) == Some(el)
    ensures r.RiskUnder(rules).tier >= rules.classify(r.Acting(), Some(Attested(el))).tier
  {
    var readings := Readings(r.action, r.context, r.snapshot);
    var i :| 0 <= i < |readings| && readings[i] == Some(Attested(el));
  }
}

/**
 The sentinel's functions as they run, one system call at a time, with whatever
 operators do in between. Every execution is a schedule of the step machine.
*/
module KillSwitchProgram {
  import opened Wrappers
  import opened KillSwitch
  import opened KillSwitchRuns
  import opened KillSwitchRaces
  import opened KillSwitchReader
  import opened KillSwitchDisengage

  /** The steps of other processes. */
  predicate IsOperators(step: Step) {
    || step.EngageOpen? || step.EngageWrite? || step.EngageDies?
    || step.LiftPath? || step.LiftScan? || step.LiftClaim? || step.LiftEnds?
  }

  predicate Quiet(steps: seq<Step>) {
    forall i :: 0 <= i < |steps| ==> !Lifts(steps[i])
  }

  /** What operators attempt before each system call of a function. */
  type Interference = nat -> seq<Step>

  ghost predicate NobodyLifts(others: Interference) {
    forall k :: Quiet(others(k))
  }

  ghost predicate NobodyStops(others: Interference) {
    forall k :: Unraised(others(k))
  }

  lemma {:induction false} PlaySnoc(scene: Scene, moves: seq<Move>, at: Scene, move: Move)
    requires Play(scene, moves) == Some(at)
    ensures Play(scene, moves + [move]) == Play(at, [move])
    decreases |moves|
  {
    if moves == [] {
      assert moves + [move] == [move];
    } else {
      assert (moves + [move])[1..] == moves[1..] + [move];
      match moves[0]
      case Others(step) => PlaySnoc(scene.(s := Next(scene.s, step).value), moves[1..], at, move);
      case Reads(pick) => PlaySnoc(scene.(r := Read(scene.s.files, scene.r, pick).value), moves[1..], at, move);
    }
  }

  lemma PlayOne(at: Scene, move: Move)
    ensures move.Reads? && Read(at.s.files, at.r, move.pick).Some? ==>
      Play(at, [move]) == Some(at.(r := Read(at.s.files, at.r, move.pick).value))
    ensures move.Others? && Next(at.s, move.step).Some? ==> Play(at, [move]) == Some(at.(s := Next(at.s, move.step).value))
  {
    assert [move][1..] == [];
  }

  // ------------------------------------------------------------ who moves in between

  /** A step is taken if it applies. */
  function Tried(s: State, step: Step): State {
    if Next(s, step).Some? then Next(s, step).value else s
  }

  /** Operators try the first n of some steps in turn. */
  function TryFirst(s: State, steps: seq<Step>, n: nat): State
    requires n <= |steps|
  {
    if n == 0 then s
    else
      var t := TryFirst(s, steps, n - 1);
      if IsOperators(steps[n - 1]) then Tried(t, steps[n - 1]) else t
  }

  /** Operators take their turn. */
  function OperatorsTry(s: State, steps: seq<Step>): State {
    TryFirst(s, steps, |steps|)
  }

  /** The k-th own step comes after the k-th turn of the operators. */
  function Woven(s: State, others: Interference, own: seq<Step>): Option<State> {
    if own == [] then Some(s)
    else
      match Woven(s, others, own[..|own| - 1])
      case Some(t) => Next(OperatorsTry(t, others(|own| - 1)), own[|own| - 1])
      case None => None
  }

  /** The k-th read, of the claim picked if there is one to pick, comes after the k-th turn
      of the operators. */
  function Watched(scene: Scene, others: Interference, picks: seq<ClaimName>): Option<Scene> {
    if picks == [] then Some(scene)
    else
      match Watched(scene, others, picks[..|picks| - 1])
      case None => None
      case Some(at) =>
        var s := OperatorsTry(at.s, others(|picks| - 1));
        match Read(s.files, at.r, picks[|picks| - 1])
        case Some(r) => Some(Scene(s, r))
        case None => None
  }

  /** Everybody else tries the first n of some steps in turn, the drill included. */
  function AllTryFirst(s: State, steps: seq<Step>, op: Operator, n: nat): State
    requires n <= |steps|
  {
    if n == 0 then s
    else
      var t := AllTryFirst(s, steps, op, n - 1);
      if OfDisengage(steps[n - 1], op) then t else Tried(t, steps[n - 1])
  }

  function EverybodyTries(s: State, steps: seq<Step>, op: Operator): State {
    AllTryFirst(s, steps, op, |steps|)
  }

  /** A disengage with everybody else moving between its calls: unlink the path, list the
      claims, unlink those picked. */
  function Disengaged(s: State, op: Operator, others: Interference, picks: seq<ClaimName>): Option<State> {
    if picks == [] then
      match Next(s, LiftPath(op))
      case Some(t) => Next(EverybodyTries(t, others(0), op), LiftScan(op))
      case None => None
    else
      match Disengaged(s, op, others, picks[..|picks| - 1])
      case Some(t) => Next(EverybodyTries(t, others(|picks|), op), LiftClaim(op, picks[|picks| - 1]))
      case None => None
  }

  lemma DisengagedSnoc(s: State, op: Operator, others: Interference, picks: seq<ClaimName>, t: State, pick: ClaimName)
    requires Disengaged(s, op, others, picks) == Some(t)
    ensures Disengaged(s, op, others, picks + [pick]) == Next(EverybodyTries(t, others(|picks| + 1), op), LiftClaim(op, pick))
  {
    assert (picks + [pick])[..|picks|] == picks;
  }

  lemma WovenSnoc(s: State, others: Interference, own: seq<Step>, t: State, step: Step)
    requires Woven(s, others, own) == Some(t)
    ensures Woven(s, others, own + [step]) == Next(OperatorsTry(t, others(|own|)), step)
  {
    assert (own + [step])[..|own|] == own;
  }

  lemma WatchedSnoc(scene: Scene, others: Interference, picks: seq<ClaimName>, at: Scene, pick: ClaimName)
    requires Watched(scene, others, picks) == Some(at)
    ensures
      var s := OperatorsTry(at.s, others(|picks|));
      Read(s.files, at.r, pick).Some? ==>
        Watched(scene, others, picks + [pick]) == Some(Scene(s, Read(s.files, at.r, pick).value))
  {
    assert (picks + [pick])[..|picks|] == picks;
  }

  // ------------------------------------------------------------ around a disengage

  /** A step of this operator's disengage. */
  predicate OfDisengage(step: Step, op: Operator) {
    (step.LiftPath? || step.LiftScan? || step.LiftClaim? || step.LiftEnds?) && step.op == op
  }

  /** This disengage's own progress is what it was. */
  predicate SameList(s: State, t: State, op: Operator) {
    (op in t.lifting <==> op in s.lifting) && (op in s.lifting ==> t.lifting[op] == s.lifting[op])
  }

  lemma OthersKeepList(s: State, step: Step, op: Operator)
    requires Next(s, step).Some? && !OfDisengage(step, op)
    ensures SameList(s, Next(s, step).value, op)
  {}

  // ------------------------------------------------------------ schedules without an unlink

  /** Nothing in the schedule can turn the switch off. */
  predicate Calm(schedule: seq<Step>) {
    forall i :: 0 <= i < |schedule| ==> !Lowers(schedule[i])
  }

  function LiftsIn(schedule: seq<Step>): nat {
    if schedule == [] then 0 else LiftsIn(schedule[..|schedule| - 1]) + if Lifts(schedule[|schedule| - 1]) then 1 else 0
  }

  function LowersIn(schedule: seq<Step>): nat {
    if schedule == [] then 0 else LowersIn(schedule[..|schedule| - 1]) + if Lowers(schedule[|schedule| - 1]) then 1 else 0
  }

  function PutBacksIn(schedule: seq<Step>): nat {
    if schedule == [] then 0
    else PutBacksIn(schedule[..|schedule| - 1]) + if schedule[|schedule| - 1] == DrillPutBack then 1 else 0
  }

  lemma {:induction false} CountsJoin(a: seq<Step>, b: seq<Step>)
    ensures LiftsIn(a + b) == LiftsIn(a) + LiftsIn(b) && LowersIn(a + b) == LowersIn(a) + LowersIn(b)
    ensures PutBacksIn(a + b) == PutBacksIn(a) + PutBacksIn(b)
  {
    if b == [] {
      assert a + b == a;
    } else {
      assert (a + b)[..|a + b| - 1] == a + b[..|b| - 1];
      CountsJoin(a, b[..|b| - 1]);
    }
  }

  lemma {:induction false} NoneCounted(schedule: seq<Step>)
    ensures LiftsIn(schedule) == 0 ==> forall i :: 0 <= i < |schedule| ==> !Lifts(schedule[i])
    ensures LowersIn(schedule) == 0 ==> Calm(schedule)
    ensures PutBacksIn(schedule) == 0 ==> forall i :: 0 <= i < |schedule| ==> schedule[i] != DrillPutBack
  {
    if schedule != [] {
      NoneCounted(schedule[..|schedule| - 1]);
    }
  }

  /** Between two points of one trace: what is in force stays while nothing that
      lowers the switch was done, and a foreign stop while no operator unlinked. */
  lemma StopsStay(a: seq<Step>, s: State, whole: seq<Step>, t: State)
    requires Run(INITIAL, a) == Some(s) && Run(INITIAL, whole) == Some(t) && a <= whole
    ensures LowersIn(whole) == LowersIn(a) && InForce(s.files) ==> InForce(t.files)
    ensures LiftsIn(whole) == LiftsIn(a) && ForeignStop(s) ==> ForeignStop(t)
    ensures LiftsIn(whole) == LiftsIn(a) && PutBacksIn(whole) == PutBacksIn(a) ==> forall i :: Foreign(s, i) ==> Foreign(t, i)
  {
    var between := whole[|a|..];
    assert a + between == whole;
    RunJoin(INITIAL, a, s, between);
    CountsJoin(a, between);
    NoneCounted(between);
    InvRun(INITIAL, a);
    if LowersIn(between) == 0 && InForce(s.files) {
      assert between + [] == between;
      SparesRest(s, between, t, []);
    }
    if LiftsIn(between) == 0 && ForeignStop(s) {
      ForeignStopStays(s, between);
    }
    if LiftsIn(between) == 0 && PutBacksIn(between) == 0 {
      forall i | Foreign(s, i) ensures Foreign(t, i) {
        EachForeignStopStays(s, between, i);
      }
    }
  }

  lemma OperatorLeavesDrill(s: State, step: Step)
    requires IsOperators(step) && Next(s, step).Some?
    ensures Next(s, step).value.drill == s.drill && Next(s, step).value.drillId == s.drillId
  {
    assert DrillNext(s, step).None? && ReleaseNext(s, step).None?;
  }

  lemma CountsSnoc(trace: seq<Step>, step: Step)
    ensures LiftsIn(trace + [step]) == LiftsIn(trace) + if Lifts(step) then 1 else 0
    ensures LowersIn(trace + [step]) == LowersIn(trace) + if Lowers(step) then 1 else 0
    ensures PutBacksIn(trace + [step]) == PutBacksIn(trace) + if step == DrillPutBack then 1 else 0
  {
    assert (trace + [step])[..|trace|] == trace;
  }

  /** The phases a drill may come to by one system call of its own. */
  predicate Follows(d: Drill, step: Step, d': Drill) {
    match (step, d)
    case (DrillCreate, Idle) => d'.Created?
    case (DrillWrite, Created(_)) => d'.Written?
    case (DrillLink, Written(_)) => d'.Linked? || d'.Refused?
    case (DrillUnlinkTemp, Linked) => d' == Canary(true)
    case (DrillUnlinkTemp, Refused) => d' == Canary(false)
    case (DrillCanaryDone, Canary(owned)) => d' == if owned then Releasing else Idle
    case (DrillOpen, Releasing) => d'.Opened? || d'.Idle?
    case (DrillRead, Opened(_)) => d'.Verified? || d'.Idle?
    case (DrillRename, Verified) => d'.Claimed? || d'.Idle?
    case (DrillOpenClaim, Claimed(_)) => d'.ClaimOpened? || d'.NotMine?
    case (DrillReadClaim, ClaimOpened(_, _)) => d'.Mine? || d'.NotMine?
    case (DrillUnlinkClaim, Mine(_)) => d'.Idle?
    case (DrillPutBack, NotMine(_)) => d'.Idle?
    case _ => false
  }

  predicate CanTake(d: Drill, step: Step) {
    match step
    case DrillCreate => d.Idle?
    case DrillWrite => d.Created?
    case DrillLink => d.Written?
    case DrillUnlinkTemp => d.Linked? || d.Refused?
    case DrillCanaryDone => d.Canary?
    case DrillOpen => d.Releasing?
    case DrillRead => d.Opened?
    case DrillRename => d.Verified?
    case DrillOpenClaim => d.Claimed?
    case DrillReadClaim => d.ClaimOpened?
    case DrillUnlinkClaim => d.Mine?
    case DrillPutBack => d.NotMine?
    case _ => false
  }

  lemma TurnFollows(s: State, step: Step)
    requires CanTake(s.drill, step)
    ensures Next(s, step).Some? && Follows(s.drill, step, Next(s, step).value.drill)
    ensures step == DrillLink ==> InForce(Next(s, step).value.files)
  {}

  lemma LinkTells(s: State)
    requires s.drill.Written?
    ensures Next(s, DrillLink).Some? && InForce(Next(s, DrillLink).value.files)
    ensures Next(s, DrillLink).value.drill == if s.files.path.None? then Linked else Refused
  {}

  // ------------------------------------------------------------ what is recorded

  /**
   Every step taken so far by anybody, those of the drill, and how many could have
   lifted or lowered a stop; then where a reader began, the moves since, where it
   is, whether none of them could have turned the switch off, or on, and the claims it
   picked.
  */
  datatype Log = Log(trace: seq<Step>, own: seq<Step>, lifts: nat, lowers: nat, putBacks: nat,
                     began: State, known: seq<Step>, moves: seq<Move>, reader: Reader, calm: bool, unraised: bool, picks: seq<ClaimName>)
  {
    function After(step: Step): Log {
      Log(trace + [step], if IsOperators(step) then own else own + [step],
          lifts + (if Lifts(step) then 1 else 0), lowers + (if Lowers(step) then 1 else 0),
          putBacks + (if step == DrillPutBack then 1 else 0),
          began, known, moves + [Others(step)], reader, calm && !Lowers(step), unraised && !Raises(step), picks)
    }

    ghost predicate RunsTo(s: State) {
      Run(INITIAL, trace) == Some(s) && Counted()
    }

    ghost predicate Counted() {
      lifts == LiftsIn(trace) && lowers == LowersIn(trace) && putBacks == PutBacksIn(trace)
    }

    ghost predicate ReadsTo(s: State) {
      && Play(Scene(began, Ready), moves) == Some(Scene(s, reader))
      && trace == known + StepsOf(moves)
      && (calm ==> Calm(StepsOf(moves))) && (unraised ==> Unraised(StepsOf(moves)))
    }
  }

  lemma StepCounts(log: Log, step: Step)
    requires log.Counted()
    ensures log.After(step).Counted()
  {
    CountsSnoc(log.trace, step);
  }

  lemma StepRuns(log: Log, s: State, step: Step, t: State)
    requires log.RunsTo(s) && Next(s, step) == Some(t)
    ensures log.After(step).RunsTo(t)
  {
    StepCounts(log, step);
    RunSnoc(INITIAL, log.trace, s, step);
  }

  lemma StepReads(log: Log, s: State, step: Step)
    requires log.ReadsTo(s) && Next(s, step).Some?
    ensures log.After(step).ReadsTo(Next(s, step).value)
  {
    PlaySnoc(Scene(log.began, Ready), log.moves, Scene(s, log.reader), Others(step));
    PlayOne(Scene(s, log.reader), Others(step));
    StepsOfSnoc(log.moves, Others(step));
  }

  lemma LookReads(log: Log, s: State, pick: ClaimName)
    requires log.ReadsTo(s) && Read(s.files, log.reader, pick).Some?
    ensures log.(moves := log.moves + [Reads(pick)], reader := Read(s.files, log.reader, pick).value).ReadsTo(s)
  {
    PlaySnoc(Scene(log.began, Ready), log.moves, Scene(s, log.reader), Reads(pick));
    PlayOne(Scene(s, log.reader), Reads(pick));
    StepsOfSnoc(log.moves, Reads(pick));
  }

  lemma StayFrom(before: Log, s: State, after: Log, t: State)
    requires before.RunsTo(s) && after.RunsTo(t) && before.trace <= after.trace
    ensures after.lowers == before.lowers && InForce(s.files) ==> InForce(t.files)
    ensures after.lifts == before.lifts && ForeignStop(s) ==> ForeignStop(t)
    ensures after.lifts == before.lifts && after.putBacks == before.putBacks ==> forall i :: Foreign(s, i) ==> Foreign(t, i)
  {
    StopsStay(before.trace, s, after.trace, t);
  }

  /** From one log to a later one: only operators have moved; if quietly, none
      unlinked a stop. */
  predicate Waited(a: Log, b: Log, quiet: bool, unraised: bool) {
    && b.own == a.own && a.trace <= b.trace && b.began == a.began && b.known == a.known
    && (quiet ==> b.lifts == a.lifts && b.lowers == a.lowers && b.calm == a.calm)
    && (unraised ==> b.unraised == a.unraised)
  }

  /** From one log to a later one: the drill took these steps; if quietly, no
      operator unlinked a stop. */
  predicate Went(a: Log, b: Log, quiet: bool, steps: seq<Step>) {
    b.own == a.own + steps && a.trace <= b.trace && (quiet ==> b.lifts == a.lifts)
  }

  lemma OneWaits(log: Log, step: Step)
    requires IsOperators(step)
    ensures Waited(log, log.After(step), !Lifts(step), !Raises(step)) && log.After(step).reader == log.reader
  {}

  /** Where a call of the drill's began: its steps up to then, and the switch. */
  datatype Base = Base(own: seq<Step>, s: State)

  // ------------------------------------------------------------ the running system

  class Switch {
    var s: State
    ghost var log: Log

    ghost predicate Valid()
      reads this
    {
      log.RunsTo(s) && log.ReadsTo(s)
    }

    constructor ()
      ensures Valid() && s == INITIAL && log.trace == []
    {
      s, log := INITIAL, Log([], [], 0, 0, 0, INITIAL, [], [], Ready, true, true, []);
    }

    lemma Sound()
      requires Valid()
      ensures Reachable(s) && Inv(s)
    {
      ReachableInv(s);
    }

    /** One system call. */
    method Do(step: Step)
      requires Valid() && Next(s, step).Some?
      modifies this
      ensures Valid() && Next(old(s), step) == Some(s) && log == old(log).After(step)
    {
      StepRuns(log, s, step, Next(s, step).value);
      StepReads(log, s, step);
      s, log := Next(s, step).value, log.After(step);
    }

    /** One operator tries one step. */
    method OneMoves(step: Step)
      requires Valid() && IsOperators(step)
      modifies this
      ensures Valid() && s.drill == old(s).drill && s.drillId == old(s).drillId
      ensures s == Tried(old(s), step)
      ensures Waited(old(log), log, !Lifts(step), !Raises(step)) && log.reader == old(log).reader && log.picks == old(log).picks
    {
      var applies := Next(s, step).Some?;
      if applies {
        OperatorLeavesDrill(s, step);
        OneWaits(log, step);
        Do(step);
      }
    }

    /** Operators move: each step of theirs that applies is taken. */
    method OthersMove(steps: seq<Step>)
      requires Valid()
      modifies this
      ensures Valid() && s == OperatorsTry(old(s), steps) && s.drill == old(s).drill && s.drillId == old(s).drillId
      ensures Waited(old(log), log, Quiet(steps), Unraised(steps)) && log.reader == old(log).reader && log.picks == old(log).picks
    {
      for k := 0 to |steps|
        invariant Valid() && s == TryFirst(old(s), steps, k) && s.drill == old(s).drill && s.drillId == old(s).drillId
        invariant Waited(old(log), log, Quiet(steps), Unraised(steps)) && log.reader == old(log).reader && log.picks == old(log).picks
      {
        if IsOperators(steps[k]) {
          OneMoves(steps[k]);
        }
      }
    }

    // ---------------------------------------------------------- reading

    ghost method BeginReading()
      requires Valid()
      modifies this`log
      ensures Valid() && log == old(log).(began := s, known := log.trace, moves := [], reader := Ready, calm := true, unraised := true, picks := [])
    {
      log := log.(began := s, known := log.trace, moves := [], reader := Ready, calm := true, unraised := true, picks := []);
    }

    /** One read of a reader. */
    ghost method Look(pick: ClaimName)
      requires Valid() && Read(s.files, log.reader, pick).Some?
      modifies this`log
      ensures Valid() && Waited(old(log), log, true, true) && Read(s.files, old(log).reader, pick) == Some(log.reader)
      ensures log.picks == old(log).picks + [pick]
    {
      LookReads(log, s, pick);
      log := log.(moves := log.moves + [Reads(pick)], reader := Read(s.files, log.reader, pick).value, picks := log.picks + [pick]);
    }

    /** The reading so far is what the operators' turns and its picks make it. */
    ghost predicate OnWatch(others: Interference)
      reads this
    {
      Watched(Scene(log.began, Ready), others, log.picks) == Some(Scene(s, log.reader))
    }

    /** Operators take their turn, and then one read is made. */
    method Glance(others: Interference, k: nat, pick: ClaimName)
      requires Valid() && OnWatch(others) && k == |log.picks|
      requires !log.reader.Answer? && (log.reader.Scanning? ==> log.reader.left == {} || pick in log.reader.left)
      modifies this
      ensures Valid() && OnWatch(others) && s.drill == old(s).drill && |log.picks| == k + 1
      ensures Waited(old(log), log, NobodyLifts(others), NobodyStops(others))
      ensures Read(s.files, old(log).reader, pick) == Some(log.reader)
    {
      WatchedSnoc(Scene(log.began, Ready), others, log.picks, Scene(s, log.reader), pick);
      OthersMove(others(k));
      Look(pick);
    }

    /** is_engaged: the path, every listed claim, the path again. */
    method Scan(others: Interference) returns (engaged: bool)
      requires Valid() && OnWatch(others) && log.picks == [] && log.reader == Ready
      modifies this
      ensures Valid() && OnWatch(others) && s.drill == old(s).drill
      ensures Waited(old(log), log, NobodyLifts(others), NobodyStops(others)) && log.reader == Answer(engaged)
    {
      Glance(others, 0, 0);
      engaged := s.files.path.Some?;
      if !engaged {
        Glance(others, 1, 0);
        engaged := ScanClaims(others, s.files.claims.Keys);
      }
    }

    method ScanClaims(others: Interference, claims: set<ClaimName>) returns (engaged: bool)
      requires Valid() && OnWatch(others) && |log.picks| == 2 && log.reader == Scanning(claims)
      modifies this
      ensures Valid() && OnWatch(others) && s.drill == old(s).drill
      ensures Waited(old(log), log, NobodyLifts(others), NobodyStops(others)) && log.reader == Answer(engaged)
    {
      var left, k := claims, 2;
      while left != {}
        invariant Valid() && OnWatch(others) && s.drill == old(s).drill && k == |log.picks|
        invariant Waited(old(log), log, NobodyLifts(others), NobodyStops(others)) && log.reader == Scanning(left)
        decreases |left|
      {
        var pick :| pick in left;
        Glance(others, k, pick);
        engaged := pick in s.files.claims;
        if engaged {
          return;
        }
        left, k := left - {pick}, k + 1;
      }
      Glance(others, k, 0);
      engaged := s.files.path.Some?;
    }

    /** True whenever a stop was in force throughout the call, and so, whatever the
        drill was at, whenever one was in force at its start and nobody unlinked one;
        False whenever none was and nobody engaged one. */
    method IsEngaged(others: Interference) returns (engaged: bool)
      requires Valid()
      modifies this
      ensures Valid() && s.drill == old(s).drill
      ensures Watched(Scene(old(s), Ready), others, log.picks) == Some(Scene(s, Answer(engaged)))
      ensures Went(old(log), log, NobodyLifts(others), [])
      ensures log.began == old(s) && log.known == old(log).trace && log.reader == Answer(engaged)
      ensures NobodyLifts(others) ==> Calm(StepsOf(log.moves))
      ensures Steady(old(s), log.moves) ==> engaged
      ensures NobodyLifts(others) && InForce(old(s).files) ==> engaged
      ensures NobodyStops(others) && !InForce(old(s).files) ==> !engaged
    {
      ghost var start := s;
      Sound();
      BeginReading();
      engaged := Scan(others);
      if NobodyLifts(others) && InForce(start.files) {
        SteadyWhenSpared(start, log.moves);
      }
      if NobodyStops(others) && !InForce(start.files) {
        FindsNothing(Reading(start, log.moves), s, engaged);
      }
      if Steady(start, log.moves) {
        ReaderIsNotFooled(start, log.moves);
      }
    }

    // ---------------------------------------------------------- the drill

    /** Operators move, and then the drill makes its next system call. */
    method Turn(steps: seq<Step>, step: Step)
      requires Valid() && CanTake(s.drill, step)
      modifies this
      ensures Valid() && Follows(old(s).drill, step, s.drill) && Next(OperatorsTry(old(s), steps), step) == Some(s)
      ensures step == DrillLink ==> InForce(s.files)
      ensures Went(old(log), log, Quiet(steps), [step])
      ensures Quiet(steps) && step != DrillUnlinkClaim ==> log.lowers == old(log).lowers
    {
      OthersMove(steps);
      TurnFollows(s, step);
      Do(step);
    }

    /** Since the base the switch has gone as the drill's own steps and the operators'
        turns before each of them make it. */
    ghost predicate Wove(others: Interference, base: Base)
      reads this
    {
      base.own <= log.own && Woven(base.s, others, log.own[|base.own|..]) == Some(s)
    }

    /** The k-th turn of the operators, and the drill's k-th own step since the base. */
    method TakeTurn(others: Interference, k: nat, step: Step, ghost base: Base)
      requires Valid() && CanTake(s.drill, step) && Wove(others, base) && |log.own| == |base.own| + k
      modifies this
      ensures Valid() && Follows(old(s).drill, step, s.drill) && Wove(others, base)
      ensures step == DrillLink ==> InForce(s.files)
      ensures Went(old(log), log, NobodyLifts(others), [step])
      ensures NobodyLifts(others) && step != DrillUnlinkClaim ==> log.lowers == old(log).lowers
    {
      WovenSnoc(base.s, others, log.own[|base.own|..], s, step);
      Turn(others(k), step);
      assert log.own[|base.own|..] == old(log).own[|base.own|..] + [step];
    }

    /** The drill's private file, with its marker. */
    method Prepare(others: Interference, ghost base: Base)
      requires Valid() && s.drill.Idle? && Wove(others, base) && log.own == base.own
      modifies this
      ensures Valid() && s.drill.Written? && Wove(others, base)
      ensures Went(old(log), log, NobodyLifts(others), [DrillCreate, DrillWrite])
    {
      TakeTurn(others, 0, DrillCreate, base);
      TakeTurn(others, 1, DrillWrite, base);
    }

    /** The link, which tells whether the path was free at that very moment. */
    method Link(others: Interference, ghost base: Base) returns (free: bool, ghost linking: Log, ghost before: State)
      requires Valid() && s.drill.Written? && Wove(others, base) && |log.own| == |base.own| + 2
      modifies this
      ensures Valid() && InForce(s.files) && s.drill == (if free then Linked else Refused) && Wove(others, base)
      ensures Went(old(log), log, NobodyLifts(others), [DrillLink])
      ensures linking.RunsTo(before) && old(log).trace <= linking.trace && log.trace == linking.trace + [DrillLink]
      ensures free <==> before.files.path.None?
    {
      WovenSnoc(base.s, others, log.own[|base.own|..], s, DrillLink);
      OthersMove(others(2));
      free := s.files.path.None?;
      linking, before := log, s;
      LinkTells(s);
      Do(DrillLink);
      assert log.own[|base.own|..] == old(log).own[|base.own|..] + [DrillLink];
    }

    /** The link, and the private file's name taken away. */
    method Place(others: Interference, ghost base: Base) returns (owned: bool, ghost linking: Log, ghost before: State)
      requires Valid() && s.drill.Written? && Wove(others, base) && |log.own| == |base.own| + 2
      modifies this
      ensures Valid() && s.drill == Canary(owned) && Wove(others, base)
      ensures Went(old(log), log, NobodyLifts(others), [DrillLink, DrillUnlinkTemp])
      ensures linking.RunsTo(before) && old(log).trace <= linking.trace && linking.trace + [DrillLink] <= log.trace
      ensures owned <==> before.files.path.None?
      ensures NobodyLifts(others) ==> InForce(s.files)
    {
      owned, linking, before := Link(others, base);
      ghost var linked, known := s, log;
      TakeTurn(others, 3, DrillUnlinkTemp, base);
      StayFrom(known, linked, log, s);
    }

    /** engage_exclusive: whether the stop is this drill's own, that is, whether no stop
        was at the path when it linked its own there. */
    method EngageExclusive(others: Interference) returns (owned: bool, ghost linking: Log, ghost before: State)
      requires Valid() && s.drill.Idle?
      modifies this
      ensures Valid() && s.drill == Canary(owned)
      ensures Went(old(log), log, NobodyLifts(others), [DrillCreate, DrillWrite, DrillLink, DrillUnlinkTemp])
      ensures Woven(old(s), others, [DrillCreate, DrillWrite, DrillLink, DrillUnlinkTemp]) == Some(s)
      ensures linking.RunsTo(before) && old(log).trace <= linking.trace && linking.trace + [DrillLink] <= log.trace
      ensures owned <==> before.files.path.None?
      ensures NobodyLifts(others) ==> InForce(s.files)
    {
      ghost var base := Base(log.own, s);
      Prepare(others, base);
      owned, linking, before := Place(others, base);
      assert log.own[|base.own|..] == [DrillCreate, DrillWrite, DrillLink, DrillUnlinkTemp];
    }

    /** The first look at the path: whether it holds the drill's marker. */
    method Holds(others: Interference, ghost base: Base) returns (mine: bool)
      requires Valid() && s.drill.Releasing? && Wove(others, base) && log.own == base.own
      modifies this
      ensures Valid() && s.drill == (if mine then Verified else Idle) && Wove(others, base)
      ensures
        || Went(old(log), log, NobodyLifts(others), [DrillOpen, DrillRead])
        || (!mine && Went(old(log), log, NobodyLifts(others), [DrillOpen]))
    {
      TakeTurn(others, 0, DrillOpen, base);
      if s.drill.Opened? {
        TakeTurn(others, 1, DrillRead, base);
      }
      mine := s.drill.Verified?;
    }

    /** The second look, at the claim: whether it still holds the drill's marker, and how
        many turns the operators have had. */
    method StillHolds(others: Interference, ghost base: Base) returns (mine: bool, turns: nat)
      requires Valid() && s.drill.Claimed? && Wove(others, base) && |log.own| == |base.own| + 3
      modifies this
      ensures Valid() && (if mine then s.drill.Mine? else s.drill.NotMine?)
      ensures Wove(others, base) && |log.own| == |base.own| + turns
      ensures
        || Went(old(log), log, NobodyLifts(others), [DrillOpenClaim, DrillReadClaim])
        || (!mine && Went(old(log), log, NobodyLifts(others), [DrillOpenClaim]))
    {
      TakeTurn(others, 3, DrillOpenClaim, base);
      turns := 4;
      if s.drill.ClaimOpened? {
        TakeTurn(others, 4, DrillReadClaim, base);
        turns := 5;
      }
      mine := s.drill.Mine?;
    }

    /** The claim is unlinked when it still holds the marker, put back when not. */
    method Settle(others: Interference, ghost base: Base) returns (lifted: bool)
      requires Valid() && s.drill.Claimed? && Wove(others, base) && |log.own| == |base.own| + 3
      modifies this
      ensures Valid() && s.drill.Idle? && Wove(others, base)
      ensures old(log).trace <= log.trace && (NobodyLifts(others) ==> log.lifts == old(log).lifts)
      ensures lifted ==> log.own == old(log).own + [DrillOpenClaim, DrillReadClaim, DrillUnlinkClaim]
      ensures !lifted ==> log.own != [] && log.own[|log.own| - 1] == DrillPutBack
    {
      var turns;
      lifted, turns := StillHolds(others, base);
      if lifted {
        TakeTurn(others, turns, DrillUnlinkClaim, base);
      } else {
        TakeTurn(others, turns, DrillPutBack, base);
      }
    }

    /** From the rename on: the path may have been freed meanwhile. */
    method Reclaim(others: Interference, ghost base: Base) returns (lifted: bool)
      requires Valid() && s.drill.Verified? && Wove(others, base) && |log.own| == |base.own| + 2
      modifies this
      ensures Valid() && s.drill.Idle? && Wove(others, base)
      ensures old(log).trace <= log.trace && (NobodyLifts(others) ==> log.lifts == old(log).lifts)
      ensures lifted ==> log.own == old(log).own + [DrillRename, DrillOpenClaim, DrillReadClaim, DrillUnlinkClaim]
    {
      TakeTurn(others, 2, DrillRename, base);
      lifted := s.drill.Claimed?;
      if lifted {
        lifted := Settle(others, base);
      }
    }

    /** disengage_if_owned: whether it unlinked a claim, after reading its own marker
        twice. */
    method DisengageIfOwned(others: Interference) returns (lifted: bool)
      requires Valid() && s.drill.Releasing?
      modifies this
      ensures Valid() && s.drill.Idle?
      ensures old(log).trace <= log.trace && (NobodyLifts(others) ==> log.lifts == old(log).lifts)
      ensures old(log).own <= log.own && Woven(old(s), others, log.own[|old(log).own|..]) == Some(s)
      ensures lifted ==>
        log.own == old(log).own + [DrillOpen, DrillRead, DrillRename, DrillOpenClaim, DrillReadClaim, DrillUnlinkClaim]
    {
      ghost var base := Base(log.own, s);
      lifted := Holds(others, base);
      if lifted {
        lifted := Reclaim(others, base);
      }
    }

    /**
     kill_switch_drill. Whether the canary was stopped is what its reading of the switch
     said, made while the drill waited. Unless an operator unlinks a stop meanwhile, it is
     stopped, some foreign stop is left if there was one, and every single one is
     left if the drill handed none back.
    */
    method KillSwitchDrill(before: Interference, during: Interference, after: Interference)
      returns (preempted: bool, ghost known: seq<Step>, ghost canary: Reading)
      requires Valid() && s.drill.Idle?
      modifies this
      ensures Valid() && s.drill.Idle?
      ensures old(log).trace <= known && known + StepsOf(canary.moves) <= log.trace
      ensures Run(INITIAL, known) == Some(canary.start) && canary.start.drill.Canary?
      ensures exists ends :: Took(canary, ends, preempted)
      ensures NobodyLifts(before) && NobodyLifts(during) ==> preempted
      ensures NobodyLifts(before) && NobodyLifts(during) && NobodyLifts(after) ==>
        && (ForeignStop(old(s)) ==> ForeignStop(s))
        && (log.putBacks == old(log).putBacks ==> forall i :: Foreign(old(s), i) ==> Foreign(s, i))
    {
      ghost var start, first := s, log;
      var owned, _, _ := EngageExclusive(before);
      preempted := IsEngaged(during);
      known, canary := log.known, Reading(log.began, log.moves);
      assert Took(canary, s, preempted);
      Turn([], DrillCanaryDone);
      if owned {
        var lifted := DisengageIfOwned(after);
      }
      StayFrom(first, start, log, s);
    }

    // ---------------------------------------------------------- operators

    method OpenStop(op: Operator)
      requires Valid() && op !in s.engaging
      modifies this
      ensures Valid() && s.drill == old(s).drill && ForeignStop(s) && Next(old(s), EngageOpen(op)) == Some(s)
    {
      Sound();
      EngageStops(s, op);
      OperatorLeavesDrill(s, EngageOpen(op));
      Do(EngageOpen(op));
    }

    /** engage: opening the path empties the stop there or makes one, then the text
        is written. The switch is on from the first of the two. */
    method Engage(op: Operator, others: Interference)
      requires Valid() && op !in s.engaging
      modifies this
      ensures Valid() && s.drill == old(s).drill
      ensures Next(old(s), EngageOpen(op)).Some?
      ensures s == Tried(OperatorsTry(Next(old(s), EngageOpen(op)).value, others(0)), EngageWrite(op, OPERATOR_TEXT.text))
      ensures NobodyLifts(others) ==> ForeignStop(s)
    {
      OpenStop(op);
      ghost var stopped, known := s, log;
      OthersMove(others(0));
      OneMoves(EngageWrite(op, OPERATOR_TEXT.text));
      StayFrom(known, stopped, log, s);
    }

    /** Anybody else tries a step, the drill included. */
    method AnyoneMoves(step: Step, op: Operator)
      requires Valid() && !OfDisengage(step, op)
      modifies this
      ensures Valid() && SameList(old(s), s, op)
      ensures s == Tried(old(s), step)
      ensures Harmless(step, op) && GoingOff(old(s), op) ==> GoingOff(s, op)
    {
      if Next(s, step).Some? {
        Sound();
        OthersKeepList(s, step, op);
        if Harmless(step, op) && GoingOff(s, op) {
          GoesOnNext(s, op, step);
        }
        Do(step);
      }
    }

    method EverybodyMoves(steps: seq<Step>, op: Operator)
      requires Valid()
      modifies this
      ensures Valid() && SameList(old(s), s, op) && s == EverybodyTries(old(s), steps, op)
      ensures NobodyEngages(steps, op) && GoingOff(old(s), op) ==> GoingOff(s, op)
    {
      for k := 0 to |steps|
        invariant Valid() && SameList(old(s), s, op) && s == AllTryFirst(old(s), steps, op, k)
        invariant NobodyEngages(steps, op) && GoingOff(old(s), op) ==> GoingOff(s, op)
      {
        if !OfDisengage(steps[k], op) {
          AnyoneMoves(steps[k], op);
        }
      }
    }

    method UnlinkPath(op: Operator)
      requires Valid() && op !in s.lifting
      modifies this
      ensures Valid() && op in s.lifting && s.lifting[op].PathUnlinked? && Next(old(s), LiftPath(op)) == Some(s)
      ensures !HandingBack(old(s)) ==> GoingOff(s, op)
    {
      Sound();
      FirstUnlink(s, op);
      Do(LiftPath(op));
    }

    method ListClaims(op: Operator)
      requires Valid() && op in s.lifting && s.lifting[op].PathUnlinked?
      modifies this
      ensures Valid() && op in s.lifting && s.lifting[op] == Scanned(s.files.claims.Keys) && Next(old(s), LiftScan(op)) == Some(s)
      ensures GoingOff(old(s), op) ==> GoingOff(s, op)
    {
      assert Next(s, LiftScan(op)) == OperatorNext(s, LiftScan(op));
      Do(LiftScan(op));
    }

    method UnlinkClaim(op: Operator, claim: ClaimName)
      requires Valid() && op in s.lifting && s.lifting[op].Scanned? && claim in s.lifting[op].claims
      modifies this
      ensures Valid() && op in s.lifting && s.lifting[op] == Scanned(old(s).lifting[op].claims - {claim})
      ensures Next(old(s), LiftClaim(op, claim)) == Some(s)
      ensures GoingOff(old(s), op) ==> GoingOff(s, op)
    {
      Sound();
      assert Next(s, LiftClaim(op, claim)) == OperatorNext(s, LiftClaim(op, claim));
      if GoingOff(s, op) {
        GoesOnNext(s, op, LiftClaim(op, claim));
      }
      Do(LiftClaim(op, claim));
    }

    /**
     disengage: unlink the path, list the claims, unlink each, while everybody else
     moves in between. It leaves nothing of the switch unless somebody engaged
     meanwhile or a release was about to hand a stop back.
    */
    method Disengage(op: Operator, others: Interference) returns (ghost picks: seq<ClaimName>)
      requires Valid() && op !in s.lifting
      modifies this
      ensures Valid() && Through(s, op) && Disengaged(old(s), op, others, picks) == Some(s)
      ensures (forall k :: NobodyEngages(others(k), op)) && !HandingBack(old(s)) ==> !InForce(s.files)
    {
      ghost var calm := (forall k :: NobodyEngages(others(k), op)) && !HandingBack(s);
      UnlinkPath(op);
      EverybodyMoves(others(0), op);
      ListClaims(op);
      picks := [];
      var left, k := s.files.claims.Keys, 1;
      while left != {}
        invariant Valid() && op in s.lifting && s.lifting[op] == Scanned(left)
        invariant calm ==> GoingOff(s, op)
        invariant k == |picks| + 1 && Disengaged(old(s), op, others, picks) == Some(s)
        decreases |left|
      {
        var claim :| claim in left;
        DisengagedSnoc(old(s), op, others, picks, s, claim);
        EverybodyMoves(others(k), op);
        UnlinkClaim(op, claim);
        left, k, picks := left - {claim}, k + 1, picks + [claim];
      }
      if calm {
        ThroughIsOff(s, op);
      }
    }
  }
}

/** is_engaged reads the switch in several steps while others move it. */
module KillSwitchReader {
  import opened Wrappers
  import opened KillSwitch
  import opened KillSwitchRuns

  /** Where one call of is_engaged is; `left` holds the listed claims not looked at yet. */
  datatype Reader = Ready | PathAbsent | Scanning(left: set<ClaimName>) | Answer(engaged: bool)

  /** One read: the path, the list of claims, a listed claim, the path again.
      `pick` names the claim looked at; None when it was not listed. */
  function Read(f: Files, r: Reader, pick: ClaimName): Option<Reader> {
    match r
    case Ready => Some(if f.path.Some? then Answer(true) else PathAbsent)
    case PathAbsent => Some(Scanning(f.claims.Keys))
    case Scanning(left) =>
      if left == {} then Some(Answer(f.path.Some?))
      else if pick !in left then None
      else if pick in f.claims then Some(Answer(true))
      else Some(Scanning(left - {pick}))
    case Answer(_) => None
  }

  datatype Move = Others(step: Step) | Reads(pick: ClaimName)

  datatype Scene = Scene(s: State, r: Reader)

  function Play(scene: Scene, moves: seq<Move>): Option<Scene>
    decreases |moves|
  {
    if moves == [] then Some(scene)
    else
      match moves[0]
      case Others(step) =>
        var next := Next(scene.s, step);
        if next.None? then None else Play(scene.(s := next.value), moves[1..])
      case Reads(pick) =>
        var r := Read(scene.s.files, scene.r, pick);
        if r.None? then None else Play(scene.(r := r.value), moves[1..])
  }

  /** A stop is in force at every moment, and no operator unlinks one meanwhile. */
  ghost predicate Steady(s: State, moves: seq<Move>)
    decreases |moves|
  {
    && InForce(s.files)
    && (moves == []
        || match moves[0]
           case Reads(_) => Steady(s, moves[1..])
           case Others(step) =>
             !Lifts(step) && (Next(s, step).Some? ==> Steady(Next(s, step).value, moves[1..])))
  }

  /** A stop no release under way can move: at the path, with no drill owning it. */
  predicate SafePath(s: State) {
    s.files.path.Some? && !Owner(s.drill)
  }

  /** Why the rest of the call will find a stop. */
  ghost predicate WillFind(s: State, r: Reader) {
    match r
    case Ready => true
    case PathAbsent => SafePath(s) || s.files.claims.Keys != {}
    case Scanning(left) =>
      || SafePath(s)
      || (exists n :: n in left && n in s.files.claims && OwnClaim(s.drill) != Some(n))
      || (OwnClaim(s.drill).Some? && OwnClaim(s.drill).value in s.files.claims && s.files.claims.Keys <= left)
    case Answer(engaged) => engaged
  }

  lemma WillFindAfterRead(s: State, r: Reader, pick: ClaimName)
    requires InForce(s.files) && WillFind(s, r) && Read(s.files, r, pick).Some?
    ensures WillFind(s, Read(s.files, r, pick).value)
  {
    var f := s.files;
    match r
    case PathAbsent =>
      if !SafePath(s) {
        var n :| n in f.claims.Keys;
        assert n in f.claims;
      }
    case Scanning(left) =>
      if left != {} && pick !in f.claims && !SafePath(s) {
        if n :| n in left && n in f.claims && OwnClaim(s.drill) != Some(n) {
          assert n in left - {pick};
        }
      }
    case _ =>
  }

  lemma WillFindAfterDrill(s: State, r: Reader, step: Step)
    requires Inv(s) && DrillNext(s, step).Some?
    requires InForce(s.files) && InForce(DrillNext(s, step).value.files) && WillFind(s, r)
    ensures WillFind(DrillNext(s, step).value, r)
  {
    var s' := DrillNext(s, step).value;
    if r.Scanning? && !SafePath(s) {
      if n :| n in r.left && n in s.files.claims && OwnClaim(s.drill) != Some(n) {
        assert n in s'.files.claims && OwnClaim(s'.drill) != Some(n);
      }
    }
  }

  lemma WillFindAfterRelease(s: State, r: Reader, step: Step)
    requires Inv(s) && ReleaseNext(s, step).Some?
    requires InForce(s.files) && InForce(ReleaseNext(s, step).value.files) && WillFind(s, r)
    ensures WillFind(ReleaseNext(s, step).value, r)
  {
    var s' := ReleaseNext(s, step).value;
    if r.Scanning? && !SafePath(s) {
      if n :| n in r.left && n in s.files.claims && OwnClaim(s.drill) != Some(n) {
        assert n in s'.files.claims && OwnClaim(s'.drill) != Some(n);
      }
    }
  }

  lemma WillFindAfterOperator(s: State, r: Reader, step: Step)
    requires Inv(s) && OperatorNext(s, step).Some? && !Lifts(step)
    requires InForce(s.files) && InForce(OperatorNext(s, step).value.files) && WillFind(s, r)
    ensures WillFind(OperatorNext(s, step).value, r)
  {
    var s' := OperatorNext(s, step).value;
    if r.Scanning? && !SafePath(s) {
      if n :| n in r.left && n in s.files.claims && OwnClaim(s.drill) != Some(n) {
        assert n in s'.files.claims && OwnClaim(s'.drill) != Some(n);
      }
    }
  }

  lemma {:induction false} WillFindOverall(scene: Scene, moves: seq<Move>)
    requires Inv(scene.s) && WillFind(scene.s, scene.r) && Steady(scene.s, moves)
    requires Play(scene, moves).Some?
    ensures WillFind(Play(scene, moves).value.s, Play(scene, moves).value.r)
    decreases |moves|
  {
    if moves != [] {
      match moves[0]
      case Reads(pick) =>
        WillFindAfterRead(scene.s, scene.r, pick);
        WillFindOverall(scene.(r := Read(scene.s.files, scene.r, pick).value), moves[1..]);
      case Others(step) =>
        InvNext(scene.s, step);
        if DrillNext(scene.s, step).Some? {
          WillFindAfterDrill(scene.s, scene.r, step);
        } else if ReleaseNext(scene.s, step).Some? {
          WillFindAfterRelease(scene.s, scene.r, step);
        } else {
          WillFindAfterOperator(scene.s, scene.r, step);
        }
        WillFindOverall(scene.(s := Next(scene.s, step).value), moves[1..]);
    }
  }

  /** is_engaged never answers False about a switch that was on throughout the
      call, whatever drills and engages did between its reads. */
  lemma ReaderIsNotFooled(s: State, moves: seq<Move>)
    requires Reachable(s) && Steady(s, moves)
    requires Play(Scene(s, Ready), moves).Some?
    ensures Play(Scene(s, Ready), moves).value.r != Answer(false)
  {
    ReachableInv(s);
    WillFindOverall(Scene(s, Ready), moves);
  }

  // ------------------------------------------------------------ readings under a stop

  /** The steps others took. */
  function StepsOf(moves: seq<Move>): seq<Step> {
    if moves == [] then []
    else
      match moves[0]
      case Others(step) => [step] + StepsOf(moves[1..])
      case Reads(_) => StepsOf(moves[1..])
  }

  /** A switch whose stop the others spare is on throughout. */
  lemma {:induction false} SteadyWhenSpared(s: State, moves: seq<Move>)
    requires Inv(s) && Spares(s, StepsOf(moves))
    ensures Steady(s, moves)
    decreases |moves|
  {
    SparedIsInForce(s, StepsOf(moves));
    if moves != [] {
      match moves[0]
      case Reads(_) => SteadyWhenSpared(s, moves[1..]);
      case Others(step) =>
        assert StepsOf(moves)[0] == step && StepsOf(moves)[1..] == StepsOf(moves[1..]);
        if Next(s, step).Some? {
          InvNext(s, step);
          SparesNext(s, StepsOf(moves));
          SteadyWhenSpared(Next(s, step).value, moves[1..]);
        }
    }
  }

  lemma {:induction false} StepsOfSnoc(moves: seq<Move>, move: Move)
    ensures StepsOf(moves + [move]) == StepsOf(moves) + if move.Others? then [move.step] else []
  {
    if moves == [] {
      assert moves + [move] == [move] && [move][1..] == [];
    } else {
      assert (moves + [move])[1..] == moves[1..] + [move];
      StepsOfSnoc(moves[1..], move);
    }
  }

  lemma {:induction false} PlayRuns(scene: Scene, moves: seq<Move>)
    requires Play(scene, moves).Some?
    ensures Run(scene.s, StepsOf(moves)) == Some(Play(scene, moves).value.s)
    decreases |moves|
  {
    if moves != [] {
      match moves[0]
      case Others(step) =>
        var t := Next(scene.s, step).value;
        PlayRuns(scene.(s := t), moves[1..]);
        RunCons(scene.s, step, t, StepsOf(moves[1..]));
      case Reads(pick) => PlayRuns(scene.(r := Read(scene.s.files, scene.r, pick).value), moves[1..]);
    }
  }

  /** A call of is_engaged: where the switch was when it began, and what happened
      up to its answer. */
  datatype Reading = Reading(start: State, moves: seq<Move>)

  /** The reading ends with the switch at `ends`, and with this answer. */
  predicate Took(reading: Reading, ends: State, engaged: bool) {
    Play(Scene(reading.start, Ready), reading.moves) == Some(Scene(ends, Answer(engaged)))
  }

  /** A reading finds a stop that the others spare. */
  lemma FindsWhatIsSpared(reading: Reading, ends: State, engaged: bool)
    requires Reachable(reading.start) && Took(reading, ends, engaged) && Spares(reading.start, StepsOf(reading.moves))
    ensures engaged
  {
    ReachableInv(reading.start);
    SteadyWhenSpared(reading.start, reading.moves);
    ReaderIsNotFooled(reading.start, reading.moves);
  }

  // ------------------------------------------------------------ readings without a stop

  /** A reading that answers True met a stop: at some moment of it one was in force. */
  lemma {:induction false} TrueMeansAStop(scene: Scene, moves: seq<Move>) returns (n: nat)
    requires scene.r != Answer(true) && Play(scene, moves).Some? && Play(scene, moves).value.r == Answer(true)
    ensures n <= |moves| && Play(scene, moves[..n]).Some? && InForce(Play(scene, moves[..n]).value.s.files)
    decreases |moves|
  {
    var next := if moves[0].Others? then scene.(s := Next(scene.s, moves[0].step).value)
                else scene.(r := Read(scene.s.files, scene.r, moves[0].pick).value);
    if next.r == Answer(true) {
      n := 0;
      if scene.r.Scanning? && scene.r.left != {} {
        assert moves[0].pick in scene.s.files.claims.Keys;
      }
    } else {
      var m := TrueMeansAStop(next, moves[1..]);
      n := m + 1;
      assert moves[..n][0] == moves[0] && moves[..n][1..] == moves[1..][..m];
    }
  }

  lemma {:induction false} OffOverall(scene: Scene, moves: seq<Move>)
    requires !InForce(scene.s.files) && Unraised(StepsOf(moves)) && scene.r != Answer(true) && Play(scene, moves).Some?
    ensures Play(scene, moves).value.r != Answer(true)
    decreases |moves|
  {
    if moves != [] {
      match moves[0]
      case Reads(pick) =>
        OffOverall(scene.(r := Read(scene.s.files, scene.r, pick).value), moves[1..]);
      case Others(step) =>
        assert StepsOf(moves)[0] == step && StepsOf(moves)[1..] == StepsOf(moves[1..]);
        if InForce(Next(scene.s, step).value.files) {
          HowTheSwitchGoesOn(scene.s, step);
        }
        OffOverall(scene.(s := Next(scene.s, step).value), moves[1..]);
    }
  }

  /** A reading that begins with no stop finds none unless one is engaged meanwhile. */
  lemma FindsNothing(reading: Reading, ends: State, engaged: bool)
    requires Took(reading, ends, engaged) && !InForce(reading.start.files) && Unraised(StepsOf(reading.moves))
    ensures !engaged
  {
    OffOverall(Scene(reading.start, Ready), reading.moves);
  }
}

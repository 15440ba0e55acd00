/** What every run of the harness keeps, whatever its collaborators answer. */
module LoopRuns {
  import opened Wrappers
  import opened Harness
  import opened Ladder
  import opened LoopSteps

  // ------------------------------------------------------------ reading a trace

  /** What a trace amounts to. */
  datatype Tally = Tally(
    rounds: nat,                 // coder rounds
    tags: seq<string>,           // the rewind tags left, in order
    unnetted: nat,               // rounds that changed code and left no tag
    receipts: seq<string>,
    gates: seq<GateResult>,
    rungs: seq<Rung>,
    unchecked: bool,             // a coder round since the last gate check
    judgedFine: bool)            // the judge accepted what the last gate check saw

  function Tick(t: Tally, e: Event): Tally {
    match e
    case Coded(_, r) =>
      t.(rounds := t.rounds + 1,
         tags := if r.Tagged() then t.tags + [r.netTag.value] else t.tags,
         unnetted := if r.changed && !r.Tagged() then t.unnetted + 1 else t.unnetted,
         receipts := t.receipts + r.receipts,
         unchecked := true,
         judgedFine := false)
    case Gated(_, g) => t.(gates := t.gates + [g], unchecked := false, judgedFine := false)
    case Judged(answer) => t.(judgedFine := answer.acceptable)
    case Reviewed(_, _) => t
    case Decided(d) => t.(rungs := t.rungs + [d.rung])
  }

  function TallyOf(trace: seq<Event>): Tally {
    if trace == [] then Tally(0, [], 0, [], [], [], false, false)
    else Tick(TallyOf(trace[..|trace| - 1]), trace[|trace| - 1])
  }

  lemma TallySnoc(trace: seq<Event>, e: Event)
    ensures TallyOf(trace + [e]) == Tick(TallyOf(trace), e)
  {
    assert (trace + [e])[..|trace|] == trace;
  }

  predicate TaggedAt(trace: seq<Event>, k: int) {
    0 <= k < |trace| && trace[k].Coded? && trace[k].result.Tagged()
  }

  predicate ChangedAt(trace: seq<Event>, k: int) {
    0 <= k < |trace| && trace[k].Coded? && trace[k].result.changed
  }

  /** Round k left the first tag, and no round before it changed code. */
  ghost predicate CoversAll(trace: seq<Event>, k: int) {
    TaggedAt(trace, k) && forall j :: 0 <= j < k ==> !TaggedAt(trace, j) && !ChangedAt(trace, j)
  }

  /** What a reviewer asked at the end of `trace` must be given. */
  ghost predicate RightBase(trace: seq<Event>, since: Option<string>) {
    match since
    case Some(tag) => exists k :: CoversAll(trace, k) && trace[k].result.netTag == Some(tag)
    case None => forall k :: !TaggedAt(trace, k)
  }

  function JudgeRungs(rungs: seq<Rung>): nat {
    if rungs == [] then 0
    else JudgeRungs(rungs[..|rungs| - 1]) + if rungs[|rungs| - 1] == Judge then 1 else 0
  }

  lemma JudgeRungsSnoc(rungs: seq<Rung>, r: Rung)
    ensures JudgeRungs(rungs + [r]) == JudgeRungs(rungs) + if r == Judge then 1 else 0
  {
    assert (rungs + [r])[..|rungs|] == rungs;
  }

  function GatesOf(history: seq<Attempt>): seq<GateResult> {
    seq(|history|, i requires 0 <= i < |history| => history[i].gate)
  }

  // ------------------------------------------------------------ the invariant

  /** The bookkeeping is what the trace amounts to. */
  ghost predicate Tallied(st: Loop) {
    var t := TallyOf(st.trace);
    && st.book.rounds == t.rounds && st.book.netTags == t.tags && st.book.unnetted == t.unnetted
    && st.book.receipts == t.receipts && GatesOf(st.book.history) == t.gates && st.book.decisions == t.rungs
  }

  /** The review base is a tag that covers the whole change, lost, or not known yet. */
  ghost predicate Based(trace: seq<Event>, base: Option<string>, lost: bool) {
    match base
    case Some(tag) => !lost && RightBase(trace, base)
    case None =>
      if lost then exists k :: LostAt(trace, k)
      else forall k :: !TaggedAt(trace, k) && !ChangedAt(trace, k)
  }

  /** Round k changed code, and left no tag, before any round left one. */
  ghost predicate LostAt(trace: seq<Event>, k: int) {
    ChangedAt(trace, k) && forall j :: 0 <= j <= k ==> !TaggedAt(trace, j)
  }

  ghost predicate TagsKnown(trace: seq<Event>, tags: seq<string>) {
    tags == [] <==> forall k :: !TaggedAt(trace, k)
  }

  /** Asked after `before`: a review gets the right base, and a REVIEW rung comes
      when nothing is left to try. */
  ghost predicate Justified(setup: Setup, before: seq<Event>, e: Event) {
    var t := TallyOf(before);
    && (e.Reviewed? ==> RightBase(before, e.since))
    && (e.Decided? && e.decision.rung == Rung.Review ==>
          && e.decision.lane == Deep
          && t.gates != [] && |t.gates[|t.gates| - 1].violations| <= 1
          && (setup.judge.None? || JudgeRungs(t.rungs) == 1))
  }

  ghost predicate AllJustified(setup: Setup, trace: seq<Event>) {
    forall k :: 0 <= k < |trace| ==> Justified(setup, trace[..k], trace[k])
  }

  /** Lanes only go up, and a lane is left only after two attempts on it. */
  ghost predicate Climbing(history: seq<Attempt>, lane: Lane) {
    && (forall i, j :: 0 <= i < j < |history| ==> history[i].lane.Rank() <= history[j].lane.Rank())
    && (forall i :: 0 <= i < |history| ==> history[i].lane.Rank() <= lane.Rank())
    && (forall i :: 0 <= i < |history| && history[i].lane != lane ==> Tries(history, history[i].lane) >= 2)
  }

  ghost predicate JudgedOnce(st: Loop) {
    JudgeRungs(st.book.decisions) == if st.judged then 1 else 0
  }

  ghost predicate Inv(setup: Setup, st: Loop) {
    && Tallied(st) && Based(st.trace, st.book.reviewBase, st.book.reviewBaseLost) && TagsKnown(st.trace, st.book.netTags)
    && AllJustified(setup, st.trace) && Climbing(st.book.history, st.lane) && JudgedOnce(st)
  }

  lemma JustifiedSnoc(setup: Setup, trace: seq<Event>, e: Event)
    requires AllJustified(setup, trace) && Justified(setup, trace, e)
    ensures AllJustified(setup, trace + [e])
  {
    var longer := trace + [e];
    forall k | 0 <= k < |longer|
      ensures Justified(setup, longer[..k], longer[k])
    {
      if k < |trace| {
        assert longer[..k] == trace[..k];
      } else {
        assert longer[..k] == trace;
      }
    }
  }

  lemma RoundsSnoc(trace: seq<Event>, e: Event)
    ensures forall k :: TaggedAt(trace + [e], k) <==> TaggedAt(trace, k) || (k == |trace| && e.Coded? && e.result.Tagged())
    ensures forall k :: ChangedAt(trace + [e], k) <==> ChangedAt(trace, k) || (k == |trace| && e.Coded? && e.result.changed)
  {}

  lemma CoversAllSnoc(trace: seq<Event>, e: Event, base: Option<string>)
    requires base.Some? && RightBase(trace, base)
    ensures RightBase(trace + [e], base)
  {
    RoundsSnoc(trace, e);
    var k :| CoversAll(trace, k) && trace[k].result.netTag == base;
    assert CoversAll(trace + [e], k);
  }

  lemma LostSnoc(trace: seq<Event>, e: Event)
    requires exists k :: LostAt(trace, k)
    ensures exists k :: LostAt(trace + [e], k)
  {
    RoundsSnoc(trace, e);
    var k :| LostAt(trace, k);
    assert LostAt(trace + [e], k);
  }

  /** Based and TagsKnown look at coder rounds only. */
  lemma SameRounds(trace: seq<Event>, e: Event, base: Option<string>, lost: bool, tags: seq<string>)
    requires Based(trace, base, lost) && TagsKnown(trace, tags) && !e.Coded?
    ensures Based(trace + [e], base, lost) && TagsKnown(trace + [e], tags)
  {
    RoundsSnoc(trace, e);
    if base.Some? {
      CoversAllSnoc(trace, e, base);
    } else if lost {
      LostSnoc(trace, e);
    }
  }

  lemma CodeBases(trace: seq<Event>, e: Event, book: Book)
    requires e.Coded? && Based(trace, book.reviewBase, book.reviewBaseLost)
    ensures Based(trace + [e], Absorb(book, e.result).reviewBase, Absorb(book, e.result).reviewBaseLost)
  {
    RoundsSnoc(trace, e);
    if book.reviewBase.Some? {
      CoversAllSnoc(trace, e, book.reviewBase);
    } else if book.reviewBaseLost {
      LostSnoc(trace, e);
    } else if e.result.Tagged() {
      assert CoversAll(trace + [e], |trace|);
    } else if e.result.changed {
      assert LostAt(trace + [e], |trace|);
    }
  }

  lemma CodeTags(trace: seq<Event>, e: Event, book: Book)
    requires e.Coded? && TagsKnown(trace, book.netTags)
    ensures TagsKnown(trace + [e], Absorb(book, e.result).netTags)
  {
    RoundsSnoc(trace, e);
    if e.result.Tagged() {
      assert TaggedAt(trace + [e], |trace|);
    }
  }

  lemma CodeKeeps(setup: Setup, st: Loop, task: Task)
    requires Inv(setup, st)
    ensures Inv(setup, Code(setup, st, task))
  {
    var e := Coded(task, setup.coder(st.book.rounds));
    TallySnoc(st.trace, e);
    JustifiedSnoc(setup, st.trace, e);
    CodeBases(st.trace, e, st.book);
    CodeTags(st.trace, e, st.book);
  }

  lemma CheckKeeps(setup: Setup, st: Loop, task: Task, changed: bool)
    requires Inv(setup, st)
    ensures Inv(setup, Check(setup, st, task, changed))
    ensures !TallyOf(Check(setup, st, task, changed).trace).unchecked
  {
    var st' := Check(setup, st, task, changed);
    var e := Gated(task, setup.gate(|st.book.history|));
    TallySnoc(st.trace, e);
    JustifiedSnoc(setup, st.trace, e);
    SameRounds(st.trace, e, st.book.reviewBase, st.book.reviewBaseLost, st.book.netTags);
    assert GatesOf(st'.book.history) == GatesOf(st.book.history) + [e.gate];
    assert st'.book.history[..|st.book.history|] == st.book.history;
  }

  lemma JudgeKeeps(setup: Setup, st: Loop)
    requires Inv(setup, st)
    ensures Inv(setup, AskJudge(setup, st))
    ensures TallyOf(AskJudge(setup, st).trace)
         == TallyOf(st.trace).(judgedFine := Assess(setup, st.assessments).acceptable)
  {
    var e := Judged(Assess(setup, st.assessments));
    TallySnoc(st.trace, e);
    JustifiedSnoc(setup, st.trace, e);
    SameRounds(st.trace, e, st.book.reviewBase, st.book.reviewBaseLost, st.book.netTags);
  }

  lemma ReviewKeeps(setup: Setup, st: Loop)
    requires Inv(setup, st)
    ensures Inv(setup, AskReviewer(setup, st)) && TallyOf(AskReviewer(setup, st).trace) == TallyOf(st.trace)
  {
    if !Uncovered(st) {
      var e := Reviewed(st.book.reviewBase, Verdict(setup, st));
      TallySnoc(st.trace, e);
      JustifiedSnoc(setup, st.trace, e);
      SameRounds(st.trace, e, st.book.reviewBase, st.book.reviewBaseLost, st.book.netTags);
    }
  }

  lemma DecideClimbs(history: seq<Attempt>, judged: bool, vision: bool, lane: Lane)
    requires Climbing(history, lane) && history != [] && Last(history).lane == lane && !Last(history).gate.passed
    ensures var d := Decide(history, judged, vision, true); Climbing(history, if d.rung == Escalate then d.lane else lane)
  {
    WhichRung(history, judged, vision, true);
  }

  lemma DecideJustified(setup: Setup, st: Loop)
    requires Tallied(st) && JudgedOnce(st) && st.book.history != [] && !Last(st.book.history).gate.passed
    ensures Justified(setup, st.trace, Decided(Decide(st.book.history, st.judged, setup.judge.Some?, true)))
  {
    WhichRung(st.book.history, st.judged, setup.judge.Some?, true);
    assert Last(st.book.history).gate == GatesOf(st.book.history)[|st.book.history| - 1];
  }

  lemma DecideKeeps(setup: Setup, st: Loop)
    requires Inv(setup, st) && st.book.history != []
    requires Last(st.book.history).lane == st.lane && !Last(st.book.history).gate.passed
    ensures
      var d := Decide(st.book.history, st.judged, setup.judge.Some?, true);
      Inv(setup, Noted(st, d)) && TallyOf(Noted(st, d).trace).unchecked == TallyOf(st.trace).unchecked
  {
    var d := Decide(st.book.history, st.judged, setup.judge.Some?, true);
    var e := Decided(d);
    DecideJustified(setup, st);
    DecideClimbs(st.book.history, st.judged, setup.judge.Some?, st.lane);
    JustifiedSnoc(setup, st.trace, e);
    TallySnoc(st.trace, e);
    JudgeRungsSnoc(st.book.decisions, d.rung);
    SameRounds(st.trace, e, st.book.reviewBase, st.book.reviewBaseLost, st.book.netTags);
    assert JudgedOnce(Noted(st, d)) by {
      WhichRung(st.book.history, st.judged, setup.judge.Some?, true);
    }
  }

  lemma {:induction false} FixEachKeeps(setup: Setup, st: Loop, subtasks: seq<Task>, changed: bool)
    requires Inv(setup, st)
    ensures Inv(setup, FixEach(setup, st, subtasks, changed))
    decreases |subtasks|
  {
    if subtasks != [] && st.book.rounds < setup.maxRounds {
      var coded := Code(setup, st, subtasks[0].(lane := st.lane));
      CodeKeeps(setup, st, subtasks[0].(lane := st.lane));
      FixEachKeeps(setup, coded, subtasks[1..], changed || setup.coder(st.book.rounds).changed);
    }
  }

  // ------------------------------------------------------------ one round

  function Cap(limit: int): nat {
    if limit > 0 then limit else 0
  }

  /** Gate checks are paid for by coder rounds and splits. */
  ghost predicate Paid(setup: Setup, st: Loop, pending: nat) {
    && st.book.rounds <= Cap(setup.maxRounds) && st.splits <= Cap(setup.maxSplits)
    && |st.book.history| + pending <= st.book.rounds + st.splits
  }

  /** Between two rounds. */
  ghost predicate Head(setup: Setup, st: Loop) {
    && Inv(setup, st) && Paid(setup, st, if st.reverify.Some? then 1 else 0)
    && (TallyOf(st.trace).unchecked ==> st.reverify.Some?)
  }

  /** Right after a gate check. */
  ghost predicate Checked(setup: Setup, st: Loop) {
    && Inv(setup, st) && Paid(setup, st, 0) && !TallyOf(st.trace).unchecked && st.reverify.None?
    && st.book.history != [] && Last(st.book.history).lane == st.lane
  }

  ghost predicate LastPassed(history: seq<Attempt>) {
    history != [] && Last(history).gate.passed
  }

  /** At the end of a run. */
  ghost predicate End(setup: Setup, st: Loop, final: Final) {
    && Inv(setup, st) && Paid(setup, st, 0) && !TallyOf(st.trace).unchecked
    && (final == Completed ==> LastPassed(st.book.history) && TallyOf(st.trace).judgedFine)
  }

  ghost predicate Good(setup: Setup, o: Outcome) {
    match o
    case Continue(next) => Head(setup, next)
    case Done(last, final) => End(setup, last, final)
  }

  lemma AttemptedIsChecked(setup: Setup, task: Task, st: Loop)
    requires Head(setup, st) && (st.reverify.Some? || st.book.rounds < setup.maxRounds)
    ensures Checked(setup, Attempted(setup, task, st))
  {
    var now := task.(lane := st.lane);
    if st.reverify.Some? {
      CheckKeeps(setup, st.(reverify := None), now, st.reverify.value);
    } else {
      CodeKeeps(setup, st, now);
      CheckKeeps(setup, Code(setup, st, now), now, setup.coder(st.book.rounds).changed);
    }
  }

  lemma FixIsHead(setup: Setup, st: Loop, task: Task)
    requires Inv(setup, st) && Paid(setup, st, 0) && st.book.rounds < setup.maxRounds
    ensures Head(setup, Fix(setup, st, task))
  {
    CodeKeeps(setup, st, task);
  }

  lemma VisionFixIsGood(setup: Setup, task: Task, st: Loop, findings: seq<string>)
    requires Inv(setup, st) && Paid(setup, st, 0) && !TallyOf(st.trace).unchecked
    ensures Good(setup, VisionFix(setup, task, st, findings))
  {
    if st.book.rounds < setup.maxRounds {
      FixIsHead(setup, st, Derived(task, st.lane, VisionGoal(task, findings)));
    }
  }

  lemma AcceptedIsGood(setup: Setup, task: Task, st: Loop)
    requires Inv(setup, st) && Paid(setup, st, 0) && !TallyOf(st.trace).unchecked
    requires LastPassed(st.book.history) && TallyOf(st.trace).judgedFine
    ensures Good(setup, OnAccepted(setup, task, st))
  {
    ReviewKeeps(setup, st);
    var noted := AskReviewer(setup, st);
    if OnAccepted(setup, task, st).Continue? {
      FixIsHead(setup, noted.(revisions := noted.revisions + 1),
        Derived(task, noted.lane, "Address local review findings: " + Joined(Verdict(setup, st).findings)));
    }
  }

  lemma PassIsGood(setup: Setup, task: Task, st: Loop)
    requires Checked(setup, st) && Last(st.book.history).gate.passed
    ensures Good(setup, OnPass(setup, task, st))
  {
    JudgeKeeps(setup, st);
    if Assess(setup, st.assessments).acceptable {
      AcceptedIsGood(setup, task, AskJudge(setup, st));
    } else {
      VisionFixIsGood(setup, task, AskJudge(setup, st), Assess(setup, st.assessments).findings);
    }
  }

  lemma {:induction false} FixEachPays(setup: Setup, st: Loop, subtasks: seq<Task>, changed: bool)
    requires Paid(setup, st, 1)
    ensures Paid(setup, FixEach(setup, st, subtasks, changed), 1) && FixEach(setup, st, subtasks, changed).reverify.Some?
    decreases |subtasks|
  {
    if subtasks != [] && st.book.rounds < setup.maxRounds {
      FixEachPays(setup, Code(setup, st, subtasks[0].(lane := st.lane)), subtasks[1..],
        changed || setup.coder(st.book.rounds).changed);
    }
  }

  lemma JudgeIsGood(setup: Setup, task: Task, st: Loop)
    requires Inv(setup, st) && Paid(setup, st, 0) && !TallyOf(st.trace).unchecked
    ensures Good(setup, OnJudge(setup, task, st))
  {
    JudgeKeeps(setup, st);
    VisionFixIsGood(setup, task, AskJudge(setup, st), Assess(setup, st.assessments).findings);
  }

  /** The focused rounds of a split leave a state between rounds. */
  lemma SplitIsHead(setup: Setup, st: Loop, subtasks: seq<Task>)
    ensures Inv(setup, st) && Paid(setup, st, 0) && st.splits < setup.maxSplits ==>
      Head(setup, FixEach(setup, st.(splits := st.splits + 1), subtasks, false))
  {
    if Inv(setup, st) && Paid(setup, st, 0) && st.splits < setup.maxSplits {
      var counted := st.(splits := st.splits + 1);
      InvIgnoresSplits(setup, st, st.splits + 1);
      FixEachKeeps(setup, counted, subtasks, false);
      FixEachPays(setup, counted, subtasks, false);
    }
  }

  /** A run that stops here has ended well: every round was checked. */
  lemma StopIsEnd(setup: Setup, st: Loop)
    ensures Inv(setup, st) && Paid(setup, st, 0) && !TallyOf(st.trace).unchecked ==> End(setup, st, Failed)
  {}

  lemma SplitCases(setup: Setup, task: Task, st: Loop, violations: seq<string>)
    ensures
      || OnSplit(setup, task, st, violations) == Done(st, Failed)
      || (st.splits < setup.maxSplits
          && OnSplit(setup, task, st, violations)
             == Continue(FixEach(setup, st.(splits := st.splits + 1), SplitTasks(task, violations), false)))
  {}

  lemma SplitIsGood(setup: Setup, task: Task, st: Loop, violations: seq<string>)
    requires Inv(setup, st) && Paid(setup, st, 0) && !TallyOf(st.trace).unchecked
    ensures Good(setup, OnSplit(setup, task, st, violations))
  {
    SplitCases(setup, task, st, violations);
    StopIsEnd(setup, st);
    SplitIsHead(setup, st, SplitTasks(task, violations));
  }

  lemma InvIgnoresSplits(setup: Setup, st: Loop, splits: nat)
    requires Inv(setup, st)
    ensures Inv(setup, st.(splits := splits))
  {}

  lemma FailIsGood(setup: Setup, task: Task, st: Loop)
    requires Checked(setup, st) && !Last(st.book.history).gate.passed
    ensures Good(setup, OnFail(setup, task, st))
  {
    var d := Decide(st.book.history, st.judged, setup.judge.Some?, true);
    DecideKeeps(setup, st);
    match d.rung
    case Judge => JudgeIsGood(setup, task, Noted(st, d));
    case Split => SplitIsGood(setup, task, Noted(st, d), Last(st.book.history).gate.violations);
    case _ =>
  }

  lemma IterateIsGood(setup: Setup, task: Task, st: Loop)
    requires Head(setup, st)
    ensures Good(setup, Iterate(setup, task, st))
  {
    if st.reverify.Some? || st.book.rounds < setup.maxRounds {
      var checked := Attempted(setup, task, st);
      AttemptedIsChecked(setup, task, st);
      if Last(checked.book.history).gate.passed {
        PassIsGood(setup, task, checked);
      } else {
        FailIsGood(setup, task, checked);
      }
    }
  }

  lemma {:induction false} DriveEnds(setup: Setup, task: Task, st: Loop)
    requires Head(setup, st)
    ensures var (last, final) := Drive(setup, task, st); End(setup, last, final)
    decreases Left(setup.maxRounds, st.book.rounds), Left(setup.maxSplits, st.splits), if st.reverify.Some? then 1 else 0
  {
    IterateIsGood(setup, task, st);
    if Iterate(setup, task, st).Continue? {
      IterateSpends(setup, task, st);
      DriveEnds(setup, task, Iterate(setup, task, st).next);
    }
  }

  lemma StartIsHead(setup: Setup, task: Task)
    ensures Head(setup, Start(task))
  {}
}

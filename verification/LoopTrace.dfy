/** What may happen when, over every run: the trace of a run is a legal transcript. */
module LoopTrace {
  import opened Wrappers
  import opened Harness
  import opened Ladder
  import opened LoopSteps
  import opened LoopRuns
  import opened LoopTheorems

  // ------------------------------------------------------------ counting

  datatype Kind = Rounds | Checks | ChecksOn(lane: Lane) | Looks | Reviews | Refusals | Splits | JudgeCalls

  predicate Is(e: Event, kind: Kind) {
    match kind
    case Rounds => e.Coded?
    case Checks => e.Gated?
    case ChecksOn(lane) => e.Gated? && e.task.lane == lane
    case Looks => e.Judged?
    case Reviews => e.Reviewed?
    case Refusals => e.Reviewed? && !e.verdict.approved
    case Splits => e.Decided? && e.decision.rung == Split
    case JudgeCalls => e.Decided? && e.decision.rung == Rung.Judge
  }

  function HowMany(trace: seq<Event>, kind: Kind): nat {
    if trace == [] then 0
    else HowMany(trace[..|trace| - 1], kind) + if Is(trace[|trace| - 1], kind) then 1 else 0
  }

  /** The lane in use: that of the last escalation, or the task's own. */
  function LaneAfter(task: Task, trace: seq<Event>): Lane {
    if trace == [] then task.lane
    else
      var e := trace[|trace| - 1];
      if e.Decided? && e.decision.rung == Escalate then e.decision.lane else LaneAfter(task, trace[..|trace| - 1])
  }

  /** The coder rounds since anything else happened. */
  function Trailing(trace: seq<Event>): (n: nat)
    ensures n <= |trace|
  {
    if trace == [] || !trace[|trace| - 1].Coded? then 0 else 1 + Trailing(trace[..|trace| - 1])
  }

  predicate RoundLeft(setup: Setup, trace: seq<Event>) {
    HowMany(trace, Rounds) < setup.maxRounds
  }

  /** What the reviewer last asked for. */
  function OpenFindings(trace: seq<Event>): seq<string> {
    if trace == [] then []
    else
      var e := trace[|trace| - 1];
      if e.Reviewed? then if e.verdict.approved then [] else e.verdict.findings
      else OpenFindings(trace[..|trace| - 1])
  }

  // ------------------------------------------------------------ where a run is

  predicate EndsWith(trace: seq<Event>, e: Event) {
    trace != [] && trace[|trace| - 1] == e
  }

  /** The last gate check, with nothing after it, passed or not. */
  predicate AtCheck(trace: seq<Event>, passed: bool) {
    trace != [] && trace[|trace| - 1].Gated? && trace[|trace| - 1].gate.passed == passed
  }

  predicate AtRung(trace: seq<Event>, rung: Rung) {
    trace != [] && trace[|trace| - 1].Decided? && trace[|trace| - 1].decision.rung == rung
  }

  /** The judge has just answered, after a passing gate or when the ladder sent for it. */
  predicate AtAnswer(trace: seq<Event>, acceptable: bool, sentFor: bool) {
    && |trace| >= 2 && trace[|trace| - 1].Judged? && trace[|trace| - 1].answer.acceptable == acceptable
    && if sentFor then AtRung(trace[..|trace| - 1], Rung.Judge) else AtCheck(trace[..|trace| - 1], true)
  }

  /** The reviewer has just answered. */
  predicate AtReview(trace: seq<Event>, approved: bool) {
    trace != [] && trace[|trace| - 1].Reviewed? && trace[|trace| - 1].verdict.approved == approved
  }

  /** The violations of the split under way, if its budget had one left. */
  function SplitUnderWay(setup: Setup, trace: seq<Event>): Option<seq<string>> {
    var start := trace[..|trace| - Trailing(trace)];
    if |start| >= 2 && AtRung(start, Split) && AtCheck(start[..|start| - 1], false)
       && HowMany(start[..|start| - 1], Splits) < setup.maxSplits
    then Some(start[|start| - 2].gate.violations)
    else None
  }

  /** A gate check comes next: after one coder round, or at the end of a split. */
  predicate CheckDue(setup: Setup, trace: seq<Event>) {
    match SplitUnderWay(setup, trace)
    case Some(vs) => Trailing(trace) <= |vs| && (Trailing(trace) == |vs| || !RoundLeft(setup, trace))
    case None => Trailing(trace) == 1
  }

  /** A fresh attempt comes next, if there is a round left for it. */
  predicate AttemptDue(trace: seq<Event>) {
    trace == [] || AtRung(trace, Retry) || AtRung(trace, Escalate)
  }

  function SubTask(task: Task, lane: Lane, goal: string): Task {
    Task(goal, task.scope, task.gateCommand, lane, Some(task.goal))
  }

  // ------------------------------------------------------------ the rules

  /** What each collaborator says is its next answer; no judge accepts everything, and
      no reviewer approves everything. */
  predicate Says(setup: Setup, before: seq<Event>, e: Event) {
    match e
    case Coded(_, r) => r == setup.coder(HowMany(before, Rounds))
    case Gated(_, g) => g == setup.gate(HowMany(before, Checks))
    case Judged(a) => if setup.judge.Some? then a == setup.judge.value(HowMany(before, Looks)) else a.acceptable
    case Reviewed(_, v) => if setup.reviewer.Some? then v == setup.reviewer.value(HowMany(before, Reviews)) else v.approved
    case Decided(d) => true
  }

  /** The ladder's answer, from what the trace shows: how often the gate was checked on
      this lane, and the violations it found last. */
  predicate RungFits(setup: Setup, before: seq<Event>, d: Decision)
    requires AtCheck(before, false)
  {
    var last := before[|before| - 1];
    var lane := last.task.lane;
    var again := HowMany(before, ChecksOn(lane)) >= 2;
    var many := |last.gate.violations| >= 2;
    var eyes := setup.judge.Some? && HowMany(before, JudgeCalls) == 0;
    && (d.rung == Retry <==> !again)
    && (d.rung == Split <==> again && many)
    && (d.rung == Escalate <==> again && !many && lane != Deep)
    && (d.rung == Rung.Judge <==> again && !many && lane == Deep && eyes)
    && (d.rung == Rung.Review <==> again && !many && lane == Deep && !eyes)
    && d.lane == (if d.rung != Escalate then lane else if lane == Small then Standard else Deep)
  }

  /** Why a coder round is made, and on which task. */
  predicate RoundFits(setup: Setup, task: Task, before: seq<Event>, t: Task) {
    var lane := LaneAfter(task, before);
    && RoundLeft(setup, before)
    && (|| (AttemptDue(before) && t == task.(lane := lane))
        || ((AtAnswer(before, false, false) || AtAnswer(before, false, true))
            && t == SubTask(task, lane, task.goal + " (address vision findings: "
                                        + Joined(before[|before| - 1].answer.findings) + ")"))
        || (AtReview(before, false) && HowMany(before, Refusals) <= setup.maxReviewRevisions
            && t == SubTask(task, lane, "Address local review findings: " + Joined(before[|before| - 1].verdict.findings)))
        || (SplitUnderWay(setup, before).Some? && Trailing(before) < |SplitUnderWay(setup, before).value|
            && t == SubTask(task, lane, "Fix: " + SplitUnderWay(setup, before).value[Trailing(before)])))
  }

  /** What must have gone before an event. */
  ghost predicate Fits(setup: Setup, task: Task, before: seq<Event>, e: Event) {
    match e
    case Coded(t, _) => RoundFits(setup, task, before, t)
    case Gated(t, _) => CheckDue(setup, before) && t == task.(lane := LaneAfter(task, before))
    case Judged(_) => AtCheck(before, true) || AtRung(before, Rung.Judge)
    case Reviewed(since, _) => AtAnswer(before, true, false) && RightBase(before, since)
    case Decided(d) => AtCheck(before, false) && RungFits(setup, before, d)
  }

  ghost predicate Legal(setup: Setup, task: Task, trace: seq<Event>) {
    forall k :: 0 <= k < |trace| ==> Says(setup, trace[..k], trace[k]) && Fits(setup, task, trace[..k], trace[k])
  }

  /** No tag covers the whole change. */
  ghost predicate NoBase(trace: seq<Event>) {
    forall since :: !RightBase(trace, since)
  }

  /** How a run may end. */
  ghost predicate Ends(setup: Setup, trace: seq<Event>, final: Final) {
    match final
    case Completed =>
      || AtReview(trace, true)
      || (AtAnswer(trace, true, false) && NoBase(trace))
      || (AtReview(trace, false) && (HowMany(trace, Refusals) > setup.maxReviewRevisions || !RoundLeft(setup, trace)))
    case Failed =>
      || (AttemptDue(trace) && !RoundLeft(setup, trace))
      || ((AtAnswer(trace, false, false) || AtAnswer(trace, false, true)) && !RoundLeft(setup, trace))
      || AtAnswer(trace, true, true)
      || AtRung(trace, Rung.Review)
      || (AtRung(trace, Split) && HowMany(trace, Splits) > setup.maxSplits)
  }

  // ------------------------------------------------------------ one more event

  lemma HowManySnoc(trace: seq<Event>, e: Event, kind: Kind)
    ensures HowMany(trace + [e], kind) == HowMany(trace, kind) + if Is(e, kind) then 1 else 0
  {
    assert (trace + [e])[..|trace|] == trace;
  }

  lemma AllCountsSnoc(trace: seq<Event>, e: Event)
    ensures forall kind :: HowMany(trace + [e], kind) == HowMany(trace, kind) + if Is(e, kind) then 1 else 0
  {
    assert (trace + [e])[..|trace|] == trace;
  }

  lemma LaneSnoc(task: Task, trace: seq<Event>, e: Event)
    ensures LaneAfter(task, trace + [e])
         == if e.Decided? && e.decision.rung == Escalate then e.decision.lane else LaneAfter(task, trace)
  {
    assert (trace + [e])[..|trace|] == trace;
  }

  lemma TrailingSnoc(setup: Setup, trace: seq<Event>, e: Event)
    ensures !e.Coded? ==> Trailing(trace + [e]) == 0
    ensures e.Coded? ==> Trailing(trace + [e]) == Trailing(trace) + 1
    ensures e.Coded? ==> SplitUnderWay(setup, trace + [e]) == SplitUnderWay(setup, trace)
  {
    var longer := trace + [e];
    assert longer[..|trace|] == trace;
    if e.Coded? {
      assert longer[..|longer| - Trailing(longer)] == trace[..|trace| - Trailing(trace)];
    }
  }

  lemma LegalSnoc(setup: Setup, task: Task, trace: seq<Event>, e: Event)
    requires Legal(setup, task, trace) && Says(setup, trace, e) && Fits(setup, task, trace, e)
    ensures Legal(setup, task, trace + [e])
  {
    var longer := trace + [e];
    forall k | 0 <= k < |longer| ensures Says(setup, longer[..k], longer[k]) && Fits(setup, task, longer[..k], longer[k]) {
      if k < |trace| {
        assert longer[..k] == trace[..k];
      } else {
        assert longer[..k] == trace;
      }
    }
  }

  // ------------------------------------------------------------ the loop keeps the rules

  /** The loop's variables count what the trace shows. */
  ghost predicate Counts(task: Task, st: Loop) {
    && st.book.rounds == HowMany(st.trace, Rounds) && |st.book.history| == HowMany(st.trace, Checks)
    && st.assessments == HowMany(st.trace, Looks) && st.reviews == HowMany(st.trace, Reviews)
    && st.lane == LaneAfter(task, st.trace)
    && (st.judged <==> HowMany(st.trace, JudgeCalls) > 0)
    && st.book.reviewFindings == OpenFindings(st.trace)
    && forall lane :: Tries(st.book.history, lane) == HowMany(st.trace, ChecksOn(lane))
  }

  ghost predicate Traced(setup: Setup, task: Task, st: Loop) {
    Legal(setup, task, st.trace) && Counts(task, st)
  }

  ghost predicate Budgeted(st: Loop, splits: nat, revisions: nat) {
    HowMany(st.trace, Splits) == splits && HowMany(st.trace, Refusals) == revisions
  }

  /** Between two rounds. */
  ghost predicate Waiting(setup: Setup, task: Task, st: Loop) {
    && Traced(setup, task, st) && Budgeted(st, st.splits, st.revisions)
    && if st.reverify.Some? then CheckDue(setup, st.trace) else AttemptDue(st.trace)
  }

  ghost predicate Tidy(setup: Setup, task: Task, o: Outcome) {
    match o
    case Continue(next) => Waiting(setup, task, next)
    case Done(last, final) => Ended(setup, task, last, final)
  }

  /** The end is a legal one, and what the reviewer asked for last is still noted, unless a
      change nobody could review let it go. */
  ghost predicate Ended(setup: Setup, task: Task, last: Loop, final: Final) {
    && Legal(setup, task, last.trace) && Ends(setup, last.trace, final)
    && last.book.reviewFindings == if AtAnswer(last.trace, true, false) then [] else OpenFindings(last.trace)
  }

  /** The variables go on counting when each moves with the event. */
  lemma CountsSnoc(task: Task, st: Loop, e: Event, next: Loop)
    requires Counts(task, st) && next.trace == st.trace + [e]
    requires next.book.rounds == st.book.rounds + if e.Coded? then 1 else 0
    requires |next.book.history| == |st.book.history| + if e.Gated? then 1 else 0
    requires next.assessments == st.assessments + if e.Judged? then 1 else 0
    requires next.reviews == st.reviews + if e.Reviewed? then 1 else 0
    requires next.lane == if e.Decided? && e.decision.rung == Escalate then e.decision.lane else st.lane
    requires next.judged == (st.judged || Is(e, JudgeCalls))
    requires next.book.reviewFindings
          == if !e.Reviewed? then st.book.reviewFindings else if e.verdict.approved then [] else e.verdict.findings
    requires forall lane :: Tries(next.book.history, lane) == Tries(st.book.history, lane) + if Is(e, ChecksOn(lane)) then 1 else 0
    ensures Counts(task, next)
    ensures Budgeted(next, HowMany(st.trace, Splits) + if Is(e, Splits) then 1 else 0,
                     HowMany(st.trace, Refusals) + if Is(e, Refusals) then 1 else 0)
  {
    AllCountsSnoc(st.trace, e);
    LaneSnoc(task, st.trace, e);
    assert (st.trace + [e])[..|st.trace|] == st.trace;
  }

  lemma CodeCounts(setup: Setup, task: Task, st: Loop, t: Task)
    requires Counts(task, st)
    ensures Counts(task, Code(setup, st, t))
    ensures Budgeted(Code(setup, st, t), HowMany(st.trace, Splits), HowMany(st.trace, Refusals))
  {
    CountsSnoc(task, st, Coded(t, setup.coder(st.book.rounds)), Code(setup, st, t));
  }

  lemma CheckCounts(setup: Setup, task: Task, st: Loop, changed: bool)
    requires Counts(task, st)
    ensures
      var next := Check(setup, st, task.(lane := st.lane), changed);
      Counts(task, next) && Budgeted(next, HowMany(st.trace, Splits), HowMany(st.trace, Refusals))
  {
    var next := Check(setup, st, task.(lane := st.lane), changed);
    assert next.book.history[..|st.book.history|] == st.book.history;
    CountsSnoc(task, st, Gated(task.(lane := st.lane), setup.gate(|st.book.history|)), next);
  }

  lemma CodeTraced(setup: Setup, task: Task, st: Loop, t: Task)
    requires Traced(setup, task, st) && RoundFits(setup, task, st.trace, t)
    ensures
      var next := Code(setup, st, t);
      && Traced(setup, task, next) && Trailing(next.trace) == Trailing(st.trace) + 1
      && SplitUnderWay(setup, next.trace) == SplitUnderWay(setup, st.trace)
      && Budgeted(next, HowMany(st.trace, Splits), HowMany(st.trace, Refusals))
  {
    var e := Coded(t, setup.coder(st.book.rounds));
    LegalSnoc(setup, task, st.trace, e);
    CodeCounts(setup, task, st, t);
    TrailingSnoc(setup, st.trace, e);
  }

  lemma CheckTraced(setup: Setup, task: Task, st: Loop, changed: bool)
    requires Traced(setup, task, st) && CheckDue(setup, st.trace)
    ensures
      var next := Check(setup, st, task.(lane := st.lane), changed);
      && Traced(setup, task, next) && AtCheck(next.trace, Last(next.book.history).gate.passed)
      && next.trace[|next.trace| - 1] == Gated(task.(lane := st.lane), Last(next.book.history).gate)
      && Budgeted(next, HowMany(st.trace, Splits), HowMany(st.trace, Refusals))
  {
    var e := Gated(task.(lane := st.lane), setup.gate(|st.book.history|));
    LegalSnoc(setup, task, st.trace, e);
    CheckCounts(setup, task, st, changed);
  }

  lemma JudgeCounts(setup: Setup, task: Task, st: Loop)
    requires Counts(task, st)
    ensures Counts(task, AskJudge(setup, st))
    ensures Budgeted(AskJudge(setup, st), HowMany(st.trace, Splits), HowMany(st.trace, Refusals))
  {
    CountsSnoc(task, st, Judged(Assess(setup, st.assessments)), AskJudge(setup, st));
  }

  lemma JudgeTraced(setup: Setup, task: Task, st: Loop)
    requires Traced(setup, task, st) && (AtCheck(st.trace, true) || AtRung(st.trace, Rung.Judge))
    ensures
      var next, answer := AskJudge(setup, st), Assess(setup, st.assessments);
      && Traced(setup, task, next) && next.trace[|next.trace| - 1] == Judged(answer)
      && (AtCheck(st.trace, true) ==> AtAnswer(next.trace, answer.acceptable, false))
      && (AtRung(st.trace, Rung.Judge) ==> AtAnswer(next.trace, answer.acceptable, true))
      && Budgeted(next, HowMany(st.trace, Splits), HowMany(st.trace, Refusals))
  {
    var e := Judged(Assess(setup, st.assessments));
    LegalSnoc(setup, task, st.trace, e);
    JudgeCounts(setup, task, st);
    assert (st.trace + [e])[..|st.trace|] == st.trace;
  }

  /** A base covers the whole change unless it was lost before the first tag. */
  lemma UncoveredMeans(setup: Setup, st: Loop)
    requires Inv(setup, st)
    ensures Uncovered(st) ==> NoBase(st.trace)
    ensures !Uncovered(st) ==> RightBase(st.trace, st.book.reviewBase)
  {
    if Uncovered(st) {
      var k :| LostAt(st.trace, k);
      var m :| TaggedAt(st.trace, m);
    }
  }

  /** A fix pass leaves a check to be made. */
  lemma FixWaits(setup: Setup, task: Task, st: Loop, t: Task)
    requires Traced(setup, task, st) && Budgeted(st, st.splits, st.revisions) && RoundFits(setup, task, st.trace, t)
    requires st.trace != [] && !st.trace[|st.trace| - 1].Coded? && !AtRung(st.trace, Split)
    ensures Waiting(setup, task, Fix(setup, st, t))
  {
    CodeTraced(setup, task, st, t);
    NoSplit(setup, st.trace);
  }

  lemma VisionFixTidy(setup: Setup, task: Task, st: Loop, findings: seq<string>)
    requires Traced(setup, task, st) && Budgeted(st, st.splits, st.revisions)
    requires AtAnswer(st.trace, false, false) || AtAnswer(st.trace, false, true)
    requires st.trace[|st.trace| - 1].answer.findings == findings
    ensures Tidy(setup, task, VisionFix(setup, task, st, findings))
  {
    if st.book.rounds < setup.maxRounds {
      FixWaits(setup, task, st, Derived(task, st.lane, VisionGoal(task, findings)));
    }
  }

  lemma NoSplit(setup: Setup, trace: seq<Event>)
    requires trace != [] && !trace[|trace| - 1].Coded? && !AtRung(trace, Split)
    ensures Trailing(trace) == 0 && SplitUnderWay(setup, trace).None?
  {
    assert trace[..|trace|] == trace;
  }

  lemma ReviewCounts(setup: Setup, task: Task, st: Loop)
    requires Counts(task, st) && !Uncovered(st)
    ensures Counts(task, AskReviewer(setup, st))
    ensures Budgeted(AskReviewer(setup, st), HowMany(st.trace, Splits),
                     HowMany(st.trace, Refusals) + if Verdict(setup, st).approved then 0 else 1)
  {
    CountsSnoc(task, st, Reviewed(st.book.reviewBase, Verdict(setup, st)), AskReviewer(setup, st));
  }

  lemma ReviewTraced(setup: Setup, task: Task, st: Loop)
    requires Traced(setup, task, st) && Inv(setup, st) && AtAnswer(st.trace, true, false) && !Uncovered(st)
    ensures
      var next, verdict := AskReviewer(setup, st), Verdict(setup, st);
      && Traced(setup, task, next) && AtReview(next.trace, verdict.approved)
      && next.trace[|next.trace| - 1].verdict == verdict
      && Budgeted(next, HowMany(st.trace, Splits), HowMany(st.trace, Refusals) + if verdict.approved then 0 else 1)
  {
    var e := Reviewed(st.book.reviewBase, Verdict(setup, st));
    UncoveredMeans(setup, st);
    LegalSnoc(setup, task, st.trace, e);
    ReviewCounts(setup, task, st);
  }

  /** Nobody is asked about a change no tag covers: the run is completed. */
  lemma UnaskedTidy(setup: Setup, task: Task, st: Loop)
    requires Traced(setup, task, st) && Inv(setup, st) && AtAnswer(st.trace, true, false) && Uncovered(st)
    ensures OnAccepted(setup, task, st) == Done(AskReviewer(setup, st), Completed)
    ensures Ended(setup, task, AskReviewer(setup, st), Completed)
  {
    UncoveredMeans(setup, st);
  }

  lemma AcceptedTidy(setup: Setup, task: Task, st: Loop)
    requires Traced(setup, task, st) && Budgeted(st, st.splits, st.revisions) && Inv(setup, st)
    requires AtAnswer(st.trace, true, false)
    ensures Tidy(setup, task, OnAccepted(setup, task, st))
  {
    AcceptedCases(setup, task, st);
    if Uncovered(st) {
      UnaskedTidy(setup, task, st);
    } else {
      ReviewTraced(setup, task, st);
      var noted, verdict := AskReviewer(setup, st), Verdict(setup, st);
      if verdict.approved || noted.revisions >= setup.maxReviewRevisions || noted.book.rounds >= setup.maxRounds {
        ReviewEnds(setup, task, noted);
      } else {
        SpendsRevision(setup, task, noted, verdict);
      }
    }
  }

  lemma AcceptedCases(setup: Setup, task: Task, st: Loop)
    ensures
      var noted, verdict := AskReviewer(setup, st), Verdict(setup, st);
      OnAccepted(setup, task, st)
      == if Uncovered(st) || verdict.approved || noted.revisions >= setup.maxReviewRevisions || noted.book.rounds >= setup.maxRounds
         then Done(noted, Completed)
         else Continue(Fix(setup, noted.(revisions := noted.revisions + 1),
                       Derived(task, noted.lane, "Address local review findings: " + Joined(verdict.findings))))
  {}

  lemma ReviewEnds(setup: Setup, task: Task, st: Loop)
    requires Traced(setup, task, st) && st.trace != [] && st.trace[|st.trace| - 1].Reviewed?
    requires Budgeted(st, st.splits, st.revisions + if st.trace[|st.trace| - 1].verdict.approved then 0 else 1)
    requires st.trace[|st.trace| - 1].verdict.approved || st.revisions >= setup.maxReviewRevisions || st.book.rounds >= setup.maxRounds
    ensures Ended(setup, task, st, Completed)
  {}

  lemma SpendsRevision(setup: Setup, task: Task, st: Loop, verdict: ReviewResult)
    requires Traced(setup, task, st) && Budgeted(st, st.splits, st.revisions + 1)
    requires AtReview(st.trace, false) && st.trace[|st.trace| - 1].verdict == verdict
    requires st.revisions < setup.maxReviewRevisions && st.book.rounds < setup.maxRounds
    ensures Waiting(setup, task, Fix(setup, st.(revisions := st.revisions + 1),
                    Derived(task, st.lane, "Address local review findings: " + Joined(verdict.findings))))
  {
    var spent := st.(revisions := st.revisions + 1);
    assert Traced(setup, task, spent);
    FixWaits(setup, task, spent, Derived(task, st.lane, "Address local review findings: " + Joined(verdict.findings)));
  }

  lemma PassTidy(setup: Setup, task: Task, st: Loop)
    requires Traced(setup, task, st) && Budgeted(st, st.splits, st.revisions) && Inv(setup, st) && AtCheck(st.trace, true)
    ensures Tidy(setup, task, OnPass(setup, task, st))
  {
    JudgeTraced(setup, task, st);
    JudgeKeeps(setup, st);
    var answer := Assess(setup, st.assessments);
    if answer.acceptable {
      AcceptedTidy(setup, task, AskJudge(setup, st));
    } else {
      VisionFixTidy(setup, task, AskJudge(setup, st), answer.findings);
    }
  }

  // ------------------------------------------------------------ a failing gate

  lemma DecideFits(setup: Setup, task: Task, st: Loop)
    requires Counts(task, st) && AtCheck(st.trace, false) && st.book.history != []
    requires st.trace[|st.trace| - 1] == Gated(task.(lane := st.lane), Last(st.book.history).gate) && Last(st.book.history).lane == st.lane
    ensures
      var d := Decide(st.book.history, st.judged, setup.judge.Some?, true);
      RungFits(setup, st.trace, d) && (d.rung != Escalate ==> d.lane == st.lane)
  {
    WhichRung(st.book.history, st.judged, setup.judge.Some?, true);
    LastTried(st.book.history);
  }

  lemma NotedCounts(task: Task, st: Loop, d: Decision)
    requires Counts(task, st) && (d.rung != Escalate ==> d.lane == st.lane)
    ensures Counts(task, Noted(st, d))
    ensures Budgeted(Noted(st, d), HowMany(st.trace, Splits) + if d.rung == Split then 1 else 0, HowMany(st.trace, Refusals))
  {
    CountsSnoc(task, st, Decided(d), Noted(st, d));
  }

  lemma DecideTraced(setup: Setup, task: Task, st: Loop)
    requires Traced(setup, task, st) && AtCheck(st.trace, false) && st.book.history != []
    requires st.trace[|st.trace| - 1] == Gated(task.(lane := st.lane), Last(st.book.history).gate) && Last(st.book.history).lane == st.lane
    ensures
      var d := Decide(st.book.history, st.judged, setup.judge.Some?, true);
      var next := Noted(st, d);
      && Traced(setup, task, next) && AtRung(next.trace, d.rung)
      && next.trace == st.trace + [Decided(d)]
      && Budgeted(next, HowMany(st.trace, Splits) + if d.rung == Split then 1 else 0, HowMany(st.trace, Refusals))
  {
    var d := Decide(st.book.history, st.judged, setup.judge.Some?, true);
    DecideFits(setup, task, st);
    LegalSnoc(setup, task, st.trace, Decided(d));
    NotedCounts(task, st, d);
  }

  lemma JudgeRungTidy(setup: Setup, task: Task, st: Loop)
    requires Traced(setup, task, st) && Budgeted(st, st.splits, st.revisions) && AtRung(st.trace, Rung.Judge)
    ensures Tidy(setup, task, OnJudge(setup, task, st))
  {
    JudgeTraced(setup, task, st);
    var answer := Assess(setup, st.assessments);
    if !answer.acceptable {
      VisionFixTidy(setup, task, AskJudge(setup, st), answer.findings);
    }
  }

  /** The focused round for one violation. */
  lemma FocusCodes(setup: Setup, task: Task, st: Loop, vs: seq<string>, i: nat)
    requires Traced(setup, task, st) && Budgeted(st, st.splits, st.revisions)
    requires SplitUnderWay(setup, st.trace) == Some(vs) && i == Trailing(st.trace) < |vs| && st.book.rounds < setup.maxRounds
    ensures
      var next := Code(setup, st, SplitTasks(task, vs)[i].(lane := st.lane));
      && Traced(setup, task, next) && Budgeted(next, st.splits, st.revisions)
      && SplitUnderWay(setup, next.trace) == Some(vs) && Trailing(next.trace) == i + 1
  {
    CodeTraced(setup, task, st, SplitTasks(task, vs)[i].(lane := st.lane));
  }

  /** The split is over, for want of violations or of rounds: its check is due. */
  lemma FocusEnds(setup: Setup, task: Task, st: Loop, vs: seq<string>, changed: bool)
    requires Traced(setup, task, st) && Budgeted(st, st.splits, st.revisions)
    requires SplitUnderWay(setup, st.trace) == Some(vs) && Trailing(st.trace) <= |vs|
    requires Trailing(st.trace) == |vs| || st.book.rounds >= setup.maxRounds
    ensures Waiting(setup, task, st.(reverify := Some(changed)))
  {}

  lemma FixEachUnfolds(setup: Setup, st: Loop, subtasks: seq<Task>, changed: bool)
    ensures FixEach(setup, st, subtasks, changed)
         == if subtasks == [] || st.book.rounds >= setup.maxRounds then st.(reverify := Some(changed))
            else FixEach(setup, Code(setup, st, subtasks[0].(lane := st.lane)), subtasks[1..],
                         changed || setup.coder(st.book.rounds).changed)
  {}

  /** The rest of a split, from its i-th violation on. */
  lemma {:induction false} FixEachTidy(setup: Setup, task: Task, st: Loop, vs: seq<string>, i: nat, changed: bool)
    requires Traced(setup, task, st) && Budgeted(st, st.splits, st.revisions)
    requires SplitUnderWay(setup, st.trace) == Some(vs) && i == Trailing(st.trace) <= |vs|
    ensures Waiting(setup, task, FixEach(setup, st, SplitTasks(task, vs)[i..], changed))
    decreases |vs| - i
  {
    var subtasks := SplitTasks(task, vs)[i..];
    FixEachUnfolds(setup, st, subtasks, changed);
    if i < |vs| && st.book.rounds < setup.maxRounds {
      FocusCodes(setup, task, st, vs, i);
      assert subtasks[1..] == SplitTasks(task, vs)[i + 1..];
      FixEachTidy(setup, task, Code(setup, st, subtasks[0].(lane := st.lane)), vs, i + 1, changed || setup.coder(st.book.rounds).changed);
    } else {
      FocusEnds(setup, task, st, vs, changed);
    }
  }

  /** The rung has just said to split, with the budget for it. */
  lemma SplitStarts(setup: Setup, trace: seq<Event>, vs: seq<string>)
    requires |trace| >= 2 && AtRung(trace, Split) && AtCheck(trace[..|trace| - 1], false)
    requires trace[|trace| - 2].gate.violations == vs && HowMany(trace, Splits) <= setup.maxSplits
    ensures Trailing(trace) == 0 && SplitUnderWay(setup, trace) == Some(vs)
  {
    assert trace[..|trace|] == trace;
    HowManySnoc(trace[..|trace| - 1], trace[|trace| - 1], Splits);
    assert trace == trace[..|trace| - 1] + [trace[|trace| - 1]];
  }

  lemma SplitWaits(setup: Setup, task: Task, st: Loop, vs: seq<string>)
    requires Traced(setup, task, st) && Budgeted(st, st.splits + 1, st.revisions)
    requires Trailing(st.trace) == 0 && SplitUnderWay(setup, st.trace) == Some(vs)
    ensures Waiting(setup, task, FixEach(setup, st.(splits := st.splits + 1), SplitTasks(task, vs), false))
  {
    var counted := st.(splits := st.splits + 1);
    assert Traced(setup, task, counted);
    FixEachTidy(setup, task, counted, vs, 0, false);
    assert SplitTasks(task, vs)[0..] == SplitTasks(task, vs);
  }

  lemma SplitTidy(setup: Setup, task: Task, st: Loop, vs: seq<string>)
    requires Traced(setup, task, st) && Budgeted(st, st.splits + 1, st.revisions)
    requires |st.trace| >= 2 && AtRung(st.trace, Split) && AtCheck(st.trace[..|st.trace| - 1], false)
    requires st.trace[|st.trace| - 2].gate.violations == vs && vs != []
    ensures Tidy(setup, task, OnSplit(setup, task, st, vs))
  {
    SplitGoesOn(setup, task, st, vs);
    if st.splits < setup.maxSplits {
      SplitStarts(setup, st.trace, vs);
      SplitWaits(setup, task, st, vs);
    } else {
      assert Ends(setup, st.trace, Failed);
    }
  }

  lemma SplitGoesOn(setup: Setup, task: Task, st: Loop, vs: seq<string>)
    requires vs != []
    ensures OnSplit(setup, task, st, vs)
         == if st.splits >= setup.maxSplits then Done(st, Failed)
            else Continue(FixEach(setup, st.(splits := st.splits + 1), SplitTasks(task, vs), false))
  {
    assert |SplitTasks(task, vs)| == |vs|;
  }

  lemma FailTidy(setup: Setup, task: Task, st: Loop)
    requires Traced(setup, task, st) && Budgeted(st, st.splits, st.revisions) && st.reverify.None?
    requires AtCheck(st.trace, false) && st.book.history != []
    requires st.trace[|st.trace| - 1] == Gated(task.(lane := st.lane), Last(st.book.history).gate) && Last(st.book.history).lane == st.lane
    ensures Tidy(setup, task, OnFail(setup, task, st))
  {
    var d := Decide(st.book.history, st.judged, setup.judge.Some?, true);
    var noted := Noted(st, d);
    DecideTraced(setup, task, st);
    match d.rung
    case Judge => JudgeRungTidy(setup, task, noted);
    case Split =>
      WhichRung(st.book.history, st.judged, setup.judge.Some?, true);
      assert noted.trace[..|noted.trace| - 1] == st.trace;
      SplitTidy(setup, task, noted, Last(st.book.history).gate.violations);
    case _ =>
  }

  // ------------------------------------------------------------ whole runs

  /** Right after a gate check. */
  ghost predicate JustChecked(setup: Setup, task: Task, st: Loop) {
    && Traced(setup, task, st) && Budgeted(st, st.splits, st.revisions) && st.reverify.None?
    && st.book.history != [] && AtCheck(st.trace, Last(st.book.history).gate.passed)
    && st.trace[|st.trace| - 1] == Gated(task.(lane := st.lane), Last(st.book.history).gate)
    && Last(st.book.history).lane == st.lane
  }

  lemma CheckIsChecked(setup: Setup, task: Task, st: Loop, changed: bool)
    requires Traced(setup, task, st) && Budgeted(st, st.splits, st.revisions) && st.reverify.None? && CheckDue(setup, st.trace)
    ensures JustChecked(setup, task, Check(setup, st, task.(lane := st.lane), changed))
  {
    CheckTraced(setup, task, st, changed);
  }

  lemma AttemptWaits(setup: Setup, task: Task, st: Loop)
    requires Waiting(setup, task, st) && st.reverify.None? && st.book.rounds < setup.maxRounds
    ensures
      var next := Code(setup, st, task.(lane := st.lane));
      Traced(setup, task, next) && Budgeted(next, st.splits, st.revisions) && CheckDue(setup, next.trace)
  {
    CodeTraced(setup, task, st, task.(lane := st.lane));
    if st.trace != [] {
      NoSplit(setup, st.trace);
    }
  }

  lemma AttemptedTidy(setup: Setup, task: Task, st: Loop)
    requires Waiting(setup, task, st) && (st.reverify.Some? || st.book.rounds < setup.maxRounds)
    ensures JustChecked(setup, task, Attempted(setup, task, st))
  {
    if st.reverify.Some? {
      var free := st.(reverify := None);
      assert Traced(setup, task, free);
      CheckIsChecked(setup, task, free, st.reverify.value);
    } else {
      AttemptWaits(setup, task, st);
      CheckIsChecked(setup, task, Code(setup, st, task.(lane := st.lane)), setup.coder(st.book.rounds).changed);
    }
  }

  lemma CheckedTidy(setup: Setup, task: Task, st: Loop)
    requires JustChecked(setup, task, st) && Inv(setup, st)
    ensures Tidy(setup, task, if Last(st.book.history).gate.passed then OnPass(setup, task, st) else OnFail(setup, task, st))
  {
    if Last(st.book.history).gate.passed {
      PassTidy(setup, task, st);
    } else {
      FailTidy(setup, task, st);
    }
  }

  lemma IterateTidy(setup: Setup, task: Task, st: Loop)
    requires Waiting(setup, task, st) && Head(setup, st)
    ensures Tidy(setup, task, Iterate(setup, task, st))
  {
    if st.reverify.Some? || st.book.rounds < setup.maxRounds {
      var checked := Attempted(setup, task, st);
      AttemptedTidy(setup, task, st);
      AttemptedIsChecked(setup, task, st);
      CheckedTidy(setup, task, checked);
    }
  }

  lemma {:induction false} DriveTidy(setup: Setup, task: Task, st: Loop)
    requires Waiting(setup, task, st) && Head(setup, st)
    ensures var (last, final) := Drive(setup, task, st); Ended(setup, task, last, final)
    decreases Left(setup.maxRounds, st.book.rounds), Left(setup.maxSplits, st.splits), if st.reverify.Some? then 1 else 0
  {
    IterateTidy(setup, task, st);
    if Iterate(setup, task, st).Continue? {
      IterateSpends(setup, task, st);
      IterateIsGood(setup, task, st);
      DriveTidy(setup, task, Iterate(setup, task, st).next);
    }
  }

  /** Every run is a legal transcript with a legal end. */
  lemma RunsAreLegal(setup: Setup, task: Task)
    ensures Ended(setup, task, Run(setup, task).0, Run(setup, task).1)
  {
    StartIsHead(setup, task);
    DriveTidy(setup, task, Start(task));
  }

  // ------------------------------------------------------------ what that comes to

  lemma FitsAfter(setup: Setup, task: Task, trace: seq<Event>, k: nat)
    requires k + 1 < |trace|
    ensures Legal(setup, task, trace) ==> Fits(setup, task, trace[..k] + [trace[k]], trace[k + 1])
  {
    var upTo := trace[..k] + [trace[k]];
    assert trace[..k + 1] == upTo;
    if Legal(setup, task, trace) {
      assert Fits(setup, task, trace[..k + 1], trace[k + 1]);
    }
  }

  lemma EndsAfter(setup: Setup, trace: seq<Event>, k: nat, final: Final)
    requires k + 1 == |trace|
    ensures Ends(setup, trace, final) ==> Ends(setup, trace[..k] + [trace[k]], final)
  {
    assert trace[..k] + [trace[k]] == trace;
  }

  /** After event k comes what fits... */
  lemma NextFits(setup: Setup, task: Task, k: nat)
    requires k + 1 < |Run(setup, task).0.trace|
    ensures Fits(setup, task, Run(setup, task).0.trace[..k] + [Run(setup, task).0.trace[k]], Run(setup, task).0.trace[k + 1])
  {
    RunsAreLegal(setup, task);
    FitsAfter(setup, task, Run(setup, task).0.trace, k);
  }

  /** ...or the run ends there. */
  lemma LastEnds(setup: Setup, task: Task, k: nat)
    requires k + 1 == |Run(setup, task).0.trace|
    ensures Ends(setup, Run(setup, task).0.trace[..k] + [Run(setup, task).0.trace[k]], Run(setup, task).1)
  {
    RunsAreLegal(setup, task);
    EndsAfter(setup, Run(setup, task).0.trace, k, Run(setup, task).1);
  }

  lemma OnlyARoundFits(setup: Setup, task: Task, before: seq<Event>, e: Event)
    requires Fits(setup, task, before, e) && (AtReview(before, false) || (before != [] && before[|before| - 1].Judged? && !before[|before| - 1].answer.acceptable))
    ensures e.Coded? && RoundFits(setup, task, before, e.task)
  {
    NoSplit(setup, before);
  }

  /** An unapproved review, while a revision and a round are left, is followed at once by
      a coder round on its findings. */
  lemma ReviewIsActedOn(setup: Setup, task: Task, k: nat)
    requires
      var trace := Run(setup, task).0.trace;
      && k < |trace| && trace[k].Reviewed? && !trace[k].verdict.approved
      && HowMany(trace[..k], Refusals) < setup.maxReviewRevisions && HowMany(trace[..k], Rounds) < setup.maxRounds
    ensures
      var trace := Run(setup, task).0.trace;
      && k + 1 < |trace| && trace[k + 1].Coded?
      && trace[k + 1].task.goal == "Address local review findings: " + Joined(trace[k].verdict.findings)
  {
    var trace := Run(setup, task).0.trace;
    var before, upTo := trace[..k], trace[..k] + [trace[k]];
    HowManySnoc(before, trace[k], Refusals);
    HowManySnoc(before, trace[k], Rounds);
    if k + 1 < |trace| {
      NextFits(setup, task, k);
      OnlyARoundFits(setup, task, upTo, trace[k + 1]);
      NoSplit(setup, upTo);
    } else {
      LastEnds(setup, task, k);
    }
  }

  /** A judge that rejects, while a round is left, is followed at once by a coder round on
      what he found. */
  lemma RejectionIsActedOn(setup: Setup, task: Task, k: nat)
    requires
      var trace := Run(setup, task).0.trace;
      && k < |trace| && trace[k].Judged? && !trace[k].answer.acceptable && HowMany(trace[..k], Rounds) < setup.maxRounds
    ensures
      var trace := Run(setup, task).0.trace;
      && k + 1 < |trace| && trace[k + 1].Coded?
      && trace[k + 1].task.goal == task.goal + " (address vision findings: " + Joined(trace[k].answer.findings) + ")"
  {
    var trace := Run(setup, task).0.trace;
    var before, upTo := trace[..k], trace[..k] + [trace[k]];
    HowManySnoc(before, trace[k], Rounds);
    if k + 1 < |trace| {
      NextFits(setup, task, k);
      OnlyARoundFits(setup, task, upTo, trace[k + 1]);
      NoSplit(setup, upTo);
    } else {
      LastEnds(setup, task, k);
    }
  }

  /** A run is completed exactly when the judge accepted what a passing gate saw and then
      the reviewer approved, or no tag covered the whole change so that nobody was asked,
      or he refused with all revisions or all rounds spent. */
  lemma CompletedExactlyWhen(setup: Setup, task: Task)
    ensures
      var (last, final) := Run(setup, task);
      final == Completed <==>
        || AtReview(last.trace, true)
        || (AtAnswer(last.trace, true, false) && NoBase(last.trace))
        || (AtReview(last.trace, false)
            && (HowMany(last.trace, Refusals) > setup.maxReviewRevisions || HowMany(last.trace, Rounds) >= setup.maxRounds))
  {
    RunsAreLegal(setup, task);
  }

  // ------------------------------------------------------------ what the tallies count

  function Those(trace: seq<Event>, kind: Kind): set<nat> {
    set k: nat | k < |trace| && Is(trace[k], kind)
  }

  lemma ThoseSnoc(trace: seq<Event>, e: Event, kind: Kind)
    ensures |Those(trace + [e], kind)| == |Those(trace, kind)| + if Is(e, kind) then 1 else 0
  {
    if Is(e, kind) {
      assert Those(trace + [e], kind) == Those(trace, kind) + {|trace|};
    } else {
      assert Those(trace + [e], kind) == Those(trace, kind);
    }
  }

  lemma {:induction false} HowManyCounts(trace: seq<Event>, kind: Kind)
    ensures HowMany(trace, kind) == |Those(trace, kind)|
  {
    if trace != [] {
      var init, e := trace[..|trace| - 1], trace[|trace| - 1];
      assert trace == init + [e];
      HowManyCounts(init, kind);
      ThoseSnoc(init, e, kind);
    }
  }

  predicate Grows(a: Tally, b: Tally) {
    a.receipts <= b.receipts && a.tags <= b.tags && a.gates <= b.gates && a.rungs <= b.rungs
  }

  lemma {:induction false} TalliesGrow(trace: seq<Event>, n: nat)
    requires n <= |trace|
    ensures Grows(TallyOf(trace[..n]), TallyOf(trace))
  {
    if n == |trace| {
      assert trace[..n] == trace;
    } else {
      var init := trace[..|trace| - 1];
      TalliesGrow(init, n);
      assert init[..n] == trace[..n];
    }
  }

  /** Where event k stands in the tallies: its round's receipts and tag, its gate result or
      its rung come right after those of the events before it, and nothing else does. */
  lemma {:induction false} TalliesInFull(trace: seq<Event>, k: nat)
    requires k < |trace|
    ensures
      var before, after, all, e := TallyOf(trace[..k]), TallyOf(trace[..k + 1]), TallyOf(trace), trace[k];
      var tagged := e.Coded? && e.result.netTag.Some? && e.result.netTag.value != "";
      && after.receipts == before.receipts + (if e.Coded? then e.result.receipts else []) && after.receipts <= all.receipts
      && after.tags == before.tags + (if tagged then [e.result.netTag.value] else []) && after.tags <= all.tags
      && after.unnetted == before.unnetted + (if e.Coded? && e.result.changed && !tagged then 1 else 0)
      && after.rounds == before.rounds + (if e.Coded? then 1 else 0)
      && after.gates == before.gates + (if e.Gated? then [e.gate] else []) && after.gates <= all.gates
      && after.rungs == before.rungs + (if e.Decided? then [e.decision.rung] else []) && after.rungs <= all.rungs
  {
    assert trace[..k + 1] == trace[..k] + [trace[k]];
    TallySnoc(trace[..k], trace[k]);
    TalliesGrow(trace, k + 1);
  }
}

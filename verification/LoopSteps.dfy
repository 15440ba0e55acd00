/**
 One task driven through the harness, as a function of what the coder, the gate,
 the judge and the reviewer answer. Each collaborator is an arbitrary stream of
 answers: its k-th answer is the one it gives when asked for the k-th time.
*/
module LoopSteps {
  import opened Wrappers
  import opened Harness
  import opened Ladder

  /** The collaborators (no judge or reviewer configured: None) and the budget. */
  datatype Setup = Setup(
    coder: nat -> CoderResult,
    gate: nat -> GateResult,
    judge: Option<nat -> JudgeResult>,
    reviewer: Option<nat -> ReviewResult>,
    maxRounds: int,
    maxSplits: int,
    maxReviewRevisions: int)

  /** Everything that happens during a run, in order. */
  datatype Event =
    | Coded(task: Task, result: CoderResult)
    | Gated(task: Task, gate: GateResult)
    | Judged(answer: JudgeResult)
    | Reviewed(since: Option<string>, verdict: ReviewResult)
    | Decided(decision: Decision)

  /** The bookkeeping of one task. */
  datatype Book = Book(
    history: seq<Attempt>,
    receipts: seq<string>,
    netTags: seq<string>,
    decisions: seq<Rung>,
    reviewFindings: seq<string>,
    unnetted: nat,
    reviewBase: Option<string>,
    reviewBaseLost: bool,
    rounds: nat)

  const EMPTY_BOOK := Book([], [], [], [], [], 0, None, false, 0)

  /** The loop between two rounds. `reverify` is set when the next gate check
      needs no coder round; it remembers whether the code changed. */
  datatype Loop = Loop(
    lane: Lane,
    splits: nat,
    judged: bool,
    revisions: nat,
    reverify: Option<bool>,
    assessments: nat,
    reviews: nat,
    book: Book,
    trace: seq<Event>)

  function Start(task: Task): Loop {
    Loop(task.lane, 0, false, 0, None, 0, 0, EMPTY_BOOK, [])
  }

  datatype Outcome = Continue(next: Loop) | Done(last: Loop, final: Final)

  // ------------------------------------------------------------ asking

  function Assess(setup: Setup, k: nat): JudgeResult {
    if setup.judge.Some? then setup.judge.value(k) else JudgeResult(true, [])
  }

  function ReviewAnswer(setup: Setup, k: nat): ReviewResult {
    if setup.reviewer.Some? then setup.reviewer.value(k) else ReviewResult(true, [], false)
  }

  function Absorb(book: Book, r: CoderResult): Book {
    var first := book.reviewBase.None? && !book.reviewBaseLost;
    book.(
      receipts := book.receipts + r.receipts,
      reviewBase := if first && r.Tagged() then r.netTag else book.reviewBase,
      reviewBaseLost := book.reviewBaseLost || (first && !r.Tagged() && r.changed),
      netTags := if r.Tagged() then book.netTags + [r.netTag.value] else book.netTags,
      unnetted := if !r.Tagged() && r.changed then book.unnetted + 1 else book.unnetted,
      rounds := book.rounds + 1)
  }

  /** One coder round. */
  function Code(setup: Setup, st: Loop, task: Task): Loop {
    var r := setup.coder(st.book.rounds);
    st.(book := Absorb(st.book, r), trace := st.trace + [Coded(task, r)])
  }

  /** One gate check, an attempt on the current lane. */
  function Check(setup: Setup, st: Loop, task: Task, changed: bool): Loop {
    var g := setup.gate(|st.book.history|);
    st.(book := st.book.(history := st.book.history + [Attempt(st.lane, changed, g)]), trace := st.trace + [Gated(task, g)])
  }

  function AskJudge(setup: Setup, st: Loop): Loop {
    st.(assessments := st.assessments + 1, trace := st.trace + [Judged(Assess(setup, st.assessments))])
  }

  function Joined(findings: seq<string>): string {
    if findings == [] then ""
    else if |findings| == 1 then findings[0]
    else findings[0] + "; " + Joined(findings[1..])
  }

  /** Semicolons stand between the findings, and nowhere else. */
  lemma {:induction false} JoinedWithSemicolons(findings: seq<string>, last: string)
    ensures Joined([]) == ""
    ensures Joined(findings + [last]) == if findings == [] then last else Joined(findings) + "; " + last
  {
    if findings == [] {
      assert findings + [last] == [last];
    } else {
      var more := findings + [last];
      assert more[0] == findings[0] && more[1..] == findings[1..] + [last];
      JoinedWithSemicolons(findings[1..], last);
      if |findings| > 1 {
        assert findings[0] + "; " + (Joined(findings[1..]) + "; " + last) == (findings[0] + "; " + Joined(findings[1..])) + "; " + last;
      }
    }
  }

  function Derived(task: Task, lane: Lane, goal: string): Task {
    Task(goal, task.scope, task.gateCommand, lane, Some(task.goal))
  }

  function VisionGoal(task: Task, findings: seq<string>): string {
    task.goal + " (address vision findings: " + Joined(findings) + ")"
  }

  /** A focused coder round whose result is gated next, without another round. */
  function Fix(setup: Setup, st: Loop, task: Task): Loop {
    Code(setup, st, task).(reverify := Some(setup.coder(st.book.rounds).changed))
  }

  function SplitTasks(task: Task, violations: seq<string>): seq<Task> {
    seq(|violations|, i requires 0 <= i < |violations| =>
      Task("Fix: " + violations[i], task.scope, task.gateCommand, task.lane, Some(task.goal)))
  }

  /** One focused round per sub-task while the budget lasts. */
  function FixEach(setup: Setup, st: Loop, subtasks: seq<Task>, changed: bool): Loop
    decreases |subtasks|
  {
    if subtasks == [] || st.book.rounds >= setup.maxRounds then st.(reverify := Some(changed))
    else
      FixEach(setup, Code(setup, st, subtasks[0].(lane := st.lane)), subtasks[1..],
        changed || setup.coder(st.book.rounds).changed)
  }

  // ------------------------------------------------------------ one round

  /** An informed coder round after the judge's findings, if the budget has one. */
  function VisionFix(setup: Setup, task: Task, st: Loop, findings: seq<string>): Outcome {
    if st.book.rounds >= setup.maxRounds then Done(st, Failed)
    else Continue(Fix(setup, st, Derived(task, st.lane, VisionGoal(task, findings))))
  }

  /** Rounds changed code before the first tag, so no tag covers the whole change. */
  predicate Uncovered(st: Loop) {
    st.book.reviewBaseLost && st.book.netTags != []
  }

  function Verdict(setup: Setup, st: Loop): ReviewResult {
    if Uncovered(st) then ReviewResult(true, [], false) else ReviewAnswer(setup, st.reviews)
  }

  /** Ask the reviewer about the whole change, unless no base covers it. */
  function AskReviewer(setup: Setup, st: Loop): Loop {
    var verdict := Verdict(setup, st);
    var findings := if verdict.approved then [] else verdict.findings;
    if Uncovered(st) then st.(book := st.book.(reviewFindings := findings))
    else
      st.(book := st.book.(reviewFindings := findings), reviews := st.reviews + 1,
          trace := st.trace + [Reviewed(st.book.reviewBase, verdict)])
  }

  /** The judge accepted: review, then stop, or fix while revisions last. */
  function OnAccepted(setup: Setup, task: Task, st: Loop): Outcome {
    var verdict := Verdict(setup, st);
    var noted := AskReviewer(setup, st);
    if verdict.approved || noted.revisions >= setup.maxReviewRevisions || noted.book.rounds >= setup.maxRounds
    then Done(noted, Completed)
    else
      Continue(Fix(setup, noted.(revisions := noted.revisions + 1),
        Derived(task, noted.lane, "Address local review findings: " + Joined(verdict.findings))))
  }

  /** The gate passed: the judge looks. */
  function OnPass(setup: Setup, task: Task, st: Loop): Outcome {
    var answer := Assess(setup, st.assessments);
    if answer.acceptable then OnAccepted(setup, task, AskJudge(setup, st))
    else VisionFix(setup, task, AskJudge(setup, st), answer.findings)
  }

  /** The state after the ladder's answer: the rung is noted, and the judge's turn
      or the next lane taken. */
  function Noted(st: Loop, d: Decision): Loop {
    st.(book := st.book.(decisions := st.book.decisions + [d.rung]), trace := st.trace + [Decided(d)],
        judged := st.judged || d.rung == Judge, lane := if d.rung == Escalate then d.lane else st.lane)
  }

  /** The gate failed and the judge is asked why: a screen it accepts means the
      gate is at fault. */
  function OnJudge(setup: Setup, task: Task, st: Loop): Outcome {
    var answer := Assess(setup, st.assessments);
    if answer.acceptable then Done(AskJudge(setup, st), Failed)
    else VisionFix(setup, task, AskJudge(setup, st), answer.findings)
  }

  /** One focused round per violation, then the parent's gate again. */
  function OnSplit(setup: Setup, task: Task, st: Loop, violations: seq<string>): Outcome {
    var subtasks := SplitTasks(task, violations);
    if subtasks == [] || st.splits >= setup.maxSplits then Done(st, Failed)
    else Continue(FixEach(setup, st.(splits := st.splits + 1), subtasks, false))
  }

  /** The gate failed: the ladder decides. */
  function OnFail(setup: Setup, task: Task, st: Loop): Outcome
    requires st.book.history != [] && !Last(st.book.history).gate.passed
  {
    var decision := Decide(st.book.history, st.judged, setup.judge.Some?, true);
    var noted := Noted(st, decision);
    match decision.rung
    case Review => Done(noted, Failed)
    case Escalate => Continue(noted)
    case Retry => Continue(noted)
    case Judge => OnJudge(setup, task, noted)
    case Split => OnSplit(setup, task, noted, Last(st.book.history).gate.violations)
  }

  /** The state at the gate check of the next round. */
  function Attempted(setup: Setup, task: Task, st: Loop): Loop {
    var now := task.(lane := st.lane);
    if st.reverify.Some? then Check(setup, st.(reverify := None), now, st.reverify.value)
    else Check(setup, Code(setup, st, now), now, setup.coder(st.book.rounds).changed)
  }

  function Iterate(setup: Setup, task: Task, st: Loop): Outcome {
    if st.reverify.None? && st.book.rounds >= setup.maxRounds then Done(st, Failed)
    else
      var checked := Attempted(setup, task, st);
      if Last(checked.book.history).gate.passed then OnPass(setup, task, checked) else OnFail(setup, task, checked)
  }

  // ------------------------------------------------------------ the whole run

  function Left(limit: int, spent: nat): nat {
    if limit > spent then limit - spent else 0
  }

  lemma FixEachSpends(setup: Setup, st: Loop, subtasks: seq<Task>, changed: bool)
    ensures var r := FixEach(setup, st, subtasks, changed);
      r.book.rounds >= st.book.rounds && r.splits == st.splits && r.reverify.Some?
    decreases |subtasks|
  {
    if subtasks != [] && st.book.rounds < setup.maxRounds {
      FixEachSpends(setup, Code(setup, st, subtasks[0].(lane := st.lane)), subtasks[1..],
        changed || setup.coder(st.book.rounds).changed);
    }
  }

  lemma PassSpends(setup: Setup, task: Task, st: Loop)
    requires OnPass(setup, task, st).Continue?
    ensures var next := OnPass(setup, task, st).next;
      st.book.rounds < setup.maxRounds && next.book.rounds == st.book.rounds + 1 && next.splits == st.splits
  {}

  lemma FailSpends(setup: Setup, task: Task, st: Loop)
    requires st.book.history != [] && !Last(st.book.history).gate.passed
    requires OnFail(setup, task, st).Continue?
    ensures var next := OnFail(setup, task, st).next;
      || (st.book.rounds < setup.maxRounds && next.book.rounds == st.book.rounds + 1 && next.splits == st.splits)
      || (st.splits < setup.maxSplits && next.splits == st.splits + 1 && next.book.rounds >= st.book.rounds)
      || (next.book.rounds == st.book.rounds && next.splits == st.splits && next.reverify == st.reverify)
  {
    var decision := Decide(st.book.history, st.judged, setup.judge.Some?, true);
    if decision.rung == Split {
      FixEachSpends(setup, Noted(st, decision).(splits := st.splits + 1),
        SplitTasks(task, Last(st.book.history).gate.violations), false);
    }
  }

  /** Every continuation spends a coder round, a split, or the pending re-verify. */
  lemma IterateSpends(setup: Setup, task: Task, st: Loop)
    requires Iterate(setup, task, st).Continue?
    ensures
      var next := Iterate(setup, task, st).next;
      var rounds, rounds' := Left(setup.maxRounds, st.book.rounds), Left(setup.maxRounds, next.book.rounds);
      var splits, splits' := Left(setup.maxSplits, st.splits), Left(setup.maxSplits, next.splits);
      || rounds' < rounds
      || (rounds' == rounds && splits' < splits)
      || (rounds' == rounds && splits' == splits && st.reverify.Some? && next.reverify.None?)
  {
    var checked := Attempted(setup, task, st);
    if Last(checked.book.history).gate.passed {
      PassSpends(setup, task, checked);
    } else {
      FailSpends(setup, task, checked);
    }
  }

  /** The final state of a run; it exists for every set of collaborators. */
  function Drive(setup: Setup, task: Task, st: Loop): (Loop, Final)
    decreases Left(setup.maxRounds, st.book.rounds), Left(setup.maxSplits, st.splits), if st.reverify.Some? then 1 else 0
  {
    match Iterate(setup, task, st)
    case Done(last, final) => (last, final)
    case Continue(next) =>
      IterateSpends(setup, task, st);
      Drive(setup, task, next)
  }
}

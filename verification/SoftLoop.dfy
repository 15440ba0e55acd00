/** The driver as it runs: one loop, and the record it fills. */
module SoftLoop {
  import opened Wrappers
  import opened Harness
  import opened Ladder
  import opened LoopSteps
  import opened LoopRuns
  import opened LoopTheorems
  import LoopTrace

  /** What a run leaves for whoever looks at it afterwards. */
  datatype Evidence = Evidence(
    taskGoal: string,
    final: Final,
    rounds: nat,
    lastViolations: seq<string>,
    receipts: seq<string>,
    netTags: seq<string>,
    gateHistory: seq<GateResult>,
    decisions: seq<Rung>,
    unnettedChanges: nat,
    reviewFindings: seq<string>)

  function EvidenceOf(task: Task, book: Book, final: Final): Evidence {
    Evidence(task.goal, final, book.rounds,
      if book.history == [] then [] else Last(book.history).gate.violations,
      book.receipts, book.netTags, GatesOf(book.history), book.decisions, book.unnetted, book.reviewFindings)
  }

  /** What the loop remembers of its task. */
  class Record {
    var history: seq<Attempt>
    var receipts: seq<string>
    var netTags: seq<string>
    var decisions: seq<Rung>
    var reviewFindings: seq<string>
    var unnetted: nat
    var reviewBase: Option<string>
    var reviewBaseLost: bool
    var rounds: nat
    ghost var trace: seq<Event>

    function View(): Book
      reads this
    {
      Book(history, receipts, netTags, decisions, reviewFindings, unnetted, reviewBase, reviewBaseLost, rounds)
    }

    constructor ()
      ensures View() == EMPTY_BOOK && trace == []
    {
      history, receipts, netTags, decisions, reviewFindings := [], [], [], [], [];
      unnetted, reviewBase, reviewBaseLost, rounds, trace := 0, None, false, 0, [];
    }

    method Absorb(r: CoderResult)
      modifies this
      ensures View() == LoopSteps.Absorb(old(View()), r).(rounds := old(rounds)) && trace == old(trace)
    {
      receipts := receipts + r.receipts;
      if reviewBase.None? && !reviewBaseLost {
        if r.Tagged() {
          reviewBase := r.netTag;
        } else if r.changed {
          reviewBaseLost := true;
        }
      }
      if r.Tagged() {
        netTags := netTags + [r.netTag.value];
      } else if r.changed {
        unnetted := unnetted + 1;
      }
    }

    /** Run the coder once and absorb what it did. */
    method Code(setup: Setup, task: Task) returns (changed: bool)
      modifies this
      ensures View() == LoopSteps.Absorb(old(View()), setup.coder(old(rounds)))
      ensures trace == old(trace) + [Coded(task, setup.coder(old(rounds)))]
      ensures changed == setup.coder(old(rounds)).changed
    {
      var result := setup.coder(rounds);
      trace := trace + [Coded(task, result)];
      Absorb(result);
      rounds := rounds + 1;
      changed := result.changed;
    }

    method Finish(task: Task, final: Final) returns (e: Evidence)
      ensures e == EvidenceOf(task, View(), final)
    {
      var gates := seq(|history|, i requires 0 <= i < |history| reads this => history[i].gate);
      e := Evidence(task.goal, final, rounds,
        if history == [] then [] else Last(history).gate.violations,
        receipts, netTags, gates, decisions, unnetted, reviewFindings);
    }
  }

  /** A part of a round has either ended the run or left it to continue. */
  predicate Matches(o: Outcome, s: Loop, done: Option<Final>) {
    match o
    case Done(last, final) => s == last && done == Some(final)
    case Continue(next) => s == next && done == None
  }

  /** The loop's own variables, and the parts of one round. */
  class Driver {
    const setup: Setup
    const task: Task
    const record: Record
    var lane: Lane
    var splits: nat
    var judged: bool
    var revisions: nat
    var reverify: Option<bool>
    var assessments: nat
    var reviews: nat

    ghost function State(): Loop
      reads this, record
    {
      Loop(lane, splits, judged, revisions, reverify, assessments, reviews, record.View(), record.trace)
    }

    constructor (setup: Setup, task: Task)
      ensures this.setup == setup && this.task == task && fresh(record) && State() == Start(task)
    {
      this.setup, this.task := setup, task;
      lane, splits, judged, revisions, reverify, assessments, reviews := task.lane, 0, false, 0, None, 0, 0;
      record := new Record();
    }

    method Code(t: Task) returns (changed: bool)
      modifies record
      ensures State() == LoopSteps.Code(setup, old(State()), t)
      ensures changed == setup.coder(old(State()).book.rounds).changed
    {
      changed := record.Code(setup, t);
    }

    method Check(t: Task, changed: bool) returns (gate: GateResult)
      modifies record
      ensures State() == LoopSteps.Check(setup, old(State()), t, changed)
      ensures gate == Last(record.history).gate && record.history != [] && Last(record.history).lane == lane
    {
      gate := setup.gate(|record.history|);
      record.history := record.history + [Attempt(lane, changed, gate)];
      record.trace := record.trace + [Gated(t, gate)];
    }

    method AskJudge() returns (answer: JudgeResult)
      modifies this`assessments, record`trace
      ensures State() == LoopSteps.AskJudge(setup, old(State())) && answer == Assess(setup, old(assessments))
    {
      answer := Assess(setup, assessments);
      assessments := assessments + 1;
      record.trace := record.trace + [Judged(answer)];
    }

    /** A fix pass: its code is gated next, without a fresh round. */
    method Fix(t: Task)
      modifies this`reverify, record
      ensures State() == LoopSteps.Fix(setup, old(State()), t)
    {
      var changed := Code(t);
      reverify := Some(changed);
    }

    method VisionFix(findings: seq<string>) returns (done: Option<Final>)
      modifies this`reverify, record
      ensures Matches(LoopSteps.VisionFix(setup, task, old(State()), findings), State(), done)
    {
      if record.rounds >= setup.maxRounds {
        return Some(Failed);
      }
      Fix(Derived(task, lane, VisionGoal(task, findings)));
      return None;
    }

    /** One review, of everything since before the first change. */
    method AskReviewer() returns (verdict: ReviewResult)
      modifies this`reviews, record
      ensures State() == LoopSteps.AskReviewer(setup, old(State())) && verdict == Verdict(setup, old(State()))
    {
      if record.reviewBaseLost && record.netTags != [] {
        verdict := ReviewResult(true, [], false);
      } else {
        verdict := ReviewAnswer(setup, reviews);
        reviews := reviews + 1;
        record.trace := record.trace + [Reviewed(record.reviewBase, verdict)];
      }
      record.reviewFindings := if verdict.approved then [] else verdict.findings;
    }

    method OnAccepted() returns (done: Option<Final>)
      modifies this`reviews, this`revisions, this`reverify, record
      ensures Matches(LoopSteps.OnAccepted(setup, task, old(State())), State(), done)
    {
      var verdict := AskReviewer();
      if verdict.approved || revisions >= setup.maxReviewRevisions || record.rounds >= setup.maxRounds {
        return Some(Completed);
      }
      revisions := revisions + 1;
      Fix(Derived(task, lane, "Address local review findings: " + Joined(verdict.findings)));
      return None;
    }

    method OnPass() returns (done: Option<Final>)
      modifies this, record
      ensures Matches(LoopSteps.OnPass(setup, task, old(State())), State(), done)
    {
      var answer := AskJudge();
      if answer.acceptable {
        done := OnAccepted();
      } else {
        done := VisionFix(answer.findings);
      }
    }

    method OnJudge() returns (done: Option<Final>)
      modifies this, record
      ensures Matches(LoopSteps.OnJudge(setup, task, old(State())), State(), done)
    {
      var answer := AskJudge();
      if answer.acceptable {
        return Some(Failed);
      }
      done := VisionFix(answer.findings);
    }

    method OnSplit(violations: seq<string>) returns (done: Option<Final>)
      modifies this, record
      ensures Matches(LoopSteps.OnSplit(setup, task, old(State()), violations), State(), done)
    {
      var subtasks := SplitTasks(task, violations);
      if subtasks == [] || splits >= setup.maxSplits {
        return Some(Failed);
      }
      splits := splits + 1;
      ghost var before := State();
      var anyChanged, k := false, 0;
      while k < |subtasks| && record.rounds < setup.maxRounds
        invariant 0 <= k <= |subtasks|
        invariant FixEach(setup, before, subtasks, false) == FixEach(setup, State(), subtasks[k..], anyChanged)
        decreases |subtasks| - k
      {
        var focused := Code(subtasks[k].(lane := lane));
        assert subtasks[k..][1..] == subtasks[k + 1..];
        anyChanged := anyChanged || focused;
        k := k + 1;
      }
      reverify := Some(anyChanged);
      return None;
    }

    method OnFail() returns (done: Option<Final>)
      requires record.history != [] && !Last(record.history).gate.passed
      modifies this, record
      ensures Matches(LoopSteps.OnFail(setup, task, old(State())), State(), done)
    {
      var violations := Last(record.history).gate.violations;
      var decision := Decide(record.history, judged, setup.judge.Some?, true);
      record.decisions := record.decisions + [decision.rung];
      record.trace := record.trace + [Decided(decision)];
      match decision.rung {
        case Review => done := Some(Failed);
        case Escalate =>
          lane := decision.lane;
          done := None;
        case Judge =>
          judged := true;
          done := OnJudge();
        case Split => done := OnSplit(violations);
        case Retry => done := None;
      }
    }

    /** One round: a coder attempt unless a fix already made it, then the gate. */
    method Round() returns (done: Option<Final>)
      modifies this, record
      ensures Matches(Iterate(setup, task, old(State())), State(), done)
    {
      if reverify.None? && record.rounds >= setup.maxRounds {
        return Some(Failed);
      }
      var attempt := task.(lane := lane);
      var changed: bool;
      if reverify.Some? {
        changed, reverify := reverify.value, None;
      } else {
        changed := Code(attempt);
      }
      var gate := Check(attempt, changed);
      assert State() == Attempted(setup, task, old(State()));
      if gate.passed {
        done := OnPass();
      } else {
        done := OnFail();
      }
    }
  }

  /** What is promised of the evidence and the trace of a run. */
  ghost predicate Promised(setup: Setup, task: Task, evidence: Evidence, trace: seq<Event>) {
    var t := TallyOf(trace);
    && evidence.taskGoal == task.goal && evidence.rounds == t.rounds <= Cap(setup.maxRounds)
    && evidence.gateHistory == t.gates && |t.gates| <= Cap(setup.maxRounds) + Cap(setup.maxSplits)
    && evidence.lastViolations == (if t.gates == [] then [] else t.gates[|t.gates| - 1].violations)
    && evidence.netTags == t.tags && evidence.unnettedChanges == t.unnetted
    && evidence.receipts == t.receipts && evidence.decisions == t.rungs
    && LoopTrace.Legal(setup, task, trace) && LoopTrace.Ends(setup, trace, evidence.final)
    && evidence.reviewFindings == if LoopTrace.AtAnswer(trace, true, false) then [] else LoopTrace.OpenFindings(trace)
  }

  lemma RunIsPromised(setup: Setup, task: Task)
    ensures var (last, final) := LoopTheorems.Run(setup, task); Promised(setup, task, EvidenceOf(task, last.book, final), last.trace)
  {
    RunEnds(setup, task);
    LoopTrace.RunsAreLegal(setup, task);
  }

  /**
   The whole run. The evidence is that of the run the step
   function describes, so every promise about that run is a promise about it.
  */
  method Run(setup: Setup, task: Task) returns (evidence: Evidence, ghost trace: seq<Event>)
    ensures var (last, final) := LoopTheorems.Run(setup, task);
      evidence == EvidenceOf(task, last.book, final) && trace == last.trace
    ensures Promised(setup, task, evidence, trace)
  {
    var driver := new Driver(setup, task);
    RunIsPromised(setup, task);
    while true
      invariant fresh(driver) && fresh(driver.record) && driver.setup == setup && driver.task == task
      invariant Drive(setup, task, driver.State()) == LoopTheorems.Run(setup, task)
      decreases Left(setup.maxRounds, driver.record.rounds), Left(setup.maxSplits, driver.splits),
                if driver.reverify.Some? then 1 else 0
    {
      ghost var st := driver.State();
      var done := driver.Round();
      if done.Some? {
        evidence := driver.record.Finish(task, done.value);
        return evidence, driver.record.trace;
      }
      IterateSpends(setup, task, st);
    }
  }
}

/** The promises of a run, read off its trace. */
module LoopTheorems {
  import opened Harness
  import opened Ladder
  import opened LoopSteps
  import opened LoopRuns

  function Run(setup: Setup, task: Task): (Loop, Final) {
    Drive(setup, task, Start(task))
  }

  lemma RunEnds(setup: Setup, task: Task)
    ensures var (last, final) := Run(setup, task); End(setup, last, final)
  {
    StartIsHead(setup, task);
    DriveEnds(setup, task, Start(task));
  }

  /** No event of these kinds from k on. */
  ghost predicate Quiet(trace: seq<Event>, k: int) {
    forall j :: 0 <= k <= j < |trace| ==> !trace[j].Coded? && !trace[j].Gated?
  }

  /** Event k is a gate check, and the last one, with no coder round after it. */
  ghost predicate FinalCheck(trace: seq<Event>, k: int) {
    0 <= k < |trace| && trace[k].Gated? && Quiet(trace, k + 1)
  }

  /** Event k is the judge's last word on the code the last gate check saw. */
  ghost predicate FinalWord(trace: seq<Event>, k: int) {
    0 <= k < |trace| && trace[k].Judged? && Quiet(trace, k + 1)
  }

  lemma {:induction false} CheckedMeans(trace: seq<Event>)
    requires !TallyOf(trace).unchecked && TallyOf(trace).gates != []
    ensures exists k :: FinalCheck(trace, k) && trace[k].gate == TallyOf(trace).gates[|TallyOf(trace).gates| - 1]
  {
    if trace != [] {
      var init, e := trace[..|trace| - 1], trace[|trace| - 1];
      assert trace == init + [e];
      if e.Gated? {
        assert FinalCheck(trace, |trace| - 1);
      } else {
        CheckedMeans(init);
        var k :| FinalCheck(init, k) && init[k].gate == TallyOf(init).gates[|TallyOf(init).gates| - 1];
        assert FinalCheck(trace, k);
      }
    }
  }

  lemma {:induction false} UngatedMeans(trace: seq<Event>)
    requires TallyOf(trace).gates == [] && !TallyOf(trace).unchecked
    ensures forall k :: 0 <= k < |trace| ==> !trace[k].Coded?
  {
    if trace != [] {
      UngatedMeans(trace[..|trace| - 1]);
    }
  }

  lemma {:induction false} JudgedMeans(trace: seq<Event>)
    requires TallyOf(trace).judgedFine
    ensures exists k :: FinalWord(trace, k) && trace[k].answer.acceptable
  {
    if trace != [] {
      var init, e := trace[..|trace| - 1], trace[|trace| - 1];
      if e.Judged? {
        assert FinalWord(trace, |trace| - 1);
      } else {
        JudgedMeans(init);
        var k :| FinalWord(init, k) && init[k].answer.acceptable;
        assert FinalWord(trace, k);
      }
    }
  }

  // ------------------------------------------------------------ main results

  /** Coder rounds stay within the round budget, gate checks within both budgets. */
  lemma BudgetsHold(setup: Setup, task: Task)
    ensures var t := TallyOf(Run(setup, task).0.trace);
      t.rounds <= Cap(setup.maxRounds) && |t.gates| <= Cap(setup.maxRounds) + Cap(setup.maxSplits)
  {
    RunEnds(setup, task);
  }

  /** Whatever path a run ends on, every coder round is followed by a gate check. */
  lemma EveryRoundIsGated(setup: Setup, task: Task, k: nat)
    requires k < |Run(setup, task).0.trace| && Run(setup, task).0.trace[k].Coded?
    ensures exists j :: k < j < |Run(setup, task).0.trace| && Run(setup, task).0.trace[j].Gated?
  {
    var trace := Run(setup, task).0.trace;
    RunEnds(setup, task);
    if TallyOf(trace).gates == [] {
      UngatedMeans(trace);
    } else {
      CheckedMeans(trace);
      var j :| FinalCheck(trace, j);
    }
  }

  /** COMPLETED means: the last gate check passed, the judge's last word on that
      code was yes, and no coder round came after. */
  lemma CompletedMeans(setup: Setup, task: Task)
    requires Run(setup, task).1 == Completed
    ensures var trace := Run(setup, task).0.trace;
      && (exists k :: FinalCheck(trace, k) && trace[k].gate.passed)
      && (exists j :: FinalWord(trace, j) && trace[j].answer.acceptable)
      && (forall k, j :: FinalCheck(trace, k) && FinalWord(trace, j) ==> k < j)
  {
    var last := Run(setup, task).0;
    RunEnds(setup, task);
    CheckedMeans(last.trace);
    JudgedMeans(last.trace);
    assert GatesOf(last.book.history)[|last.book.history| - 1] == Last(last.book.history).gate;
    forall k, j | FinalCheck(last.trace, k) && FinalWord(last.trace, j)
      ensures k < j
    {}
  }

  /** Whenever the reviewer is asked, `since` is the first tag and no earlier round
      changed code, or there has been no tag at all. */
  lemma ReviewerSeesTheWholeChange(setup: Setup, task: Task, k: nat)
    requires k < |Run(setup, task).0.trace| && Run(setup, task).0.trace[k].Reviewed?
    ensures RightBase(Run(setup, task).0.trace[..k], Run(setup, task).0.trace[k].since)
  {
    RunEnds(setup, task);
    assert Justified(setup, Run(setup, task).0.trace[..k], Run(setup, task).0.trace[k]);
  }

  /** Lanes never go down, and a lane is left only after two gate results on it. */
  lemma LanesClimb(setup: Setup, task: Task, i: nat, j: nat)
    requires i < j < |Run(setup, task).0.book.history|
    ensures var h := Run(setup, task).0.book.history;
      && h[i].lane.Rank() <= h[j].lane.Rank()
      && (h[j].lane == Small ==> h[i].lane == Small) && (h[i].lane == Deep ==> h[j].lane == Deep)
      && (h[i].lane != Last(h).lane ==> Tries(h, h[i].lane) >= 2)
  {
    RunEnds(setup, task);
    var last := Run(setup, task).0;
    assert last.book.history[|last.book.history| - 1].lane.Rank() <= last.lane.Rank();
  }

  /** The judge's rung is taken at most once, and a human's only when no other is left. */
  lemma RungsAreOrderly(setup: Setup, task: Task, k: nat)
    ensures JudgeRungs(TallyOf(Run(setup, task).0.trace).rungs) <= 1
    ensures var trace := Run(setup, task).0.trace;
      k < |trace| && trace[k].Decided? && trace[k].decision.rung == Rung.Review ==>
        var before := TallyOf(trace[..k]);
        && trace[k].decision.lane == Deep
        && before.gates != [] && |before.gates[|before.gates| - 1].violations| <= 1
        && (setup.judge.None? || JudgeRungs(before.rungs) == 1)
  {
    RunEnds(setup, task);
    var trace := Run(setup, task).0.trace;
    if k < |trace| {
      assert Justified(setup, trace[..k], trace[k]);
    }
  }
}

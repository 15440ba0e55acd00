/** Value types of the harness: tasks, lanes, and what its collaborators answer. */
module Harness {
  import opened Wrappers

  datatype Lane = Small | Standard | Deep {
    function Rank(): nat {
      match this
      case Small => 0
      case Standard => 1
      case Deep => 2
    }
  }

  function NextLane(lane: Lane): Option<Lane> {
    match lane
    case Small => Some(Standard)
    case Standard => Some(Deep)
    case Deep => None
  }

  datatype Task = Task(goal: string, scope: string, gateCommand: string, lane: Lane, parent: Option<string>)

  datatype CoderResult = CoderResult(changed: bool, netTag: Option<string>, receipts: seq<string>) {
    /** A rewind tag was left; an empty tag is no tag. */
    predicate Tagged() {
      netTag.Some? && netTag.value != ""
    }
  }

  datatype GateAnswer = GateAnswer(passed: bool, violations: seq<string>)

  /** A passing gate carries no violations. */
  type GateResult = g: GateAnswer | g.passed ==> g.violations == [] witness GateAnswer(true, [])

  datatype JudgeResult = JudgeResult(acceptable: bool, findings: seq<string>)

  datatype ReviewResult = ReviewResult(approved: bool, findings: seq<string>, reviewed: bool)

  /** The two states a run may end in. */
  datatype Final = Completed | Failed
}

/** The escalation ladder: a pure decision over the attempts made so far. */
module Ladder {
  import opened Wrappers
  import opened Harness

  datatype Rung = Retry | Split | Escalate | Judge | Review

  /** The lane is the next one to use; unchanged unless the rung is Escalate. */
  datatype Decision = Decision(rung: Rung, lane: Lane)

  datatype Attempt = Attempt(lane: Lane, changed: bool, gate: GateResult)

  function Last(history: seq<Attempt>): Attempt
    requires history != []
  {
    history[|history| - 1]
  }

  /** How many attempts were made on a lane. */
  function Tries(history: seq<Attempt>, lane: Lane): nat {
    if history == [] then 0
    else Tries(history[..|history| - 1], lane) + if Last(history).lane == lane then 1 else 0
  }

  function AttemptsOn(history: seq<Attempt>, lane: Lane): set<nat> {
    set i: nat | i < |history| && history[i].lane == lane
  }

  lemma {:induction false} TriesCounts(history: seq<Attempt>, lane: Lane)
    ensures Tries(history, lane) == |AttemptsOn(history, lane)|
  {
    if history != [] {
      var last := |history| - 1;
      TriesCounts(history[..last], lane);
      assert AttemptsOn(history, lane) == AttemptsOn(history[..last], lane) + if history[last].lane == lane then {last} else {};
    }
  }

  /** The last two attempts, on one lane, changed nothing and failed alike. */
  predicate Stalled(history: seq<Attempt>) {
    && |history| >= 2
    && var a, b := history[|history| - 2], history[|history| - 1];
    && a.lane == b.lane && !a.changed && !b.changed
    && a.gate.violations == b.gate.violations && b.gate.violations != []
  }

  predicate Splittable(history: seq<Attempt>, allowSplit: bool)
    requires history != []
  {
    allowSplit && |Last(history).gate.violations| > 1
  }

  /** The next rung; asked only after a failing gate. */
  function Decide(history: seq<Attempt>, judged: bool, vision: bool, allowSplit: bool): Decision
    requires history != [] && !Last(history).gate.passed
  {
    var lane := Last(history).lane;
    var canJudge := vision && !judged;
    if Stalled(history) then
      if Splittable(history, allowSplit) then Decision(Split, lane)
      else if NextLane(lane).Some? then Decision(Escalate, NextLane(lane).value)
      else if canJudge then Decision(Judge, lane)
      else Decision(Review, lane)
    else if Tries(history, lane) == 1 then Decision(Retry, lane)
    else if Splittable(history, allowSplit) then Decision(Split, lane)
    else if NextLane(lane).Some? then Decision(Escalate, NextLane(lane).value)
    else if canJudge then Decision(Judge, lane)
    else Decision(Review, lane)
  }

  lemma LastTried(history: seq<Attempt>)
    requires history != []
    ensures Tries(history, Last(history).lane) >= 1
    ensures Stalled(history) ==> Tries(history, Last(history).lane) >= 2
  {
    var init := history[..|history| - 1];
    if |history| >= 2 {
      assert Last(init) == history[|history| - 2];
    }
  }

  /**
   Exactly when each rung is taken. The number of tries on the lane, the number
   of violations, the lane and the judge settle it: whether the last two
   attempts stalled never matters, since a stall already needs two of them.
  */
  lemma WhichRung(history: seq<Attempt>, judged: bool, vision: bool, allowSplit: bool)
    requires history != [] && !Last(history).gate.passed
    ensures
      var lane := Last(history).lane;
      var d := Decide(history, judged, vision, allowSplit);
      var again := Tries(history, lane) >= 2;
      var whole := !allowSplit || |Last(history).gate.violations| <= 1;
      && (d.rung == Retry <==> Tries(history, lane) == 1)
      && (d.rung == Split <==> again && !whole)
      && (d.rung == Escalate <==> again && whole && lane != Deep)
      && (d.rung == Judge <==> again && whole && lane == Deep && vision && !judged)
      && (d.rung == Review <==> again && whole && lane == Deep && (!vision || judged))
      && d.lane == (if d.rung != Escalate then lane else if lane == Small then Standard else Deep)
  {
    LastTried(history);
  }

  /** Two histories that differ only in what the attempts changed, and so in
      whether they stalled, get the same answer. */
  lemma StallingChangesNothing(a: seq<Attempt>, b: seq<Attempt>, judged: bool, vision: bool, allowSplit: bool)
    requires |a| == |b| > 0 && !Last(a).gate.passed
    requires forall k :: 0 <= k < |a| ==> a[k].lane == b[k].lane && a[k].gate == b[k].gate
    ensures Decide(a, judged, vision, allowSplit) == Decide(b, judged, vision, allowSplit)
  {
    WhichRung(a, judged, vision, allowSplit);
    WhichRung(b, judged, vision, allowSplit);
    SameTries(a, b, Last(a).lane);
  }

  lemma {:induction false} SameTries(a: seq<Attempt>, b: seq<Attempt>, lane: Lane)
    requires |a| == |b|
    requires forall k :: 0 <= k < |a| ==> a[k].lane == b[k].lane
    ensures Tries(a, lane) == Tries(b, lane)
  {
    if a != [] {
      SameTries(a[..|a| - 1], b[..|b| - 1], lane);
    }
  }
}

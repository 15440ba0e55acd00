/** Which panel names which Edit, by where they are. */
module FieldPairing {
  import opened Wrappers
  import opened WindowTree

  /** Two windows are in one row when their middles are closer than this. */
  const ROW_TOLERANCE_PX := 8.0
  /** How much a panel may reach into the Edit it names. */
  const OVERLAP_PX := 4
  /** How much room may be left between the two. */
  const MAX_GAP_PX := 8

  datatype Process = Process(pid: int, started: int, image: string)

  /** What tells one field from another, today and tomorrow, wherever the window is. */
  datatype Identity = Identity(image: string, classPath: seq<string>, labelHash: string, rect: Rect, labelRect: Rect)

  datatype Field = Field(process: Process, classPath: seq<string>, labelHash: string,
                         rect: Rect, labelRect: Rect, screenRect: Rect, hwnd: int) {
    function Id(): Identity {
      Identity(process.image, classPath, labelHash, rect, labelRect)
    }
  }

  datatype FieldScan = FieldScan(fields: seq<Field>, unpaired: int)

  function CentreY(r: Rect): real {
    r.y as real + r.h as real / 2.0
  }

  function Right(r: Rect): int {
    r.x + r.w
  }

  function Abs(x: real): real {
    if x < 0.0 then -x else x
  }

  /** A panel that may label an Edit with this rectangle. */
  predicate InRow(panel: Rect, edit: Rect) {
    && Abs(CentreY(panel) - CentreY(edit)) < ROW_TOLERANCE_PX
    && edit.x - MAX_GAP_PX <= Right(panel) <= edit.x + OVERLAP_PX
  }

  /** The same in whole numbers: the middles less than eight pixels apart, the panel's
      right edge from eight pixels before the Edit's left one to four inside it. */
  lemma InRowExactlyWhen(panel: Rect, edit: Rect)
    ensures InRow(panel, edit) <==>
      && -16 < (2 * panel.y + panel.h) - (2 * edit.y + edit.h) < 16
      && -8 <= (panel.x + panel.w) - edit.x <= 4
  {
    assert CentreY(panel) == (2 * panel.y + panel.h) as real / 2.0;
    assert CentreY(edit) == (2 * edit.y + edit.h) as real / 2.0;
  }

  // ------------------------------------------------------------ what a pairing is

  /** Panel k is the one nearest panel in the Edit's row, and it has a name. */
  ghost predicate Labels(panels: seq<WindowNode>, edit: Rect, k: int) {
    && 0 <= k < |panels| && InRow(panels[k].rect, edit) && panels[k].nameHash.Some?
    && forall j :: 0 <= j < |panels| && j != k && InRow(panels[j].rect, edit) ==> Right(panels[j].rect) < Right(panels[k].rect)
  }

  /** The label of an Edit, as an index into the panels. */
  ghost function LabelOf(panels: seq<WindowNode>, edit: Rect): (r: Option<nat>)
    ensures r.Some? ==> Labels(panels, edit, r.value)
    ensures r.None? ==> forall k :: !Labels(panels, edit, k)
  {
    if exists k :: Labels(panels, edit, k) then
      var k :| Labels(panels, edit, k);
      Some(k)
    else None
  }

  lemma OneLabel(panels: seq<WindowNode>, edit: Rect, k: int)
    requires Labels(panels, edit, k)
    ensures LabelOf(panels, edit) == Some(k)
  {}

  ghost function LabelsOf(panels: seq<WindowNode>, edits: seq<Placed>): (r: seq<Option<nat>>)
    ensures |r| == |edits|
    ensures forall i :: 0 <= i < |edits| ==> r[i] == LabelOf(panels, edits[i].node.rect)
  {
    seq(|edits|, i requires 0 <= i < |edits| => LabelOf(panels, edits[i].node.rect))
  }

  /** Edit i has a label that no other Edit has. */
  predicate Paired(labels: seq<Option<nat>>, i: nat) {
    i < |labels| && labels[i].Some? && forall j :: 0 <= j < |labels| && j != i ==> labels[j] != labels[i]
  }

  function Relative(root: Rect, r: Rect): Rect {
    Rect(r.x - root.x, r.y - root.y, r.w, r.h)
  }

  function FieldOf(root: Rect, process: Process, edit: Placed, panel: WindowNode): Field
    requires panel.nameHash.Some?
  {
    Field(process, edit.path, panel.nameHash.value, Relative(root, edit.node.rect), Relative(root, panel.rect),
      edit.node.rect, edit.node.hwnd)
  }

  /** Every label index is that of a named panel. */
  predicate Named(panels: seq<WindowNode>, labels: seq<Option<nat>>) {
    forall i :: 0 <= i < |labels| && labels[i].Some? ==> labels[i].value < |panels| && panels[labels[i].value].nameHash.Some?
  }

  /** The fields of the first n Edits that are paired, in document order. */
  function Candidates(root: Rect, process: Process, panels: seq<WindowNode>, edits: seq<Placed>,
                      labels: seq<Option<nat>>, n: nat): seq<Field>
    requires |labels| == |edits| && n <= |edits| && Named(panels, labels)
  {
    if n == 0 then []
    else
      Candidates(root, process, panels, edits, labels, n - 1)
      + if Paired(labels, n - 1) then [FieldOf(root, process, edits[n - 1], panels[labels[n - 1].value])] else []
  }

  // ------------------------------------------------------------ the last filter is redundant

  /** Two Edits whose labels sit at the same place have the same label: two panels
      at one place would tie, and a tie leaves both Edits without one. */
  lemma SamePlaceSameLabel(panels: seq<WindowNode>, a: Rect, b: Rect, k: nat, m: nat)
    requires Labels(panels, a, k) && Labels(panels, b, m) && panels[k].rect == panels[m].rect
    ensures k == m
  {}

  lemma SameRelative(root: Rect, a: Rect, b: Rect)
    requires Relative(root, a) == Relative(root, b)
    ensures a == b
  {}

  /** Which Edit the c-th candidate comes from. */
  lemma {:induction false} CandidateSource(root: Rect, process: Process, panels: seq<WindowNode>, edits: seq<Placed>,
                                           labels: seq<Option<nat>>, n: nat, c: nat) returns (i: nat)
    requires |labels| == |edits| && n <= |edits| && Named(panels, labels)
    requires c < |Candidates(root, process, panels, edits, labels, n)|
    ensures i < n && Paired(labels, i)
    ensures c == |Candidates(root, process, panels, edits, labels, i)|
    ensures Candidates(root, process, panels, edits, labels, n)[c]
         == FieldOf(root, process, edits[i], panels[labels[i].value])
  {
    if c < |Candidates(root, process, panels, edits, labels, n - 1)| {
      i := CandidateSource(root, process, panels, edits, labels, n - 1, c);
    } else {
      i := n - 1;
    }
  }

  /** No two candidates have their labels at one place: each panel serves at most one
      field, and no two candidates share an identity. */
  lemma LabelPlacesDiffer(root: Rect, process: Process, panels: seq<WindowNode>, edits: seq<Placed>, c: nat, d: nat)
    requires
      var cs := Candidates(root, process, panels, edits, LabelsOf(panels, edits), |edits|);
      c < |cs| && d < |cs| && cs[c].labelRect == cs[d].labelRect
    ensures c == d
  {
    var labels := LabelsOf(panels, edits);
    var i := CandidateSource(root, process, panels, edits, labels, |edits|, c);
    var j := CandidateSource(root, process, panels, edits, labels, |edits|, d);
    SameRelative(root, panels[labels[i].value].rect, panels[labels[j].value].rect);
    SamePlaceSameLabel(panels, edits[i].node.rect, edits[j].node.rect, labels[i].value, labels[j].value);
  }
}

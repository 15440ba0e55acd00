/** The whole scan of a window: walk, pair, filter, and put in reading order. */
module FieldScanning {
  import opened Wrappers
  import opened WindowTree
  import opened FieldPairing

  // ------------------------------------------------------------ filter and order

  /** No other candidate has this one's identity. */
  predicate Unique(cs: seq<Field>, i: nat) {
    i < |cs| && forall j :: 0 <= j < |cs| && j != i ==> cs[j].Id() != cs[i].Id()
  }

  function KeepUnique(cs: seq<Field>, n: nat): seq<Field>
    requires n <= |cs|
  {
    if n == 0 then [] else KeepUnique(cs, n - 1) + if Unique(cs, n - 1) then [cs[n - 1]] else []
  }

  /** No two fields have their labels at one place. */
  predicate LabelsApart(fs: seq<Field>) {
    forall i, j :: 0 <= i < |fs| && 0 <= j < |fs| && fs[i].labelRect == fs[j].labelRect ==> i == j
  }

  lemma {:induction false} KeepsAll(cs: seq<Field>, n: nat)
    requires n <= |cs| && LabelsApart(cs)
    ensures KeepUnique(cs, n) == cs[..n]
  {
    if n > 0 {
      KeepsAll(cs, n - 1);
    }
  }

  /** Top to bottom, then left to right. */
  predicate Before(a: Field, b: Field) {
    a.rect.y < b.rect.y || (a.rect.y == b.rect.y && a.rect.x <= b.rect.x)
  }

  predicate Ordered(fs: seq<Field>) {
    forall i, j :: 0 <= i < j < |fs| ==> Before(fs[i], fs[j])
  }

  /** f after everything that is not after it. */
  function Insert(fs: seq<Field>, f: Field): (r: seq<Field>)
    ensures multiset(r) == multiset(fs) + multiset{f}
  {
    if fs == [] || Before(fs[|fs| - 1], f) then fs + [f]
    else
      assert fs == fs[..|fs| - 1] + [fs[|fs| - 1]];
      Insert(fs[..|fs| - 1], f) + [fs[|fs| - 1]]
  }

  /** A stable sort into reading order. */
  function Sorted(fs: seq<Field>): (r: seq<Field>)
    ensures multiset(r) == multiset(fs)
  {
    if fs == [] then []
    else
      assert fs == fs[..|fs| - 1] + [fs[|fs| - 1]];
      Insert(Sorted(fs[..|fs| - 1]), fs[|fs| - 1])
  }

  lemma {:induction false} InsertOrdered(fs: seq<Field>, f: Field)
    requires Ordered(fs)
    ensures Ordered(Insert(fs, f))
  {
    if fs != [] && !Before(fs[|fs| - 1], f) {
      var init, last := fs[..|fs| - 1], fs[|fs| - 1];
      InsertOrdered(init, f);
      var r := Insert(init, f);
      forall i | 0 <= i < |r| ensures Before(r[i], last) {
        assert r[i] in multiset(r);
        assert r[i] in init || r[i] == f;
      }
    }
  }

  lemma {:induction false} SortedOrdered(fs: seq<Field>)
    ensures Ordered(Sorted(fs))
  {
    if fs != [] {
      SortedOrdered(fs[..|fs| - 1]);
      InsertOrdered(Sorted(fs[..|fs| - 1]), fs[|fs| - 1]);
    }
  }

  lemma {:induction false} InsertApart(fs: seq<Field>, f: Field)
    requires LabelsApart(fs) && forall i :: 0 <= i < |fs| ==> fs[i].labelRect != f.labelRect
    ensures LabelsApart(Insert(fs, f))
  {
    if fs != [] && !Before(fs[|fs| - 1], f) {
      var init, last := fs[..|fs| - 1], fs[|fs| - 1];
      InsertApart(init, f);
      var r := Insert(init, f);
      forall i | 0 <= i < |r| ensures r[i].labelRect != last.labelRect {
        assert r[i] in multiset(r);
        assert r[i] in init || r[i] == f;
      }
    }
  }

  lemma {:induction false} SortedApart(fs: seq<Field>)
    requires LabelsApart(fs)
    ensures LabelsApart(Sorted(fs))
  {
    if fs != [] {
      var init, last := fs[..|fs| - 1], fs[|fs| - 1];
      SortedApart(init);
      var r := Sorted(init);
      forall i | 0 <= i < |r| ensures r[i].labelRect != last.labelRect {
        assert r[i] in multiset(r);
        assert r[i] in init;
      }
      InsertApart(r, last);
    }
  }

  // ------------------------------------------------------------ the scan

  datatype Classes = Classes(labelName: string, editName: string)

  function Edits(seen: seq<Placed>, classes: Classes): seq<Placed> {
    if seen == [] then []
    else
      var z := seen[|seen| - 1];
      Edits(seen[..|seen| - 1], classes) + if z.node.className == classes.editName then [z] else []
  }

  function Panels(seen: seq<Placed>, classes: Classes): seq<WindowNode> {
    if seen == [] then []
    else
      var z := seen[|seen| - 1].node;
      Panels(seen[..|seen| - 1], classes)
      + if z.className != classes.editName && z.className == classes.labelName then [z] else []
  }

  /** The visible windows below the root; none when it is hidden. */
  function Shown(root: WindowNode): seq<Placed> {
    if root.visible then Seen(root.children, [root.className]) else []
  }

  /** What a scan does not refuse. */
  predicate Acceptable(root: WindowNode, classes: Classes, maxNodes: nat, maxDepth: nat) {
    && root.className != classes.editName
    && (root.visible ==> Looked(root.children) <= maxNodes && Depth(root.children) <= maxDepth)
  }

  ghost function AllCandidates(root: Rect, process: Process, panels: seq<WindowNode>, edits: seq<Placed>): seq<Field> {
    Candidates(root, process, panels, edits, LabelsOf(panels, edits), |edits|)
  }

  ghost function ScanOf(root: WindowNode, process: Process, classes: Classes): FieldScan {
    var edits, panels := Edits(Shown(root), classes), Panels(Shown(root), classes);
    var cs := AllCandidates(root.rect, process, panels, edits);
    var fields := Sorted(KeepUnique(cs, |cs|));
    FieldScan(fields, |edits| - |fields|)
  }

  lemma CandidatesApart(root: Rect, process: Process, panels: seq<WindowNode>, edits: seq<Placed>)
    ensures LabelsApart(AllCandidates(root, process, panels, edits))
  {
    var cs := AllCandidates(root, process, panels, edits);
    forall i, j | 0 <= i < |cs| && 0 <= j < |cs| && cs[i].labelRect == cs[j].labelRect ensures i == j {
      LabelPlacesDiffer(root, process, panels, edits, i, j);
    }
  }

  lemma {:induction false} CandidatesFewer(root: Rect, process: Process, panels: seq<WindowNode>, edits: seq<Placed>,
                                           labels: seq<Option<nat>>, n: nat)
    requires |labels| == |edits| && n <= |edits| && Named(panels, labels)
    ensures |Candidates(root, process, panels, edits, labels, n)| <= n
  {
    if n > 0 {
      CandidatesFewer(root, process, panels, edits, labels, n - 1);
    }
  }

  /** The fields are exactly the paired Edits, none dropped by the last filter, in
      reading order, no label used twice; with the unpaired ones they make up all
      visible Edits. */
  lemma ScanIsComplete(root: WindowNode, process: Process, classes: Classes)
    ensures
      var edits, panels := Edits(Shown(root), classes), Panels(Shown(root), classes);
      var scan := ScanOf(root, process, classes);
      && multiset(scan.fields) == multiset(AllCandidates(root.rect, process, panels, edits))
      && Ordered(scan.fields) && LabelsApart(scan.fields)
      && scan.unpaired >= 0 && |scan.fields| + scan.unpaired == |edits|
  {
    var edits, panels := Edits(Shown(root), classes), Panels(Shown(root), classes);
    var cs := AllCandidates(root.rect, process, panels, edits);
    CandidatesApart(root.rect, process, panels, edits);
    KeepsAll(cs, |cs|);
    assert cs[..|cs|] == cs;
    SortedOrdered(cs);
    SortedApart(cs);
    CandidatesFewer(root.rect, process, panels, edits, LabelsOf(panels, edits), |edits|);
    assert |multiset(Sorted(cs))| == |multiset(cs)|;
  }

  // ------------------------------------------------------------ what a field says

  /** The field is the Edit's own place and handle, with the panel's name and place; all
      places but the one on the screen are relative to the window's corner. */
  predicate Describes(f: Field, process: Process, root: Rect, edit: Placed, panel: WindowNode) {
    && f.process == process && f.classPath == edit.path
    && f.screenRect == edit.node.rect && f.hwnd == edit.node.hwnd
    && f.rect == Rect(edit.node.rect.x - root.x, edit.node.rect.y - root.y, edit.node.rect.w, edit.node.rect.h)
    && panel.nameHash == Some(f.labelHash)
    && f.labelRect == Rect(panel.rect.x - root.x, panel.rect.y - root.y, panel.rect.w, panel.rect.h)
  }

  /** Panel k names Edit i, and no other Edit. */
  ghost predicate Names(panels: seq<WindowNode>, edits: seq<Placed>, k: int, i: int) {
    && 0 <= i < |edits| && Labels(panels, edits[i].node.rect, k)
    && forall j :: 0 <= j < |edits| && j != i ==> !Labels(panels, edits[j].node.rect, k)
  }

  lemma PairedIsNamed(panels: seq<WindowNode>, edits: seq<Placed>, i: nat, k: nat)
    requires i < |edits| && Labels(panels, edits[i].node.rect, k)
    ensures Paired(LabelsOf(panels, edits), i) <==> Names(panels, edits, k, i)
  {
    var labels := LabelsOf(panels, edits);
    OneLabel(panels, edits[i].node.rect, k);
    forall j | 0 <= j < |edits| ensures labels[j] == Some(k) <==> Labels(panels, edits[j].node.rect, k) {
      if Labels(panels, edits[j].node.rect, k) {
        OneLabel(panels, edits[j].node.rect, k);
      }
    }
  }

  lemma {:induction false} CandidateOf(root: Rect, process: Process, panels: seq<WindowNode>, edits: seq<Placed>,
                                       labels: seq<Option<nat>>, n: nat, i: nat)
    requires |labels| == |edits| && n <= |edits| && Named(panels, labels) && i < n && Paired(labels, i)
    ensures FieldOf(root, process, edits[i], panels[labels[i].value]) in Candidates(root, process, panels, edits, labels, n)
  {
    if i < n - 1 {
      CandidateOf(root, process, panels, edits, labels, n - 1, i);
    }
  }

  /** The fields of a scan have the elements of the candidates. */
  lemma ScanHolds(root: WindowNode, process: Process, classes: Classes, f: Field)
    ensures
      var edits, panels := Edits(Shown(root), classes), Panels(Shown(root), classes);
      f in ScanOf(root, process, classes).fields <==> f in AllCandidates(root.rect, process, panels, edits)
  {
    ScanIsComplete(root, process, classes);
    var edits, panels := Edits(Shown(root), classes), Panels(Shown(root), classes);
    var cs, fields := AllCandidates(root.rect, process, panels, edits), ScanOf(root, process, classes).fields;
    assert f in fields <==> f in multiset(fields);
    assert f in cs <==> f in multiset(cs);
  }

  /** Every field of a scan describes one visible Edit and the panel that names it and no
      other Edit... */
  lemma FieldsDescribeEdits(root: WindowNode, process: Process, classes: Classes, c: nat)
    requires c < |ScanOf(root, process, classes).fields|
    ensures
      var edits, panels := Edits(Shown(root), classes), Panels(Shown(root), classes);
      exists i, k :: Names(panels, edits, k, i) && IsFieldOf(root, process, classes, c, i, k)
  {
    var edits, panels := Edits(Shown(root), classes), Panels(Shown(root), classes);
    var labels := LabelsOf(panels, edits);
    var f := ScanOf(root, process, classes).fields[c];
    ScanHolds(root, process, classes, f);
    var cs := AllCandidates(root.rect, process, panels, edits);
    var d :| 0 <= d < |cs| && cs[d] == f;
    var i := CandidateSource(root.rect, process, panels, edits, labels, |edits|, d);
    PairedIsNamed(panels, edits, i, labels[i].value);
    assert Names(panels, edits, labels[i].value, i);
  }

  /** Field c of the scan is that of Edit i, named by panel k. */
  ghost predicate IsFieldOf(root: WindowNode, process: Process, classes: Classes, c: int, i: int, k: int) {
    var edits, panels := Edits(Shown(root), classes), Panels(Shown(root), classes);
    && 0 <= c < |ScanOf(root, process, classes).fields| && 0 <= i < |edits| && 0 <= k < |panels|
    && Describes(ScanOf(root, process, classes).fields[c], process, root.rect, edits[i], panels[k])
  }

  /** ...and every Edit that has such a panel has such a field, exactly one. */
  lemma EditsAreDescribed(root: WindowNode, process: Process, classes: Classes, i: nat, k: nat)
    requires Names(Panels(Shown(root), classes), Edits(Shown(root), classes), k, i)
    ensures exists c :: 0 <= c < |ScanOf(root, process, classes).fields| && IsFieldOf(root, process, classes, c, i, k)
    ensures forall c, d :: IsFieldOf(root, process, classes, c, i, k) && IsFieldOf(root, process, classes, d, i, k) ==> c == d
  {
    var edits, panels := Edits(Shown(root), classes), Panels(Shown(root), classes);
    var labels := LabelsOf(panels, edits);
    PairedIsNamed(panels, edits, i, k);
    OneLabel(panels, edits[i].node.rect, k);
    CandidateOf(root.rect, process, panels, edits, labels, |edits|, i);
    var f := FieldOf(root.rect, process, edits[i], panels[k]);
    ScanHolds(root, process, classes, f);
    ScanIsComplete(root, process, classes);
    var c :| 0 <= c < |ScanOf(root, process, classes).fields| && ScanOf(root, process, classes).fields[c] == f;
    assert IsFieldOf(root, process, classes, c, i, k);
  }

  // ------------------------------------------------------------ which windows count

  /** A scan sees the windows below the root that are visible with all those above them,
      the root included. */
  lemma ShownExactlyWhen(root: WindowNode, p: Placed)
    ensures p in Shown(root) <==> root.visible && LedTo(root.children, [root.className], p)
  {
    SeenExactlyWhen(root.children, [root.className], p);
  }

  /** Exactly the visible windows of the Edit class, each as often as it is there... */
  lemma {:induction false} EditsAre(seen: seq<Placed>, classes: Classes, p: Placed)
    ensures multiset(Edits(seen, classes))[p] == if p.node.className == classes.editName then multiset(seen)[p] else 0
  {
    if seen != [] {
      EditsAre(seen[..|seen| - 1], classes, p);
      assert seen == seen[..|seen| - 1] + [seen[|seen| - 1]];
    }
  }

  function Nodes(seen: seq<Placed>): seq<WindowNode> {
    seq(|seen|, i requires 0 <= i < |seen| => seen[i].node)
  }

  /** ...and of the label class; a window of both is an Edit. */
  lemma {:induction false} PanelsAre(seen: seq<Placed>, classes: Classes, w: WindowNode)
    ensures multiset(Panels(seen, classes))[w]
         == if w.className == classes.labelName && w.className != classes.editName then multiset(Nodes(seen))[w] else 0
  {
    if seen != [] {
      PanelsAre(seen[..|seen| - 1], classes, w);
      assert Nodes(seen) == Nodes(seen[..|seen| - 1]) + [seen[|seen| - 1].node];
    }
  }
}

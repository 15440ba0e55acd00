/** The pairing program, proved to compute the scan of FieldScanning. */
module FieldPairer {
  import opened Wrappers
  import opened WindowTree
  import opened FieldPairing
  import opened FieldScanning

  /** An increasing list of exactly the panels below k in the Edit's row. */
  ghost predicate IsRow(panels: seq<WindowNode>, edit: Rect, row: seq<nat>, k: nat) {
    && k <= |panels|
    && (forall i :: 0 <= i < |row| ==> row[i] < k && InRow(panels[row[i]].rect, edit))
    && (forall j :: 0 <= j < k && InRow(panels[j].rect, edit) ==> j in row)
    && (forall i, j :: 0 <= i < j < |row| ==> row[i] < row[j])
  }

  method Row(panels: seq<WindowNode>, edit: Rect) returns (row: seq<nat>)
    ensures IsRow(panels, edit, row, |panels|)
  {
    row := [];
    for k := 0 to |panels|
      invariant IsRow(panels, edit, row, k)
    {
      if InRow(panels[k].rect, edit) {
        row := row + [k];
        assert row[|row| - 1] == k;
      }
    }
  }

  /** The rightmost edge of the row. */
  method NearestEdge(panels: seq<WindowNode>, row: seq<nat>) returns (edge: int)
    requires row != [] && forall i :: 0 <= i < |row| ==> row[i] < |panels|
    ensures forall i :: 0 <= i < |row| ==> Right(panels[row[i]].rect) <= edge
    ensures exists i :: 0 <= i < |row| && Right(panels[row[i]].rect) == edge
  {
    edge := Right(panels[row[0]].rect);
    for k := 1 to |row|
      invariant forall i :: 0 <= i < k ==> Right(panels[row[i]].rect) <= edge
      invariant exists i :: 0 <= i < k && Right(panels[row[i]].rect) == edge
    {
      if Right(panels[row[k]].rect) > edge {
        edge := Right(panels[row[k]].rect);
      }
    }
  }

  /** The panels of the row that end at the edge. */
  ghost predicate AtEdge(panels: seq<WindowNode>, row: seq<nat>, edge: int, nearest: seq<nat>, k: nat)
    requires forall i :: 0 <= i < |row| ==> row[i] < |panels|
  {
    && k <= |row|
    && (forall i :: 0 <= i < |nearest| ==> nearest[i] in row[..k] && Right(panels[nearest[i]].rect) == edge)
    && (forall i :: 0 <= i < k && Right(panels[row[i]].rect) == edge ==> row[i] in nearest)
    && (forall i, j :: 0 <= i < j < |nearest| ==> nearest[i] < nearest[j])
  }

  method Nearest(panels: seq<WindowNode>, row: seq<nat>, edge: int) returns (nearest: seq<nat>)
    requires forall i :: 0 <= i < |row| ==> row[i] < |panels|
    requires forall i, j :: 0 <= i < j < |row| ==> row[i] < row[j]
    ensures AtEdge(panels, row, edge, nearest, |row|)
  {
    nearest := [];
    for k := 0 to |row|
      invariant AtEdge(panels, row, edge, nearest, k)
    {
      assert row[..k + 1] == row[..k] + [row[k]];
      if Right(panels[row[k]].rect) == edge {
        nearest := nearest + [row[k]];
        assert nearest[|nearest| - 1] == row[k];
      }
    }
  }

  lemma FirstTwo(s: seq<nat>)
    requires forall i, j :: 0 <= i < j < |s| ==> s[i] < s[j]
    ensures |s| > 1 ==> s[0] < s[1]
  {}

  /** A panel that labels the Edit is the only one at the edge. */
  lemma LabelIsAlone(panels: seq<WindowNode>, edit: Rect, row: seq<nat>, edge: int, nearest: seq<nat>, k: int)
    requires IsRow(panels, edit, row, |panels|) && AtEdge(panels, row, edge, nearest, |row|)
    requires forall i :: 0 <= i < |row| ==> Right(panels[row[i]].rect) <= edge
    requires nearest != [] && Labels(panels, edit, k)
    ensures nearest == [k]
  {
    var i :| 0 <= i < |row| && row[i] == k;
    FirstTwo(nearest);
    forall m | 0 <= m < |nearest| ensures nearest[m] == k {
      assert nearest[m] in row[..|row|];
    }
  }

  lemma AloneIsLabel(panels: seq<WindowNode>, edit: Rect, row: seq<nat>, edge: int, k: nat)
    requires IsRow(panels, edit, row, |panels|) && AtEdge(panels, row, edge, [k], |row|)
    requires forall i :: 0 <= i < |row| ==> Right(panels[row[i]].rect) <= edge
    requires k < |panels| && panels[k].nameHash.Some?
    ensures Labels(panels, edit, k)
  {
    assert [k][0] in row[..|row|];
    forall j | 0 <= j < |panels| && j != k && InRow(panels[j].rect, edit) ensures Right(panels[j].rect) < edge {
      assert j in row && j !in [k];
    }
  }

  /** The label of one Edit: the nearest panel of its row, if it is alone and named. */
  method FindLabel(panels: seq<WindowNode>, edit: Rect) returns (found: Option<nat>)
    ensures found == LabelOf(panels, edit)
  {
    var row := Row(panels, edit);
    found := None;
    if row != [] {
      var edge := NearestEdge(panels, row);
      var nearest := Nearest(panels, row, edge);
      var i :| 0 <= i < |row| && Right(panels[row[i]].rect) == edge;
      assert row[i] in nearest;
      forall k | Labels(panels, edit, k) ensures nearest == [k] {
        LabelIsAlone(panels, edit, row, edge, nearest, k);
      }
      if |nearest| == 1 {
        assert nearest[0] in row[..|row|];
        if panels[nearest[0]].nameHash.Some? {
          assert nearest == [nearest[0]];
          AloneIsLabel(panels, edit, row, edge, nearest[0]);
          OneLabel(panels, edit, nearest[0]);
          found := Some(nearest[0]);
        }
      }
    }
  }

  /** Counting every element finds one exactly when no other position holds it. */
  lemma CountedOnce<T>(s: seq<T>, i: nat)
    requires i < |s|
    ensures multiset(s)[s[i]] == 1 <==> forall j :: 0 <= j < |s| && j != i ==> s[j] != s[i]
  {
    assert s == s[..i] + [s[i]] + s[i + 1..];
    assert multiset(s) == multiset(s[..i]) + multiset{s[i]} + multiset(s[i + 1..]);
    if j :| 0 <= j < |s| && j != i && s[j] == s[i] {
      if j < i {
        assert s[..i][j] == s[i];
      } else {
        assert s[i + 1..][j - i - 1] == s[i];
      }
    } else {
      assert s[i] !in s[..i] && s[i] !in s[i + 1..];
    }
  }

  method Classify(seen: seq<Placed>, classes: Classes) returns (edits: seq<Placed>, panels: seq<WindowNode>)
    ensures edits == Edits(seen, classes) && panels == Panels(seen, classes)
  {
    edits, panels := [], [];
    for k := 0 to |seen|
      invariant edits == Edits(seen[..k], classes) && panels == Panels(seen[..k], classes)
    {
      assert seen[..k + 1][..k] == seen[..k];
      if seen[k].node.className == classes.editName {
        edits := edits + [seen[k]];
      } else if seen[k].node.className == classes.labelName {
        panels := panels + [seen[k].node];
      }
    }
    assert seen[..|seen|] == seen;
  }

  /** Every Edit's label, and how often each label was chosen. */
  method ChooseLabels(panels: seq<WindowNode>, edits: seq<Placed>)
    returns (labels: seq<Option<nat>>, uses: multiset<Option<nat>>)
    ensures labels == LabelsOf(panels, edits) && uses == multiset(labels)
  {
    labels, uses := [], multiset{};
    for k := 0 to |edits|
      invariant |labels| == k && uses == multiset(labels)
      invariant forall i :: 0 <= i < k ==> labels[i] == LabelOf(panels, edits[i].node.rect)
    {
      var found := FindLabel(panels, edits[k].node.rect);
      labels := labels + [found];
      uses := uses + multiset{found};
    }
  }

  method PairUp(root: Rect, process: Process, panels: seq<WindowNode>, edits: seq<Placed>) returns (cs: seq<Field>)
    ensures cs == AllCandidates(root, process, panels, edits)
  {
    var labels, uses := ChooseLabels(panels, edits);
    cs := [];
    for k := 0 to |edits|
      invariant cs == Candidates(root, process, panels, edits, labels, k)
    {
      CountedOnce(labels, k);
      if labels[k].Some? && uses[labels[k]] == 1 {
        cs := cs + [FieldOf(root, process, edits[k], panels[labels[k].value])];
      }
    }
  }

  /** The candidates whose identity was counted once. */
  method Filter(cs: seq<Field>) returns (kept: seq<Field>)
    ensures kept == KeepUnique(cs, |cs|)
  {
    var ids, identities := [], multiset{};
    for k := 0 to |cs|
      invariant |ids| == k && identities == multiset(ids)
      invariant forall i :: 0 <= i < k ==> ids[i] == cs[i].Id()
    {
      ids := ids + [cs[k].Id()];
      identities := identities + multiset{cs[k].Id()};
    }
    kept := [];
    for k := 0 to |cs|
      invariant kept == KeepUnique(cs, k)
    {
      CountedOnce(ids, k);
      if identities[cs[k].Id()] == 1 {
        kept := kept + [cs[k]];
      }
    }
  }

  /** The scan of one window, or why there is none. */
  method PairFields(root: WindowNode, process: Process, classes: Classes, maxNodes: nat, maxDepth: nat)
    returns (r: Result<FieldScan, Refusal>)
    ensures r.Ok? <==>
      && root.className != classes.editName
      && (root.visible ==> Looked(root.children) <= maxNodes && Depth(root.children) <= maxDepth)
    ensures r.Ok? ==> r.value == ScanOf(root, process, classes)
    ensures r == Err(BadRoot) <==> root.className == classes.editName
    ensures r == Err(TooMany) ==> Looked(root.children) > maxNodes
    ensures r == Err(TooDeep) ==> Depth(root.children) > maxDepth
  {
    if root.className == classes.editName {
      return Err(BadRoot);
    }
    var seen: seq<Placed> := [];
    if root.visible {
      var walked := Walk(root, maxNodes, maxDepth);
      if walked.Err? {
        return Err(walked.error);
      }
      seen := walked.value;
    }
    var edits, panels := Classify(seen, classes);
    var cs := PairUp(root.rect, process, panels, edits);
    var kept := Filter(cs);
    var fields := Sorted(kept);
    return Ok(FieldScan(fields, |edits| - |fields|));
  }
}

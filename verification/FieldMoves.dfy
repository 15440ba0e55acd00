/** Moving the whole window moves where its fields are, and nothing else about them. */
module FieldMoves {
  import opened Wrappers
  import opened WindowTree
  import opened FieldPairing
  import opened FieldScanning

  datatype Shift = Shift(dx: int, dy: int) {
    function Area(r: Rect): Rect {
      Rect(r.x + dx, r.y + dy, r.w, r.h)
    }

    /** A node and all below it, moved. */
    function Node(n: WindowNode): WindowNode
      decreases n, 0
    {
      WindowNode(n.className, Area(n.rect), n.visible, n.nameHash, n.hwnd, Nodes(n.children))
    }

    function Nodes(ns: seq<WindowNode>): (r: seq<WindowNode>)
      ensures |r| == |ns|
      decreases ns, 1
    {
      if ns == [] then [] else [Node(ns[0])] + Nodes(ns[1..])
    }

    function Place(p: Placed): Placed {
      Placed(Node(p.node), p.path)
    }

    /** Only where to act now is moved; identity and instance are not. */
    function Whole(f: Field): Field {
      f.(screenRect := Area(f.screenRect))
    }
  }

  function Map<A, B>(f: A -> B, s: seq<A>): (r: seq<B>)
    ensures |r| == |s|
    ensures forall i :: 0 <= i < |s| ==> r[i] == f(s[i])
  {
    seq(|s|, i requires 0 <= i < |s| => f(s[i]))
  }

  lemma MapJoin<A, B>(f: A -> B, a: seq<A>, b: seq<A>)
    ensures Map(f, a + b) == Map(f, a) + Map(f, b)
  {}

  lemma MapSnoc<A, B>(f: A -> B, a: seq<A>, x: A)
    ensures Map(f, a + [x]) == Map(f, a) + [f(x)]
  {}

  lemma MapInit<A, B>(f: A -> B, s: seq<A>)
    requires s != []
    ensures Map(f, s)[..|s| - 1] == Map(f, s[..|s| - 1])
  {}

  lemma {:induction false} SeenMoved(t: Shift, nodes: seq<WindowNode>, path: seq<string>)
    ensures Seen(t.Nodes(nodes), path) == Map(t.Place, Seen(nodes, path))
    decreases nodes, 1
  {
    if nodes != [] {
      var first := path + [nodes[0].className];
      SeenFromMoved(t, nodes[0], first);
      SeenMoved(t, nodes[1..], path);
      assert t.Nodes(nodes)[1..] == t.Nodes(nodes[1..]);
      MapJoin(t.Place, SeenFrom(nodes[0], first), Seen(nodes[1..], path));
    }
  }

  lemma {:induction false} SeenFromMoved(t: Shift, node: WindowNode, path: seq<string>)
    ensures SeenFrom(t.Node(node), path) == Map(t.Place, SeenFrom(node, path))
    decreases node, 0
  {
    if node.visible {
      SeenMoved(t, node.children, path);
      MapJoin(t.Place, [Placed(node, path)], Seen(node.children, path));
    }
  }

  lemma {:induction false} SizesMoved(t: Shift, nodes: seq<WindowNode>)
    ensures Looked(t.Nodes(nodes)) == Looked(nodes) && Depth(t.Nodes(nodes)) == Depth(nodes)
    decreases nodes
  {
    if nodes != [] {
      SizesMoved(t, nodes[0].children);
      SizesMoved(t, nodes[1..]);
      assert t.Nodes(nodes)[1..] == t.Nodes(nodes[1..]);
    }
  }

  lemma {:induction false} ClassifiedMoved(t: Shift, seen: seq<Placed>, classes: Classes)
    ensures Edits(Map(t.Place, seen), classes) == Map(t.Place, Edits(seen, classes))
    ensures Panels(Map(t.Place, seen), classes) == Map(t.Node, Panels(seen, classes))
  {
    if seen != [] {
      var init := seen[..|seen| - 1];
      ClassifiedMoved(t, init, classes);
      MapInit(t.Place, seen);
    }
  }

  lemma LabelMoved(t: Shift, panels: seq<WindowNode>, edit: Rect)
    ensures LabelOf(Map(t.Node, panels), t.Area(edit)) == LabelOf(panels, edit)
  {
    var moved := Map(t.Node, panels);
    forall k | 0 <= k < |panels| ensures InRow(moved[k].rect, t.Area(edit)) <==> InRow(panels[k].rect, edit) {
      assert moved[k].rect == t.Area(panels[k].rect);
      assert CentreY(moved[k].rect) - CentreY(t.Area(edit)) == CentreY(panels[k].rect) - CentreY(edit);
    }
    forall k ensures Labels(moved, t.Area(edit), k) <==> Labels(panels, edit, k) {
      LabelsMoved(t, panels, edit, k);
    }
    match LabelOf(panels, edit)
    case Some(k) => OneLabel(moved, t.Area(edit), k);
    case None =>
  }

  lemma LabelsMoved(t: Shift, panels: seq<WindowNode>, edit: Rect, k: int)
    requires forall j :: 0 <= j < |panels| ==>
      (InRow(Map(t.Node, panels)[j].rect, t.Area(edit)) <==> InRow(panels[j].rect, edit))
    ensures Labels(Map(t.Node, panels), t.Area(edit), k) <==> Labels(panels, edit, k)
  {
    var moved := Map(t.Node, panels);
    assert forall j :: 0 <= j < |panels| ==> Right(moved[j].rect) == Right(panels[j].rect) + t.dx;
  }

  lemma {:induction false} CandidatesMoved(t: Shift, root: Rect, process: Process, panels: seq<WindowNode>,
                                           edits: seq<Placed>, labels: seq<Option<nat>>, n: nat)
    requires |labels| == |edits| && n <= |edits| && Named(panels, labels)
    ensures Named(Map(t.Node, panels), labels)
    ensures Candidates(t.Area(root), process, Map(t.Node, panels), Map(t.Place, edits), labels, n)
         == Map(t.Whole, Candidates(root, process, panels, edits, labels, n))
  {
    if n > 0 {
      CandidatesMoved(t, root, process, panels, edits, labels, n - 1);
      if Paired(labels, n - 1) {
        var panel := panels[labels[n - 1].value];
        FieldMoved(t, root, process, edits[n - 1], panel);
        MapJoin(t.Whole, Candidates(root, process, panels, edits, labels, n - 1), [FieldOf(root, process, edits[n - 1], panel)]);
      }
    }
  }

  lemma FieldMoved(t: Shift, root: Rect, process: Process, edit: Placed, panel: WindowNode)
    requires panel.nameHash.Some?
    ensures FieldOf(t.Area(root), process, t.Place(edit), t.Node(panel)) == t.Whole(FieldOf(root, process, edit, panel))
  {}

  lemma UniqueMoved(t: Shift, cs: seq<Field>, i: nat)
    ensures Unique(Map(t.Whole, cs), i) <==> Unique(cs, i)
  {
    assert forall j :: 0 <= j < |cs| ==> Map(t.Whole, cs)[j].Id() == cs[j].Id();
  }

  lemma {:induction false} KeptMoved(t: Shift, cs: seq<Field>, n: nat)
    requires n <= |cs|
    ensures KeepUnique(Map(t.Whole, cs), n) == Map(t.Whole, KeepUnique(cs, n))
  {
    if n > 0 {
      KeptMoved(t, cs, n - 1);
      UniqueMoved(t, cs, n - 1);
      if Unique(cs, n - 1) {
        MapSnoc(t.Whole, KeepUnique(cs, n - 1), cs[n - 1]);
      }
    }
  }

  lemma {:induction false} InsertMoved(t: Shift, fs: seq<Field>, f: Field)
    ensures Insert(Map(t.Whole, fs), t.Whole(f)) == Map(t.Whole, Insert(fs, f))
  {
    if fs == [] || Before(fs[|fs| - 1], f) {
      MapSnoc(t.Whole, fs, f);
    } else {
      var init, last := fs[..|fs| - 1], fs[|fs| - 1];
      InsertMoved(t, init, f);
      MapInit(t.Whole, fs);
      MapSnoc(t.Whole, Insert(init, f), last);
    }
  }

  lemma {:induction false} SortedMoved(t: Shift, fs: seq<Field>)
    ensures Sorted(Map(t.Whole, fs)) == Map(t.Whole, Sorted(fs))
  {
    if fs != [] {
      SortedMoved(t, fs[..|fs| - 1]);
      InsertMoved(t, Sorted(fs[..|fs| - 1]), fs[|fs| - 1]);
      MapInit(t.Whole, fs);
    }
  }

  lemma ShownMoved(t: Shift, root: WindowNode)
    ensures Shown(t.Node(root)) == Map(t.Place, Shown(root))
  {
    SeenMoved(t, root.children, [root.className]);
  }

  lemma AllCandidatesMoved(t: Shift, root: Rect, process: Process, panels: seq<WindowNode>, edits: seq<Placed>)
    ensures AllCandidates(t.Area(root), process, Map(t.Node, panels), Map(t.Place, edits))
         == Map(t.Whole, AllCandidates(root, process, panels, edits))
  {
    var labels := LabelsOf(panels, edits);
    forall i | 0 <= i < |edits| ensures LabelsOf(Map(t.Node, panels), Map(t.Place, edits))[i] == labels[i] {
      LabelMoved(t, panels, edits[i].node.rect);
    }
    assert LabelsOf(Map(t.Node, panels), Map(t.Place, edits)) == labels;
    CandidatesMoved(t, root, process, panels, edits, labels, |edits|);
  }

  /** Dragging the window does not change whether it is refused. */
  lemma MovingKeepsRefusals(t: Shift, root: WindowNode, classes: Classes, maxNodes: nat, maxDepth: nat)
    ensures Acceptable(t.Node(root), classes, maxNodes, maxDepth) <==> Acceptable(root, classes, maxNodes, maxDepth)
  {
    SizesMoved(t, root.children);
  }

  lemma ScanMoved(t: Shift, root: WindowNode, process: Process, classes: Classes)
    ensures
      var scan := ScanOf(root, process, classes);
      ScanOf(t.Node(root), process, classes) == FieldScan(Map(t.Whole, scan.fields), scan.unpaired)
  {
    ShownMoved(t, root);
    ClassifiedMoved(t, Shown(root), classes);
    var edits, panels := Edits(Shown(root), classes), Panels(Shown(root), classes);
    AllCandidatesMoved(t, root.rect, process, panels, edits);
    var cs := AllCandidates(root.rect, process, panels, edits);
    KeptMoved(t, cs, |cs|);
    SortedMoved(t, KeepUnique(cs, |cs|));
  }

  /** Dragging the window changes no field's identity, handle or order, nor how many
      Edits are unpaired; only where each field is on screen follows the window. */
  lemma MovingKeepsEveryField(t: Shift, root: WindowNode, process: Process, classes: Classes)
    ensures
      var before, after := ScanOf(root, process, classes), ScanOf(t.Node(root), process, classes);
      after.unpaired == before.unpaired && FollowOnly(t, before.fields, after.fields)
  {
    ScanMoved(t, root, process, classes);
    WholeFollows(t, ScanOf(root, process, classes).fields);
  }

  predicate FollowOnly(t: Shift, before: seq<Field>, after: seq<Field>) {
    && |after| == |before|
    && forall i :: 0 <= i < |before| ==>
      && after[i].Id() == before[i].Id() && after[i].process == before[i].process && after[i].hwnd == before[i].hwnd
      && after[i].screenRect == t.Area(before[i].screenRect)
  }

  lemma WholeFollows(t: Shift, fields: seq<Field>)
    ensures FollowOnly(t, fields, Map(t.Whole, fields))
  {}
}

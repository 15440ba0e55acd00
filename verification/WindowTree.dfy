/** Window trees: the iterative pre-order over visible windows, and its recursive meaning. */
module WindowTree {
  import opened Wrappers

  /** Screen pixels; the right and bottom edges are x + w and y + h. */
  datatype Rect = Rect(x: int, y: int, w: int, h: int)

  datatype WindowNode = WindowNode(
    className: string,
    rect: Rect,
    visible: bool,
    nameHash: Option<string>,
    hwnd: int,
    children: seq<WindowNode>)

  datatype Refusal = TooMany | TooDeep | BadRoot | BadCaption | NotAWindow

  /** A visible window with the class names from the root down to it. */
  datatype Placed = Placed(node: WindowNode, path: seq<string>)

  // ------------------------------------------------------------ recursive meaning

  /** The visible windows of a forest, parents first; nothing under an invisible
      window is visible. */
  function Seen(nodes: seq<WindowNode>, path: seq<string>): seq<Placed> {
    if nodes == [] then []
    else SeenFrom(nodes[0], path + [nodes[0].className]) + Seen(nodes[1..], path)
  }

  function SeenFrom(node: WindowNode, path: seq<string>): seq<Placed> {
    if node.visible then [Placed(node, path)] + Seen(node.children, path) else []
  }

  /** How many windows a walk must look at: hidden ones count, what they hide does not. */
  function Looked(nodes: seq<WindowNode>): nat {
    if nodes == [] then 0 else LookedFrom(nodes[0]) + Looked(nodes[1..])
  }

  function LookedFrom(node: WindowNode): nat {
    1 + if node.visible then Looked(node.children) else 0
  }

  /** How deep it must look. */
  function Depth(nodes: seq<WindowNode>): nat {
    if nodes == [] then 0
    else
      var first, rest := DepthFrom(nodes[0]), Depth(nodes[1..]);
      if first >= rest then first else rest
  }

  function DepthFrom(node: WindowNode): nat {
    1 + if node.visible then Depth(node.children) else 0
  }

  // ------------------------------------------------------------ the same, window by window

  /** The way, an index at each level, leads to p through visible windows only. */
  ghost predicate Leads(nodes: seq<WindowNode>, way: seq<nat>, path: seq<string>, p: Placed)
    decreases |way|
  {
    && way != [] && way[0] < |nodes| && nodes[way[0]].visible
    && var here := path + [nodes[way[0]].className];
       if |way| == 1 then p == Placed(nodes[way[0]], here) else Leads(nodes[way[0]].children, way[1..], here, p)
  }

  lemma {:induction false} SeenIsLedTo(nodes: seq<WindowNode>, path: seq<string>, p: Placed) returns (way: seq<nat>)
    requires p in Seen(nodes, path)
    ensures Leads(nodes, way, path, p)
  {
    var here := path + [nodes[0].className];
    if p in SeenFrom(nodes[0], here) {
      way := [0];
      if p != Placed(nodes[0], here) {
        var down := SeenIsLedTo(nodes[0].children, here, p);
        way := [0] + down;
        assert way[1..] == down;
      }
    } else {
      var along := SeenIsLedTo(nodes[1..], path, p);
      way := [along[0] + 1] + along[1..];
      assert way[1..] == along[1..];
    }
  }

  lemma {:induction false} LedToIsSeen(nodes: seq<WindowNode>, way: seq<nat>, path: seq<string>, p: Placed)
    requires Leads(nodes, way, path, p)
    ensures p in Seen(nodes, path)
  {
    if way[0] == 0 {
      if |way| > 1 {
        LedToIsSeen(nodes[0].children, way[1..], path + [nodes[0].className], p);
      }
    } else {
      var along := [way[0] - 1] + way[1..];
      assert along[1..] == way[1..] && nodes[1..][along[0]] == nodes[way[0]];
      LedToIsSeen(nodes[1..], along, path, p);
    }
  }

  /** A window is seen exactly when it and all windows above it are visible, with their
      class names as its path. */
  lemma SeenExactlyWhen(nodes: seq<WindowNode>, path: seq<string>, p: Placed)
    ensures p in Seen(nodes, path) <==> LedTo(nodes, path, p)
  {
    if p in Seen(nodes, path) {
      var way := SeenIsLedTo(nodes, path, p);
    }
    if LedTo(nodes, path, p) {
      var way: seq<nat> :| Leads(nodes, way, path, p);
      LedToIsSeen(nodes, way, path, p);
    }
  }

  ghost predicate LedTo(nodes: seq<WindowNode>, path: seq<string>, p: Placed) {
    exists way: seq<nat> :: Leads(nodes, way, path, p)
  }

  /** The forest without what hidden windows hide. */
  function Pruned(nodes: seq<WindowNode>): seq<WindowNode> {
    if nodes == [] then [] else [PrunedFrom(nodes[0])] + Pruned(nodes[1..])
  }

  function PrunedFrom(node: WindowNode): WindowNode {
    node.(children := if node.visible then Pruned(node.children) else [])
  }

  function Count(nodes: seq<WindowNode>): nat {
    if nodes == [] then 0 else 1 + Count(nodes[0].children) + Count(nodes[1..])
  }

  function Levels(nodes: seq<WindowNode>): nat {
    if nodes == [] then 0 else Max(1 + Levels(nodes[0].children), Levels(nodes[1..]))
  }

  function Max(a: nat, b: nat): nat {
    if a >= b then a else b
  }

  /** A walk looks at every window of that forest, and as deep as it is. */
  lemma {:induction false} LooksAtThePruned(nodes: seq<WindowNode>)
    ensures Looked(nodes) == Count(Pruned(nodes)) && Depth(nodes) == Levels(Pruned(nodes))
  {
    if nodes != [] {
      var first := PrunedFrom(nodes[0]);
      assert Pruned(nodes)[0] == first && Pruned(nodes)[1..] == Pruned(nodes[1..]);
      LooksAtThePruned(nodes[1..]);
      if nodes[0].visible {
        LooksAtThePruned(nodes[0].children);
      }
    }
  }

  // ------------------------------------------------------------ the walk

  /** A window waiting on the stack, whose top is its last element. */
  datatype Entry = Entry(node: WindowNode, path: seq<string>, depth: nat)

  /** What is still to be yielded, looked at, and refused for its depth. */
  ghost function Rest(stack: seq<Entry>): seq<Placed> {
    if stack == [] then []
    else
      var top := stack[|stack| - 1];
      SeenFrom(top.node, top.path) + Rest(stack[..|stack| - 1])
  }

  ghost function RestLooked(stack: seq<Entry>): nat {
    if stack == [] then 0 else LookedFrom(stack[|stack| - 1].node) + RestLooked(stack[..|stack| - 1])
  }

  ghost predicate RestFits(stack: seq<Entry>, maxDepth: int) {
    forall i :: 0 <= i < |stack| ==> stack[i].depth - 1 + DepthFrom(stack[i].node) <= maxDepth
  }

  /** The children in reverse, so that the first is on top. */
  function Entries(nodes: seq<WindowNode>, path: seq<string>, depth: nat): (r: seq<Entry>)
    ensures |r| == |nodes|
  {
    if nodes == [] then []
    else Entries(nodes[1..], path, depth) + [Entry(nodes[0], path + [nodes[0].className], depth)]
  }

  lemma RestSnoc(below: seq<Entry>, top: Entry)
    ensures Rest(below + [top]) == SeenFrom(top.node, top.path) + Rest(below)
    ensures RestLooked(below + [top]) == LookedFrom(top.node) + RestLooked(below)
  {
    assert (below + [top])[..|below|] == below;
  }

  lemma {:induction false} PushKeeps(stack: seq<Entry>, nodes: seq<WindowNode>, path: seq<string>, depth: nat)
    ensures Rest(stack + Entries(nodes, path, depth)) == Seen(nodes, path) + Rest(stack)
    ensures RestLooked(stack + Entries(nodes, path, depth)) == Looked(nodes) + RestLooked(stack)
  {
    if nodes == [] {
      assert stack + Entries(nodes, path, depth) == stack;
    } else {
      var tail, top := Entries(nodes[1..], path, depth), Entry(nodes[0], path + [nodes[0].className], depth);
      PushKeeps(stack, nodes[1..], path, depth);
      RestSnoc(stack + tail, top);
      assert stack + (tail + [top]) == (stack + tail) + [top];
      Joined(SeenFrom(top.node, top.path), Seen(nodes[1..], path), Rest(stack));
    }
  }

  lemma Joined<T>(a: seq<T>, b: seq<T>, c: seq<T>)
    ensures a + (b + c) == (a + b) + c
  {}

  lemma FitsSnoc(below: seq<Entry>, top: Entry, maxDepth: int)
    ensures RestFits(below + [top], maxDepth)
       <==> RestFits(below, maxDepth) && top.depth - 1 + DepthFrom(top.node) <= maxDepth
  {
    var stack := below + [top];
    assert stack[|below|] == top;
    assert forall i :: 0 <= i < |below| ==> stack[i] == below[i];
  }

  lemma {:induction false} PushFits(stack: seq<Entry>, nodes: seq<WindowNode>, path: seq<string>, depth: nat, maxDepth: int)
    requires depth - 1 <= maxDepth
    ensures RestFits(stack + Entries(nodes, path, depth), maxDepth)
       <==> RestFits(stack, maxDepth) && depth - 1 + Depth(nodes) <= maxDepth
  {
    if nodes == [] {
      assert stack + Entries(nodes, path, depth) == stack;
    } else {
      var tail, top := Entries(nodes[1..], path, depth), Entry(nodes[0], path + [nodes[0].className], depth);
      PushFits(stack, nodes[1..], path, depth, maxDepth);
      FitsSnoc(stack + tail, top, maxDepth);
      assert stack + (tail + [top]) == (stack + tail) + [top];
    }
  }

  lemma Popped(stack: seq<Entry>, maxDepth: int)
    requires stack != []
    ensures
      var below, top := stack[..|stack| - 1], stack[|stack| - 1];
      && Rest(stack) == SeenFrom(top.node, top.path) + Rest(below)
      && RestLooked(stack) == LookedFrom(top.node) + RestLooked(below)
      && (RestFits(stack, maxDepth) <==> RestFits(below, maxDepth) && top.depth - 1 + DepthFrom(top.node) <= maxDepth)
  {
    var below, top := stack[..|stack| - 1], stack[|stack| - 1];
    assert stack == below + [top];
    FitsSnoc(below, top, maxDepth);
  }

  lemma Expanded(below: seq<Entry>, top: Entry, maxDepth: int)
    requires top.node.visible && top.depth <= maxDepth
    ensures
      var stack := below + Entries(top.node.children, top.path, top.depth + 1);
      && [Placed(top.node, top.path)] + Rest(stack) == SeenFrom(top.node, top.path) + Rest(below)
      && 1 + RestLooked(stack) == LookedFrom(top.node) + RestLooked(below)
      && (RestFits(stack, maxDepth) <==> RestFits(below, maxDepth) && top.depth - 1 + DepthFrom(top.node) <= maxDepth)
  {
    PushKeeps(below, top.node.children, top.path, top.depth + 1);
    PushFits(below, top.node.children, top.path, top.depth + 1, maxDepth);
    Joined([Placed(top.node, top.path)], Seen(top.node.children, top.path), Rest(below));
  }

  /** What has been yielded and counted, and what is on the stack, make up the whole. */
  ghost predicate Underway(nodes: seq<WindowNode>, path: seq<string>, maxDepth: int, out: seq<Placed>, seen: nat, stack: seq<Entry>) {
    && out + Rest(stack) == Seen(nodes, path)
    && seen + RestLooked(stack) == Looked(nodes)
    && (RestFits(stack, maxDepth) <==> Depth(nodes) <= maxDepth)
  }

  lemma UnderwayStarts(nodes: seq<WindowNode>, path: seq<string>, maxDepth: nat)
    ensures Underway(nodes, path, maxDepth, [], 0, Entries(nodes, path, 1))
  {
    var stack := Entries(nodes, path, 1);
    assert [] + stack == stack;
    PushKeeps([], nodes, path, 1);
    PushFits([], nodes, path, 1, maxDepth);
  }

  /** One window is looked at: yielded and expanded when visible, dropped when not. */
  lemma UnderwayStep(nodes: seq<WindowNode>, path: seq<string>, maxDepth: int, out: seq<Placed>, seen: nat, stack: seq<Entry>)
    requires Underway(nodes, path, maxDepth, out, seen, stack) && stack != [] && stack[|stack| - 1].depth <= maxDepth
    ensures
      var below, top := stack[..|stack| - 1], stack[|stack| - 1];
      if top.node.visible then
        Underway(nodes, path, maxDepth, out + [Placed(top.node, top.path)], seen + 1,
                 below + Entries(top.node.children, top.path, top.depth + 1))
      else Underway(nodes, path, maxDepth, out, seen + 1, below)
  {
    Popped(stack, maxDepth);
    var below, top := stack[..|stack| - 1], stack[|stack| - 1];
    if top.node.visible {
      Expanded(below, top, maxDepth);
      Joined(out, [Placed(top.node, top.path)], Rest(below + Entries(top.node.children, top.path, top.depth + 1)));
    }
  }

  /** The visible descendants of root, or a refusal exactly when the walk would
      have to look at more windows, or deeper, than allowed. */
  method Walk(root: WindowNode, maxNodes: nat, maxDepth: nat) returns (r: Result<seq<Placed>, Refusal>)
    ensures r.Ok? <==> Looked(root.children) <= maxNodes && Depth(root.children) <= maxDepth
    ensures r.Ok? ==> r.value == Seen(root.children, [root.className])
    ensures r.Ok? || r == Err(TooMany) || r == Err(TooDeep)
    ensures r == Err(TooMany) ==> Looked(root.children) > maxNodes
    ensures r == Err(TooDeep) ==> Depth(root.children) > maxDepth
  {
    var path := [root.className];
    var stack := Entries(root.children, path, 1);
    var seen, out := 0, [];
    UnderwayStarts(root.children, path, maxDepth);
    while stack != []
      invariant Underway(root.children, path, maxDepth, out, seen, stack) && seen <= maxNodes
      decreases RestLooked(stack)
    {
      Popped(stack, maxDepth);
      var top := stack[|stack| - 1];
      if seen + 1 > maxNodes {
        return Err(TooMany);
      }
      if top.depth > maxDepth {
        return Err(TooDeep);
      }
      UnderwayStep(root.children, path, maxDepth, out, seen, stack);
      stack := stack[..|stack| - 1];
      seen := seen + 1;
      if top.node.visible {
        out := out + [Placed(top.node, top.path)];
        stack := stack + Entries(top.node.children, top.path, top.depth + 1);
      }
    }
    return Ok(out);
  }
}

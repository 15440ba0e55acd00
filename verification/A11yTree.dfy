/** Accessibility trees: the budgeted conversion and the bounded walk. */
module A11yTree {
  import opened Wrappers

  const MAX_A11Y_DEPTH := 64

  datatype Bounds = Bounds(x: int, y: int, w: int, h: int)

  /** A live accessible, or the place of one that is gone or cannot be read. */
  datatype Accessible = Accessible(role: string, name: string, bounds: Option<Bounds>, children: seq<Accessible>) | Gone

  datatype Node = Node(role: string, name: string, bounds: Option<Bounds>, children: seq<Node>) {
    /** The node and everything below it, parents first. */
    function Walk(): seq<Node>
      decreases this, 0
    {
      [this] + WalkAll(children)
    }
  }

  function WalkAll(ns: seq<Node>): seq<Node>
    decreases ns, 1
  {
    if ns == [] then [] else ns[0].Walk() + WalkAll(ns[1..])
  }

  // ------------------------------------------------------------ listings

  /** One line of an indented listing of a tree. */
  datatype Item = Item(depth: nat, role: string, name: string, bounds: Option<Bounds>)

  function Listing(n: Node, depth: nat): seq<Item>
    decreases n, 0
  {
    [Item(depth, n.role, n.name, n.bounds)] + ListingAll(n.children, depth + 1)
  }

  function ListingAll(ns: seq<Node>, depth: nat): (r: seq<Item>)
    ensures forall i :: 0 <= i < |r| ==> r[i].depth >= depth
    ensures r != [] ==> r[0].depth == depth
    decreases ns, 1
  {
    if ns == [] then [] else Listing(ns[0], depth) + ListingAll(ns[1..], depth)
  }

  /** How many items come before the first that is not deeper. */
  function Span(s: seq<Item>, depth: nat): nat {
    if s == [] || s[0].depth <= depth then 0 else 1 + Span(s[1..], depth)
  }

  lemma {:induction false} SpanOf(a: seq<Item>, b: seq<Item>, depth: nat)
    requires forall i :: 0 <= i < |a| ==> a[i].depth > depth
    requires b != [] ==> b[0].depth == depth
    ensures Span(a + b, depth) == |a|
  {
    if a == [] {
      assert a + b == b;
    } else {
      assert (a + b)[1..] == a[1..] + b;
      SpanOf(a[1..], b, depth);
    }
  }

  lemma SplitAt(a: seq<Item>, b: seq<Item>, c: seq<Item>, d: seq<Item>, depth: nat)
    requires a + b == c + d
    requires forall i :: 0 <= i < |a| ==> a[i].depth > depth
    requires forall i :: 0 <= i < |c| ==> c[i].depth > depth
    requires (b != [] ==> b[0].depth == depth) && (d != [] ==> d[0].depth == depth)
    ensures a == c && b == d
  {
    SpanOf(a, b, depth);
    SpanOf(c, d, depth);
    assert a == (a + b)[..|a|] && c == (c + d)[..|c|];
    assert b == (a + b)[|a|..] && d == (c + d)[|c|..];
  }

  lemma ListingCons(ns: seq<Node>, depth: nat)
    requires ns != []
    ensures ListingAll(ns, depth) != []
    ensures ListingAll(ns, depth)[0] == Item(depth, ns[0].role, ns[0].name, ns[0].bounds)
    ensures ListingAll(ns, depth)[1..] == ListingAll(ns[0].children, depth + 1) + ListingAll(ns[1..], depth)
  {}

  /** A listing determines its tree. */
  lemma {:induction false} ListingDetermines(ns: seq<Node>, ms: seq<Node>, depth: nat)
    requires ListingAll(ns, depth) == ListingAll(ms, depth)
    ensures ns == ms
    decreases ns
  {
    if ns == [] {
      ListingEmpty(ms, depth);
    } else {
      ListingEmpty(ns, depth);
      ListingCons(ns, depth);
      ListingCons(ms, depth);
      SplitAt(ListingAll(ns[0].children, depth + 1), ListingAll(ns[1..], depth),
              ListingAll(ms[0].children, depth + 1), ListingAll(ms[1..], depth), depth);
      ListingDetermines(ns[0].children, ms[0].children, depth + 1);
      ListingDetermines(ns[1..], ms[1..], depth);
      SameHeadAndTail(ns, ms);
    }
  }

  lemma ListingEmpty(ns: seq<Node>, depth: nat)
    ensures ListingAll(ns, depth) == [] <==> ns == []
  {}

  lemma SameHeadAndTail(ns: seq<Node>, ms: seq<Node>)
    requires ns != [] && ms != [] && ns[0] == ms[0] && ns[1..] == ms[1..]
    ensures ns == ms
  {
    assert ns == [ns[0]] + ns[1..] && ms == [ms[0]] + ms[1..];
  }

  /** The listing of the live tree, cut below the deepest level read. */
  function Live(acc: Accessible, depth: nat): seq<Item>
    decreases acc, 0
  {
    if acc.Gone? then []
    else
      [Item(depth, acc.role, acc.name, acc.bounds)]
      + if depth < MAX_A11Y_DEPTH then LiveAll(acc.children, depth + 1) else []
  }

  function LiveAll(accs: seq<Accessible>, depth: nat): seq<Item>
    decreases accs, 1
  {
    if accs == [] then [] else Live(accs[0], depth) + LiveAll(accs[1..], depth)
  }

  /** Everything there is from an accessible down, however deep. */
  function Everything(acc: Accessible, depth: nat): seq<Item>
    decreases acc, 0
  {
    if acc.Gone? then [] else [Item(depth, acc.role, acc.name, acc.bounds)] + EverythingIn(acc.children, depth + 1)
  }

  function EverythingIn(accs: seq<Accessible>, depth: nat): seq<Item>
    decreases accs, 1
  {
    if accs == [] then [] else Everything(accs[0], depth) + EverythingIn(accs[1..], depth)
  }

  /** The items no deeper than that. */
  function Shallow(s: seq<Item>, deepest: nat): seq<Item> {
    if s == [] then [] else (if s[0].depth <= deepest then [s[0]] else []) + Shallow(s[1..], deepest)
  }

  lemma {:induction false} ShallowJoin(a: seq<Item>, b: seq<Item>, deepest: nat)
    ensures Shallow(a + b, deepest) == Shallow(a, deepest) + Shallow(b, deepest)
  {
    if a == [] {
      assert a + b == b;
      Joined(Shallow(b, deepest), [], []);
    } else {
      assert (a + b)[1..] == a[1..] + b && (a + b)[0] == a[0];
      ShallowJoin(a[1..], b, deepest);
      Joined(if a[0].depth <= deepest then [a[0]] else [], Shallow(a[1..], deepest), Shallow(b, deepest));
    }
  }

  lemma ShallowOne(item: Item, deepest: nat)
    ensures Shallow([item], deepest) == if item.depth <= deepest then [item] else []
  {
    assert [item][1..] == [];
  }

  lemma {:induction false} NothingShallow(accs: seq<Accessible>, depth: nat, deepest: nat)
    requires depth > deepest
    ensures Shallow(EverythingIn(accs, depth), deepest) == []
    decreases accs
  {
    if accs != [] {
      NothingShallow(accs[1..], depth, deepest);
      ShallowJoin(Everything(accs[0], depth), EverythingIn(accs[1..], depth), deepest);
      if accs[0].Accessible? {
        var item := Item(depth, accs[0].role, accs[0].name, accs[0].bounds);
        NothingShallow(accs[0].children, depth + 1, deepest);
        ShallowJoin([item], EverythingIn(accs[0].children, depth + 1), deepest);
        ShallowOne(item, deepest);
      }
    }
  }

  /** What is read of a live tree is all of it that is no more than 64 levels below the
      desktop. */
  lemma {:induction false} LiveInFull(acc: Accessible, depth: nat)
    requires depth <= 64
    ensures Live(acc, depth) == Shallow(Everything(acc, depth), 64)
    decreases acc, 0
  {
    if acc.Accessible? {
      var item := Item(depth, acc.role, acc.name, acc.bounds);
      ShallowJoin([item], EverythingIn(acc.children, depth + 1), 64);
      ShallowOne(item, 64);
      if depth < 64 {
        LiveAllInFull(acc.children, depth + 1);
      } else {
        NothingShallow(acc.children, depth + 1, 64);
      }
    }
  }

  lemma {:induction false} LiveAllInFull(accs: seq<Accessible>, depth: nat)
    requires depth <= 64
    ensures LiveAll(accs, depth) == Shallow(EverythingIn(accs, depth), 64)
    decreases accs, 1
  {
    if accs != [] {
      LiveInFull(accs[0], depth);
      LiveAllInFull(accs[1..], depth);
      ShallowJoin(Everything(accs[0], depth), EverythingIn(accs[1..], depth), 64);
    }
  }

  /** The walk meets the nodes in the order of the listing. */
  lemma {:induction false} WalkFollowsTheListing(ns: seq<Node>, depth: nat)
    ensures |WalkAll(ns)| == |ListingAll(ns, depth)|
    ensures forall i :: 0 <= i < |WalkAll(ns)| ==>
      var n, item := WalkAll(ns)[i], ListingAll(ns, depth)[i];
      n.role == item.role && n.name == item.name && n.bounds == item.bounds
    decreases ns
  {
    if ns != [] {
      WalkFollowsTheListing(ns[0].children, depth + 1);
      WalkFollowsTheListing(ns[1..], depth);
      assert WalkAll(ns) == [ns[0]] + WalkAll(ns[0].children) + WalkAll(ns[1..]);
      assert ListingAll(ns, depth)
          == [Item(depth, ns[0].role, ns[0].name, ns[0].bounds)] + ListingAll(ns[0].children, depth + 1) + ListingAll(ns[1..], depth);
    }
  }

  // ------------------------------------------------------------ budgets

  /** At most n of them; None is no limit. */
  function Take<T>(s: seq<T>, n: Option<nat>): (r: seq<T>)
    ensures r <= s && |r| == if n.Some? && n.value < |s| then n.value else |s|
  {
    if n.None? || |s| <= n.value then s else s[..n.value]
  }

  /** The budget after spending k of it. */
  function Left(n: Option<nat>, k: nat): Option<nat> {
    if n.None? then None else Some(if k <= n.value then n.value - k else 0)
  }

  lemma TakeJoin<T>(a: seq<T>, b: seq<T>, n: Option<nat>)
    ensures Take(a + b, n) == Take(a, n) + Take(b, Left(n, |a|))
    ensures |Take(a, n)| <= |a| && Left(n, |Take(a, n)|) == Left(n, |a|)
  {
    if n.Some? && n.value < |a| {
      assert (a + b)[..n.value] == a[..n.value];
      assert a[..n.value] + [] == a[..n.value];
    } else if n.Some? && n.value < |a| + |b| {
      assert (a + b)[..n.value] == a + b[..n.value - |a|];
    }
  }

  lemma LeftLeft(n: Option<nat>, j: nat, k: nat)
    ensures Left(Left(n, j), k) == Left(n, j + k)
  {}

  // ------------------------------------------------------------ the conversion

  lemma ListingSnoc(ns: seq<Node>, n: Node, depth: nat)
    ensures ListingAll(ns + [n], depth) == ListingAll(ns, depth) + Listing(n, depth)
    decreases |ns|
  {
    if ns == [] {
      assert [n][1..] == [] && ns + [n] == [n];
    } else {
      assert (ns + [n])[1..] == ns[1..] + [n];
      ListingSnoc(ns[1..], n, depth);
      assert Listing(ns[0], depth) + (ListingAll(ns[1..], depth) + Listing(n, depth))
          == (Listing(ns[0], depth) + ListingAll(ns[1..], depth)) + Listing(n, depth);
    }
  }

  lemma Joined<T>(a: seq<T>, b: seq<T>, c: seq<T>)
    ensures a + (b + c) == (a + b) + c
    ensures a + [] == a && [] + a == a
  {}

  /** So much is listed; the rest will be taken with the budget that is left. */
  ghost predicate Halfway(all: seq<Item>, budget: Option<nat>, done: seq<Item>, rest: seq<Item>, left: Option<nat>) {
    Take(all, budget) == done + Take(rest, left) && Left(budget, |all|) == Left(left, |rest|)
  }

  lemma HalfwayStep(all: seq<Item>, budget: Option<nat>, done: seq<Item>, here: seq<Item>, rest: seq<Item>, left: Option<nat>)
    requires Halfway(all, budget, done, here + rest, left)
    ensures Halfway(all, budget, done + Take(here, left), rest, Left(left, |here|))
  {
    TakeJoin(here, rest, left);
    LeftLeft(left, |here|, |rest|);
    Joined(done, Take(here, left), Take(rest, Left(left, |here|)));
  }

  lemma HalfwayOver(all: seq<Item>, budget: Option<nat>, done: seq<Item>, rest: seq<Item>, left: Option<nat>)
    requires Halfway(all, budget, done, rest, left) && (rest == [] || left == Some(0))
    ensures done == Take(all, budget) && left == Left(budget, |all|)
  {
    Joined(done, [], []);
  }

  /** The listing of the children from i on starts with that of child i. */
  lemma LiveFrom(accs: seq<Accessible>, i: nat, depth: nat)
    requires i < |accs|
    ensures LiveAll(accs[i..], depth) == Live(accs[i], depth) + LiveAll(accs[i + 1..], depth)
  {
    assert accs[i..][1..] == accs[i + 1..] && accs[i..][0] == accs[i];
  }

  /** The children that are read before the budget runs out, and what is left of it. */
  method ConvertAll(accs: seq<Accessible>, depth: nat, budget: Option<nat>) returns (nodes: seq<Node>, left: Option<nat>)
    ensures ListingAll(nodes, depth) == Take(LiveAll(accs, depth), budget)
    ensures left == Left(budget, |LiveAll(accs, depth)|)
    decreases accs, 1
  {
    nodes, left := [], budget;
    ghost var all := LiveAll(accs, depth);
    assert accs[0..] == accs;
    Joined(Take(all, budget), [], []);
    for i := 0 to |accs|
      invariant Halfway(all, budget, ListingAll(nodes, depth), LiveAll(accs[i..], depth), left)
    {
      LiveFrom(accs, i, depth);
      ghost var done, here, rest := ListingAll(nodes, depth), Live(accs[i], depth), LiveAll(accs[i + 1..], depth);
      if accs[i].Gone? {
        Joined(rest, [], []);
      } else {
        var converted, next := Convert(accs[i], depth, left);
        if converted.None? {
          HalfwayOver(all, budget, done, here + rest, left);
          return;
        }
        HalfwayStep(all, budget, done, here, rest, left);
        ListingSnoc(nodes, converted.value, depth);
        nodes, left := nodes + [converted.value], next;
      }
    }
    HalfwayOver(all, budget, ListingAll(nodes, depth), LiveAll(accs[|accs|..], depth), left);
  }

  /** One accessible and what the budget allows below it; nothing once it is spent. */
  method Convert(acc: Accessible, depth: nat, budget: Option<nat>) returns (node: Option<Node>, left: Option<nat>)
    requires acc.Accessible?
    ensures node.None? <==> budget == Some(0)
    ensures node.Some? ==> Listing(node.value, depth) == Take(Live(acc, depth), budget)
    ensures left == Left(budget, |Live(acc, depth)|)
    decreases acc, 0
  {
    if budget == Some(0) {
      return None, budget;
    }
    left := Left(budget, 1);
    var item := [Item(depth, acc.role, acc.name, acc.bounds)];
    ghost var below := if depth < MAX_A11Y_DEPTH then LiveAll(acc.children, depth + 1) else [];
    TakeJoin(item, below, budget);
    LeftLeft(budget, 1, |below|);
    var children := [];
    if depth < MAX_A11Y_DEPTH {
      children, left := ConvertAll(acc.children, depth + 1, left);
    }
    node := Some(Node(acc.role, acc.name, acc.bounds, children));
  }

  /**
     The tree under a synthetic root. It is the live tree cut at the depth cap and
     then after the first maxNodes accessibles in document order: its listing is
     exactly that prefix, which by ListingDetermines leaves only one tree.
  */
  method AtspiTree(desktop: seq<Accessible>, maxNodes: Option<nat>) returns (root: Node)
    ensures root.role == "desktop" && root.name == "root" && root.bounds.None?
    ensures ListingAll(root.children, 1) == Take(LiveAll(desktop, 1), maxNodes)
    ensures ListingAll(root.children, 1) == Take(Shallow(EverythingIn(desktop, 1), 64), maxNodes)
  {
    LiveAllInFull(desktop, 1);
    var apps, _ := ConvertAll(desktop, 1, maxNodes);
    root := Node("desktop", "root", None, apps);
  }

  // ------------------------------------------------------------ the bounded walk

  /** What a stack of sibling lists, its top last, has still to yield. */
  ghost function Pending(stack: seq<seq<Node>>): seq<Node> {
    if stack == [] then [] else WalkAll(stack[|stack| - 1]) + Pending(stack[..|stack| - 1])
  }

  lemma PendingSnoc(stack: seq<seq<Node>>, top: seq<Node>)
    ensures Pending(stack + [top]) == WalkAll(top) + Pending(stack)
  {
    assert (stack + [top])[..|stack|] == stack;
  }

  /** Yielding the first of the top list and pushing its children. */
  lemma Yielded(below: seq<seq<Node>>, top: seq<Node>)
    requires top != []
    ensures Pending(below + [top]) == [top[0]] + Pending(below + [top[1..]] + [top[0].children])
  {
    PendingSnoc(below, top);
    PendingSnoc(below, top[1..]);
    PendingSnoc(below + [top[1..]], top[0].children);
    var kids, rest, under := WalkAll(top[0].children), WalkAll(top[1..]), Pending(below);
    assert WalkAll(top) == ([top[0]] + kids) + rest;
    Joined([top[0]] + kids, rest, under);
    Joined([top[0]], kids, rest + under);
  }

  /** The first `limit` nodes of the tree's walk, without listing the rest. */
  method WalkBounded(root: Node, limit: nat) returns (out: seq<Node>)
    ensures out == Take(root.Walk(), Some(limit))
  {
    out := [];
    var pending := [[root]];
    OneRoot(root);
    while pending != [] && |out| < limit
      invariant out + Pending(pending) == root.Walk() && |out| <= limit
      decreases |Pending(pending)|, |pending|
    {
      var below, top := pending[..|pending| - 1], pending[|pending| - 1];
      assert pending == below + [top];
      if top == [] {
        PendingSnoc(below, top);
        Joined(Pending(below), [], []);
        pending := below;
      } else {
        Yielded(below, top);
        Joined(out, [top[0]], Pending(below + [top[1..]] + [top[0].children]));
        out := out + [top[0]];
        pending := below + [top[1..]] + [top[0].children];
      }
    }
    assert out == root.Walk()[..|out|];
  }

  lemma OneRoot(root: Node)
    ensures [] + Pending([[root]]) == root.Walk()
  {
    PendingSnoc([], [root]);
    assert [] + [[root]] == [[root]] && [root][1..] == [];
    assert WalkAll([root]) == root.Walk() + [];
    Joined(root.Walk(), [], []);
  }
}

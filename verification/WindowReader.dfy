/**
 Reading a live window tree through handles: first-child and next-sibling calls,
 an explicit stack, and a map from handle to finished node.
*/
module WindowReader {
  import opened Wrappers
  import opened WindowTree

  type Handle = int

  /** What a label window's caption reads as; one at the length limit is refused. */
  datatype Caption = Empty | Hashed(hash: string) | TooLong

  datatype Info = Info(className: string, rect: Rect, visible: bool, caption: Caption)

  /** The window tree as the system holds it. */
  datatype Window = Window(handle: Handle, info: Info, children: seq<Window>)

  /** The calls used to read it; handle 0 means none. */
  datatype Api = Api(
    isWindow: Handle -> bool,
    firstChild: Handle -> Handle,
    nextSibling: Handle -> Handle,
    info: Handle -> Info)

  // ------------------------------------------------------------ the source tree

  function Handles(t: Window): set<Handle> {
    {t.handle} + HandlesOf(t.children)
  }

  function HandlesOf(ts: seq<Window>): set<Handle> {
    if ts == [] then {} else Handles(ts[0]) + HandlesOf(ts[1..])
  }

  /** No two windows share a handle. */
  predicate Distinct(t: Window) {
    t.handle !in HandlesOf(t.children) && DistinctAll(t.children)
  }

  predicate DistinctAll(ts: seq<Window>) {
    ts == [] || (Distinct(ts[0]) && DistinctAll(ts[1..]) && Handles(ts[0]) !! HandlesOf(ts[1..]))
  }

  function HandleAt(ts: seq<Window>, k: nat): Handle {
    if k < |ts| then ts[k].handle else 0
  }

  /** The system answers every call as the tree says. */
  ghost predicate Shows(api: Api, t: Window) {
    && t.handle != 0 && api.isWindow(t.handle) && api.info(t.handle) == t.info
    && api.firstChild(t.handle) == HandleAt(t.children, 0)
    && (forall k :: 0 <= k < |t.children| ==> api.nextSibling(t.children[k].handle) == HandleAt(t.children, k + 1))
    && (forall c :: c in t.children ==> Shows(api, c))
  }

  function Size(t: Window): nat {
    1 + SizeOf(t.children)
  }

  function SizeOf(ts: seq<Window>): nat {
    if ts == [] then 0 else Size(ts[0]) + SizeOf(ts[1..])
  }

  function Height(t: Window): nat {
    HeightOf(t.children)
  }

  /** Levels in a forest; a single window without children has one. */
  function HeightOf(ts: seq<Window>): nat {
    if ts == [] then 0
    else
      var first, rest := 1 + Height(ts[0]), HeightOf(ts[1..]);
      if first >= rest then first else rest
  }

  /** A label window below the root, the only kind whose caption is read. */
  predicate IsLabel(t: Window, depth: nat, labelClass: string) {
    depth > 0 && t.info.className == labelClass
  }

  predicate Readable(t: Window, depth: nat, labelClass: string) {
    && !(IsLabel(t, depth, labelClass) && t.info.caption.TooLong?)
    && ReadableAll(t.children, depth + 1, labelClass)
  }

  predicate ReadableAll(ts: seq<Window>, depth: nat, labelClass: string) {
    ts == [] || (Readable(ts[0], depth, labelClass) && ReadableAll(ts[1..], depth, labelClass))
  }

  /** The record of the tree: same shape, hashed captions on label windows only. */
  function Record(t: Window, depth: nat, labelClass: string): WindowNode {
    NodeOf(t.handle, t.info, IsLabel(t, depth, labelClass), RecordAll(t.children, depth + 1, labelClass))
  }

  function RecordAll(ts: seq<Window>, depth: nat, labelClass: string): (r: seq<WindowNode>)
    ensures |r| == |ts|
    ensures forall k :: 0 <= k < |ts| ==> r[k] == Record(ts[k], depth, labelClass)
  {
    if ts == [] then [] else [Record(ts[0], depth, labelClass)] + RecordAll(ts[1..], depth, labelClass)
  }

  function NodeOf(handle: Handle, info: Info, named: bool, children: seq<WindowNode>): WindowNode {
    WindowNode(info.className, info.rect, info.visible,
      if named && info.caption.Hashed? then Some(info.caption.hash) else None, handle, children)
  }

  /** The node tells of the window what the system does, level by level; the caption is
      kept as a hash, and only for label windows below the root. */
  predicate Depicts(n: WindowNode, t: Window, depth: nat, labelClass: string) {
    && n.hwnd == t.handle && n.className == t.info.className && n.rect == t.info.rect && n.visible == t.info.visible
    && (n.nameHash.Some? <==> depth > 0 && t.info.className == labelClass && t.info.caption.Hashed?)
    && (n.nameHash.Some? ==> n.nameHash.value == t.info.caption.hash)
    && |n.children| == |t.children|
    && forall k :: 0 <= k < |t.children| ==> Depicts(n.children[k], t.children[k], depth + 1, labelClass)
  }

  lemma {:induction false} RecordDepicts(t: Window, depth: nat, labelClass: string)
    ensures Depicts(Record(t, depth, labelClass), t, depth, labelClass)
  {
    var n := Record(t, depth, labelClass);
    forall k | 0 <= k < |t.children| ensures Depicts(n.children[k], t.children[k], depth + 1, labelClass) {
      RecordDepicts(t.children[k], depth + 1, labelClass);
    }
  }

  // ------------------------------------------------------------ the stack

  /** A handle to visit, or one to build once its children are. */
  datatype Item = Visit(handle: Handle, depth: nat) | Build(handle: Handle, depth: nat, kids: seq<Handle>)

  /** The same, with the window it stands for. */
  datatype Task = ToVisit(t: Window, depth: nat) | ToBuild(t: Window, depth: nat)

  function KidHandles(ts: seq<Window>): seq<Handle> {
    seq(|ts|, i requires 0 <= i < |ts| => ts[i].handle)
  }

  function ItemOf(task: Task): Item {
    match task
    case ToVisit(t, depth) => Visit(t.handle, depth)
    case ToBuild(t, depth) => Build(t.handle, depth, KidHandles(t.children))
  }

  ghost predicate Mirrors(stack: seq<Item>, tasks: seq<Task>) {
    |stack| == |tasks| && forall i :: 0 <= i < |stack| ==> stack[i] == ItemOf(tasks[i])
  }

  type Built = map<Handle, WindowNode>

  function HandleSet(ts: seq<Window>): set<Handle> {
    set t | t in ts :: t.handle
  }

  /** What a task will have done to the map of finished nodes. */
  function Outcome(task: Task, built: Built, labelClass: string): Built {
    match task
    case ToVisit(t, depth) => built[t.handle := Record(t, depth, labelClass)]
    case ToBuild(t, depth) => (built - HandleSet(t.children))[t.handle := Record(t, depth, labelClass)]
  }

  /** The map when the stack is empty. */
  ghost function Final(tasks: seq<Task>, built: Built, labelClass: string): Built {
    if tasks == [] then built
    else Final(tasks[..|tasks| - 1], Outcome(tasks[|tasks| - 1], built, labelClass), labelClass)
  }

  /** Every task will find what it needs: fresh handles, or finished children. */
  ghost predicate Ready(tasks: seq<Task>, built: Built, labelClass: string) {
    tasks == []
    || (var top := tasks[|tasks| - 1];
        && (match top
            case ToVisit(t, _) => Distinct(t) && Handles(t) !! built.Keys
            case ToBuild(t, depth) =>
              && Distinct(t)
              && forall c :: c in t.children ==> c.handle in built && built[c.handle] == Record(c, depth + 1, labelClass))
        && Ready(tasks[..|tasks| - 1], Outcome(top, built, labelClass), labelClass))
  }

  ghost function Unvisited(tasks: seq<Task>): nat {
    if tasks == [] then 0
    else (if tasks[|tasks| - 1].ToVisit? then Size(tasks[|tasks| - 1].t) else 0) + Unvisited(tasks[..|tasks| - 1])
  }

  function TaskFits(task: Task, maxDepth: int): bool {
    task.ToVisit? ==> task.depth + Height(task.t) <= maxDepth
  }

  function TaskReadable(task: Task, labelClass: string): bool {
    match task
    case ToVisit(t, depth) => Readable(t, depth, labelClass)
    case ToBuild(t, depth) => !(IsLabel(t, depth, labelClass) && t.info.caption.TooLong?)
  }

  ghost predicate Fits(tasks: seq<Task>, maxDepth: int) {
    tasks == [] || (TaskFits(tasks[|tasks| - 1], maxDepth) && Fits(tasks[..|tasks| - 1], maxDepth))
  }

  ghost predicate AllReadable(tasks: seq<Task>, labelClass: string) {
    tasks == [] || (TaskReadable(tasks[|tasks| - 1], labelClass) && AllReadable(tasks[..|tasks| - 1], labelClass))
  }

  ghost predicate AllShown(api: Api, tasks: seq<Task>) {
    forall i :: 0 <= i < |tasks| ==> Shows(api, tasks[i].t)
  }

  /** The children to visit, in reverse, so that the first is on top. */
  function Visits(ts: seq<Window>, depth: nat): (r: seq<Task>)
    ensures |r| == |ts|
  {
    if ts == [] then [] else Visits(ts[1..], depth) + [ToVisit(ts[0], depth)]
  }

  lemma Snoc(below: seq<Task>, top: Task)
    ensures (below + [top])[..|below|] == below && (below + [top])[|below|] == top
  {}

  /** The map after visiting a forest. */
  ghost function Added(ts: seq<Window>, depth: nat, built: Built, labelClass: string): Built {
    if ts == [] then built
    else Added(ts[1..], depth, built[ts[0].handle := Record(ts[0], depth, labelClass)], labelClass)
  }

  lemma {:induction false} HandleSetIn(ts: seq<Window>)
    ensures HandleSet(ts) <= HandlesOf(ts)
  {
    if ts != [] {
      HandleSetIn(ts[1..]);
      assert ts == [ts[0]] + ts[1..];
    }
  }

  lemma {:induction false} AddedContents(ts: seq<Window>, depth: nat, built: Built, labelClass: string)
    requires DistinctAll(ts)
    ensures Added(ts, depth, built, labelClass).Keys == built.Keys + HandleSet(ts)
    ensures forall c :: c in ts ==> Added(ts, depth, built, labelClass)[c.handle] == Record(c, depth, labelClass)
    ensures forall h :: h in built && h !in HandleSet(ts) ==> Added(ts, depth, built, labelClass)[h] == built[h]
    decreases |ts|
  {
    if ts != [] {
      var built' := built[ts[0].handle := Record(ts[0], depth, labelClass)];
      AddedContents(ts[1..], depth, built', labelClass);
      HandleSetIn(ts[1..]);
      assert ts == [ts[0]] + ts[1..];
      assert ts[0].handle in Handles(ts[0]);
    }
  }

  lemma {:induction false} VisitsFinal(below: seq<Task>, ts: seq<Window>, depth: nat, built: Built, labelClass: string)
    ensures Final(below + Visits(ts, depth), built, labelClass) == Final(below, Added(ts, depth, built, labelClass), labelClass)
    decreases |ts|
  {
    if ts == [] {
      assert below + Visits(ts, depth) == below;
    } else {
      var tail, top := below + Visits(ts[1..], depth), ToVisit(ts[0], depth);
      assert below + Visits(ts, depth) == tail + [top];
      Snoc(tail, top);
      VisitsFinal(below, ts[1..], depth, built[ts[0].handle := Record(ts[0], depth, labelClass)], labelClass);
    }
  }

  lemma {:induction false} VisitsReady(below: seq<Task>, ts: seq<Window>, depth: nat, built: Built, labelClass: string)
    requires DistinctAll(ts) && HandlesOf(ts) !! built.Keys
    requires Ready(below, Added(ts, depth, built, labelClass), labelClass)
    ensures Ready(below + Visits(ts, depth), built, labelClass)
    decreases |ts|
  {
    if ts == [] {
      assert below + Visits(ts, depth) == below;
    } else {
      var tail, top := below + Visits(ts[1..], depth), ToVisit(ts[0], depth);
      assert below + Visits(ts, depth) == tail + [top];
      Snoc(tail, top);
      assert ts[0].handle in Handles(ts[0]);
      VisitsReady(below, ts[1..], depth, built[ts[0].handle := Record(ts[0], depth, labelClass)], labelClass);
    }
  }

  lemma {:induction false} VisitsCount(below: seq<Task>, ts: seq<Window>, depth: nat, maxDepth: int, labelClass: string)
    requires depth - 1 <= maxDepth
    ensures Unvisited(below + Visits(ts, depth)) == SizeOf(ts) + Unvisited(below)
    ensures Fits(below + Visits(ts, depth), maxDepth) <==> Fits(below, maxDepth) && depth - 1 + HeightOf(ts) <= maxDepth
    ensures AllReadable(below + Visits(ts, depth), labelClass) <==> AllReadable(below, labelClass) && ReadableAll(ts, depth, labelClass)
    decreases |ts|
  {
    if ts == [] {
      assert below + Visits(ts, depth) == below;
    } else {
      var tail, top := below + Visits(ts[1..], depth), ToVisit(ts[0], depth);
      assert below + Visits(ts, depth) == tail + [top];
      Snoc(tail, top);
      VisitsCount(below, ts[1..], depth, maxDepth, labelClass);
    }
  }

  /** A visited window's tasks: its children first, then itself. */
  function Expanded(below: seq<Task>, t: Window, depth: nat): seq<Task> {
    below + [ToBuild(t, depth)] + Visits(t.children, depth + 1)
  }

  lemma ExpandedOutcome(t: Window, depth: nat, built: Built, labelClass: string)
    requires Distinct(t) && Handles(t) !! built.Keys
    ensures Outcome(ToBuild(t, depth), Added(t.children, depth + 1, built, labelClass), labelClass)
         == Outcome(ToVisit(t, depth), built, labelClass)
  {
    var added := Added(t.children, depth + 1, built, labelClass);
    AddedContents(t.children, depth + 1, built, labelClass);
    HandleSetIn(t.children);
    assert HandleSet(t.children) <= Handles(t);
    forall h | h in built ensures h in added && h !in HandleSet(t.children) && added[h] == built[h] {}
    assert added - HandleSet(t.children) == built;
  }

  lemma ExpandedFinal(below: seq<Task>, t: Window, depth: nat, built: Built, labelClass: string)
    requires Distinct(t) && Handles(t) !! built.Keys
    ensures Final(Expanded(below, t, depth), built, labelClass) == Final(below + [ToVisit(t, depth)], built, labelClass)
  {
    Snoc(below, ToVisit(t, depth));
    Snoc(below, ToBuild(t, depth));
    ExpandedOutcome(t, depth, built, labelClass);
    VisitsFinal(below + [ToBuild(t, depth)], t.children, depth + 1, built, labelClass);
  }

  lemma ExpandedReady(below: seq<Task>, t: Window, depth: nat, built: Built, labelClass: string)
    requires Distinct(t) && Handles(t) !! built.Keys
    requires Ready(below, Outcome(ToVisit(t, depth), built, labelClass), labelClass)
    ensures Ready(Expanded(below, t, depth), built, labelClass)
  {
    Snoc(below, ToBuild(t, depth));
    ExpandedOutcome(t, depth, built, labelClass);
    AddedContents(t.children, depth + 1, built, labelClass);
    VisitsReady(below + [ToBuild(t, depth)], t.children, depth + 1, built, labelClass);
  }

  lemma ExpandedCounts(below: seq<Task>, t: Window, depth: nat, maxDepth: int, labelClass: string)
    requires depth <= maxDepth
    ensures
      var before, after := below + [ToVisit(t, depth)], Expanded(below, t, depth);
      && Unvisited(before) == 1 + Unvisited(after)
      && (Fits(before, maxDepth) <==> Fits(after, maxDepth))
      && (AllReadable(before, labelClass) <==> AllReadable(after, labelClass))
  {
    Snoc(below, ToVisit(t, depth));
    Snoc(below, ToBuild(t, depth));
    VisitsCount(below + [ToBuild(t, depth)], t.children, depth + 1, maxDepth, labelClass);
  }

  // ------------------------------------------------------------ the program

  function VisitItems(kids: seq<Handle>, depth: nat): seq<Item> {
    if kids == [] then [] else VisitItems(kids[1..], depth) + [Visit(kids[0], depth)]
  }

  lemma {:induction false} VisitsMirror(api: Api, ts: seq<Window>, depth: nat)
    requires forall c :: c in ts ==> Shows(api, c)
    ensures Mirrors(VisitItems(KidHandles(ts), depth), Visits(ts, depth)) && AllShown(api, Visits(ts, depth))
  {
    if ts != [] {
      assert KidHandles(ts)[1..] == KidHandles(ts[1..]);
      VisitsMirror(api, ts[1..], depth);
    }
  }

  method KidsOf(api: Api, handle: Handle, ghost t: Window) returns (kids: seq<Handle>)
    requires Shows(api, t) && t.handle == handle
    ensures kids == KidHandles(t.children)
  {
    kids := [];
    var child := api.firstChild(handle);
    while child != 0
      invariant |kids| <= |t.children| && child == HandleAt(t.children, |kids|)
      invariant kids == KidHandles(t.children)[..|kids|]
      decreases |t.children| - |kids|
    {
      kids := kids + [child];
      child := api.nextSibling(child);
    }
    assert |kids| < |t.children| ==> Shows(api, t.children[|kids|]);
  }

  /** Between two steps: the tasks, if all goes well, leave exactly the record of
      the tree, and they go well exactly when the rest of the tree is acceptable. */
  ghost predicate Sums(tree: Window, labelClass: string, maxDepth: int, tasks: seq<Task>, built: Built, left: int) {
    && Ready(tasks, built, labelClass)
    && Final(tasks, built, labelClass) == map[tree.handle := Record(tree, 0, labelClass)]
    && Unvisited(tasks) == left
    && (Fits(tasks, maxDepth) <==> Height(tree) <= maxDepth)
    && (AllReadable(tasks, labelClass) <==> Readable(tree, 0, labelClass))
  }

  ghost predicate Stacks(api: Api, stack: seq<Item>, tasks: seq<Task>) {
    Mirrors(stack, tasks) && AllShown(api, tasks)
  }

  lemma MirrorsJoin(a: seq<Item>, b: seq<Item>, c: seq<Task>, d: seq<Task>, api: Api)
    requires Mirrors(a, c) && Mirrors(b, d) && AllShown(api, c) && AllShown(api, d)
    ensures Mirrors(a + b, c + d) && AllShown(api, c + d)
  {}

  lemma VisitStacks(api: Api, below: seq<Item>, tasks: seq<Task>, t: Window, depth: nat)
    requires Mirrors(below, tasks) && AllShown(api, tasks) && Shows(api, t)
    ensures
      var stack := below + [Build(t.handle, depth, KidHandles(t.children))] + VisitItems(KidHandles(t.children), depth + 1);
      Mirrors(stack, Expanded(tasks, t, depth)) && AllShown(api, Expanded(tasks, t, depth))
  {
    VisitsMirror(api, t.children, depth + 1);
    MirrorsJoin(below, [Build(t.handle, depth, KidHandles(t.children))], tasks, [ToBuild(t, depth)], api);
    MirrorsJoin(below + [Build(t.handle, depth, KidHandles(t.children))], VisitItems(KidHandles(t.children), depth + 1),
      tasks + [ToBuild(t, depth)], Visits(t.children, depth + 1), api);
  }

  lemma VisitSums(tree: Window, labelClass: string, maxDepth: int, tasks: seq<Task>, built: Built, left: int)
    requires Sums(tree, labelClass, maxDepth, tasks, built, left) && tasks != []
    requires tasks[|tasks| - 1].ToVisit?
    ensures left >= 1
    ensures tasks[|tasks| - 1].depth > maxDepth ==> Height(tree) > maxDepth
    ensures tasks[|tasks| - 1].depth <= maxDepth ==>
      Sums(tree, labelClass, maxDepth, Expanded(tasks[..|tasks| - 1], tasks[|tasks| - 1].t, tasks[|tasks| - 1].depth), built, left - 1)
  {
    var below, t, depth := tasks[..|tasks| - 1], tasks[|tasks| - 1].t, tasks[|tasks| - 1].depth;
    assert tasks == below + [ToVisit(t, depth)];
    if depth <= maxDepth {
      ExpandedFinal(below, t, depth, built, labelClass);
      ExpandedReady(below, t, depth, built, labelClass);
      ExpandedCounts(below, t, depth, maxDepth, labelClass);
    }
  }

  /** The finished nodes of some handles. */
  function Gather(built: Built, kids: seq<Handle>): seq<WindowNode>
    requires forall i :: 0 <= i < |kids| ==> kids[i] in built
  {
    if kids == [] then []
    else
      [built[kids[0]]] + Gather(built, kids[1..])
  }

  /** What building the top window makes of the map. */
  function AfterBuild(built: Built, t: Window, depth: nat, labelClass: string): Built
    requires forall i :: 0 <= i < |t.children| ==> KidHandles(t.children)[i] in built
  {
    (built - (set k | k in KidHandles(t.children)))[t.handle :=
      NodeOf(t.handle, t.info, IsLabel(t, depth, labelClass), Gather(built, KidHandles(t.children)))]
  }

  lemma {:induction false} GatherRecords(built: Built, ts: seq<Window>, depth: nat, labelClass: string)
    requires forall c :: c in ts ==> c.handle in built && built[c.handle] == Record(c, depth, labelClass)
    ensures forall i :: 0 <= i < |ts| ==> KidHandles(ts)[i] in built
    ensures Gather(built, KidHandles(ts)) == RecordAll(ts, depth, labelClass)
  {
    assert forall i :: 0 <= i < |ts| ==> ts[i] in ts;
    if ts != [] {
      GatherRecords(built, ts[1..], depth, labelClass);
      assert KidHandles(ts)[1..] == KidHandles(ts[1..]);
    }
  }

  lemma BuildSums(tree: Window, labelClass: string, maxDepth: int, tasks: seq<Task>, built: Built, left: int)
    requires Sums(tree, labelClass, maxDepth, tasks, built, left) && tasks != []
    requires tasks[|tasks| - 1].ToBuild?
    ensures
      var t, depth := tasks[|tasks| - 1].t, tasks[|tasks| - 1].depth;
      && (forall i :: 0 <= i < |t.children| ==> KidHandles(t.children)[i] in built)
      && (!TaskReadable(tasks[|tasks| - 1], labelClass) ==> !Readable(tree, 0, labelClass))
      && (TaskReadable(tasks[|tasks| - 1], labelClass) ==>
            Sums(tree, labelClass, maxDepth, tasks[..|tasks| - 1], AfterBuild(built, t, depth, labelClass), left))
  {
    var t, depth := tasks[|tasks| - 1].t, tasks[|tasks| - 1].depth;
    GatherRecords(built, t.children, depth + 1, labelClass);
    KidSet(t.children);
  }

  lemma KidSet(ts: seq<Window>)
    ensures (set k | k in KidHandles(ts)) == HandleSet(ts)
  {
    forall t | t in ts ensures t.handle in KidHandles(ts) {
      var i :| 0 <= i < |ts| && ts[i] == t;
      assert KidHandles(ts)[i] == t.handle;
    }
  }

  lemma SumsStart(tree: Window, labelClass: string, maxDepth: nat)
    requires Distinct(tree)
    ensures Sums(tree, labelClass, maxDepth, [ToVisit(tree, 0)], map[], Size(tree))
  {
    assert [ToVisit(tree, 0)] == [] + [ToVisit(tree, 0)];
    Snoc([], ToVisit(tree, 0));
  }

  /** Build one node: take its children out of the map and put it in. */
  method Finished(api: Api, handle: Handle, depth: nat, kids: seq<Handle>, built: Built, labelClass: string, ghost t: Window)
    returns (r: Result<Built, Refusal>)
    requires Shows(api, t) && t.handle == handle && kids == KidHandles(t.children)
    requires forall i :: 0 <= i < |kids| ==> kids[i] in built
    ensures r.Ok? <==> !(IsLabel(t, depth, labelClass) && t.info.caption.TooLong?)
    ensures r.Ok? ==> r.value == AfterBuild(built, t, depth, labelClass)
  {
    var children := Gather(built, kids);
    var info := api.info(handle);
    var named := depth > 0 && info.className == labelClass;
    if named && info.caption.TooLong? {
      return Err(BadCaption);
    }
    return Ok((built - (set k | k in kids))[handle := NodeOf(handle, info, named, children)]);
  }

  /** Visit a window: itself to build later, its children to visit now. */
  method VisitTop(api: Api, handle: Handle, depth: nat, below: seq<Item>, ghost tasks: seq<Task>, ghost t: Window)
    returns (stack: seq<Item>)
    requires Stacks(api, below, tasks) && Shows(api, t) && t.handle == handle
    ensures Stacks(api, stack, Expanded(tasks, t, depth))
  {
    var kids := KidsOf(api, handle, t);
    VisitStacks(api, below, tasks, t, depth);
    stack := below + [Build(handle, depth, kids)] + VisitItems(kids, depth + 1);
  }

  lemma StacksTop(api: Api, stack: seq<Item>, tasks: seq<Task>)
    requires Stacks(api, stack, tasks) && stack != []
    ensures |tasks| == |stack| && Shows(api, tasks[|tasks| - 1].t)
    ensures
      var t := tasks[|tasks| - 1].t;
      match stack[|stack| - 1]
      case Visit(handle, depth) => tasks[|tasks| - 1] == ToVisit(t, depth) && t.handle == handle
      case Build(handle, depth, kids) =>
        tasks[|tasks| - 1] == ToBuild(t, depth) && t.handle == handle && kids == KidHandles(t.children)
    ensures Stacks(api, stack[..|stack| - 1], tasks[..|tasks| - 1])
  {}

  lemma SumsEnd(tree: Window, labelClass: string, maxDepth: int, built: Built, left: int)
    requires Sums(tree, labelClass, maxDepth, [], built, left)
    ensures built == map[tree.handle := Record(tree, 0, labelClass)] && left == 0
    ensures Height(tree) <= maxDepth && Readable(tree, 0, labelClass)
  {}

  /**
   What the system shows below hwnd, as nodes, or a refusal. The tree is the one the system shows
   throughout the call; its handles are distinct, as handles are.
  */
  method ReadWindowTree(api: Api, hwnd: Handle, ghost tree: Window, labelClass: string, maxNodes: nat, maxDepth: nat)
    returns (r: Result<WindowNode, Refusal>)
    requires tree.handle == hwnd && Distinct(tree)
    requires api.isWindow(hwnd) ==> Shows(api, tree)
    ensures r.Ok? <==>
      api.isWindow(hwnd) && Size(tree) <= maxNodes && Height(tree) <= maxDepth && Readable(tree, 0, labelClass)
    ensures r.Ok? ==> r.value == Record(tree, 0, labelClass) && Depicts(r.value, tree, 0, labelClass)
    ensures r == Err(TooMany) ==> Size(tree) > maxNodes
    ensures r == Err(TooDeep) ==> Height(tree) > maxDepth
  {
    if !api.isWindow(hwnd) {
      return Err(NotAWindow);
    }
    var stack := [Visit(hwnd, 0)];
    ghost var tasks := [ToVisit(tree, 0)];
    var built: Built, count := map[], 0;
    ghost var left := Size(tree);
    assert Stacks(api, stack, tasks);
    SumsStart(tree, labelClass, maxDepth);
    while stack != []
      invariant Stacks(api, stack, tasks)
      invariant Sums(tree, labelClass, maxDepth, tasks, built, left)
      invariant count + left == Size(tree) && 0 <= count <= maxNodes
      decreases left, |stack|
    {
      StacksTop(api, stack, tasks);
      var top := stack[|stack| - 1];
      ghost var t, below := tasks[|tasks| - 1].t, tasks[..|tasks| - 1];
      stack := stack[..|stack| - 1];
      match top {
        case Visit(handle, depth) =>
          VisitSums(tree, labelClass, maxDepth, tasks, built, left);
          count, left := count + 1, left - 1;
          if count > maxNodes {
            return Err(TooMany);
          }
          if depth > maxDepth {
            return Err(TooDeep);
          }
          stack := VisitTop(api, handle, depth, stack, below, t);
          tasks := Expanded(below, t, depth);
        case Build(handle, depth, kids) =>
          BuildSums(tree, labelClass, maxDepth, tasks, built, left);
          var node := Finished(api, handle, depth, kids, built, labelClass, t);
          if node.Err? {
            return Err(BadCaption);
          }
          built, tasks := node.value, below;
      }
    }
    assert tasks == [] by { StacksEmpty(api, stack, tasks); }
    SumsEnd(tree, labelClass, maxDepth, built, left);
    RecordDepicts(tree, 0, labelClass);
    return Ok(built[hwnd]);
  }

  lemma StacksEmpty(api: Api, stack: seq<Item>, tasks: seq<Task>)
    requires Stacks(api, stack, tasks) && stack == []
    ensures tasks == []
  {}
}

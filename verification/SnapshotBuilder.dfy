/** One frame's elements: accessibility first, then text boxes that add something. */
module SnapshotBuilder {
  import opened A11yTree
  import opened Snapshots
  import opened Wrappers

  const MAX_LABEL_CHARS := 512

  /** A recognised text; trusted when its confidence is a number the schema takes. */
  datatype TextBox = TextBox(text: string, box: Bounds, trusted: bool)

  /** Something seen on the screen that can become an element. */
  datatype Evidence = Evidence(source: Source, text: string, box: Bounds)

  /** How ids are derived and labels folded: both are library functions. The frame's
      own id and hash are the same for all elements of a snapshot. */
  datatype Naming = Naming(idOf: (Evidence, nat) -> string, fold: string -> string)

  /** Ids of different evidence, or at different places, differ. */
  ghost predicate Injective(naming: Naming) {
    forall a, i, b, j :: naming.idOf(a, i) == naming.idOf(b, j) ==> a == b && i == j
  }

  function Bounded(s: string): string {
    if |s| <= MAX_LABEL_CHARS then s else s[..MAX_LABEL_CHARS]
  }

  predicate HasArea(b: Bounds) {
    b.w > 0 && b.h > 0
  }

  predicate Visible(evs: seq<Evidence>) {
    forall i :: 0 <= i < |evs| ==> HasArea(evs[i].box)
  }

  /** The element of evidence that comes n-th. */
  function ElementFor(naming: Naming, ev: Evidence, n: nat): Element
    requires HasArea(ev.box)
  {
    Element(naming.idOf(ev, n), ev.text, Box(ev.box.x, ev.box.y, ev.box.w, ev.box.h), ev.source)
  }

  function Elements(naming: Naming, evs: seq<Evidence>): (r: seq<Element>)
    requires Visible(evs)
    ensures |r| == |evs| && forall i :: 0 <= i < |r| ==> r[i] == ElementFor(naming, evs[i], i)
  {
    seq(|evs|, i requires 0 <= i < |evs| => ElementFor(naming, evs[i], i))
  }

  predicate UniqueIds(elements: seq<Element>) {
    forall i, j :: 0 <= i < j < |elements| ==> elements[i].id != elements[j].id
  }

  /** The same text, case apart, in the same box. */
  predicate SameSpot(naming: Naming, a: Evidence, b: Evidence) {
    naming.fold(a.text) == naming.fold(b.text) && a.box == b.box
  }

  predicate Shown(naming: Naming, evs: seq<Evidence>, ev: Evidence) {
    exists i :: 0 <= i < |evs| && SameSpot(naming, evs[i], ev)
  }

  // ------------------------------------------------------------ which evidence is used

  function FromNode(n: Node): (r: seq<Evidence>)
    ensures Visible(r)
  {
    if n.bounds.Some? && HasArea(n.bounds.value) then [Evidence(A11y, Bounded(n.name), n.bounds.value)] else []
  }

  /** The nodes with an area. */
  function FromNodes(ns: seq<Node>): (r: seq<Evidence>)
    ensures Visible(r) && |r| <= |ns|
  {
    if ns == [] then [] else FromNodes(ns[..|ns| - 1]) + FromNode(ns[|ns| - 1])
  }

  /** What a text box adds to the evidence so far. */
  function FromBox(naming: Naming, evs: seq<Evidence>, b: TextBox): (r: seq<Evidence>)
    ensures Visible(r)
  {
    var ev := Evidence(Ocr, Bounded(b.text), b.box);
    if HasArea(b.box) && b.trusted && !Shown(naming, evs, ev) then [ev] else []
  }

  function WithBoxes(naming: Naming, evs: seq<Evidence>, boxes: seq<TextBox>): (r: seq<Evidence>)
    requires Visible(evs)
    ensures Visible(r) && evs <= r && |r| <= |evs| + |boxes|
  {
    if boxes == [] then evs
    else
      var most := WithBoxes(naming, evs, boxes[..|boxes| - 1]);
      most + FromBox(naming, most, boxes[|boxes| - 1])
  }

  // ------------------------------------------------------------ what each one says

  /** Labels are cut after 512 characters. */
  function Cut(s: string): string {
    s[..if |s| < 512 then |s| else 512]
  }

  predicate Usable(n: Node) {
    n.bounds.Some? && n.bounds.value.w > 0 && n.bounds.value.h > 0
  }

  function UsableIn(ns: seq<Node>): nat {
    if ns == [] then 0 else UsableIn(ns[..|ns| - 1]) + if Usable(ns[|ns| - 1]) then 1 else 0
  }

  /** Every node with an area is listed in its turn, with its name and its box; nothing else is. */
  lemma {:induction false} NodesAreListed(ns: seq<Node>, k: nat)
    requires k < |ns|
    ensures |FromNodes(ns)| == UsableIn(ns)
    ensures Usable(ns[k]) ==>
      && UsableIn(ns[..k]) < |FromNodes(ns)|
      && FromNodes(ns)[UsableIn(ns[..k])] == Evidence(A11y, Cut(ns[k].name), ns[k].bounds.value)
  {
    var init := ns[..|ns| - 1];
    if init != [] {
      NodesAreListed(init, if k < |init| then k else 0);
    }
    if k < |init| {
      assert init[..k] == ns[..k];
    }
    assert Bounded(ns[|ns| - 1].name) == Cut(ns[|ns| - 1].name);
  }

  predicate Offers(b: TextBox, ev: Evidence) {
    b.trusted && b.box.w > 0 && b.box.h > 0 && ev == Evidence(Ocr, Cut(b.text), b.box)
  }

  /** Every listed text is that of a box with an area and a usable confidence. */
  lemma {:induction false} TextComesFromBoxes(naming: Naming, evs: seq<Evidence>, boxes: seq<TextBox>, j: nat)
    requires Visible(evs) && |evs| <= j < |WithBoxes(naming, evs, boxes)|
    ensures exists k :: 0 <= k < |boxes| && Offers(boxes[k], WithBoxes(naming, evs, boxes)[j])
  {
    var init := boxes[..|boxes| - 1];
    if j < |WithBoxes(naming, evs, init)| {
      TextComesFromBoxes(naming, evs, init, j);
      var k :| 0 <= k < |init| && Offers(init[k], WithBoxes(naming, evs, init)[j]);
      assert boxes[k] == init[k];
    } else {
      assert Bounded(boxes[|boxes| - 1].text) == Cut(boxes[|boxes| - 1].text);
    }
  }

  /** An element is its evidence, under an id made for its place. */
  lemma ElementsSayWhatWasSeen(naming: Naming, evs: seq<Evidence>, i: nat)
    requires Visible(evs) && i < |evs|
    ensures
      var e := Elements(naming, evs)[i];
      && e.id == naming.idOf(evs[i], i) && e.labelText == evs[i].text && e.source == evs[i].source
      && e.bbox.x == evs[i].box.x && e.bbox.y == evs[i].box.y && e.bbox.w == evs[i].box.w && e.bbox.h == evs[i].box.h
  {}

  // ------------------------------------------------------------ what they add up to

  /** No text is listed again at a spot where something is listed already. */
  lemma {:induction false} TextAddsNewSpots(naming: Naming, evs: seq<Evidence>, boxes: seq<TextBox>, i: nat, j: nat)
    requires Visible(evs) && i < j < |WithBoxes(naming, evs, boxes)| && |evs| <= j
    ensures
      var a, b := WithBoxes(naming, evs, boxes)[i], WithBoxes(naming, evs, boxes)[j];
      naming.fold(a.text) != naming.fold(b.text) || a.box != b.box
  {
    var most := WithBoxes(naming, evs, boxes[..|boxes| - 1]);
    if j < |most| {
      TextAddsNewSpots(naming, evs, boxes[..|boxes| - 1], i, j);
    }
  }

  /** Every usable text box is listed, or stands where something is. */
  lemma {:induction false} NoTextIsLost(naming: Naming, evs: seq<Evidence>, boxes: seq<TextBox>, k: nat)
    requires Visible(evs) && k < |boxes| && boxes[k].box.w > 0 && boxes[k].box.h > 0 && boxes[k].trusted
    ensures exists i :: (
      && 0 <= i < |WithBoxes(naming, evs, boxes)|
      && naming.fold(WithBoxes(naming, evs, boxes)[i].text) == naming.fold(Cut(boxes[k].text))
      && WithBoxes(naming, evs, boxes)[i].box == boxes[k].box)
  {
    BoxIsShown(naming, evs, boxes, k);
    var all, ev := WithBoxes(naming, evs, boxes), Evidence(Ocr, Bounded(boxes[k].text), boxes[k].box);
    assert Bounded(boxes[k].text) == Cut(boxes[k].text);
    var i :| 0 <= i < |all| && SameSpot(naming, all[i], ev);
  }

  lemma {:induction false} BoxIsShown(naming: Naming, evs: seq<Evidence>, boxes: seq<TextBox>, k: nat)
    requires Visible(evs) && k < |boxes| && HasArea(boxes[k].box) && boxes[k].trusted
    ensures Shown(naming, WithBoxes(naming, evs, boxes), Evidence(Ocr, Bounded(boxes[k].text), boxes[k].box))
  {
    var ev := Evidence(Ocr, Bounded(boxes[k].text), boxes[k].box);
    var most, all := WithBoxes(naming, evs, boxes[..|boxes| - 1]), WithBoxes(naming, evs, boxes);
    if k < |boxes| - 1 {
      BoxIsShown(naming, evs, boxes[..|boxes| - 1], k);
      assert Shown(naming, most, ev);
    } else if !Shown(naming, most, ev) {
      assert all[|all| - 1] == ev;
    }
    if Shown(naming, most, ev) {
      var i :| 0 <= i < |most| && SameSpot(naming, most[i], ev);
      assert all[i] == most[i];
    }
  }

  /** Every id is derived with its own place, so none is used twice, and looking an
      element up by its id finds that element. */
  lemma IdsAreUnique(naming: Naming, evs: seq<Evidence>)
    requires Injective(naming) && Visible(evs)
    ensures UniqueIds(Elements(naming, evs))
  {}

  lemma {:induction false} FindFinds(elements: seq<Element>, i: nat)
    requires UniqueIds(elements) && i < |elements|
    ensures Find(elements, elements[i].id) == Some(elements[i])
  {
    if i > 0 {
      assert elements[0].id != elements[i].id;
      FindFinds(elements[1..], i - 1);
    }
  }

  // ------------------------------------------------------------ building

  datatype Failure = DuplicateId

  /** The elements so far, with the ids they use. */
  ghost predicate Building(naming: Naming, evs: seq<Evidence>, elements: seq<Element>, ids: set<string>) {
    && Visible(evs) && elements == Elements(naming, evs)
    && (forall i :: 0 <= i < |elements| ==> elements[i].id in ids)
    && (forall x :: x in ids ==> exists i :: 0 <= i < |elements| && elements[i].id == x)
    && UniqueIds(elements)
  }

  lemma Added(naming: Naming, evs: seq<Evidence>, elements: seq<Element>, ids: set<string>, ev: Evidence)
    requires Building(naming, evs, elements, ids) && HasArea(ev.box) && ElementFor(naming, ev, |elements|).id !in ids
    ensures var e := ElementFor(naming, ev, |elements|);
      Building(naming, evs + [ev], elements + [e], ids + {e.id})
  {
    var e, longer := ElementFor(naming, ev, |elements|), elements + [ElementFor(naming, ev, |elements|)];
    assert Elements(naming, evs + [ev]) == longer;
    forall x | x in ids + {e.id} ensures exists i :: 0 <= i < |longer| && longer[i].id == x {
      if x in ids {
        var i :| 0 <= i < |elements| && elements[i].id == x;
        assert longer[i].id == x;
      } else {
        assert longer[|elements|].id == x;
      }
    }
  }

  /** Add what a node or a box has to offer, if anything. */
  method Append(naming: Naming, ghost evs: seq<Evidence>, elements: seq<Element>, ids: set<string>, here: seq<Evidence>)
    returns (ok: bool, elements': seq<Element>, ids': set<string>)
    requires Building(naming, evs, elements, ids) && Visible(here) && |here| <= 1
    ensures Injective(naming) ==> ok
    ensures ok ==> Building(naming, evs + here, elements', ids')
  {
    ok, elements', ids' := true, elements, ids;
    if here == [] {
      assert evs + here == evs;
    } else {
      var e := ElementFor(naming, here[0], |elements|);
      if e.id in ids {
        return false, elements, ids;
      }
      Added(naming, evs, elements, ids, here[0]);
      assert evs + here == evs + [here[0]];
      elements', ids' := elements + [e], ids + {e.id};
    }
  }

  method AddNodes(naming: Naming, walked: seq<Node>) returns (ok: bool, elements: seq<Element>, ids: set<string>)
    ensures Injective(naming) ==> ok
    ensures ok ==> Building(naming, FromNodes(walked), elements, ids)
  {
    ok, elements, ids := true, [], {};
    for k := 0 to |walked|
      invariant ok && Building(naming, FromNodes(walked[..k]), elements, ids)
    {
      assert walked[..k + 1][..k] == walked[..k];
      ok, elements, ids := Append(naming, FromNodes(walked[..k]), elements, ids, FromNode(walked[k]));
      if !ok {
        return;
      }
    }
    assert walked[..|walked|] == walked;
  }

  /** The evidence an element came from. */
  function EvidenceOf(elements: seq<Element>): (r: seq<Evidence>)
    ensures |r| == |elements|
  {
    seq(|elements|, i requires 0 <= i < |elements| =>
      var e := elements[i]; Evidence(e.source, e.labelText, Bounds(e.bbox.x, e.bbox.y, e.bbox.w, e.bbox.h)))
  }

  lemma EvidenceOfElements(naming: Naming, evs: seq<Evidence>)
    requires Visible(evs)
    ensures EvidenceOf(Elements(naming, evs)) == evs
  {}

  method AddBoxes(naming: Naming, ghost evs: seq<Evidence>, boxes: seq<TextBox>, elements: seq<Element>, ids: set<string>)
    returns (ok: bool, elements': seq<Element>)
    requires Building(naming, evs, elements, ids)
    ensures Injective(naming) ==> ok
    ensures ok ==> elements' == Elements(naming, WithBoxes(naming, evs, boxes)) && UniqueIds(elements')
  {
    var ids' := ids;
    ok, elements' := true, elements;
    for k := 0 to |boxes|
      invariant ok && Building(naming, WithBoxes(naming, evs, boxes[..k]), elements', ids')
    {
      assert boxes[..k + 1][..k] == boxes[..k];
      EvidenceOfElements(naming, WithBoxes(naming, evs, boxes[..k]));
      ok, elements', ids' := Append(naming, WithBoxes(naming, evs, boxes[..k]), elements', ids',
                                    FromBox(naming, EvidenceOf(elements'), boxes[k]));
      if !ok {
        return;
      }
    }
    assert boxes[..|boxes|] == boxes;
  }

  /** The elements of one frame: at most max, those of the first nodes first. With
      injective ids the duplicate check never fires. */
  method Build(naming: Naming, tree: Option<Node>, boxes: seq<TextBox>, max: nat) returns (r: Result<seq<Element>, Failure>)
    ensures Injective(naming) ==> r.Ok?
    ensures
      var nodes := FromNodes(if tree.Some? then Take(tree.value.Walk(), Some(max)) else []);
      r.Ok? ==>
        && |nodes| <= max
        && r.value == Elements(naming, WithBoxes(naming, nodes, Take(boxes, Some(max - |nodes|))))
        && |r.value| <= max && UniqueIds(r.value)
  {
    var walked := [];
    if tree.Some? {
      walked := WalkBounded(tree.value, max);
    }
    var ok, elements, ids := AddNodes(naming, walked);
    if ok {
      ok, elements := AddBoxes(naming, FromNodes(walked), Take(boxes, Some(max - |elements|)), elements, ids);
    }
    return if ok then Ok(elements) else Err(DuplicateId);
  }
}

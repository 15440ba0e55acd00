/** What an observer saw: the elements of one captured frame. */
module Snapshots {
  import opened Wrappers

  datatype Box = Box(x: int, y: int, w: nat, h: nat)

  datatype Source = A11y | Ocr | Vlm

  datatype Element = Element(id: string, labelText: string, bbox: Box, source: Source) {
    /** The middle of the box, rounded down: inside it whenever it has a width. */
    function CentreX(): (c: int)
      ensures bbox.x <= c <= bbox.x + bbox.w && (c - bbox.x) <= bbox.x + bbox.w - c <= c - bbox.x + 1
      ensures bbox.w > 0 ==> c < bbox.x + bbox.w
    {
      bbox.x + bbox.w / 2
    }

    function CentreY(): (c: int)
      ensures bbox.y <= c <= bbox.y + bbox.h && (c - bbox.y) <= bbox.y + bbox.h - c <= c - bbox.y + 1
      ensures bbox.h > 0 ==> c < bbox.y + bbox.h
    {
      bbox.y + bbox.h / 2
    }
  }

  datatype Scene = Scene(width: int, height: int, elements: seq<Element>)

  datatype Snapshot = Snapshot(frameId: int, frameHash: string, scene: Scene)

  /** The first element with this id. */
  function Find(elements: seq<Element>, id: string): (r: Option<Element>)
    ensures r.Some? ==> r.value in elements && r.value.id == id
    ensures r.None? ==> forall i :: 0 <= i < |elements| ==> elements[i].id != id
  {
    if elements == [] then None
    else if elements[0].id == id then Some(elements[0])
    else Find(elements[1..], id)
  }
}

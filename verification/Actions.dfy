/** The action space shared by the executor and the gatekeeper. */
module Actions {
  import opened Wrappers

  datatype ActionKind = Click | RightClick | DoubleClick | Type | Key | Scroll | Drag | Wait | Done | Fail

  const MAX_KEYS := 4
  const MAX_TEXT := 10_000
  const MAX_TARGET := 128

  datatype ActionFields = ActionFields(
    kind: ActionKind,
    frameId: int,
    target: Option<string>,
    x: Option<int>,
    y: Option<int>,
    toX: Option<int>,
    toY: Option<int>,
    text: Option<string>,
    keys: seq<string>,
    amount: Option<int>,
    seconds: Option<real>)

  predicate IsClick(kind: ActionKind) {
    kind == Click || kind == RightClick || kind == DoubleClick
  }

  /** What every action has satisfied since it was made. */
  predicate Validated(a: ActionFields) {
    && (a.target.Some? ==> 1 <= |a.target.value| <= MAX_TARGET)
    && |a.keys| <= MAX_KEYS
    && (a.text.Some? ==> |a.text.value| <= MAX_TEXT)
    && (IsClick(a.kind) ==> (a.x.Some? && a.y.Some?) || a.target.Some?)
    && match a.kind
       case Type => a.text.Some? && a.text.value != ""
       case Key => a.keys != []
       case Scroll => a.amount.Some?
       case Drag => a.x.Some? && a.y.Some? && a.toX.Some? && a.toY.Some?
       case Wait => a.seconds.Some?
       case _ => true
  }

  type Action = a: ActionFields | Validated(a)
    witness ActionFields(Done, 0, None, None, None, None, None, None, [], None, None)
}

/** Which frames an action is, and what those frames do to the target. */
module Ch9329Plan {
  import opened Wrappers
  import opened Actions
  import opened Ch9329Scale
  import opened Ch9329Frames
  import opened Ch9329Keys
  import opened Ch9329Target

  datatype ExecError = BadScreen | NoPoint | Unsupported | BadWait | SerialFailed

  /** What is sent until the action is done or refused. */
  datatype Plan = Plan(packets: seq<Packet>, outcome: Result<(), ExecError>)

  function Refused(e: ExecError): Plan {
    Plan([], Err(e))
  }

  function Tap(p: Point, button: Byte): seq<Packet> {
    [MousePacket(p, button, 0), MousePacket(p, 0, 0)]
  }

  /** Key by key, up to the first character that cannot be typed. */
  function TypePlan(text: string, hid: Charmap): Plan {
    if text == "" then Plan([], Ok(()))
    else
      match StrokeOf(text[0], hid)
      case None => Refused(Unsupported)
      case Some(s) =>
        var rest := TypePlan(text[1..], hid);
        Plan(Strike(s) + rest.packets, rest.outcome)
  }

  /** What to press for each character. */
  type Charmap = char -> Option<Stroke>

  function Chars(fold: Folding): Charmap {
    (ch: char) => CharToHid(ch, fold)
  }

  /** The stroke for a character, if it is supported and fits a report. */
  function StrokeOf(ch: char, hid: Charmap): (r: Option<Stroke>)
    ensures r.Some? ==> hid(ch) == r && 0 <= r.value.code < 256
    ensures r.None? ==> hid(ch).None? || hid(ch).value.code < 0 || hid(ch).value.code > 255
  {
    if hid(ch).Some? && 0 <= hid(ch).value.code < 256 then hid(ch) else None
  }

  /** Down and up. */
  function Strike(s: Stroke): seq<Packet>
    requires 0 <= s.code < 256
  {
    [KeyPacket(s.mods, s.code), KEYS_UP]
  }

  datatype Held = Held(mods: Mods, codes: seq<int>)

  /** What each key name stands for. */
  type Keymap = string -> Option<Named>

  function Keys(fold: Folding): Keymap {
    (name: string) => KeyToHid(name, fold)
  }

  /** All modifiers and keys of a chord; none when some name is unknown. */
  function Chord(keys: seq<string>, hid: Keymap): Option<Held> {
    if keys == [] then Some(Held(NO_MODS, []))
    else
      match (Chord(keys[..|keys| - 1], hid), hid(keys[|keys| - 1]))
      case (Some(h), Some(n)) => Some(Held(h.mods.Or(n.mods), h.codes + if n.code.Some? then [n.code.value] else []))
      case _ => None
  }

  function KeyPlan(keys: seq<string>, hid: Keymap): Plan {
    match Chord(keys, hid)
    case None => Refused(Unsupported)
    case Some(h) =>
      match KbdPacket(h.mods, h.codes)
      case None => Refused(Unsupported)
      case Some(down) => Plan([down, KEYS_UP], Ok(()))
  }

  function DragPackets(p: Point, q: Point): seq<Packet> {
    [MousePacket(p, BTN_LEFT, 0), MousePacket(q, BTN_LEFT, 0), MousePacket(q, 0, 0)]
  }

  function ButtonOf(kind: ActionKind): Byte {
    if kind == RightClick then BTN_RIGHT else BTN_LEFT
  }

  function ClickPlan(x: Option<int>, y: Option<int>, kind: ActionKind, screen: Screen): Plan {
    if x.None? || y.None? then Refused(if screen.w < 1 || screen.h < 1 then BadScreen else NoPoint)
    else
      match ToAbsCoords(x.value, y.value, screen)
      case None => Refused(BadScreen)
      case Some(p) =>
        var tap := Tap(p, ButtonOf(kind));
        Plan(if kind == DoubleClick then tap + tap else tap, Ok(()))
  }

  function ScrollPlan(at: Option<Point>, amount: int): Plan {
    match at
    case None => Refused(BadScreen)
    case Some(p) => Plan([MousePacket(p, 0, Clamp(amount, -127, 127))], Ok(()))
  }

  function DragPlan(from: Option<Point>, to: Option<Point>): Plan {
    match (from, to)
    case (Some(p), Some(q)) => Plan(DragPackets(p, q), Ok(()))
    case _ => Refused(BadScreen)
  }

  function PlanOf(a: Action, screen: Screen, fold: Folding): Plan {
    match a.kind
    case Click | RightClick | DoubleClick => ClickPlan(a.x, a.y, a.kind, screen)
    case Type => TypePlan(a.text.value, Chars(fold))
    case Key => KeyPlan(a.keys, Keys(fold))
    case Scroll => ScrollPlan(ToAbsCoords(a.x.GetOr(0), a.y.GetOr(0), screen), a.amount.value)
    case Drag => DragPlan(ToAbsCoords(a.x.value, a.y.value, screen), ToAbsCoords(a.toX.value, a.toY.value, screen))
    case Wait => if a.seconds.value < 0.0 then Refused(BadWait) else Plan([], Ok(()))
    case Done | Fail => Plan([], Ok(()))
  }

  // ------------------------------------------------------------ what is meant

  function Pressed(s: Stroke): seq<Event> {
    if s.code == 0 then [] else [KeyDown(s)]
  }

  /** The strokes of the longest prefix that can be typed. */
  function Strokes(text: string, hid: Charmap): seq<Event> {
    if text == "" || StrokeOf(text[0], hid).None? then []
    else Pressed(StrokeOf(text[0], hid).value) + Strokes(text[1..], hid)
  }

  function ChordDown(chord: Option<Held>): seq<Event> {
    if chord.None? || KbdPacket(chord.value.mods, chord.value.codes).None? then []
    else NewKeys(FirstSix(chord.value.codes), {}, chord.value.mods)
  }

  function Clicked(p: Point, button: Byte): seq<Event> {
    [ButtonDown(button, p), ButtonUp(button, p)]
  }

  function ClickMeant(x: Option<int>, y: Option<int>, kind: ActionKind, screen: Screen): seq<Event> {
    if x.None? || y.None? then []
    else
      match ToAbsCoords(x.value, y.value, screen)
      case None => []
      case Some(p) => if kind == DoubleClick then Clicked(p, BTN_LEFT) + Clicked(p, BTN_LEFT) else Clicked(p, ButtonOf(kind))
  }

  function ScrollMeant(at: Option<Point>, amount: int): seq<Event> {
    if at.None? || amount == 0 then [] else [Wheel(Clamp(amount, -127, 127), at.value)]
  }

  function DragMeant(from: Option<Point>, to: Option<Point>): seq<Event> {
    match (from, to)
    case (Some(p), Some(q)) => [ButtonDown(BTN_LEFT, p), Moved(BTN_LEFT, q), ButtonUp(BTN_LEFT, q)]
    case _ => []
  }

  /** What should happen to the target. */
  function Intended(a: Action, screen: Screen, fold: Folding): seq<Event> {
    match a.kind
    case Click | RightClick | DoubleClick => ClickMeant(a.x, a.y, a.kind, screen)
    case Type => Strokes(a.text.value, Chars(fold))
    case Key => ChordDown(Chord(a.keys, Keys(fold)))
    case Scroll => ScrollMeant(ToAbsCoords(a.x.GetOr(0), a.y.GetOr(0), screen), a.amount.value)
    case Drag => DragMeant(ToAbsCoords(a.x.value, a.y.value, screen), ToAbsCoords(a.toX.value, a.toY.value, screen))
    case Wait | Done | Fail => []
  }

  /** What is meant, by numbers: the left button is 1 and the right one 2; a click presses
      and releases, a double click does so twice; a drag holds the left button from one
      point to the other; a scroll turns the wheel by its amount within -127..127, at the
      corner if no point is given. Without a screen nothing is done. */
  lemma MeantInNumbers(a: Action, screen: Screen, fold: Folding)
    ensures
      var blind := screen.w < 1 || screen.h < 1;
      var meant := Intended(a, screen, fold);
      && (a.kind == Click || a.kind == RightClick || a.kind == DoubleClick ==>
            if blind || a.x.None? || a.y.None? then meant == []
            else
              var p := Point(Axis(a.x.value, screen.w), Axis(a.y.value, screen.h));
              && (a.kind == Click ==> meant == [ButtonDown(1, p), ButtonUp(1, p)])
              && (a.kind == RightClick ==> meant == [ButtonDown(2, p), ButtonUp(2, p)])
              && (a.kind == DoubleClick ==> meant == [ButtonDown(1, p), ButtonUp(1, p), ButtonDown(1, p), ButtonUp(1, p)]))
      && (a.kind == Drag ==>
            if blind then meant == []
            else
              var p := Point(Axis(a.x.value, screen.w), Axis(a.y.value, screen.h));
              var q := Point(Axis(a.toX.value, screen.w), Axis(a.toY.value, screen.h));
              meant == [ButtonDown(1, p), Moved(1, q), ButtonUp(1, q)])
      && (a.kind == Scroll ==>
            var n := if a.amount.value > 127 then 127 else if a.amount.value < -127 then -127 else a.amount.value;
            if blind || n == 0 then meant == []
            else
              var x, y := if a.x.Some? then a.x.value else 0, if a.y.Some? then a.y.value else 0;
              meant == [Wheel(n, Point(Axis(x, screen.w), Axis(y, screen.h)))])
      && (a.kind == Wait || a.kind == Done || a.kind == Fail ==> meant == [])
  {}

  /** When an action is refused, and that it then leaves no trace but typed characters. */
  lemma RefusedInNumbers(a: Action, screen: Screen, fold: Folding)
    ensures
      var blind := screen.w < 1 || screen.h < 1;
      var outcome := PlanOf(a, screen, fold).outcome;
      && (a.kind == Click || a.kind == RightClick || a.kind == DoubleClick ==>
            outcome == if blind then Err(BadScreen) else if a.x.None? || a.y.None? then Err(NoPoint) else Ok(()))
      && (a.kind == Drag || a.kind == Scroll ==> outcome == if blind then Err(BadScreen) else Ok(()))
      && (a.kind == Wait ==> outcome == if a.seconds.value < 0.0 then Err(BadWait) else Ok(()))
      && (a.kind == Done || a.kind == Fail ==> outcome == Ok(()))
      && (a.kind == Type || a.kind == Key ==> outcome.Ok? || outcome == Err(Unsupported))
      && (outcome.Err? && a.kind != Type ==> PlanOf(a, screen, fold).packets == [])
  {
    if a.kind == Type {
      TypingFailsOneWay(a.text.value, Chars(fold));
    }
  }

  lemma {:induction false} TypingFailsOneWay(text: string, hid: Charmap)
    ensures TypePlan(text, hid).outcome.Ok? || TypePlan(text, hid).outcome == Err(Unsupported)
  {
    if text != "" {
      TypingFailsOneWay(text[1..], hid);
    }
  }

  /** The keys of the names that have one, first to last. */
  function KeysOf(keys: seq<string>, hid: Keymap): seq<int> {
    if keys == [] then []
    else (if hid(keys[0]).Some? && hid(keys[0]).value.code.Some? then [hid(keys[0]).value.code.value] else []) + KeysOf(keys[1..], hid)
  }

  lemma {:induction false} KeysOfSnoc(keys: seq<string>, last: string, hid: Keymap)
    ensures KeysOf(keys + [last], hid) == KeysOf(keys, hid) + KeysOf([last], hid)
  {
    if keys == [] {
      assert keys + [last] == [last];
    } else {
      assert (keys + [last])[1..] == keys[1..] + [last];
      KeysOfSnoc(keys[1..], last, hid);
    }
  }

  /** A chord is pressed when every name is known, its keys in the order of the names. */
  lemma {:induction false} ChordInOrder(keys: seq<string>, hid: Keymap)
    ensures Chord(keys, hid).Some? <==> forall i :: 0 <= i < |keys| ==> hid(keys[i]).Some?
    ensures Chord(keys, hid).Some? ==> Chord(keys, hid).value.codes == KeysOf(keys, hid)
  {
    if keys != [] {
      var init, last := keys[..|keys| - 1], keys[|keys| - 1];
      assert keys == init + [last];
      ChordInOrder(init, hid);
      KeysOfSnoc(init, last, hid);
      assert KeysOf([last][1..], hid) == [];
    }
  }

  // ------------------------------------------------------------ the frames do what is meant

  lemma ActTwo(t: Target, a: Packet, b: Packet)
    ensures ActAll(t, [a]) == Act(t, a)
    ensures ActAll(t, [a, b]) == Act(Act(t, a), b)
  {
    assert [a, b][1..] == [b] && [a][1..] == [] && [b][1..] == [];
    assert ActAll(Act(t, a), []) == Act(t, a);
    assert ActAll(Act(t, a), [b]) == ActAll(Act(Act(t, a), b), []);
  }

  function Then(t: Target, events: seq<Event>): Target {
    t.(events := t.events + events)
  }

  lemma TapClicks(t: Target, p: Point, button: Byte)
    requires t.Idle() && button != 0 && InRange(p)
    ensures ActAll(t, Tap(p, button)) == Then(t, Clicked(p, button))
    ensures !ActAll(t, [MousePacket(p, button, 0)]).Idle()
  {
    ActTwo(t, MousePacket(p, button, 0), MousePacket(p, 0, 0));
  }

  lemma DragDrags(t: Target, p: Point, q: Point)
    requires t.Idle() && InRange(p) && InRange(q)
    ensures ActAll(t, DragPackets(p, q)) == Then(t, DragMeant(Some(p), Some(q)))
    ensures !ActAll(t, DragPackets(p, q)[..1]).Idle() && !ActAll(t, DragPackets(p, q)[..2]).Idle()
  {
    var ps := DragPackets(p, q);
    assert ps[..1] == [ps[0]] && ps[..2] == [ps[0], ps[1]] && ps == [ps[0], ps[1]] + [ps[2]];
    ActTwo(t, ps[0], ps[1]);
    ActJoin(t, [ps[0], ps[1]], [ps[2]]);
    ActTwo(Act(Act(t, ps[0]), ps[1]), ps[2], ps[2]);
  }

  lemma OneNewKey(code: int, mods: Mods)
    ensures NewKeys([code, 0, 0, 0, 0, 0], {}, mods) == Pressed(Stroke(mods, code))
  {
    var zeros := seq(5, _ => 0);
    assert [code, 0, 0, 0, 0, 0][1..] == zeros;
    NoNewKeys(5, {}, mods);
    NoNewKeys(5, {code}, mods);
    assert {} + {code} == {code};
  }

  /** One character goes down and comes up again. */
  lemma StrokeActs(t: Target, s: Stroke)
    requires t.Idle() && 0 <= s.code < 256
    ensures ActAll(t, Strike(s)) == Then(t, Pressed(s))
    ensures s.mods != NO_MODS || s.code != 0 ==> !ActAll(t, [Strike(s)[0]]).Idle()
  {
    var down := KeyPacket(s.mods, s.code);
    ActTwo(t, down, KEYS_UP);
    KeysUpActs(Act(t, down));
    OneNewKey(s.code, s.mods);
    assert down.keys[0] == s.code;
    assert s.code != 0 ==> s.code in Down(down.keys);
  }

  lemma ThenThen(t: Target, a: seq<Event>, b: seq<Event>)
    ensures Then(Then(t, a), b) == Then(t, a + b)
  {
    assert (t.events + a) + b == t.events + (a + b);
  }

  lemma {:induction false} TypePlanTypes(t: Target, text: string, hid: Charmap)
    requires t.Idle()
    ensures ActAll(t, TypePlan(text, hid).packets) == Then(t, Strokes(text, hid))
    decreases |text|
  {
    ThenThen(t, [], []);
    if text != "" && StrokeOf(text[0], hid).Some? {
      var s, rest := StrokeOf(text[0], hid).value, TypePlan(text[1..], hid).packets;
      StrokeActs(t, s);
      TypePlanTypes(Then(t, Pressed(s)), text[1..], hid);
      ActJoin(t, Strike(s), rest);
      ThenThen(t, Pressed(s), Strokes(text[1..], hid));
    }
  }

  lemma ChordActs(t: Target, h: Held)
    requires t.Idle() && KbdPacket(h.mods, h.codes).Some?
    ensures ActAll(t, [KbdPacket(h.mods, h.codes).value, KEYS_UP]) == Then(t, NewKeys(FirstSix(h.codes), {}, h.mods))
  {
    ActTwo(t, KbdPacket(h.mods, h.codes).value, KEYS_UP);
    KeysUpActs(Act(t, KbdPacket(h.mods, h.codes).value));
  }

  lemma PointsInRange(x: int, y: int, screen: Screen)
    ensures ToAbsCoords(x, y, screen).Some? ==> InRange(ToAbsCoords(x, y, screen).value)
  {
    if screen.w >= 1 && screen.h >= 1 {
      AxisIsFaithful(screen.w, x, x);
      AxisIsFaithful(screen.h, y, y);
    }
  }

  lemma ClicksDoWhatIsMeant(t: Target, x: Option<int>, y: Option<int>, kind: ActionKind, screen: Screen)
    requires t.Idle()
    ensures ActAll(t, ClickPlan(x, y, kind, screen).packets) == Then(t, ClickMeant(x, y, kind, screen))
  {
    ThenThen(t, [], []);
    if x.Some? && y.Some? && ToAbsCoords(x.value, y.value, screen).Some? {
      PointsInRange(x.value, y.value, screen);
      var p, button := ToAbsCoords(x.value, y.value, screen).value, ButtonOf(kind);
      TapClicks(t, p, button);
      if kind == DoubleClick {
        ActJoin(t, Tap(p, button), Tap(p, button));
        TapClicks(Then(t, Clicked(p, button)), p, button);
        ThenThen(t, Clicked(p, button), Clicked(p, button));
      }
    }
  }

  /** Clamping and masking change nothing that fits. */
  lemma PlainMousePacket(p: Point, buttons: Byte, wheel: int)
    requires InRange(p) && -128 <= wheel < 128
    ensures MousePacket(p, buttons, wheel) == Mouse(p, buttons, wheel)
  {}

  lemma ScrollDoesWhatIsMeant(t: Target, at: Option<Point>, amount: int)
    requires t.Idle() && (at.Some? ==> InRange(at.value))
    ensures ActAll(t, ScrollPlan(at, amount).packets) == Then(t, ScrollMeant(at, amount))
  {
    ThenThen(t, [], []);
    if at.Some? {
      PlainMousePacket(at.value, 0, Clamp(amount, -127, 127));
      ActTwo(t, Mouse(at.value, 0, Clamp(amount, -127, 127)), KEYS_UP);
    }
  }

  /** The frames of an action, sent to a machine with nothing held, do what the
      action means and leave nothing held: also when it is refused half way. */
  lemma FramesDoWhatIsMeant(t: Target, a: Action, screen: Screen, fold: Folding)
    requires t.Idle()
    ensures ReceiveAll(t, Encoded(PlanOf(a, screen, fold).packets)) == Then(t, Intended(a, screen, fold))
    ensures ReceiveAll(t, Encoded(PlanOf(a, screen, fold).packets)).Idle()
  {
    FramesAct(t, PlanOf(a, screen, fold).packets);
    PacketsDoWhatIsMeant(t, a, screen, fold);
  }

  lemma PacketsDoWhatIsMeant(t: Target, a: Action, screen: Screen, fold: Folding)
    requires t.Idle()
    ensures ActAll(t, PlanOf(a, screen, fold).packets) == Then(t, Intended(a, screen, fold))
  {
    ThenThen(t, [], []);
    match a.kind
    case Click | RightClick | DoubleClick => ClicksDoWhatIsMeant(t, a.x, a.y, a.kind, screen);
    case Type => TypePlanTypes(t, a.text.value, Chars(fold));
    case Key =>
      var chord := Chord(a.keys, Keys(fold));
      if chord.Some? && KbdPacket(chord.value.mods, chord.value.codes).Some? {
        ChordActs(t, chord.value);
      }
    case Scroll =>
      PointsInRange(a.x.GetOr(0), a.y.GetOr(0), screen);
      ScrollDoesWhatIsMeant(t, ToAbsCoords(a.x.GetOr(0), a.y.GetOr(0), screen), a.amount.value);
    case Drag =>
      PointsInRange(a.x.value, a.y.value, screen);
      PointsInRange(a.toX.value, a.toY.value, screen);
      var from, to := ToAbsCoords(a.x.value, a.y.value, screen), ToAbsCoords(a.toX.value, a.toY.value, screen);
      if from.Some? && to.Some? {
        DragDrags(t, from.value, to.value);
      }
    case Wait | Done | Fail =>
  }

  // ------------------------------------------------------------ typed text

  /** The characters the target sees typed. */
  function TextOf(events: seq<Event>): string {
    if events == [] then ""
    else
      (if events[0].KeyDown? && Typed(events[0].stroke).Some? then [Typed(events[0].stroke).value] else "")
      + TextOf(events[1..])
  }

  predicate IsSupported(ch: char) {
    ch == '\n' || ' ' <= ch <= '~'
  }

  /** How much of a text comes before its first unsupported character. */
  function Supported(text: string): (n: nat)
    ensures n <= |text|
    ensures forall i :: 0 <= i < n ==> IsSupported(text[i])
    ensures n < |text| ==> !IsSupported(text[n])
  {
    if text == "" || !IsSupported(text[0]) then 0 else 1 + Supported(text[1..])
  }

  /** The map types what it is asked to type, and supports what it should. */
  ghost predicate Faithful(hid: Charmap, ch: char) {
    && (StrokeOf(ch, hid).Some? <==> IsSupported(ch))
    && (StrokeOf(ch, hid).Some? ==> StrokeOf(ch, hid).value.code != 0 && Typed(StrokeOf(ch, hid).value) == Some(ch))
  }

  lemma StrokeTypes(ch: char, fold: Folding)
    requires IsAscii(ch)
    ensures Faithful(Chars(fold), ch)
  {
    StrokeTypesTheCharacter(ch, fold);
    if CharToHid(ch, fold).Some? {
      var s := CharToHid(ch, fold).value;
      assert Typed(s).Some? && 0 < s.code < 256;
    }
  }

  lemma TextOfPressed(s: Stroke, ch: char, rest: seq<Event>)
    requires s.code != 0 && Typed(s) == Some(ch)
    ensures TextOf(Pressed(s) + rest) == [ch] + TextOf(rest)
  {
    assert (Pressed(s) + rest)[1..] == rest;
  }

  lemma {:induction false} FaithfulTextArrives(text: string, hid: Charmap)
    requires forall i :: 0 <= i < |text| ==> Faithful(hid, text[i])
    ensures TextOf(Strokes(text, hid)) == text[..Supported(text)]
    ensures TypePlan(text, hid).outcome.Ok? <==> Supported(text) == |text|
  {
    if text != "" && IsSupported(text[0]) {
      assert Faithful(hid, text[0]);
      FaithfulTextArrives(text[1..], hid);
      TextOfPressed(StrokeOf(text[0], hid).value, text[0], Strokes(text[1..], hid));
      assert text[..Supported(text)] == [text[0]] + text[1..][..Supported(text[1..])];
    }
  }

  lemma TypedTextArrives(text: string, fold: Folding)
    requires forall i :: 0 <= i < |text| ==> IsAscii(text[i])
    ensures TextOf(Strokes(text, Chars(fold))) == text[..Supported(text)]
    ensures TypePlan(text, Chars(fold)).outcome.Ok? <==> Supported(text) == |text|
  {
    forall i | 0 <= i < |text| ensures Faithful(Chars(fold), text[i]) {
      StrokeTypes(text[i], fold);
    }
    FaithfulTextArrives(text, Chars(fold));
  }

  /** The frames of typing an ASCII text make the target see exactly the text, or,
      when some character is not supported, exactly what comes before it. */
  lemma TypedTextIsReceived(t: Target, a: Action, screen: Screen, fold: Folding)
    requires t.Idle() && a.kind == Type && forall i :: 0 <= i < |a.text.value| ==> IsAscii(a.text.value[i])
    ensures
      var plan, text := PlanOf(a, screen, fold), a.text.value;
      var after := ReceiveAll(t, Encoded(plan.packets));
      && t.events <= after.events
      && TextOf(after.events[|t.events|..]) == text[..Supported(text)]
      && (plan.outcome.Ok? <==> Supported(text) == |text|)
  {
    FramesDoWhatIsMeant(t, a, screen, fold);
    TypedTextArrives(a.text.value, fold);
    var strokes := Strokes(a.text.value, Chars(fold));
    assert (t.events + strokes)[|t.events|..] == strokes;
  }
}

/** The executor writing its frames one by one to a serial line that may fail. */
module Ch9329Executor {
  import opened Wrappers
  import opened Actions
  import opened Ch9329Scale
  import opened Ch9329Frames
  import opened Ch9329Keys
  import opened Ch9329Target
  import opened Ch9329Plan

  // ------------------------------------------------------------ the line

  /** What has arrived, and how many more writes the line will take. */
  datatype Line = Line(frames: seq<seq<Byte>>, room: nat) {
    predicate Takes(ps: seq<Packet>) {
      |ps| <= room
    }

    /** As many of the packets' frames as the line will take. */
    function Push(ps: seq<Packet>): Line {
      var n := if Takes(ps) then |ps| else room;
      Line(frames + Encoded(ps[..n]), room - n)
    }
  }

  lemma PushJoin(line: Line, a: seq<Packet>, b: seq<Packet>)
    ensures line.Takes(a) ==> line.Push(a + b) == line.Push(a).Push(b) && (line.Takes(a + b) <==> line.Push(a).Takes(b))
    ensures !line.Takes(a) ==> line.Push(a + b) == line.Push(a) && !line.Takes(a + b)
  {
    if line.Takes(a) {
      var n := if line.Takes(a + b) then |b| else line.room - |a|;
      assert (a + b)[..|a| + n] == a + b[..n];
      assert Encoded(a + b[..n]) == Encoded(a) + Encoded(b[..n]);
      assert line.frames + (Encoded(a) + Encoded(b[..n])) == (line.frames + Encoded(a)) + Encoded(b[..n]);
      assert a[..|a|] == a;
    } else {
      assert (a + b)[..line.room] == a[..line.room];
    }
  }

  /** A plan's frames have gone as far as the line took them. */
  ghost predicate Went(plan: Plan, before: Line, after: Line, r: Result<(), ExecError>) {
    && after == before.Push(plan.packets)
    && r == if before.Takes(plan.packets) then plan.outcome else Err(SerialFailed)
  }

  lemma PushNothing(line: Line)
    ensures line.Push([]) == line && line.Takes([])
  {}

  class SerialTransport {
    var frames: seq<seq<Byte>>
    var room: nat

    ghost function State(): Line
      reads this
    {
      Line(frames, room)
    }

    method Write(f: seq<Byte>) returns (ok: bool)
      modifies this
      ensures ok == (old(room) > 0)
      ensures State() == if ok then Line(old(frames) + [f], old(room) - 1) else old(State())
    {
      ok := room > 0;
      if ok {
        frames, room := frames + [f], room - 1;
      }
    }
  }

  /** Sending a strike after what was sent, with the rest of the typing to come. */
  lemma StrikeNext(start: Line, sent: seq<Packet>, s: Stroke, rest: seq<Packet>)
    requires 0 <= s.code < 256 && start.Takes(sent)
    ensures
      var whole, strike, now := sent + (Strike(s) + rest), Strike(s), start.Push(sent);
      var once := now.Push([strike[0]]);
      && whole == (sent + strike) + rest
      && (!now.Takes([strike[0]]) ==> once == start.Push(whole) && !start.Takes(whole))
      && (now.Takes([strike[0]]) && !once.Takes([strike[1]]) ==>
            once.Push([strike[1]]) == start.Push(whole) && !start.Takes(whole))
      && (now.Takes([strike[0]]) && once.Takes([strike[1]]) ==>
            once.Push([strike[1]]) == start.Push(sent + strike) && start.Takes(sent + strike))
  {
    var strike := Strike(s);
    assert sent + (strike + rest) == (sent + strike) + rest;
    assert strike == [strike[0]] + [strike[1]];
    PushJoin(start, sent, strike);
    PushJoin(start, sent + strike, rest);
    PushJoin(start.Push(sent), [strike[0]], [strike[1]]);
  }

  // ------------------------------------------------------------ the executor

  class Executor {
    const screen: Screen
    const fold: Folding
    const transport: SerialTransport

    constructor (screen: Screen, fold: Folding, transport: SerialTransport)
      ensures this.screen == screen && this.fold == fold && this.transport == transport
    {
      this.screen, this.fold, this.transport := screen, fold, transport;
    }

    method Send(p: Packet) returns (ok: bool)
      modifies transport
      ensures transport.State() == old(transport.State()).Push([p]) && ok == old(transport.State()).Takes([p])
    {
      ok := transport.Write(Encode(p));
      assert Encoded([p][..1]) == [Encode(p)];
      assert transport.frames + Encoded([p][..0]) == transport.frames;
    }

    method TapButton(p: Point, button: Byte) returns (ok: bool)
      modifies transport
      ensures transport.State() == old(transport.State()).Push(Tap(p, button))
      ensures ok == old(transport.State()).Takes(Tap(p, button))
    {
      PushJoin(transport.State(), [MousePacket(p, button, 0)], [MousePacket(p, 0, 0)]);
      ok := Send(MousePacket(p, button, 0));
      if ok {
        ok := Send(MousePacket(p, 0, 0));
      }
    }

    method TypeText(text: string, hid: Charmap) returns (r: Result<(), ExecError>)
      modifies transport
      ensures Went(TypePlan(text, hid), old(transport.State()), transport.State(), r)
    {
      var plan, start := TypePlan(text, hid), Line(transport.frames, transport.room);
      ghost var sent: seq<Packet> := [];
      PushNothing(start);
      for i := 0 to |text|
        invariant plan.packets == sent + TypePlan(text[i..], hid).packets
        invariant plan.outcome == TypePlan(text[i..], hid).outcome
        invariant start.Takes(sent) && transport.State() == start.Push(sent)
      {
        ghost var rest := TypePlan(text[i..][1..], hid).packets;
        assert text[i..][1..] == text[i + 1..];
        match hid(text[i])
        case None =>
          assert sent + [] == sent;
          return Err(Unsupported);
        case Some(s) =>
          OneKeyPacket(s.mods, s.code);
          match KbdPacket(s.mods, [s.code])
          case None =>
            assert sent + [] == sent;
            return Err(Unsupported);
          case Some(down) =>
            StrikeNext(start, sent, s, rest);
            var ok := Send(down);
            if ok {
              ok := Send(KEYS_UP);
            }
            if !ok {
              return Err(SerialFailed);
            }
            sent := sent + Strike(s);
      }
      assert sent + [] == sent;
      return Ok(());
    }

    method PressChord(keys: seq<string>, hid: Keymap) returns (r: Result<(), ExecError>)
      modifies transport
      ensures Went(KeyPlan(keys, hid), old(transport.State()), transport.State(), r)
    {
      var mods, codes := NO_MODS, [];
      PushNothing(transport.State());
      for i := 0 to |keys|
        invariant transport.State() == old(transport.State())
        invariant Chord(keys[..i], hid) == Some(Held(mods, codes))
      {
        assert keys[..i + 1][..i] == keys[..i];
        match hid(keys[i])
        case None =>
          UnknownKey(keys, i, hid);
          return Err(Unsupported);
        case Some(n) =>
          mods := mods.Or(n.mods);
          if n.code.Some? {
            codes := codes + [n.code.value];
          } else {
            assert codes + [] == codes;
          }
      }
      assert keys[..|keys|] == keys;
      match KbdPacket(mods, codes)
      case None => return Err(Unsupported);
      case Some(down) =>
        PushJoin(transport.State(), [down], [KEYS_UP]);
        var ok := Send(down);
        if ok {
          ok := Send(KEYS_UP);
        }
        return if ok then Ok(()) else Err(SerialFailed);
    }

    method DragTo(p: Point, q: Point) returns (ok: bool)
      modifies transport
      ensures transport.State() == old(transport.State()).Push(DragPackets(p, q))
      ensures ok == old(transport.State()).Takes(DragPackets(p, q))
    {
      var ps := DragPackets(p, q);
      PushJoin(transport.State(), [ps[0]], [ps[1]]);
      PushJoin(transport.State(), [ps[0], ps[1]], [ps[2]]);
      assert [ps[0]] + [ps[1]] == [ps[0], ps[1]] && [ps[0], ps[1]] + [ps[2]] == ps;
      ok := Send(MousePacket(p, BTN_LEFT, 0));
      if ok {
        ok := Send(MousePacket(q, BTN_LEFT, 0));
      }
      if ok {
        ok := Send(MousePacket(q, 0, 0));
      }
    }

    method ClickAt(x: Option<int>, y: Option<int>, kind: ActionKind) returns (r: Result<(), ExecError>)
      modifies transport
      ensures Went(ClickPlan(x, y, kind, screen), old(transport.State()), transport.State(), r)
    {
      PushNothing(transport.State());
      if screen.w < 1 || screen.h < 1 {
        return Err(BadScreen);
      }
      if x.None? || y.None? {
        return Err(NoPoint);
      }
      var p, button := ToAbsCoords(x.value, y.value, screen).value, ButtonOf(kind);
      PushJoin(transport.State(), Tap(p, button), Tap(p, button));
      var ok := TapButton(p, button);
      if ok && kind == DoubleClick {
        ok := TapButton(p, button);
      }
      return if ok then Ok(()) else Err(SerialFailed);
    }

    method Execute(a: Action) returns (r: Result<(), ExecError>)
      modifies transport
      ensures Went(PlanOf(a, screen, fold), old(transport.State()), transport.State(), r)
    {
      PushNothing(transport.State());
      match a.kind
      case Click | RightClick | DoubleClick => r := ClickAt(a.x, a.y, a.kind);
      case Type => r := TypeText(a.text.value, Chars(fold));
      case Key => r := PressChord(a.keys, Keys(fold));
      case Scroll =>
        var at := ToAbsCoords(a.x.GetOr(0), a.y.GetOr(0), screen);
        if at.None? {
          return Err(BadScreen);
        }
        var ok := Send(MousePacket(at.value, 0, Clamp(a.amount.value, -127, 127)));
        return if ok then Ok(()) else Err(SerialFailed);
      case Drag =>
        var from, to := ToAbsCoords(a.x.value, a.y.value, screen), ToAbsCoords(a.toX.value, a.toY.value, screen);
        if from.None? || to.None? {
          return Err(BadScreen);
        }
        var ok := DragTo(from.value, to.value);
        return if ok then Ok(()) else Err(SerialFailed);
      case Wait => return if a.seconds.value < 0.0 then Err(BadWait) else Ok(());
      case Done | Fail => return Ok(());
    }
  }

  lemma {:induction false} UnknownKey(keys: seq<string>, i: nat, hid: Keymap)
    requires i < |keys| && hid(keys[i]).None?
    ensures Chord(keys, hid).None?
  {
    if i < |keys| - 1 {
      UnknownKey(keys[..|keys| - 1], i, hid);
    }
  }

  // ------------------------------------------------------------ chords

  datatype Modifier = Ctrl | Shift | Alt | Gui

  predicate Has(mods: Mods, m: Modifier) {
    match m
    case Ctrl => mods.ctrl
    case Shift => mods.shift
    case Alt => mods.alt
    case Gui => mods.gui
  }

  /** The name stands for this modifier, or its key needs it. */
  predicate NameHas(name: string, hid: Keymap, m: Modifier) {
    hid(name).Some? && Has(hid(name).value.mods, m)
  }

  predicate NameIs(name: string, hid: Keymap, code: int) {
    hid(name).Some? && hid(name).value.code == Some(code)
  }

  /** A chord's modifiers and keys are those of its names, whatever their order. */
  lemma {:induction false} ChordIsItsNames(keys: seq<string>, hid: Keymap, m: Modifier, code: int)
    requires Chord(keys, hid).Some?
    ensures Has(Chord(keys, hid).value.mods, m) <==> exists i :: 0 <= i < |keys| && NameHas(keys[i], hid, m)
    ensures code in Chord(keys, hid).value.codes <==> exists i :: 0 <= i < |keys| && NameIs(keys[i], hid, code)
    ensures |Chord(keys, hid).value.codes| <= |keys|
  {
    if keys != [] {
      var init, last := keys[..|keys| - 1], keys[|keys| - 1];
      ChordIsItsNames(init, hid, m, code);
      assert forall i :: 0 <= i < |init| ==> keys[i] == init[i];
      OrMerges(Chord(init, hid).value.mods, hid(last).value.mods, m);
    }
  }

  lemma OrMerges(a: Mods, b: Mods, m: Modifier)
    ensures Has(a.Or(b), m) <==> Has(a, m) || Has(b, m)
  {}

  /** While a chord is down, exactly the modifiers and keys of its names are held,
      all at once: an action has too few names for the six places of a report. */
  lemma ChordIsHeldTogether(t: Target, keys: seq<string>, hid: Keymap, m: Modifier, code: int)
    requires |keys| <= MAX_KEYS && KeyPlan(keys, hid).outcome.Ok? && code != 0
    ensures
      var down := Act(t, KeyPlan(keys, hid).packets[0]);
      && (Has(down.mods, m) <==> exists i :: 0 <= i < |keys| && NameHas(keys[i], hid, m))
      && (code in down.keys <==> exists i :: 0 <= i < |keys| && NameIs(keys[i], hid, code))
  {
    var h := Chord(keys, hid).value;
    ChordIsItsNames(keys, hid, m, code);
    assert code in FirstSix(h.codes) <==> code in h.codes by {
      assert FirstSix(h.codes)[..|h.codes|] == h.codes;
      assert forall i :: |h.codes| <= i < 6 ==> FirstSix(h.codes)[i] == 0;
    }
  }

  /** The name is written on the modifier key of this bit, or is a character typed
      with shift. */
  predicate Brings(name: string, fold: Folding, bit: nat) {
    var n := Lower(name);
    n in ModifierLegend(bit) || (bit == 1 && |n| == 1 && CharToHid(n[0], fold).Some? && CharToHid(n[0], fold).value.mods.shift)
  }

  predicate Sets(name: string, hid: Keymap, bit: nat)
    requires bit < 8
  {
    hid(name).Some? && IsSet(hid(name).value.mods.Byte(), bit)
  }

  lemma NamesSetTheirBits(name: string, fold: Folding, bit: nat)
    requires bit < 8
    ensures Sets(name, Keys(fold), bit) <==> Brings(name, fold, bit)
  {
    var n := Lower(name);
    LegendsAreModifiers(n, bit);
    ByteBits(NO_MODS);
    if n in MODIFIERS {
      ModifiersAreLabelled(n, bit);
    } else if n !in NAMED_KEYS && |n| == 1 && CharToHid(n[0], fold).Some? {
      ByteBits(CharToHid(n[0], fold).value.mods);
    }
  }

  /** A chord's modifier byte, as it travels, has exactly the bits its names bring. */
  lemma ChordOnTheWire(keys: seq<string>, fold: Folding, bit: nat)
    requires KeyPlan(keys, Keys(fold)).outcome.Ok? && bit < 8
    ensures
      var report := Parsed(Encode(KeyPlan(keys, Keys(fold)).packets[0]));
      && report.Ok? && report.value.cmd == CMD_SEND_KB_GENERAL && |report.value.data| == 8
      && (IsSet(report.value.data[0], bit) <==> exists i :: 0 <= i < |keys| && Brings(keys[i], fold, bit))
  {
    var h := Chord(keys, Keys(fold)).value;
    var down := KeyPlan(keys, Keys(fold)).packets[0];
    ParsedBuilt(CMD_SEND_KB_GENERAL, [down.mods.Byte(), 0] + down.keys);
    ChordSetsBits(keys, Keys(fold), bit);
    forall i | 0 <= i < |keys| ensures Sets(keys[i], Keys(fold), bit) <==> Brings(keys[i], fold, bit) {
      NamesSetTheirBits(keys[i], fold, bit);
    }
  }

  lemma OrBits(a: Mods, b: Mods, bit: nat)
    requires bit < 8
    ensures IsSet(a.Or(b).Byte(), bit) <==> IsSet(a.Byte(), bit) || IsSet(b.Byte(), bit)
  {
    ByteBits(a);
    ByteBits(b);
    ByteBits(a.Or(b));
  }

  lemma {:induction false} ChordSetsBits(keys: seq<string>, hid: Keymap, bit: nat)
    requires Chord(keys, hid).Some? && bit < 8
    ensures IsSet(Chord(keys, hid).value.mods.Byte(), bit) <==> exists i :: 0 <= i < |keys| && Sets(keys[i], hid, bit)
  {
    if keys == [] {
      ByteBits(NO_MODS);
    } else {
      var init, last := keys[..|keys| - 1], keys[|keys| - 1];
      ChordSetsBits(init, hid, bit);
      assert forall i :: 0 <= i < |init| ==> keys[i] == init[i];
      OrBits(Chord(init, hid).value.mods, hid(last).value.mods, bit);
    }
  }

  // ------------------------------------------------------------ when the line fails

  /** After k frames of the action nothing is held. */
  predicate AtRest(kind: ActionKind, k: nat) {
    match kind
    case Drag => k == 0 || k == 3
    case Scroll => true
    case _ => k % 2 == 0
  }

  /** Cut after k frames, a strike with the rest of the typing behind it. */
  lemma StrikeRests(t: Target, s: Stroke, rest: seq<Packet>, k: nat)
    requires t.Idle() && 0 <= s.code < 256 && (s.mods != NO_MODS || s.code != 0)
    requires 0 < k <= 2 + |rest|
    requires k > 1 ==> (ActAll(Then(t, Pressed(s)), rest[..k - 2]).Idle() <==> k % 2 == 0)
    ensures ActAll(t, (Strike(s) + rest)[..k]).Idle() <==> k % 2 == 0
  {
    StrokeActs(t, s);
    if k == 1 {
      assert (Strike(s) + rest)[..k] == [Strike(s)[0]];
    } else {
      assert (Strike(s) + rest)[..k] == Strike(s) + rest[..k - 2];
      ActJoin(t, Strike(s), rest[..k - 2]);
    }
  }

  /** Every character presses something. */
  ghost predicate Presses(hid: Charmap) {
    forall ch :: hid(ch).Some? ==> hid(ch).value.mods != NO_MODS || hid(ch).value.code != 0
  }

  lemma CharsPress(fold: Folding)
    ensures Presses(Chars(fold))
  {}

  lemma {:induction false} TypingRests(t: Target, text: string, hid: Charmap, k: nat)
    requires t.Idle() && k <= |TypePlan(text, hid).packets| && Presses(hid)
    ensures ActAll(t, TypePlan(text, hid).packets[..k]).Idle() <==> k % 2 == 0
    decreases |text|
  {
    if k == 0 {
      assert TypePlan(text, hid).packets[..0] == [];
    } else {
      var s, rest := StrokeOf(text[0], hid).value, TypePlan(text[1..], hid).packets;
      if k > 1 {
        TypingRests(Then(t, Pressed(s)), text[1..], hid, k - 2);
      }
      StrikeRests(t, s, rest, k);
    }
  }

  lemma {:induction false} ChordPresses(keys: seq<string>, hid: Keymap)
    requires keys != [] && Chord(keys, hid).Some?
    requires forall name :: hid(name).Some? ==> NamePresses(hid(name).value)
    ensures Chord(keys, hid).value.mods != NO_MODS || exists i :: 0 <= i < |Chord(keys, hid).value.codes| && Chord(keys, hid).value.codes[i] != 0
  {
    var h, n := Chord(keys, hid).value, hid(keys[|keys| - 1]).value;
    if n.mods == NO_MODS {
      assert h.codes[|h.codes| - 1] == n.code.value;
    } else {
      OrPresses(Chord(keys[..|keys| - 1], hid).value.mods, n.mods);
    }
  }

  lemma OrPresses(a: Mods, b: Mods)
    ensures b != NO_MODS ==> a.Or(b) != NO_MODS
  {}

  predicate NamePresses(n: Named) {
    n.mods != NO_MODS || (n.code.Some? && n.code.value != 0)
  }

  /** Every key name presses something. */
  lemma NamesPress(fold: Folding)
    ensures forall name :: Keys(fold)(name).Some? ==> NamePresses(Keys(fold)(name).value)
  {
    assert forall n :: n in NAMED_KEYS ==> NAMED_KEYS[n] != 0;
  }

  /** A chord with something in it is held until its second frame. */
  lemma DownHolds(t: Target, h: Held)
    requires KbdPacket(h.mods, h.codes).Some? && |h.codes| <= 6
    requires h.mods != NO_MODS || exists i :: 0 <= i < |h.codes| && h.codes[i] != 0
    ensures !Act(t, KbdPacket(h.mods, h.codes).value).Idle()
  {
    if i :| 0 <= i < |h.codes| && h.codes[i] != 0 {
      assert FirstSix(h.codes)[i] == h.codes[i];
      assert h.codes[i] in Down(FirstSix(h.codes));
    }
  }

  lemma ChordRests(t: Target, keys: seq<string>, hid: Keymap, k: nat)
    requires t.Idle() && keys != [] && |keys| <= MAX_KEYS && k <= |KeyPlan(keys, hid).packets|
    requires forall name :: hid(name).Some? ==> NamePresses(hid(name).value)
    ensures ActAll(t, KeyPlan(keys, hid).packets[..k]).Idle() <==> k % 2 == 0
  {
    if KeyPlan(keys, hid).outcome.Ok? {
      var h := Chord(keys, hid).value;
      var down := KbdPacket(h.mods, h.codes).value;
      ChordPresses(keys, hid);
      ChordIsItsNames(keys, hid, Ctrl, 0);
      DownHolds(t, h);
      KeysUpActs(Act(t, down));
      PairRests(t, down, k);
    } else {
      assert KeyPlan(keys, hid).packets[..k] == [];
    }
  }

  lemma PairRests(t: Target, down: Packet, k: nat)
    requires t.Idle() && !Act(t, down).Idle() && Act(Act(t, down), KEYS_UP).Idle() && k <= 2
    ensures ActAll(t, [down, KEYS_UP][..k]).Idle() <==> k % 2 == 0
  {
    ActTwo(t, down, KEYS_UP);
    assert [down, KEYS_UP][..0] == [] && [down, KEYS_UP][..1] == [down] && [down, KEYS_UP][..2] == [down, KEYS_UP];
  }

  lemma ClickRests(t: Target, x: Option<int>, y: Option<int>, kind: ActionKind, screen: Screen, k: nat)
    requires t.Idle() && k <= |ClickPlan(x, y, kind, screen).packets|
    ensures ActAll(t, ClickPlan(x, y, kind, screen).packets[..k]).Idle() <==> k % 2 == 0
  {
    var ps := ClickPlan(x, y, kind, screen).packets;
    if k == 0 {
      assert ps[..0] == [];
    } else {
      PointsInRange(x.value, y.value, screen);
      var p, button := ToAbsCoords(x.value, y.value, screen).value, ButtonOf(kind);
      TapRests(t, p, button, ps[..k]);
    }
  }

  lemma TapRests(t: Target, p: Point, button: Byte, ps: seq<Packet>)
    requires t.Idle() && InRange(p) && button != 0 && ps != [] && ps <= Tap(p, button) + Tap(p, button)
    ensures ActAll(t, ps).Idle() <==> |ps| % 2 == 0
  {
    TapClicks(t, p, button);
    var u := Then(t, Clicked(p, button));
    TapClicks(u, p, button);
    if |ps| == 1 {
      assert ps == [MousePacket(p, button, 0)];
    } else if |ps| == 2 {
      assert ps == Tap(p, button);
    } else if |ps| == 3 {
      assert ps == Tap(p, button) + [MousePacket(p, button, 0)];
      ActJoin(t, Tap(p, button), [MousePacket(p, button, 0)]);
    } else {
      assert ps == Tap(p, button) + Tap(p, button);
      ActJoin(t, Tap(p, button), Tap(p, button));
    }
  }

  /** A line that fails after k frames of an action leaves something held exactly
      when the last frame that arrived was a press, or a drag not yet dropped. */
  lemma FailureLeavesHeld(t: Target, a: Action, screen: Screen, fold: Folding, k: nat)
    requires t.Idle() && k <= |PlanOf(a, screen, fold).packets|
    ensures ReceiveAll(t, Encoded(PlanOf(a, screen, fold).packets)[..k]).Idle() <==> AtRest(a.kind, k)
  {
    var ps := PlanOf(a, screen, fold).packets;
    assert Encoded(ps)[..k] == Encoded(ps[..k]);
    FramesAct(t, ps[..k]);
    PacketsRest(t, a, screen, fold, k);
  }

  lemma PacketsRest(t: Target, a: Action, screen: Screen, fold: Folding, k: nat)
    requires t.Idle() && k <= |PlanOf(a, screen, fold).packets|
    ensures ActAll(t, PlanOf(a, screen, fold).packets[..k]).Idle() <==> AtRest(a.kind, k)
  {
    var ps := PlanOf(a, screen, fold).packets;
    match a.kind
    case Click | RightClick | DoubleClick => ClickRests(t, a.x, a.y, a.kind, screen, k);
    case Type =>
      CharsPress(fold);
      TypingRests(t, a.text.value, Chars(fold), k);
    case Key =>
      NamesPress(fold);
      ChordRests(t, a.keys, Keys(fold), k);
    case Scroll =>
      PacketsDoWhatIsMeant(t, a, screen, fold);
      assert ps[..|ps|] == ps && ps[..0] == [];
    case Drag =>
      PointsInRange(a.x.value, a.y.value, screen);
      PointsInRange(a.toX.value, a.toY.value, screen);
      DragRests(t, ToAbsCoords(a.x.value, a.y.value, screen), ToAbsCoords(a.toX.value, a.toY.value, screen), k);
    case Wait | Done | Fail =>
      assert ps[..0] == [];
  }

  lemma DragRests(t: Target, from: Option<Point>, to: Option<Point>, k: nat)
    requires t.Idle() && k <= |DragPlan(from, to).packets|
    requires (from.Some? ==> InRange(from.value)) && (to.Some? ==> InRange(to.value))
    ensures ActAll(t, DragPlan(from, to).packets[..k]).Idle() <==> AtRest(Drag, k)
  {
    var ps := DragPlan(from, to).packets;
    if k == 0 {
      assert ps[..0] == [];
    } else {
      DragDrags(t, from.value, to.value);
      assert ps[..3] == ps;
    }
  }
}

/** Keyboard and mouse reports, and the machine that receives them. */
module Ch9329Target {
  import opened Wrappers
  import opened Ch9329Scale
  import opened Ch9329Frames
  import opened Ch9329Keys

  const BTN_LEFT: Byte := 0x01
  const BTN_RIGHT: Byte := 0x02

  // ------------------------------------------------------------ packets

  datatype RawPacket = Keyboard(mods: Mods, keys: seq<Byte>) | Mouse(at: Point, buttons: Byte, wheel: int)

  predicate InRange(p: Point) {
    p.x <= ABS_MAX && p.y <= ABS_MAX
  }

  /** What a report has room for. */
  predicate Fits(p: RawPacket) {
    match p
    case Keyboard(_, keys) => |keys| == 6
    case Mouse(at, _, wheel) => InRange(at) && -128 <= wheel < 128
  }

  type Packet = p: RawPacket | Fits(p) witness Mouse(Point(0, 0), 0, 0)

  predicate AreBytes(codes: seq<int>) {
    forall i :: 0 <= i < |codes| ==> 0 <= codes[i] < 256
  }

  function FirstSix(codes: seq<int>): (r: seq<int>)
    ensures |r| == 6
  {
    if |codes| >= 6 then codes[..6] else codes + seq(6 - |codes|, _ => 0)
  }

  function Bytes(codes: seq<int>): (r: seq<Byte>)
    requires AreBytes(codes)
    ensures r == codes
  {
    seq(|codes|, i requires 0 <= i < |codes| => codes[i])
  }

  /** A report of up to six keys; none when a code is not a byte. */
  function KbdPacket(mods: Mods, codes: seq<int>): Option<Packet> {
    if AreBytes(FirstSix(codes)) then Some(Keyboard(mods, Bytes(FirstSix(codes)))) else None
  }

  /** The report of one key. */
  function KeyPacket(mods: Mods, code: Byte): Packet {
    Keyboard(mods, [code, 0, 0, 0, 0, 0])
  }

  lemma OneKeyPacket(mods: Mods, code: int)
    ensures KbdPacket(mods, [code]) == if 0 <= code < 256 then Some(KeyPacket(mods, code)) else None
  {
    var six := FirstSix([code]);
    assert six == [code, 0, 0, 0, 0, 0];
    assert six[0] == code;
    if 0 <= code < 256 {
      assert Bytes(six) == [code, 0, 0, 0, 0, 0];
    }
  }

  const KEYS_UP: Packet := Keyboard(NO_MODS, [0, 0, 0, 0, 0, 0])

  function Signed(b: int): int {
    if b < 128 then b else b - 256
  }

  function MousePacket(p: Point, buttons: Byte, wheel: int): Packet {
    Mouse(Point(Clamp(p.x, 0, ABS_MAX), Clamp(p.y, 0, ABS_MAX)), buttons, Signed(wheel % 256))
  }

  /** The frame that carries a packet. */
  function Encode(p: Packet): seq<Byte> {
    match p
    case Keyboard(mods, keys) => BuildFrame(CMD_SEND_KB_GENERAL, [mods.Byte(), 0] + keys)
    case Mouse(at, buttons, wheel) =>
      BuildFrame(CMD_SEND_MS_ABS, [0x02, buttons, at.x % 256, at.x / 256 % 256, at.y % 256, at.y / 256 % 256, wheel % 256])
  }

  /** The two reports by their bytes. Keyboard: modifiers (control 1, shift 2, alt 4,
      windows 8), a zero, six keys. Mouse: mode 2, buttons, the two coordinates with the
      low byte first, the wheel in two's complement. */
  lemma ReportInBytes(p: Packet)
    ensures p.Keyboard? ==>
      var m := p.mods;
      var bits := (if m.ctrl then 1 else 0) + (if m.shift then 2 else 0) + (if m.alt then 4 else 0) + (if m.gui then 8 else 0);
      && |Encode(p)| == 14 && Encode(p)[3] == 2 && Encode(p)[5..13] == [bits, 0] + p.keys
    ensures p.Mouse? ==>
      && |Encode(p)| == 13 && Encode(p)[3] == 4 && Encode(p)[5] == 2 && Encode(p)[6] == p.buttons
      && Encode(p)[7] as int + 256 * Encode(p)[8] as int == p.at.x
      && Encode(p)[9] as int + 256 * Encode(p)[10] as int == p.at.y
      && Encode(p)[11] == if p.wheel < 0 then p.wheel + 256 else p.wheel
  {
    match p
    case Keyboard(mods, keys) => FrameInBytes(CMD_SEND_KB_GENERAL, [mods.Byte(), 0] + keys);
    case Mouse(at, buttons, wheel) =>
      var data: seq<Byte> := [0x02, buttons, at.x % 256, at.x / 256 % 256, at.y % 256, at.y / 256 % 256, wheel % 256];
      FrameInBytes(CMD_SEND_MS_ABS, data);
      var f := Encode(p);
      assert forall i :: 0 <= i < 7 ==> f[i + 5] == f[5..12][i] == data[i];
      WideSplit(at.x);
      WideSplit(at.y);
  }

  function Encoded(ps: seq<Packet>): (r: seq<seq<Byte>>)
    ensures |r| == |ps| && forall i :: 0 <= i < |ps| ==> r[i] == Encode(ps[i])
  {
    seq(|ps|, i requires 0 <= i < |ps| => Encode(ps[i]))
  }

  /** What a frame says, if it checks out and is one of the two kinds. */
  function Decode(f: seq<Byte>): Option<RawPacket> {
    match Parsed(f)
    case Err(_) => None
    case Ok(Report(cmd, data)) =>
      if cmd == CMD_SEND_KB_GENERAL && |data| == 8 then Some(Keyboard(ModsOf(data[0]), data[2..]))
      else if cmd == CMD_SEND_MS_ABS && |data| == 7 then
        Some(Mouse(Point(Wide(data[2], data[3]), Wide(data[4], data[5])), data[1], Signed(data[6])))
      else None
  }

  /** Little-endian. */
  function Wide(lo: nat, hi: nat): nat {
    lo + 256 * hi
  }

  lemma DecodeEncode(p: Packet)
    ensures Decode(Encode(p)) == Some(p)
  {
    match p
    case Keyboard(mods, keys) =>
      var data: seq<Byte> := [mods.Byte(), 0] + keys;
      ParsedBuilt(CMD_SEND_KB_GENERAL, data);
      ModsRoundTrip(mods);
      assert data[2..] == keys;
    case Mouse(at, buttons, wheel) =>
      var data: seq<Byte> := [0x02, buttons, at.x % 256, at.x / 256 % 256, at.y % 256, at.y / 256 % 256, wheel % 256];
      ParsedBuilt(CMD_SEND_MS_ABS, data);
      WideSplit(at.x);
      WideSplit(at.y);
  }

  lemma WideSplit(v: nat)
    requires v <= ABS_MAX
    ensures Wide(v % 256, v / 256 % 256) == v
  {}

  // ------------------------------------------------------------ the target

  datatype Event =
    | KeyDown(stroke: Stroke)
    | ButtonDown(buttons: Byte, at: Point)
    | Moved(buttons: Byte, at: Point)
    | ButtonUp(buttons: Byte, at: Point)
    | Wheel(amount: int, at: Point)

  /** What is held down on the machine, and what has happened to it. */
  datatype Target = Target(mods: Mods, keys: set<int>, buttons: Byte, events: seq<Event>) {
    predicate Idle() {
      mods == NO_MODS && keys == {} && buttons == 0
    }
  }

  function Down(codes: seq<int>): set<int> {
    set c | c in codes && c != 0
  }

  /** The keys of a report that were not down before, once each and in order. */
  function NewKeys(codes: seq<int>, held: set<int>, mods: Mods): seq<Event> {
    if codes == [] then []
    else if codes[0] == 0 || codes[0] in held then NewKeys(codes[1..], held, mods)
    else [KeyDown(Stroke(mods, codes[0]))] + NewKeys(codes[1..], held + {codes[0]}, mods)
  }

  function ButtonEvents(before: Byte, after: Byte, at: Point): seq<Event> {
    if before == after then if after == 0 then [] else [Moved(after, at)]
    else if after == 0 then [ButtonUp(before, at)]
    else [ButtonDown(after, at)]
  }

  function Act(t: Target, p: RawPacket): Target {
    match p
    case Keyboard(mods, keys) => Target(mods, Down(keys), t.buttons, t.events + NewKeys(keys, t.keys, mods))
    case Mouse(at, buttons, wheel) =>
      t.(buttons := buttons,
         events := t.events + ButtonEvents(t.buttons, buttons, at) + if wheel == 0 then [] else [Wheel(wheel, at)])
  }

  function ActAll(t: Target, ps: seq<Packet>): Target
    decreases |ps|
  {
    if ps == [] then t else ActAll(Act(t, ps[0]), ps[1..])
  }

  lemma {:induction false} ActJoin(t: Target, a: seq<Packet>, b: seq<Packet>)
    ensures ActAll(t, a + b) == ActAll(ActAll(t, a), b)
    decreases |a|
  {
    if a == [] {
      assert a + b == b;
    } else {
      assert (a + b)[1..] == a[1..] + b;
      ActJoin(Act(t, a[0]), a[1..], b);
    }
  }

  /** The machine on the other end of the line: frames that do not check out are ignored. */
  function ReceiveAll(t: Target, fs: seq<seq<Byte>>): Target
    decreases |fs|
  {
    if fs == [] then t
    else
      match Decode(fs[0])
      case Some(p) => ReceiveAll(Act(t, p), fs[1..])
      case None => ReceiveAll(t, fs[1..])
  }

  /** The frames of packets do what the packets say. */
  lemma {:induction false} FramesAct(t: Target, ps: seq<Packet>)
    ensures ReceiveAll(t, Encoded(ps)) == ActAll(t, ps)
    decreases |ps|
  {
    if ps != [] {
      DecodeEncode(ps[0]);
      FramesAct(Act(t, ps[0]), ps[1..]);
      assert Encoded(ps)[1..] == Encoded(ps[1..]);
    }
  }

  lemma NoNewKeys(n: nat, held: set<int>, mods: Mods)
    ensures NewKeys(seq(n, _ => 0), held, mods) == []
  {
    if n > 0 {
      assert seq(n, _ => 0)[1..] == seq(n - 1, _ => 0);
      NoNewKeys(n - 1, held, mods);
    }
  }

  lemma KeysUpActs(t: Target)
    ensures Act(t, KEYS_UP) == Target(NO_MODS, {}, t.buttons, t.events)
  {
    assert KEYS_UP.keys == seq(6, _ => 0);
    NoNewKeys(6, t.keys, NO_MODS);
    assert Down(KEYS_UP.keys) == {};
  }
}

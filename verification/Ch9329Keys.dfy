/** From characters and key names to HID usages, and what a US keyboard types for them. */
module Ch9329Keys {
  import opened Wrappers

  /** The left-hand modifier keys of a keyboard report. */
  datatype Mods = Mods(ctrl: bool, shift: bool, alt: bool, gui: bool) {
    function Byte(): (b: int)
      ensures 0 <= b < 16
    {
      (if ctrl then 1 else 0) + (if shift then 2 else 0) + (if alt then 4 else 0) + if gui then 8 else 0
    }

    function Or(other: Mods): Mods {
      Mods(ctrl || other.ctrl, shift || other.shift, alt || other.alt, gui || other.gui)
    }
  }

  const NO_MODS := Mods(false, false, false, false)
  const SHIFT := Mods(false, true, false, false)

  function ModsOf(b: int): Mods
    requires b >= 0
  {
    Mods(b % 2 == 1, b / 2 % 2 == 1, b / 4 % 2 == 1, b / 8 % 2 == 1)
  }

  lemma ModsRoundTrip(m: Mods)
    ensures ModsOf(m.Byte()) == m
  {}

  const MODIFIERS: map<string, Mods> := map[
    "ctrl" := Mods(true, false, false, false),
    "control" := Mods(true, false, false, false),
    "shift" := Mods(false, true, false, false),
    "alt" := Mods(false, false, true, false),
    "option" := Mods(false, false, true, false),
    "win" := Mods(false, false, false, true),
    "cmd" := Mods(false, false, false, true),
    "command" := Mods(false, false, false, true),
    "meta" := Mods(false, false, false, true),
    "super" := Mods(false, false, false, true)
  ]

  const NAMED_KEYS: map<string, int> := map[
    "enter" := 0x28, "return" := 0x28, "esc" := 0x29, "escape" := 0x29, "backspace" := 0x2A, "tab" := 0x2B,
    "space" := 0x2C, "caps_lock" := 0x39, "capslock" := 0x39, "print_screen" := 0x46, "scroll_lock" := 0x47,
    "pause" := 0x48, "insert" := 0x49, "home" := 0x4A, "pageup" := 0x4B, "page_up" := 0x4B, "delete" := 0x4C,
    "end" := 0x4D, "pagedown" := 0x4E, "page_down" := 0x4E, "right" := 0x4F, "left" := 0x50, "down" := 0x51,
    "up" := 0x52, "f1" := 0x3A, "f2" := 0x3B, "f3" := 0x3C, "f4" := 0x3D, "f5" := 0x3E, "f6" := 0x3F,
    "f7" := 0x40, "f8" := 0x41, "f9" := 0x42, "f10" := 0x43, "f11" := 0x44, "f12" := 0x45
  ]

  /** The key that types each shifted character. */
  function Unshifted(ch: char): Option<char> {
    match ch
    case '!' => Some('1') case '@' => Some('2') case '#' => Some('3') case '$' => Some('4') case '%' => Some('5')
    case '^' => Some('6') case '&' => Some('7') case '*' => Some('8') case '(' => Some('9') case ')' => Some('0')
    case '_' => Some('-') case '+' => Some('=') case '{' => Some('[') case '}' => Some(']') case '|' => Some('\\')
    case ':' => Some(';') case '\"' => Some('\'') case '~' => Some('`') case '<' => Some(',') case '>' => Some('.')
    case '?' => Some('/')
    case _ => None
  }

  function Punctuation(ch: char): Option<int> {
    match ch
    case '-' => Some(0x2D) case '=' => Some(0x2E) case '[' => Some(0x2F) case ']' => Some(0x30)
    case '\\' => Some(0x31) case ';' => Some(0x33) case '\'' => Some(0x34) case '`' => Some(0x35)
    case ',' => Some(0x36) case '.' => Some(0x37) case '/' => Some(0x38) case ' ' => Some(0x2C)
    case _ => None
  }

  datatype Stroke = Stroke(mods: Mods, code: int)

  /** For an upper-case character outside ASCII, the code point of its lower case. */
  type Folding = char -> Option<nat>

  function Upper(ch: char, fold: Folding): Option<nat> {
    if 'A' <= ch <= 'Z' then Some(ch as int + 32) else if ch as int < 128 then None else fold(ch)
  }

  /** The key without shift for a plain character. */
  function PlainCode(ch: char): Option<int> {
    if 'a' <= ch <= 'z' then Some(ch as int - 'a' as int + 0x04)
    else if ch == '0' then Some(0x27)
    else if '1' <= ch <= '9' then Some(ch as int - '1' as int + 0x1E)
    else if Punctuation(ch).Some? then Punctuation(ch)
    else if ch == '\n' then Some(0x28)
    else None
  }

  /** What to press for a character; none when it is not supported. */
  function CharToHid(ch: char, fold: Folding): Option<Stroke> {
    match Unshifted(ch)
    case Some(plain) =>
      (match PlainCode(plain)
       case Some(code) => Some(Stroke(SHIFT, code))
       case None => None)
    case None =>
      (match Upper(ch, fold)
       case Some(lower) => Some(Stroke(SHIFT, lower - 'a' as int + 0x04))
       case None =>
         match PlainCode(ch)
         case Some(code) => Some(Stroke(NO_MODS, code))
         case None => None)
  }

  function LowerChar(ch: char): char {
    if 'A' <= ch <= 'Z' then (ch as int + 32) as char else ch
  }

  function Lower(s: string): (r: string)
    ensures |r| == |s|
    ensures forall i :: 0 <= i < |s| ==> r[i] as int == if 'A' <= s[i] <= 'Z' then s[i] as int + 32 else s[i] as int
  {
    seq(|s|, i requires 0 <= i < |s| => LowerChar(s[i]))
  }

  datatype Named = Named(mods: Mods, code: Option<int>)

  /** What to press for a key name; a pure modifier has no key of its own. */
  function KeyToHid(name: string, fold: Folding): Option<Named> {
    var n := Lower(name);
    if n in MODIFIERS then Some(Named(MODIFIERS[n], None))
    else if n in NAMED_KEYS then Some(Named(NO_MODS, Some(NAMED_KEYS[n])))
    else if |n| == 1 then
      match CharToHid(n[0], fold)
      case Some(s) => Some(Named(s.mods, Some(s.code)))
      case None => None
    else None
  }

  // ------------------------------------------------------------ the keyboard itself

  /** The caps of a US keyboard by usage, without and with shift
      (HID Usage Tables 1.12, section 10). */
  function Caps(code: int): Option<(char, char)> {
    if 0x04 <= code <= 0x1D then Some(((code - 0x04 + 'a' as int) as char, (code - 0x04 + 'A' as int) as char))
    else
      match code
      case 0x1E => Some(('1', '!')) case 0x1F => Some(('2', '@')) case 0x20 => Some(('3', '#'))
      case 0x21 => Some(('4', '$')) case 0x22 => Some(('5', '%')) case 0x23 => Some(('6', '^'))
      case 0x24 => Some(('7', '&')) case 0x25 => Some(('8', '*')) case 0x26 => Some(('9', '('))
      case 0x27 => Some(('0', ')')) case 0x28 => Some(('\n', '\n')) case 0x2C => Some((' ', ' '))
      case 0x2D => Some(('-', '_')) case 0x2E => Some(('=', '+')) case 0x2F => Some(('[', '{'))
      case 0x30 => Some((']', '}')) case 0x31 => Some(('\\', '|')) case 0x33 => Some((';', ':'))
      case 0x34 => Some(('\'', '\"')) case 0x35 => Some(('`', '~')) case 0x36 => Some((',', '<'))
      case 0x37 => Some(('.', '>')) case 0x38 => Some(('/', '?'))
      case _ => None
  }

  /** The character a stroke types. */
  function Typed(s: Stroke): Option<char> {
    if s.mods.ctrl || s.mods.alt || s.mods.gui then None
    else
      match Caps(s.code)
      case Some((plain, shifted)) => Some(if s.mods.shift then shifted else plain)
      case None => None
  }

  predicate IsAscii(ch: char) {
    ch as int < 128
  }

  lemma PlainTypes(ch: char)
    ensures PlainCode(ch).Some? ==> Caps(PlainCode(ch).value).Some? && Caps(PlainCode(ch).value).value.0 == ch
  {}

  lemma ShiftedTypes(ch: char)
    ensures Unshifted(ch).Some? ==>
      var code := PlainCode(Unshifted(ch).value);
      code.Some? && Caps(code.value).Some? && Caps(code.value).value.1 == ch
  {}

  lemma UpperTypes(ch: char)
    ensures 'A' <= ch <= 'Z' ==>
      var caps := Caps(ch as int + 32 - 'a' as int + 0x04);
      caps.Some? && caps.value.1 == ch
  {}

  lemma PrintableIsSupported(ch: char)
    ensures Unshifted(ch).Some? || 'A' <= ch <= 'Z' || PlainCode(ch).Some? <==> ch == '\n' || ' ' <= ch <= '~'
  {}

  /** Exactly the printable characters and the line feed are supported, and each
      is pressed as the keys that type it. */
  lemma StrokeTypesTheCharacter(ch: char, fold: Folding)
    requires IsAscii(ch)
    ensures CharToHid(ch, fold).Some? <==> ch == '\n' || ' ' <= ch <= '~'
    ensures CharToHid(ch, fold).Some? ==> Typed(CharToHid(ch, fold).value) == Some(ch)
  {
    PlainTypes(ch);
    ShiftedTypes(ch);
    UpperTypes(ch);
    PrintableIsSupported(ch);
  }

  /** What is written on the keys that type nothing, by usage (same table). */
  function Legend(code: int): seq<string> {
    match code
    case 0x28 => ["enter", "return"] case 0x29 => ["esc", "escape"] case 0x2A => ["backspace"] case 0x2B => ["tab"]
    case 0x2C => ["space"] case 0x39 => ["capslock", "caps_lock"]
    case 0x3A => ["f1"] case 0x3B => ["f2"] case 0x3C => ["f3"] case 0x3D => ["f4"] case 0x3E => ["f5"] case 0x3F => ["f6"]
    case 0x40 => ["f7"] case 0x41 => ["f8"] case 0x42 => ["f9"] case 0x43 => ["f10"] case 0x44 => ["f11"] case 0x45 => ["f12"]
    case 0x46 => ["print_screen"] case 0x47 => ["scroll_lock"] case 0x48 => ["pause"] case 0x49 => ["insert"]
    case 0x4A => ["home"] case 0x4B => ["pageup", "page_up"] case 0x4C => ["delete"] case 0x4D => ["end"]
    case 0x4E => ["pagedown", "page_down"] case 0x4F => ["right"] case 0x50 => ["left"] case 0x51 => ["down"]
    case 0x52 => ["up"]
    case _ => []
  }

  /** Every named key is the one with that legend. */
  lemma NamedKeysAreLabelled(name: string)
    requires name in NAMED_KEYS
    ensures name in Legend(NAMED_KEYS[name])
  {}

  lemma LowLegends(code: int, i: nat)
    requires code < 0x43 && i < |Legend(code)|
    ensures Legend(code)[i] in NAMED_KEYS && NAMED_KEYS[Legend(code)[i]] == code
  {}

  lemma HighLegends(code: int, i: nat)
    requires code >= 0x43 && i < |Legend(code)|
    ensures Legend(code)[i] in NAMED_KEYS && NAMED_KEYS[Legend(code)[i]] == code
  {}

  /** And every legend names its key: no key with a legend is missing. */
  lemma LegendsAreNamed(code: int, i: nat)
    requires i < |Legend(code)|
    ensures Legend(code)[i] in NAMED_KEYS && NAMED_KEYS[Legend(code)[i]] == code
  {
    if code < 0x43 {
      LowLegends(code, i);
    } else {
      HighLegends(code, i);
    }
  }

  /** The bits of a report's modifier byte (Device Class Definition for HID 1.11,
      section 8.3): what each counts for, and what is written on its key. */
  function Weight(bit: nat): (w: nat)
    requires bit < 8
    ensures w > 0
  {
    if bit == 0 then 1 else 2 * Weight(bit - 1)
  }

  function ModifierLegend(bit: nat): seq<string> {
    match bit
    case 0 => ["ctrl", "control"]
    case 1 => ["shift"]
    case 2 => ["alt", "option"]
    case 3 => ["win", "cmd", "command", "meta", "super"]
    case _ => []
  }

  predicate IsSet(byte: int, bit: nat)
    requires bit < 8
  {
    byte / Weight(bit) % 2 == 1
  }

  /** The bits of a modifier byte, each by its key. */
  lemma ByteBits(m: Mods)
    ensures IsSet(m.Byte(), 0) <==> m.ctrl
    ensures IsSet(m.Byte(), 1) <==> m.shift
    ensures IsSet(m.Byte(), 2) <==> m.alt
    ensures IsSet(m.Byte(), 3) <==> m.gui
    ensures forall bit :: 4 <= bit < 8 ==> !IsSet(m.Byte(), bit)
  {
    assert Weight(1) == 2 && Weight(2) == 4 && Weight(3) == 8;
    assert Weight(4) == 16 && Weight(5) == 32 && Weight(6) == 64 && Weight(7) == 128;
    forall bit | 4 <= bit < 8 ensures !IsSet(m.Byte(), bit) {
      assert bit == 4 || bit == 5 || bit == 6 || bit == 7;
    }
  }

  /** A modifier's name sets the bit of the key with that legend and no other. */
  lemma ModifiersAreLabelled(name: string, bit: nat)
    requires name in MODIFIERS && bit < 8
    ensures IsSet(MODIFIERS[name].Byte(), bit) <==> name in ModifierLegend(bit)
  {
    ByteBits(MODIFIERS[name]);
  }

  lemma LegendsAreNames(n: string, code: int)
    requires n in Legend(code)
    ensures n in NAMED_KEYS && NAMED_KEYS[n] == code
  {
    var i :| 0 <= i < |Legend(code)| && Legend(code)[i] == n;
    LegendsAreNamed(code, i);
  }

  lemma LegendsAreModifiers(n: string, bit: nat)
    ensures n in ModifierLegend(bit) ==> n in MODIFIERS
    ensures n in MODIFIERS || n in NAMED_KEYS ==> |n| > 1
  {}

  lemma ModifiersHaveLegends(n: string)
    requires n in MODIFIERS
    ensures n in ModifierLegend(0) || n in ModifierLegend(1) || n in ModifierLegend(2) || n in ModifierLegend(3)
  {}

  lemma ModifierIsNoKey(bit: nat, i: nat)
    requires i < |ModifierLegend(bit)|
    ensures ModifierLegend(bit)[i] !in NAMED_KEYS
  {}

  lemma KeysAreNoModifiers(n: string)
    ensures n in NAMED_KEYS ==> n !in MODIFIERS
  {
    if n in MODIFIERS {
      ModifiersHaveLegends(n);
      var bit: nat :| bit < 4 && n in ModifierLegend(bit);
      var i :| 0 <= i < |ModifierLegend(bit)| && ModifierLegend(bit)[i] == n;
      ModifierIsNoKey(bit, i);
    }
  }

  /** A name, case apart, presses the key with that legend; a modifier's name the modifier
      with that legend and no key; a single character what types it; nothing else is
      known. */
  lemma NamesPressTheirKeys(name: string, fold: Folding, code: int, bit: nat)
    requires bit < 8
    ensures Lower(name) in Legend(code) ==> KeyToHid(name, fold) == Some(Named(NO_MODS, Some(code)))
    ensures Lower(name) in ModifierLegend(bit) ==>
      && KeyToHid(name, fold).Some? && KeyToHid(name, fold).value.code == None
      && IsSet(KeyToHid(name, fold).value.mods.Byte(), bit)
    ensures |name| == 1 ==>
      var typed := CharToHid(Lower(name)[0], fold);
      KeyToHid(name, fold) == if typed.Some? then Some(Named(typed.value.mods, Some(typed.value.code))) else None
    ensures |name| != 1 && KeyToHid(name, fold).Some? ==>
      || (exists c :: Lower(name) in Legend(c))
      || (exists b :: 0 <= b < 4 && Lower(name) in ModifierLegend(b))
  {
    var n := Lower(name);
    LegendsAreModifiers(n, bit);
    KeysAreNoModifiers(n);
    if n in Legend(code) {
      LegendsAreNames(n, code);
    }
    if n in MODIFIERS {
      ModifiersAreLabelled(n, bit);
      ModifiersHaveLegends(n);
    } else if n in NAMED_KEYS {
      NamedKeysAreLabelled(n);
    }
  }
}

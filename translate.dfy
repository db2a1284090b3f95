/**
 * Key translation tables of the virtual keyboard: the one-bit masks of the
 * eight modifier keys, the keycodes of the named special keys and the
 * character table that turns a character typed from a given origin
 * (main keyboard, keypad, miscellaneous) into a modifier byte and a keycode.
 *
 * Keycodes are those of the Keyboard/Keypad usage page (0x07) of the USB HID
 * Usage Tables 1.12, section 10; the modifier bit order is that of the boot
 * keyboard report, Appendix B.1 of the HID 1.11 Device Class Definition.
 */
module Translate {

  import opened Wrappers

  /** An unsigned byte used as a number (a keycode); masks are `bv8`. */
  newtype u8 = x: int | 0 <= x < 256

  /** The eight modifier keys, in declaration order. */
  datatype Modifier =
      LeftControl | LeftShift | LeftAlt | LeftMeta
    | RightControl | RightShift | RightAlt | RightMeta
  {
    /** The enum's discriminant: the modifier's position in the declaration. */
    function Discriminant(): (n: nat)
      ensures n < 8
    {
      match this
      case LeftControl => 0
      case LeftShift => 1
      case LeftAlt => 2
      case LeftMeta => 3
      case RightControl => 4
      case RightShift => 5
      case RightAlt => 6
      case RightMeta => 7
    }

    /** The modifier's mask in the modifier byte of a keyboard report:
        exactly one bit, the one numbered by the discriminant. */
    function ToMkbyte(): (r: bv8)
      ensures r != 0 && r & (r - 1) == 0
    {
      match this
      case RightMeta => 1 << 7
      case RightAlt => 1 << 6
      case RightShift => 1 << 5
      case RightControl => 1 << 4
      case LeftMeta => 1 << 3
      case LeftAlt => 1 << 2
      case LeftShift => 1 << 1
      case LeftControl => 1
    }
  }

  /** A modifier's mask is the bit numbered by its discriminant. */
  lemma MaskIsDiscriminantBit(m: Modifier)
    ensures m.ToMkbyte() == 1 << m.Discriminant()
  {
  }

  /** Distinct modifiers have disjoint masks. */
  lemma ModifierMasksDisjoint(a: Modifier, b: Modifier)
    requires a != b
    ensures a.ToMkbyte() & b.ToMkbyte() == 0
  {
    MaskIsDiscriminantBit(a);
    MaskIsDiscriminantBit(b);
    assert a.Discriminant() != b.Discriminant();
  }

  /** Every bit of a byte is the mask of some modifier, so a byte is
      determined by which modifier masks it has set. */
  lemma ByteDeterminedByModifierBits(x: bv8, y: bv8)
    requires forall m: Modifier :: (x & m.ToMkbyte() != 0) <==> (y & m.ToMkbyte() != 0)
    ensures x == y
  {
    assert (x & 0x01 != 0) <==> (y & 0x01 != 0) by { assert Modifier.LeftControl.ToMkbyte() == 0x01; }
    assert (x & 0x02 != 0) <==> (y & 0x02 != 0) by { assert Modifier.LeftShift.ToMkbyte() == 0x02; }
    assert (x & 0x04 != 0) <==> (y & 0x04 != 0) by { assert Modifier.LeftAlt.ToMkbyte() == 0x04; }
    assert (x & 0x08 != 0) <==> (y & 0x08 != 0) by { assert Modifier.LeftMeta.ToMkbyte() == 0x08; }
    assert (x & 0x10 != 0) <==> (y & 0x10 != 0) by { assert Modifier.RightControl.ToMkbyte() == 0x10; }
    assert (x & 0x20 != 0) <==> (y & 0x20 != 0) by { assert Modifier.RightShift.ToMkbyte() == 0x20; }
    assert (x & 0x40 != 0) <==> (y & 0x40 != 0) by { assert Modifier.RightAlt.ToMkbyte() == 0x40; }
    assert (x & 0x80 != 0) <==> (y & 0x80 != 0) by { assert Modifier.RightMeta.ToMkbyte() == 0x80; }
  }

  /** The OR of the masks of a list of modifiers, 0 for the empty list: a
      modifier's bit is set exactly when the modifier is in the list. */
  function AllToByte(modifiers: seq<Modifier>): (r: bv8)
    ensures forall m: Modifier :: (r & m.ToMkbyte() != 0) <==> m in modifiers
  {
    if |modifiers| == 0 then 0 else OrMasks(modifiers[0].ToMkbyte(), modifiers[1..])
  }

  /** The reduction step of AllToByte: ORs the masks of `rest` into `acc`,
      from left to right. */
  function OrMasks(acc: bv8, rest: seq<Modifier>): (r: bv8)
    decreases |rest|
    ensures forall m: Modifier :: (r & m.ToMkbyte() != 0) <==> (acc & m.ToMkbyte() != 0 || m in rest)
  {
    if |rest| == 0 then acc
    else
      var r := OrMasks(acc | rest[0].ToMkbyte(), rest[1..]);
      assert forall m: Modifier :: m in rest <==> m == rest[0] || m in rest[1..];
      r
  }

  /** The modifier byte of a list depends only on which modifiers it holds,
      not on their order or on repetitions. */
  lemma AllToByteIgnoresOrder(a: seq<Modifier>, b: seq<Modifier>)
    requires forall m: Modifier :: m in a <==> m in b
    ensures AllToByte(a) == AllToByte(b)
  {
    ByteDeterminedByModifierBits(AllToByte(a), AllToByte(b));
  }

  /** Adding one modifier at the end of a list ORs its mask into the byte, so
      the byte can be built one modifier at a time. */
  lemma AllToByteSnoc(modifiers: seq<Modifier>, m: Modifier)
    ensures AllToByte(modifiers + [m]) == AllToByte(modifiers) | m.ToMkbyte()
  {
    var x, y := AllToByte(modifiers + [m]), AllToByte(modifiers) | m.ToMkbyte();
    forall n: Modifier
      ensures (x & n.ToMkbyte() != 0) <==> (y & n.ToMkbyte() != 0)
    {
      assert n in modifiers + [m] <==> n in modifiers || n == m;
      if n != m {
        ModifierMasksDisjoint(m, n);
      }
      assert y & n.ToMkbyte() == (AllToByte(modifiers) & n.ToMkbyte()) | (m.ToMkbyte() & n.ToMkbyte());
    }
    ByteDeterminedByModifierBits(x, y);
  }

  /** Setting a modifier's mask in a byte sets that modifier and keeps every
      other one; clearing it clears that modifier and keeps every other one. */
  lemma ModifierBitsOfMask(x: bv8, m: Modifier)
    ensures forall n: Modifier :: ((x | m.ToMkbyte()) & n.ToMkbyte() != 0) <==> (n == m || x & n.ToMkbyte() != 0)
    ensures forall n: Modifier :: ((x & !m.ToMkbyte()) & n.ToMkbyte() != 0) <==> (n != m && x & n.ToMkbyte() != 0)
  {
    forall n: Modifier
      ensures ((x | m.ToMkbyte()) & n.ToMkbyte() != 0) <==> (n == m || x & n.ToMkbyte() != 0)
      ensures ((x & !m.ToMkbyte()) & n.ToMkbyte() != 0) <==> (n != m && x & n.ToMkbyte() != 0)
    {
      if n != m {
        ModifierMasksDisjoint(m, n);
      }
      assert (x | m.ToMkbyte()) & n.ToMkbyte() == (x & n.ToMkbyte()) | (m.ToMkbyte() & n.ToMkbyte());
      assert (x & !m.ToMkbyte()) & n.ToMkbyte() == (x & n.ToMkbyte()) & !m.ToMkbyte();
    }
  }

  /** A modifier is set in the OR of two bytes iff it is set in one of them. */
  lemma ModifierBitsOfOr(x: bv8, y: bv8)
    ensures forall n: Modifier :: ((x | y) & n.ToMkbyte() != 0) <==> (x & n.ToMkbyte() != 0 || y & n.ToMkbyte() != 0)
  {
    forall n: Modifier
      ensures ((x | y) & n.ToMkbyte() != 0) <==> (x & n.ToMkbyte() != 0 || y & n.ToMkbyte() != 0)
    {
      assert (x | y) & n.ToMkbyte() == (x & n.ToMkbyte()) | (y & n.ToMkbyte());
    }
  }

  /** The origin of a typed character: the main keyboard, the keypad, or
      neither. */
  datatype KeyOrigin = Keyboard | Keypad | Misc

  /** The named keys that have no character of their own. */
  datatype SpecialKey =
      ReturnEnter | Return | Escape | Backspace | Tab | Spacebar | NONUSHashAndTilda | CapsLock
    | F1 | F2 | F3 | UpArrow | DownArrow | LeftArrow | RightArrow | PageDown | End | DeleteForward
    | PageUp | Home | Insert | Pause | ScrollLock | PrintScreen | F12 | F11 | F10 | F9 | F8 | F7
    | F6 | F5 | F4 | NumLockAndClear | Enter | Application | Power | RightGUI | RightAlt
    | RightShift | RightControl | LeftGUI | LeftAlt | LeftShift | LeftControl | Hexadecimal
    | Decimal | Octal | Binary | ClearEntry | Clear | PlusMinux | MemoryDivide | MemoryMultiply
    | MemorySubtract | MemoryAdd | MemoryClear | MemoryRecall | MemoryStore | Space | Or | And
    | XOR | CurrencySubunit | CurrencyUnit | DecimalSeparator | ThousandsSeparator | Keypad000
    | Keypad00 | ExSel | CrSelProps | ClearAgain | Oper | Out | Separator | Prior | Cancel
    | SysReqAttention1 | AlternateErase | LANG9 | LANG8 | LANG7 | LANG6 | LANG5 | LANG4 | LANG3
    | LANG2 | LANG1 | International9 | International8 | International7 | International6
    | International5 | International4 | International3 | International2 | International1
    | LockingScrollLock | LockingNumLock | LockingCapsLock | VolumeDown | VolumeUp | Mute | Find
    | Paste | Copy | Cut | Undo | Again | Stop | Select | Menu | Help | Execute | F24 | F23 | F22
    | F21 | F20 | F19 | F18 | F17 | F16 | F15 | F14 | F13 | NonUSSlashAndPipe | KeypadDotAndDelete
    | Keypad0AndInsert | Keypad9AndPageUp | Keypad8AndUpArrow | Keypad7AndHome
    | Keypad6AndRightArrow | Keypad5 | Keypad4AndLeftArrow | Keypad3AndPageDn | Keypad2AndDownArrow
    | Keypad1AndEnd | PadClear | PadBackspace | PadTab | EqualsSign | Comma
  {
    /** The key's keycode on the Keyboard/Keypad usage page. No special key
        has the reserved code 0. */
    function ToKbyte(): (r: u8)
      ensures r != 0
    {
      match this
      case ReturnEnter => 0x28
      case Escape => 0x29
      case Backspace => 0x2A
      case Tab => 0x2B
      case Spacebar => 0x2C
      case NONUSHashAndTilda => 0x32
      case CapsLock => 0x39
      case F1 => 0x3A
      case F2 => 0x3B
      case F3 => 0x3C
      case F4 => 0x3D
      case F5 => 0x3E
      case F6 => 0x3F
      case F7 => 0x40
      case F8 => 0x41
      case F9 => 0x42
      case F10 => 0x43
      case F11 => 0x44
      case F12 => 0x45
      case PrintScreen => 0x46
      case ScrollLock => 0x47
      case Pause => 0x48
      case Insert => 0x49
      case Home => 0x4A
      case PageUp => 0x4B
      case DeleteForward => 0x4C
      case End => 0x4D
      case PageDown => 0x4E
      case RightArrow => 0x4F
      case LeftArrow => 0x50
      case DownArrow => 0x51
      case UpArrow => 0x52
      case NonUSSlashAndPipe => 0x64
      case Application => 0x65
      case Power => 0x66
      case F13 => 0x68
      case F14 => 0x69
      case F15 => 0x6A
      case F16 => 0x6B
      case F17 => 0x6C
      case F18 => 0x6D
      case F19 => 0x6E
      case F20 => 0x6F
      case F21 => 0x70
      case F22 => 0x71
      case F23 => 0x72
      case F24 => 0x73
      case Execute => 0x74
      case Help => 0x75
      case Menu => 0x76
      case Select => 0x77
      case Stop => 0x78
      case Again => 0x79
      case Undo => 0x7A
      case Cut => 0x7B
      case Copy => 0x7C
      case Paste => 0x7D
      case Find => 0x7E
      case Mute => 0x7F
      case VolumeUp => 0x80
      case VolumeDown => 0x81
      case LockingCapsLock => 0x82
      case LockingNumLock => 0x83
      case LockingScrollLock => 0x84
      case International1 => 0x87
      case International2 => 0x88
      case International3 => 0x89
      case International4 => 0x8A
      case International5 => 0x8B
      case International6 => 0x8C
      case International7 => 0x8D
      case International8 => 0x8E
      case International9 => 0x8F
      case LANG1 => 0x90
      case LANG2 => 0x91
      case LANG3 => 0x92
      case LANG4 => 0x93
      case LANG5 => 0x94
      case LANG6 => 0x95
      case LANG7 => 0x96
      case LANG8 => 0x97
      case LANG9 => 0x98
      case AlternateErase => 0x99
      case SysReqAttention1 => 0x9A
      case Cancel => 0x9B
      case Clear => 0x9C
      case Prior => 0x9D
      case Return => 0x9E
      case Separator => 0x9F
      case Out => 0xA0
      case Oper => 0xA1
      case ClearAgain => 0xA2
      case CrSelProps => 0xA3
      case ExSel => 0xA4
      case LeftControl => 0xE0
      case LeftShift => 0xE1
      case LeftAlt => 0xE2
      case LeftGUI => 0xE3
      case RightControl => 0xE4
      case RightShift => 0xE5
      case RightAlt => 0xE6
      case RightGUI => 0xE7
      case ThousandsSeparator => 0xB2
      case DecimalSeparator => 0xB3
      case CurrencyUnit => 0xB4
      case CurrencySubunit => 0xB5
      case NumLockAndClear => 0x53
      case Enter => 0x58
      case Keypad1AndEnd => 0x59
      case Keypad2AndDownArrow => 0x5A
      case Keypad3AndPageDn => 0x5B
      case Keypad4AndLeftArrow => 0x5C
      case Keypad5 => 0x5D
      case Keypad6AndRightArrow => 0x5E
      case Keypad7AndHome => 0x5F
      case Keypad8AndUpArrow => 0x60
      case Keypad9AndPageUp => 0x61
      case Keypad0AndInsert => 0x62
      case KeypadDotAndDelete => 0x63
      case Keypad00 => 0xB0
      case Keypad000 => 0xB1
      case PadTab => 0xBA
      case PadBackspace => 0xBB
      case XOR => 0xC2
      case And => 0xC8
      case Or => 0xCA
      case Space => 0xCD
      case MemoryStore => 0xD0
      case MemoryRecall => 0xD1
      case MemoryClear => 0xD2
      case MemoryAdd => 0xD3
      case MemorySubtract => 0xD4
      case MemoryMultiply => 0xD5
      case MemoryDivide => 0xD6
      case PlusMinux => 0xD7
      case PadClear => 0xD8
      case ClearEntry => 0xD9
      case Binary => 0xDA
      case Octal => 0xDB
      case Decimal => 0xDC
      case Hexadecimal => 0xDD
      case Comma => 0x85
      case EqualsSign => 0x86
    }

    /** n for the function key Fn, 0 for every other key. */
    function FunctionNumber(): (n: nat)
      ensures n <= 24
    {
      match this
      case F1 => 1
      case F2 => 2
      case F3 => 3
      case F4 => 4
      case F5 => 5
      case F6 => 6
      case F7 => 7
      case F8 => 8
      case F9 => 9
      case F10 => 10
      case F11 => 11
      case F12 => 12
      case F13 => 13
      case F14 => 14
      case F15 => 15
      case F16 => 16
      case F17 => 17
      case F18 => 18
      case F19 => 19
      case F20 => 20
      case F21 => 21
      case F22 => 22
      case F23 => 23
      case F24 => 24
      case _ => 0
    }

    /** d for the keypad key of digit d, None for every other key. */
    function KeypadDigit(): (d: Option<nat>)
      ensures d.Some? ==> d.value <= 9
    {
      match this
      case Keypad0AndInsert => Some(0)
      case Keypad1AndEnd => Some(1)
      case Keypad2AndDownArrow => Some(2)
      case Keypad3AndPageDn => Some(3)
      case Keypad4AndLeftArrow => Some(4)
      case Keypad5 => Some(5)
      case Keypad6AndRightArrow => Some(6)
      case Keypad7AndHome => Some(7)
      case Keypad8AndUpArrow => Some(8)
      case Keypad9AndPageUp => Some(9)
      case _ => None
    }
  }

  /** F1..F12 have the consecutive keycodes 0x3A..0x45, and F13..F24 the
      consecutive keycodes 0x68..0x73. */
  lemma FunctionKeysConsecutive(s: SpecialKey)
    requires s.FunctionNumber() != 0
    ensures s.FunctionNumber() <= 12 ==> s.ToKbyte() as int == 0x39 + s.FunctionNumber()
    ensures s.FunctionNumber() >= 13 ==> s.ToKbyte() as int == 0x68 + (s.FunctionNumber() - 13)
  {
  }

  /** Keypad 1..9 have the consecutive keycodes 0x59..0x61, and keypad 0
      follows them at 0x62. */
  lemma KeypadDigitsConsecutive(s: SpecialKey)
    requires s.KeypadDigit().Some?
    ensures s.ToKbyte() as int == if s.KeypadDigit().value == 0 then 0x62 else 0x58 + s.KeypadDigit().value
  {
  }

  /** The special key that is the given modifier key itself. */
  function ModifierKey(m: Modifier): SpecialKey
  {
    match m
    case LeftControl => SpecialKey.LeftControl
    case LeftShift => SpecialKey.LeftShift
    case LeftAlt => SpecialKey.LeftAlt
    case LeftMeta => SpecialKey.LeftGUI
    case RightControl => SpecialKey.RightControl
    case RightShift => SpecialKey.RightShift
    case RightAlt => SpecialKey.RightAlt
    case RightMeta => SpecialKey.RightGUI
  }

  /** The modifier keys have the keycodes 0xE0..0xE7 in modifier order, and
      a modifier's mask bit is numbered by its keycode's offset from 0xE0. */
  lemma ModifierKeycodes(m: Modifier)
    ensures ModifierKey(m).ToKbyte() as int == 0xE0 + m.Discriminant()
    ensures m.ToMkbyte() == 1 << (ModifierKey(m).ToKbyte() as int - 0xE0)
  {
  }

  /** The mask of LeftShift, carried by every shifted entry of the
      character table. */
  const ShiftBit: bv8 := 0x02

  /** A resolved key: the byte to OR into the modifier byte and the keycode. */
  datatype KBytes = KBytes(modifier: bv8, keycode: u8)

  /** The character table: the modifier byte and keycode that type character
      `c` from `origin`, or None when the table has no entry. The Misc origin
      has no entries. */
  function ToKbytes(c: char, origin: KeyOrigin): (r: Option<KBytes>)
    ensures origin == Misc ==> r == None
    ensures r.Some? && origin == Keypad ==> r.value.modifier == 0
    ensures r.Some? && origin == Keyboard ==> r.value.modifier == 0 || r.value.modifier == ShiftBit
    ensures r.Some? ==> r.value.keycode >= 0x04
  {
    match origin
    case Keyboard => KeyboardKbytes(c)
    case Keypad => KeypadKbytes(c)
    case Misc => None
  }

  /** The main-keyboard part of the character table: each entry carries no
      modifier or LeftShift alone. */
  function KeyboardKbytes(c: char): (r: Option<KBytes>)
    ensures r.Some? ==> r.value.modifier == 0 || r.value.modifier == ShiftBit
    ensures r.Some? ==> r.value.keycode >= 0x04
  {
    if c < 'A' then KeyboardLowKbytes(c)
    else if c < 'a' then KeyboardMiddleKbytes(c)
    else KeyboardHighKbytes(c)
  }

  /** The rows of the main-keyboard table for control characters, space,
      digits and punctuation below 'A'. */
  function KeyboardLowKbytes(c: char): (r: Option<KBytes>)
    ensures r.Some? ==> r.value.modifier == 0 || r.value.modifier == ShiftBit
    ensures r.Some? ==> r.value.keycode >= 0x04
  {
    match c as int
    case 0x0a => Some(KBytes(0x00, SpecialKey.Enter.ToKbyte())) // '\n'
    case 0x09 => Some(KBytes(0x00, SpecialKey.Tab.ToKbyte())) // '\t'
    case 0x20 => Some(KBytes(0x00, SpecialKey.Spacebar.ToKbyte())) // ' '
    case 0x31 => Some(KBytes(0x00, 0x1E)) // '1'
    case 0x21 => Some(KBytes(ShiftBit, 0x1E)) // '!'
    case 0x32 => Some(KBytes(0x00, 0x1F)) // '2'
    case 0x40 => Some(KBytes(ShiftBit, 0x1F)) // '@'
    case 0x33 => Some(KBytes(0x00, 0x20)) // '3'
    case 0x23 => Some(KBytes(ShiftBit, 0x20)) // '#'
    case 0x34 => Some(KBytes(0x00, 0x21)) // '4'
    case 0x24 => Some(KBytes(ShiftBit, 0x21)) // '$'
    case 0x35 => Some(KBytes(0x00, 0x22)) // '5'
    case 0x25 => Some(KBytes(ShiftBit, 0x22)) // '%'
    case 0x36 => Some(KBytes(0x00, 0x23)) // '6'
    case 0x37 => Some(KBytes(0x00, 0x24)) // '7'
    case 0x26 => Some(KBytes(ShiftBit, 0x24)) // '&'
    case 0x38 => Some(KBytes(0x00, 0x25)) // '8'
    case 0x2a => Some(KBytes(ShiftBit, 0x25)) // '*'
    case 0x39 => Some(KBytes(0x00, 0x26)) // '9'
    case 0x28 => Some(KBytes(ShiftBit, 0x26)) // '('
    case 0x30 => Some(KBytes(0x00, 0x27)) // '0'
    case 0x29 => Some(KBytes(ShiftBit, 0x27)) // ')'
    case 0x2d => Some(KBytes(0x00, 0x2D)) // '-'
    case 0x3d => Some(KBytes(0x00, 0x2E)) // '='
    case 0x2b => Some(KBytes(ShiftBit, 0x2E)) // '+'
    case 0x3b => Some(KBytes(0x00, 0x33)) // ';'
    case 0x3a => Some(KBytes(ShiftBit, 0x33)) // ':'
    case 0x27 => Some(KBytes(0x00, 0x34)) // '\''
    case 0x2c => Some(KBytes(0x00, 0x36)) // ','
    case 0x3c => Some(KBytes(ShiftBit, 0x36)) // '<'
    case 0x2e => Some(KBytes(0x00, 0x37)) // '.'
    case 0x3e => Some(KBytes(ShiftBit, 0x37)) // '>'
    case 0x2f => Some(KBytes(0x00, 0x38)) // '/'
    case 0x3f => Some(KBytes(ShiftBit, 0x38)) // '?'
    case _ => None
  }

  /** The rows of the main-keyboard table from 'A' up to '`'. */
  function KeyboardMiddleKbytes(c: char): (r: Option<KBytes>)
    ensures r.Some? ==> r.value.modifier == 0 || r.value.modifier == ShiftBit
    ensures r.Some? ==> r.value.keycode >= 0x04
  {
    match c as int
    case 0x41 => Some(KBytes(ShiftBit, 0x04)) // 'A'
    case 0x42 => Some(KBytes(ShiftBit, 0x05)) // 'B'
    case 0x43 => Some(KBytes(ShiftBit, 0x06)) // 'C'
    case 0x44 => Some(KBytes(ShiftBit, 0x07)) // 'D'
    case 0x45 => Some(KBytes(ShiftBit, 0x08)) // 'E'
    case 0x46 => Some(KBytes(ShiftBit, 0x09)) // 'F'
    case 0x47 => Some(KBytes(ShiftBit, 0x0A)) // 'G'
    case 0x48 => Some(KBytes(ShiftBit, 0x0B)) // 'H'
    case 0x49 => Some(KBytes(ShiftBit, 0x0C)) // 'I'
    case 0x4a => Some(KBytes(ShiftBit, 0x0D)) // 'J'
    case 0x4b => Some(KBytes(ShiftBit, 0x0E)) // 'K'
    case 0x4c => Some(KBytes(ShiftBit, 0x0F)) // 'L'
    case 0x4d => Some(KBytes(ShiftBit, 0x10)) // 'M'
    case 0x4e => Some(KBytes(ShiftBit, 0x11)) // 'N'
    case 0x4f => Some(KBytes(ShiftBit, 0x12)) // 'O'
    case 0x50 => Some(KBytes(ShiftBit, 0x13)) // 'P'
    case 0x51 => Some(KBytes(ShiftBit, 0x14)) // 'Q'
    case 0x52 => Some(KBytes(ShiftBit, 0x15)) // 'R'
    case 0x53 => Some(KBytes(ShiftBit, 0x16)) // 'S'
    case 0x54 => Some(KBytes(ShiftBit, 0x17)) // 'T'
    case 0x55 => Some(KBytes(ShiftBit, 0x18)) // 'U'
    case 0x56 => Some(KBytes(ShiftBit, 0x19)) // 'V'
    case 0x57 => Some(KBytes(ShiftBit, 0x1A)) // 'W'
    case 0x58 => Some(KBytes(ShiftBit, 0x1B)) // 'X'
    case 0x59 => Some(KBytes(ShiftBit, 0x1C)) // 'Y'
    case 0x5a => Some(KBytes(ShiftBit, 0x1D)) // 'Z'
    case 0x5e => Some(KBytes(ShiftBit, 0x23)) // '^'
    case 0x5f => Some(KBytes(ShiftBit, 0x2D)) // '_'
    case 0x5b => Some(KBytes(0x00, 0x2F)) // '['
    case 0x5d => Some(KBytes(0x00, 0x30)) // ']'
    case 0x5c => Some(KBytes(0x00, 0x31)) // '\\'
    case 0x60 => Some(KBytes(ShiftBit, 0x35)) // '`'
    case _ => None
  }

  /** The rows of the main-keyboard table from 'a' on, including the
      left double quotation mark. */
  function KeyboardHighKbytes(c: char): (r: Option<KBytes>)
    ensures r.Some? ==> r.value.modifier == 0 || r.value.modifier == ShiftBit
    ensures r.Some? ==> r.value.keycode >= 0x04
  {
    match c as int
    case 0x61 => Some(KBytes(0x00, 0x04)) // 'a'
    case 0x62 => Some(KBytes(0x00, 0x05)) // 'b'
    case 0x63 => Some(KBytes(0x00, 0x06)) // 'c'
    case 0x64 => Some(KBytes(0x00, 0x07)) // 'd'
    case 0x65 => Some(KBytes(0x00, 0x08)) // 'e'
    case 0x66 => Some(KBytes(0x00, 0x09)) // 'f'
    case 0x67 => Some(KBytes(0x00, 0x0A)) // 'g'
    case 0x68 => Some(KBytes(0x00, 0x0B)) // 'h'
    case 0x69 => Some(KBytes(0x00, 0x0C)) // 'i'
    case 0x6a => Some(KBytes(0x00, 0x0D)) // 'j'
    case 0x6b => Some(KBytes(0x00, 0x0E)) // 'k'
    case 0x6c => Some(KBytes(0x00, 0x0F)) // 'l'
    case 0x6d => Some(KBytes(0x00, 0x10)) // 'm'
    case 0x6e => Some(KBytes(0x00, 0x11)) // 'n'
    case 0x6f => Some(KBytes(0x00, 0x12)) // 'o'
    case 0x70 => Some(KBytes(0x00, 0x13)) // 'p'
    case 0x71 => Some(KBytes(0x00, 0x14)) // 'q'
    case 0x72 => Some(KBytes(0x00, 0x15)) // 'r'
    case 0x73 => Some(KBytes(0x00, 0x16)) // 's'
    case 0x74 => Some(KBytes(0x00, 0x17)) // 't'
    case 0x75 => Some(KBytes(0x00, 0x18)) // 'u'
    case 0x76 => Some(KBytes(0x00, 0x19)) // 'v'
    case 0x77 => Some(KBytes(0x00, 0x1A)) // 'w'
    case 0x78 => Some(KBytes(0x00, 0x1B)) // 'x'
    case 0x79 => Some(KBytes(0x00, 0x1C)) // 'y'
    case 0x7a => Some(KBytes(0x00, 0x1D)) // 'z'
    case 0x7b => Some(KBytes(ShiftBit, 0x2F)) // '{'
    case 0x7d => Some(KBytes(ShiftBit, 0x30)) // '}'
    case 0x7c => Some(KBytes(ShiftBit, 0x31)) // '|'
    case 0x201c => Some(KBytes(ShiftBit, 0x34)) // '“'
    case 0x7e => Some(KBytes(0x00, 0x35)) // '~'
    case _ => None
  }


  /** The keypad part of the character table: no entry carries a modifier. */
  function KeypadKbytes(c: char): (r: Option<KBytes>)
    ensures r.Some? ==> r.value.modifier == 0
    ensures r.Some? ==> r.value.keycode >= 0x04
  {
    match c as int
    case 0x2f => Some(KBytes(0x00, 0x54)) // '/'
    case 0x2a => Some(KBytes(0x00, 0x55)) // '*'
    case 0x2d => Some(KBytes(0x00, 0x56)) // '-'
    case 0x2b => Some(KBytes(0x00, 0x57)) // '+'
    case 0x3d => Some(KBytes(0x00, 0x67)) // '='
    case 0x28 => Some(KBytes(0x00, 0xB6)) // '('
    case 0x29 => Some(KBytes(0x00, 0xB7)) // ')'
    case 0x7b => Some(KBytes(0x00, 0xB8)) // '{'
    case 0x7d => Some(KBytes(0x00, 0xB9)) // '}'
    case 0x41 => Some(KBytes(0x00, 0xBC)) // 'A'
    case 0x42 => Some(KBytes(0x00, 0xBD)) // 'B'
    case 0x43 => Some(KBytes(0x00, 0xBE)) // 'C'
    case 0x44 => Some(KBytes(0x00, 0xBF)) // 'D'
    case 0x45 => Some(KBytes(0x00, 0xC0)) // 'E'
    case 0x46 => Some(KBytes(0x00, 0xC1)) // 'F'
    case 0x5e => Some(KBytes(0x00, 0xC3)) // '^'
    case 0x25 => Some(KBytes(0x00, 0xC4)) // '%'
    case 0x3c => Some(KBytes(0x00, 0xC5)) // '<'
    case 0x3e => Some(KBytes(0x00, 0xC6)) // '>'
    case 0x26 => Some(KBytes(0x00, 0xC7)) // '&'
    case 0x7c => Some(KBytes(0x00, 0xC9)) // '|'
    case 0x3a => Some(KBytes(0x00, 0xCB)) // ':'
    case 0x23 => Some(KBytes(0x00, 0xCC)) // '#'
    case 0x40 => Some(KBytes(0x00, 0xCE)) // '@'
    case 0x21 => Some(KBytes(0x00, 0xCF)) // '!'
    case _ => None
  }

  /** Newline, tab and space type the keypad Enter, Tab and Spacebar keys,
      unshifted; newline is keypad Enter (0x58), not ReturnEnter (0x28). */
  lemma WhitespaceKeys()
    ensures ToKbytes('\n', KeyOrigin.Keyboard) == Some(KBytes(0, SpecialKey.Enter.ToKbyte()))
    ensures ToKbytes('\t', KeyOrigin.Keyboard) == Some(KBytes(0, SpecialKey.Tab.ToKbyte()))
    ensures ToKbytes(' ', KeyOrigin.Keyboard) == Some(KBytes(0, SpecialKey.Spacebar.ToKbyte()))
    ensures SpecialKey.Enter.ToKbyte() == 0x58 && SpecialKey.ReturnEnter.ToKbyte() == 0x28
    ensures Modifier.LeftShift.ToMkbyte() == ShiftBit
  {
  }

  /** Lower-case letters have the consecutive keycodes 0x04..0x1D and no
      modifier. */
  lemma LowerCaseLetters(c: char)
    requires 'a' <= c <= 'z'
    ensures ToKbytes(c, KeyOrigin.Keyboard) == Some(KBytes(0, (0x04 + (c as int - 'a' as int)) as u8))
  {
  }

  /** An upper-case letter has the keycode of its lower-case letter, with
      LeftShift. */
  lemma UpperCaseLetters(c: char)
    requires 'A' <= c <= 'Z'
    ensures ToKbytes(c, KeyOrigin.Keyboard) == Some(KBytes(ShiftBit, (0x04 + (c as int - 'A' as int)) as u8))
  {
  }

  /** Digits 1..9 have the consecutive keycodes 0x1E..0x26 and 0 follows them
      at 0x27, all without modifier. */
  lemma Digits(c: char)
    requires '0' <= c <= '9'
    ensures ToKbytes(c, KeyOrigin.Keyboard) ==
      Some(KBytes(0, if c == '0' then 0x27 else (0x1E + (c as int - '1' as int)) as u8))
  {
  }

  /** The shifted symbol that shares a key with an unshifted digit or
      punctuation character in the table, as the table pairs them. */
  function ShiftedSymbol(c: char): Option<char>
  {
    match c as int
    case 0x31 => Some(0x21 as char) // '1' -> '!'
    case 0x32 => Some(0x40 as char) // '2' -> '@'
    case 0x33 => Some(0x23 as char) // '3' -> '#'
    case 0x34 => Some(0x24 as char) // '4' -> '$'
    case 0x35 => Some(0x25 as char) // '5' -> '%'
    case 0x36 => Some(0x5e as char) // '6' -> '^'
    case 0x37 => Some(0x26 as char) // '7' -> '&'
    case 0x38 => Some(0x2a as char) // '8' -> '*'
    case 0x39 => Some(0x28 as char) // '9' -> '('
    case 0x30 => Some(0x29 as char) // '0' -> ')'
    case 0x2d => Some(0x5f as char) // '-' -> '_'
    case 0x3d => Some(0x2b as char) // '=' -> '+'
    case 0x5b => Some(0x7b as char) // '[' -> '{'
    case 0x5d => Some(0x7d as char) // ']' -> '}'
    case 0x5c => Some(0x7c as char) // '\\' -> '|'
    case 0x3b => Some(0x3a as char) // ';' -> ':'
    case 0x27 => Some(0x201c as char) // '\'' -> '“'
    case 0x7e => Some(0x60 as char) // '~' -> '`'
    case 0x2c => Some(0x3c as char) // ',' -> '<'
    case 0x2e => Some(0x3e as char) // '.' -> '>'
    case 0x2f => Some(0x3f as char) // '/' -> '?'
    case _ => None
  }

  /** A shifted symbol types the same key as its unshifted partner, with
      LeftShift added. */
  lemma ShiftedSymbolsShareKey(c: char)
    requires ShiftedSymbol(c).Some?
    ensures ToKbytes(c, KeyOrigin.Keyboard).Some?
    ensures ToKbytes(c, KeyOrigin.Keyboard).value.modifier == 0
    ensures ToKbytes(ShiftedSymbol(c).value, KeyOrigin.Keyboard) ==
      Some(KBytes(ShiftBit, ToKbytes(c, KeyOrigin.Keyboard).value.keycode))
  {
  }
}

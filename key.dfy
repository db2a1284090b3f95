/**
 * The virtual keyboard: the 33-byte key report (byte 0 the modifier mask,
 * bytes 1..32 a bitmap with one bit per keycode), the host's LED report,
 * and the keyboard that turns hold, release and press intents into a queue
 * of reports and flushes that queue to the HID interface.
 *
 * The LED bit order is that of the boot keyboard output report, Appendix B.1
 * of the HID 1.11 Device Class Definition.
 */
module Key {

  import opened Wrappers
  import opened Translate
  import opened Transport

  const KeyLen := 32
  const ModIdx := 0
  const KeyIdx := 1
  const PacketLen := KeyIdx + KeyLen

  /** The contents of a key report. */
  type Report = r: seq<bv8> | |r| == PacketLen witness seq(33, _ => 0 as bv8)

  /** `n` zero bytes. */
  function Zeros(n: nat): (r: seq<bv8>)
    ensures |r| == n && forall i :: 0 <= i < n ==> r[i] == 0
  {
    if n == 0 then [] else Zeros(n - 1) + [0]
  }

  /** The report with no modifier and no key. */
  const Blank: Report := Zeros(PacketLen)

  // ---------------------------------------------------------------------
  // Bit positions of keycodes
  // ---------------------------------------------------------------------

  /** The bitmap byte that holds keycode k: byte 1 + k / 8, always one of
      bytes 1..32. */
  function KeyByte(k: u8): (i: nat)
    ensures KeyIdx <= i < PacketLen
  {
    KeyIdx + k as int / 8
  }

  /** The one-bit mask of bit n of a byte. */
  function Mask(n: nat): bv8
    requires n < 8
  {
    match n
    case 0 => 0x01
    case 1 => 0x02
    case 2 => 0x04
    case 3 => 0x08
    case 4 => 0x10
    case 5 => 0x20
    case 6 => 0x40
    case _ => 0x80
  }

  lemma MasksDisjoint(a: nat, b: nat)
    requires a < 8 && b < 8 && a != b
    ensures Mask(a) & Mask(b) == 0
  {
  }

  /** The bit of keycode k within its byte: bit k % 8. */
  function KeyBit(k: u8): bv8
  {
    Mask(k as int % 8)
  }

  /** Distinct keycodes occupy distinct bits of the bitmap. */
  lemma KeyPositionInjective(j: u8, k: u8)
    requires KeyByte(j) == KeyByte(k) && KeyBit(j) == KeyBit(k)
    ensures j == k
  {
  }

  /** Setting or clearing the bit of one keycode leaves the bit of any other
      keycode of the same byte as it was. */
  lemma OtherBitUnchanged(x: bv8, j: u8, k: u8)
    requires KeyByte(j) == KeyByte(k) && j != k
    ensures (x | KeyBit(j)) & KeyBit(k) == x & KeyBit(k)
    ensures (x & !KeyBit(j)) & KeyBit(k) == x & KeyBit(k)
  {
    MasksDisjoint(j as int % 8, k as int % 8);
  }

  // ---------------------------------------------------------------------
  // Report operations
  // ---------------------------------------------------------------------

  /** Whether the bit of keycode k is set (get_key). */
  predicate HasKey(p: Report, k: u8)
  {
    p[KeyByte(k)] & KeyBit(k) != 0
  }

  /** The bit get_key tests is bit k & 7 of bitmap byte k >> 3, counting
      from the least significant bit. */
  lemma HasKeyIsBit(p: Report, k: u8)
    ensures HasKey(p, k) <==> (p[KeyIdx + k as int / 8] >> (k as int % 8)) & 1 == 1
  {
  }

  /** The keycodes whose bits are set in the bitmap. */
  function Keys(p: Report): set<u8>
  {
    set k: u8 | HasKey(p, k)
  }

  /** add_key: ORs the modifier into byte 0 and sets the bit of the keycode;
      keycode 0 sets bit 0 of byte 1. */
  function WithKey(p: Report, kb: KBytes): (r: Report)
    ensures r[ModIdx] == p[ModIdx] | kb.modifier
    ensures HasKey(r, kb.keycode)
    ensures forall i :: KeyIdx <= i < PacketLen && i != KeyByte(kb.keycode) ==> r[i] == p[i]
  {
    var i := KeyByte(kb.keycode);
    p[ModIdx := p[ModIdx] | kb.modifier][i := p[i] | KeyBit(kb.keycode)]
  }

  /** remove_key: clears the modifier's bits in byte 0 and the bit of the
      keycode. */
  function WithoutKey(p: Report, kb: KBytes): (r: Report)
    ensures r[ModIdx] == p[ModIdx] & !kb.modifier
    ensures !HasKey(r, kb.keycode)
    ensures forall i :: KeyIdx <= i < PacketLen && i != KeyByte(kb.keycode) ==> r[i] == p[i]
  {
    var i := KeyByte(kb.keycode);
    p[ModIdx := p[ModIdx] & !kb.modifier][i := p[i] & !KeyBit(kb.keycode)]
  }

  /** add_mod: sets the modifier's bit in byte 0 and nothing else. */
  function WithMod(p: Report, m: Modifier): (r: Report)
    ensures r[ModIdx] & m.ToMkbyte() != 0 && Keys(r) == Keys(p)
    ensures forall n: Modifier :: (r[ModIdx] & n.ToMkbyte() != 0) <==> (n == m || p[ModIdx] & n.ToMkbyte() != 0)
  {
    ModifierBitsOfMask(p[ModIdx], m);
    p[ModIdx := p[ModIdx] | m.ToMkbyte()]
  }

  /** The report with every modifier of the list added, as a shortcut
      presses them together. */
  function WithMods(p: Report, modifiers: seq<Modifier>): (r: Report)
    ensures Keys(r) == Keys(p)
    ensures forall m :: m in modifiers ==> r[ModIdx] & m.ToMkbyte() != 0
    ensures forall n: Modifier :: (r[ModIdx] & n.ToMkbyte() != 0) <==> (n in modifiers || p[ModIdx] & n.ToMkbyte() != 0)
  {
    ModifierBitsOfOr(p[ModIdx], AllToByte(modifiers));
    p[ModIdx := p[ModIdx] | AllToByte(modifiers)]
  }

  /** Adding the modifiers one at a time is adding them all at once. */
  lemma WithModsSnoc(p: Report, modifiers: seq<Modifier>, m: Modifier)
    ensures WithMod(WithMods(p, modifiers), m) == WithMods(p, modifiers + [m])
  {
    AllToByteSnoc(modifiers, m);
    assert (p[ModIdx] | AllToByte(modifiers)) | m.ToMkbyte() == p[ModIdx] | (AllToByte(modifiers) | m.ToMkbyte());
  }

  /** remove_mod: clears the modifier's bit in byte 0 and nothing else. */
  function WithoutMod(p: Report, m: Modifier): (r: Report)
    ensures r[ModIdx] & m.ToMkbyte() == 0 && Keys(r) == Keys(p)
    ensures forall n: Modifier :: (r[ModIdx] & n.ToMkbyte() != 0) <==> (n != m && p[ModIdx] & n.ToMkbyte() != 0)
  {
    ModifierBitsOfMask(p[ModIdx], m);
    p[ModIdx := p[ModIdx] & !m.ToMkbyte()]
  }

  /** Adding a key adds exactly its keycode to the key set. */
  lemma WithKeyKeys(p: Report, kb: KBytes)
    ensures Keys(WithKey(p, kb)) == Keys(p) + {kb.keycode}
  {
    var r := WithKey(p, kb);
    forall k: u8 | k != kb.keycode
      ensures HasKey(r, k) == HasKey(p, k)
    {
      if KeyByte(k) == KeyByte(kb.keycode) {
        OtherBitUnchanged(p[KeyByte(k)], kb.keycode, k);
      }
    }
  }

  /** Removing a key removes exactly its keycode from the key set. */
  lemma WithoutKeyKeys(p: Report, kb: KBytes)
    ensures Keys(WithoutKey(p, kb)) == Keys(p) - {kb.keycode}
  {
    var r := WithoutKey(p, kb);
    forall k: u8 | k != kb.keycode
      ensures HasKey(r, k) == HasKey(p, k)
    {
      if KeyByte(k) == KeyByte(kb.keycode) {
        OtherBitUnchanged(p[KeyByte(k)], kb.keycode, k);
      }
    }
  }

  /** remove_key undoes add_key when the key and its modifier bits were not
      already set. */
  lemma WithoutKeyUndoesWithKey(p: Report, kb: KBytes)
    requires !HasKey(p, kb.keycode) && p[ModIdx] & kb.modifier == 0
    ensures WithoutKey(WithKey(p, kb), kb) == p
  {
    var r := WithoutKey(WithKey(p, kb), kb);
    var i := KeyByte(kb.keycode);
    assert r[i] == p[i] by {
      var b := KeyBit(kb.keycode);
      assert p[i] & b == 0;
      assert (p[i] | b) & !b == p[i] & !b;
    }
    assert r[ModIdx] == p[ModIdx];
    assert forall j | 0 <= j < PacketLen :: r[j] == p[j];
  }

  /** The bitmap bytes of two reports share a set bit (contains_any); the
      modifier byte is not looked at. */
  predicate Collides(a: Report, b: Report)
  {
    exists i :: KeyIdx <= i < PacketLen && a[i] & b[i] != 0
  }

  /** Two reports collide exactly when some keycode is set in both. */
  lemma CollidesIffSharedKey(a: Report, b: Report)
    ensures Collides(a, b) <==> Keys(a) * Keys(b) != {}
  {
    if Collides(a, b) {
      CollisionIsSharedKey(a, b);
    } else {
      NoCollisionNoSharedKey(a, b);
    }
  }

  /** A bit set in the same bitmap byte of both reports is a keycode both
      hold. */
  lemma CollisionIsSharedKey(a: Report, b: Report)
    requires Collides(a, b)
    ensures Keys(a) * Keys(b) != {}
  {
    var i :| KeyIdx <= i < PacketLen && a[i] & b[i] != 0;
    var n := SharedBit(a[i], b[i]);
    var k := ((i - KeyIdx) * 8 + n) as u8;
    assert KeyByte(k) == i && KeyBit(k) == Mask(n);
    assert k in Keys(a) * Keys(b);
  }

  /** Reports whose bitmap bytes share no bit hold no keycode in common. */
  lemma NoCollisionNoSharedKey(a: Report, b: Report)
    requires !Collides(a, b)
    ensures Keys(a) * Keys(b) == {}
  {
    forall k: u8 | HasKey(a, k)
      ensures !HasKey(b, k)
    {
      var i, m := KeyByte(k), KeyBit(k);
      assert a[i] & b[i] == 0;
      assert (a[i] & m) & (b[i] & m) == (a[i] & b[i]) & m;
    }
  }

  /** A bit that two bytes with a common set bit share. */
  lemma SharedBit(x: bv8, y: bv8) returns (n: nat)
    requires x & y != 0
    ensures n < 8 && x & Mask(n) != 0 && y & Mask(n) != 0
  {
    n := if x & y & 0x01 != 0 then 0
      else if x & y & 0x02 != 0 then 1
      else if x & y & 0x04 != 0 then 2
      else if x & y & 0x08 != 0 then 3
      else if x & y & 0x10 != 0 then 4
      else if x & y & 0x20 != 0 then 5
      else if x & y & 0x40 != 0 then 6
      else 7;
  }

  /** The report of add_held_keys: every byte of the second report ORed
      into the first. */
  function Merge(a: Report, b: Report): (r: Report)
    ensures r[ModIdx] == a[ModIdx] | b[ModIdx]
    ensures forall i :: KeyIdx <= i < PacketLen ==> r[i] == a[i] | b[i]
  {
    seq(PacketLen, i requires 0 <= i < PacketLen => a[i] | b[i])
  }

  /** The merged report holds the keys of both. */
  lemma MergeKeys(a: Report, b: Report)
    ensures Keys(Merge(a, b)) == Keys(a) + Keys(b)
  {
    var r := Merge(a, b);
    forall k: u8
      ensures HasKey(r, k) <==> HasKey(a, k) || HasKey(b, k)
    {
      var i, m := KeyByte(k), KeyBit(k);
      assert r[i] & m == (a[i] & m) | (b[i] & m);
    }
  }

  // ---------------------------------------------------------------------
  // Typed keys and sequences of them
  // ---------------------------------------------------------------------

  /** A key given by a character and its origin, or a special key. */
  datatype BasicKey = Char(c: char, origin: KeyOrigin) | Special(special: SpecialKey)

  /** The key bytes of a basic key: a special key always has them, without
      modifier; a character has them only from the keyboard or the keypad,
      with LeftShift at most; no key is keycode 0. */
  function KbytesOf(key: BasicKey): (r: Option<KBytes>)
    ensures key.Special? ==> r.Some? && r.value.modifier == 0
    ensures key.Char? && key.origin == Misc ==> r.None?
    ensures r.Some? ==> r.value.modifier == 0 || r.value.modifier == ShiftBit
    ensures r.Some? ==> r.value.keycode != 0
  {
    match key
    case Char(c, origin) => ToKbytes(c, origin)
    case Special(s) => Some(KBytes(0, s.ToKbyte()))
  }

  /** Every resolved entry carries no modifier or LeftShift alone, as the
      character table guarantees. */
  predicate ShiftOnly(kbs: seq<Option<KBytes>>)
  {
    forall i :: 0 <= i < |kbs| && kbs[i].Some? ==> kbs[i].value.modifier == 0 || kbs[i].value.modifier == ShiftBit
  }

  /** The key bytes of each character, from its own origin. */
  function Resolve(keys: seq<(char, KeyOrigin)>): (r: seq<Option<KBytes>>)
    ensures |r| == |keys| && ShiftOnly(r)
    ensures forall i :: 0 <= i < |keys| ==> r[i] == ToKbytes(keys[i].0, keys[i].1)
  {
    seq(|keys|, i requires 0 <= i < |keys| => ToKbytes(keys[i].0, keys[i].1))
  }

  /** The characters of a string, typed on the main keyboard. */
  function OnKeyboard(s: string): (r: seq<(char, KeyOrigin)>)
    ensures |r| == |s| && forall i :: 0 <= i < |s| ==> r[i] == (s[i], KeyOrigin.Keyboard)
  {
    seq(|s|, i requires 0 <= i < |s| => (s[i], KeyOrigin.Keyboard))
  }

  /** The keycodes of the entries that resolved. */
  function Codes(kbs: seq<Option<KBytes>>): set<u8>
  {
    set i | 0 <= i < |kbs| && kbs[i].Some? :: kbs[i].value.keycode
  }

  /** Some resolved entry needs LeftShift. */
  predicate Shifted(kbs: seq<Option<KBytes>>)
  {
    exists i :: 0 <= i < |kbs| && kbs[i].Some? && kbs[i].value.modifier == ShiftBit
  }

  /** add_key applied to every resolved entry in turn; unresolved entries are
      skipped. */
  function AddAll(p: Report, kbs: seq<Option<KBytes>>): Report
    decreases |kbs|
  {
    if kbs == [] then p
    else
      var q := AddAll(p, kbs[..|kbs| - 1]);
      match kbs[|kbs| - 1]
      case None => q
      case Some(kb) => WithKey(q, kb)
  }

  /** remove_key applied to every resolved entry in turn; unresolved entries
      are skipped. */
  function RemoveAll(p: Report, kbs: seq<Option<KBytes>>): Report
    decreases |kbs|
  {
    if kbs == [] then p
    else
      var q := RemoveAll(p, kbs[..|kbs| - 1]);
      match kbs[|kbs| - 1]
      case None => q
      case Some(kb) => WithoutKey(q, kb)
  }

  lemma CodesSnoc(kbs: seq<Option<KBytes>>, x: Option<KBytes>)
    ensures Codes(kbs + [x]) == Codes(kbs) + (if x.Some? then {x.value.keycode} else {})
  {
    var ks := kbs + [x];
    assert forall i | 0 <= i < |kbs| :: ks[i] == kbs[i];
    assert ks[|kbs|] == x;
  }

  lemma ShiftedSnoc(kbs: seq<Option<KBytes>>, x: Option<KBytes>)
    ensures Shifted(kbs + [x]) <==> Shifted(kbs) || (x.Some? && x.value.modifier == ShiftBit)
  {
    var ks := kbs + [x];
    assert forall i | 0 <= i < |kbs| :: ks[i] == kbs[i];
    assert ks[|kbs|] == x;
  }

  /** Adding every resolved entry sets exactly their keycodes besides the
      keys already set. */
  lemma {:induction false} AddAllKeys(p: Report, kbs: seq<Option<KBytes>>)
    ensures Keys(AddAll(p, kbs)) == Keys(p) + Codes(kbs)
    decreases |kbs|
  {
    if kbs != [] {
      var init, x := kbs[..|kbs| - 1], kbs[|kbs| - 1];
      assert kbs == init + [x];
      AddAllKeys(p, init);
      CodesSnoc(init, x);
      if x.Some? {
        WithKeyKeys(AddAll(p, init), x.value);
      }
    }
  }

  /** Removing every resolved entry clears exactly their keycodes. */
  lemma {:induction false} RemoveAllKeys(p: Report, kbs: seq<Option<KBytes>>)
    ensures Keys(RemoveAll(p, kbs)) == Keys(p) - Codes(kbs)
    decreases |kbs|
  {
    if kbs != [] {
      var init, x := kbs[..|kbs| - 1], kbs[|kbs| - 1];
      assert kbs == init + [x];
      RemoveAllKeys(p, init);
      CodesSnoc(init, x);
      if x.Some? {
        WithoutKeyKeys(RemoveAll(p, init), x.value);
      }
    }
  }

  /** Adding every resolved entry sets LeftShift exactly when some entry
      needs it, and no other modifier bit. */
  lemma {:induction false} AddAllModifier(p: Report, kbs: seq<Option<KBytes>>)
    requires ShiftOnly(kbs)
    ensures AddAll(p, kbs)[ModIdx] == p[ModIdx] | (if Shifted(kbs) then ShiftBit else 0)
    decreases |kbs|
  {
    if kbs != [] {
      var init, x := kbs[..|kbs| - 1], kbs[|kbs| - 1];
      assert kbs == init + [x];
      assert ShiftOnly(init) by {
        assert forall i | 0 <= i < |init| :: init[i] == kbs[i];
      }
      AddAllModifier(p, init);
      ShiftedSnoc(init, x);
    }
  }

  /** Removing every resolved entry clears LeftShift exactly when some entry
      carries it, and no other modifier bit. */
  lemma {:induction false} RemoveAllModifier(p: Report, kbs: seq<Option<KBytes>>)
    requires ShiftOnly(kbs)
    ensures RemoveAll(p, kbs)[ModIdx] == p[ModIdx] & !(if Shifted(kbs) then ShiftBit else 0)
    decreases |kbs|
  {
    if kbs != [] {
      var init, x := kbs[..|kbs| - 1], kbs[|kbs| - 1];
      assert kbs == init + [x];
      assert ShiftOnly(init) by {
        assert forall i | 0 <= i < |init| :: init[i] == kbs[i];
      }
      RemoveAllModifier(p, init);
      ShiftedSnoc(init, x);
    }
  }

  /** The resolved entries, in order. */
  function Present(kbs: seq<Option<KBytes>>): seq<KBytes>
    decreases |kbs|
  {
    if kbs == [] then []
    else
      var q := Present(kbs[..|kbs| - 1]);
      match kbs[|kbs| - 1]
      case None => q
      case Some(kb) => q + [kb]
  }

  /** The frames press_basic_string queues over a holding report h: for each
      resolved entry the holding report with that key, then h alone. */
  function StringFrames(h: Report, kbs: seq<Option<KBytes>>): seq<Report>
    decreases |kbs|
  {
    if kbs == [] then []
    else
      var q := StringFrames(h, kbs[..|kbs| - 1]);
      match kbs[|kbs| - 1]
      case None => q
      case Some(kb) => q + [WithKey(h, kb), h]
  }

  /** The frames of a typed string alternate: the j-th resolved key pressed
      on top of h, then h again, two frames per resolved character. */
  lemma {:induction false} StringFramesAlternate(h: Report, kbs: seq<Option<KBytes>>)
    ensures |StringFrames(h, kbs)| == 2 * |Present(kbs)|
    ensures forall j :: 0 <= j < |Present(kbs)| ==>
      StringFrames(h, kbs)[2 * j] == WithKey(h, Present(kbs)[j]) && StringFrames(h, kbs)[2 * j + 1] == h
    decreases |kbs|
  {
    if kbs != [] {
      StringFramesAlternate(h, kbs[..|kbs| - 1]);
    }
  }

  /** The release frame add_buffer inserts before a packet p: the holding
      report h when the last queued report collides with p. */
  function BufferFrame(queue: seq<Report>, p: Report, h: Report): seq<Report>
  {
    if |queue| > 0 && Collides(queue[|queue| - 1], p) then [h] else []
  }

  /** When the holding report shares no key with p, the report queued last
      after add_buffer never collides with p, so the host sees every key of p
      released before p is sent. */
  lemma BufferFrameReleases(queue: seq<Report>, p: Report, h: Report)
    requires Keys(h) * Keys(p) == {}
    ensures var q := queue + BufferFrame(queue, p, h); q == [] || !Collides(q[|q| - 1], p)
  {
    BufferFrameReleasesUnheld(queue, p, h);
    CollidesIffSharedKey(h, p);
  }

  /** Whatever is held, the report queued last after add_buffer shares with
      p only keys the holding report h holds: every key of p that is not held
      is up before p is sent, so the host sees it pressed anew. */
  lemma BufferFrameReleasesUnheld(queue: seq<Report>, p: Report, h: Report)
    ensures var q := queue + BufferFrame(queue, p, h); q == [] || Keys(q[|q| - 1]) * Keys(p) <= Keys(h)
  {
    if |queue| > 0 {
      CollidesIffSharedKey(queue[|queue| - 1], p);
    }
  }

  // ---------------------------------------------------------------------
  // Read-only queries
  // ---------------------------------------------------------------------

  /** The loop of contains_any: scans bytes 1..32 for a bit set in both reports. */
  method ScanAny(a: Report, b: Report) returns (r: bool)
    ensures r <==> Collides(a, b)
    ensures r <==> Keys(a) * Keys(b) != {}
  {
    CollidesIffSharedKey(a, b);
    var i := KeyIdx;
    while i < PacketLen
      invariant KeyIdx <= i <= PacketLen
      invariant forall j :: KeyIdx <= j < i ==> b[j] & a[j] == 0
    {
      if b[i] & a[i] != 0 {
        return true;
      }
      i := i + 1;
    }
    return false;
  }

  /** Some bitmap byte equals the value v (the test contains_kbyte makes). */
  predicate HasByte(p: Report, v: u8)
  {
    exists i :: KeyIdx <= i < PacketLen && p[i] as int == v as int
  }

  /** The loop of contains_kbyte: scans bytes 1..32 for one equal to the keycode. */
  method ScanKbyte(p: Report, kbyte: u8) returns (r: bool)
    ensures r <==> HasByte(p, kbyte)
  {
    var i := KeyIdx;
    while i < KeyLen + KeyIdx
      invariant KeyIdx <= i <= PacketLen
      invariant forall j :: KeyIdx <= j < i ==> p[j] as int != kbyte as int
    {
      if p[i] as int == kbyte as int {
        return true;
      }
      i := i + 1;
    }
    return false;
  }

  /** contains_char on a report that holds only the key of 'a' answers false:
      the key's bit is set, yet no bitmap byte equals its keycode 0x04. */
  lemma ContainsKbyteMissesHeldKey()
    ensures ToKbytes('a', KeyOrigin.Keyboard) == Some(KBytes(0, 0x04))
    ensures HasKey(WithKey(Blank, KBytes(0, 0x04)), 0x04)
    ensures !HasByte(WithKey(Blank, KBytes(0, 0x04)), 0x04)
  {
    LowerCaseLetters('a');
    var p := WithKey(Blank, KBytes(0, 0x04));
    assert p[KeyIdx] == 0x10;
    assert forall i | KeyIdx < i < PacketLen :: p[i] == 0;
  }

  /** The test contains_kbyte evidently means: after add_key the key is
      found, and no other key is reported as added. */
  lemma HasKeyAfterWithKey(p: Report, kb: KBytes, k: u8)
    ensures HasKey(WithKey(p, kb), k) <==> k == kb.keycode || HasKey(p, k)
  {
    WithKeyKeys(p, kb);
    assert HasKey(WithKey(p, kb), k) <==> k in Keys(WithKey(p, kb));
  }

  /** A report with no key set, whatever its modifier byte. */
  lemma NoKeysWithoutBitmap(m: bv8)
    ensures Keys(Blank[ModIdx := m]) == {}
  {
    var b := Blank[ModIdx := m];
    forall k: u8
      ensures !HasKey(b, k)
    {
      assert b[KeyByte(k)] == 0;
    }
  }

  // ---------------------------------------------------------------------
  // The key packet
  // ---------------------------------------------------------------------

  /** A key report held in a 33-byte array that its methods update in
      place. */
  class KeyPacket {
    const data: array<bv8>

    ghost predicate Valid()
      reads this
    {
      data.Length == PacketLen
    }

    /** The report the packet holds. */
    function Value(): Report
      reads this, data
      requires Valid()
    {
      data[..]
    }

    /** new: the blank report. */
    constructor ()
      ensures Valid() && fresh(data) && Value() == Blank
    {
      data := new bv8[PacketLen](_ => 0);
      new;
      assert data[..] == Blank;
    }

    /** clone: a packet of its own with the same bytes. */
    constructor Clone(other: KeyPacket)
      requires other.Valid()
      ensures Valid() && fresh(data) && Value() == other.Value()
    {
      var a := new bv8[PacketLen];
      forall i | 0 <= i < PacketLen {
        a[i] := other.data[i];
      }
      data := a;
      new;
      assert data[..] == other.data[..];
    }

    /** from_keycodes: the blank report with one modifier byte and key. */
    constructor FromKeycodes(modifier: bv8, key: u8)
      ensures Valid() && fresh(data) && Value() == WithKey(Blank, KBytes(modifier, key))
    {
      data := new bv8[PacketLen](_ => 0);
      new;
      assert data[..] == Blank;
      PushModifierKeyKeycode(modifier, key);
    }

    /** from_mod_keycode: the blank report with a modifier byte; as add_key
        is given keycode 0, bit 0 of byte 1 is set too. */
    constructor FromModKeycode(modifier: bv8)
      ensures Valid() && fresh(data) && Value() == WithKey(Blank, KBytes(modifier, 0))
      ensures Value()[ModIdx] == modifier && Keys(Value()) == {0}
    {
      data := new bv8[PacketLen](_ => 0);
      new;
      assert data[..] == Blank;
      PushModifierKeycode(modifier);
      NoKeysWithoutBitmap(0);
      assert Blank[ModIdx := 0] == Blank;
      WithKeyKeys(Blank, KBytes(modifier, 0));
    }

    /** from_list: the modifiers' byte, then the key of every character that
        resolves from its origin. */
    constructor FromList(modifiers: seq<Modifier>, keys: seq<(char, KeyOrigin)>)
      requires |keys| == 6
      ensures Valid() && fresh(data)
      ensures Value() == AddAll(Blank[ModIdx := AllToByte(modifiers)], Resolve(keys))
    {
      data := new bv8[PacketLen](_ => 0);
      new;
      data[ModIdx] := AllToByte(modifiers);
      ghost var start := Blank[ModIdx := AllToByte(modifiers)];
      assert data[..] == start;
      ghost var kbs := Resolve(keys);
      for j := 0 to |keys|
        invariant Value() == AddAll(start, kbs[..j])
      {
        assert kbs[..j + 1][..j] == kbs[..j];
        var kbytes := ToKbytes(keys[j].0, keys[j].1);
        if kbytes.Some? {
          AddKey(kbytes.value);
        }
      }
      assert kbs[..|keys|] == kbs;
    }

    /** from_special: the blank report with the special key. */
    constructor FromSpecial(special: SpecialKey)
      ensures Valid() && fresh(data) && Value() == WithKey(Blank, KBytes(0, special.ToKbyte()))
    {
      data := new bv8[PacketLen](_ => 0);
      new;
      assert data[..] == Blank;
      var kbytes := special.ToKbyte();
      AddKey(KBytes(0x0, kbytes));
    }

    /** from_char: a packet with the character's key, if it resolves. */
    static method FromChar(c: char, origin: KeyOrigin) returns (r: Option<KeyPacket>)
      ensures r.None? <==> ToKbytes(c, origin).None?
      ensures r.Some? ==> fresh(r.value) && fresh(r.value.data) && r.value.Valid()
      ensures r.Some? ==> r.value.Value() == WithKey(Blank, ToKbytes(c, origin).value)
    {
      var packet := new KeyPacket();
      var kbytes := ToKbytes(c, origin);
      if kbytes.None? {
        return None;
      }
      packet.AddKey(kbytes.value);
      return Some(packet);
    }

    /** add_key */
    method AddKey(kbytes: KBytes)
      requires Valid()
      modifies data
      ensures Value() == WithKey(old(Value()), kbytes)
    {
      data[ModIdx] := data[ModIdx] | kbytes.modifier;
      var i := KeyIdx + kbytes.keycode as int / 8;
      data[i] := data[i] | Mask(kbytes.keycode as int % 8);
    }

    /** remove_key */
    method RemoveKey(kbytes: KBytes)
      requires Valid()
      modifies data
      ensures Value() == WithoutKey(old(Value()), kbytes)
    {
      data[ModIdx] := data[ModIdx] & !kbytes.modifier;
      var i := KeyIdx + kbytes.keycode as int / 8;
      data[i] := data[i] & !Mask(kbytes.keycode as int % 8);
    }

    /** add_mod */
    method AddMod(modifier: Modifier)
      requires Valid()
      modifies data
      ensures Value() == WithMod(old(Value()), modifier)
    {
      data[ModIdx] := data[ModIdx] | modifier.ToMkbyte();
    }

    /** remove_mod */
    method RemoveMod(modifier: Modifier)
      requires Valid()
      modifies data
      ensures Value() == WithoutMod(old(Value()), modifier)
    {
      data[ModIdx] := data[ModIdx] & !modifier.ToMkbyte();
    }

    /** push_modifier */
    method PushModifier(modifier: Modifier)
      requires Valid()
      modifies data
      ensures Value() == WithMod(old(Value()), modifier)
    {
      AddMod(modifier);
    }

    /** The modifiers in turn, as press_shortcut pushes them: byte 0 gains
        every modifier's bit and nothing else changes. */
    method PushModifiers(modifiers: seq<Modifier>)
      requires Valid()
      modifies data
      ensures Value() == WithMods(old(Value()), modifiers)
    {
      ghost var start := Value();
      assert WithMods(start, modifiers[..0]) == start;
      for i := 0 to |modifiers|
        invariant Value() == WithMods(start, modifiers[..i])
      {
        assert modifiers[..i + 1] == modifiers[..i] + [modifiers[i]];
        WithModsSnoc(start, modifiers[..i], modifiers[i]);
        PushModifier(modifiers[i]);
      }
      assert modifiers[..|modifiers|] == modifiers;
    }

    /** The keycodes in turn, as press pushes a modifier-key sequence. */
    method PushKeyKeycodes(sequence: seq<u8>)
      requires Valid()
      modifies data
      ensures Value() == AddAll(old(Value()), PlainKeys(sequence))
    {
      ghost var start := Value();
      for i := 0 to |sequence|
        invariant Value() == AddAll(start, PlainKeys(sequence)[..i])
      {
        assert PlainKeys(sequence)[..i + 1][..i] == PlainKeys(sequence)[..i];
        PushKeyKeycode(sequence[i]);
      }
      assert PlainKeys(sequence)[..|sequence|] == PlainKeys(sequence);
    }

    /** push_key_keycode: a key with no modifier. */
    method PushKeyKeycode(key: u8)
      requires Valid()
      modifies data
      ensures Value() == WithKey(old(Value()), KBytes(0, key))
    {
      AddKey(KBytes(0x00, key));
    }

    /** push_modifier_keycode: a modifier byte, with keycode 0. */
    method PushModifierKeycode(modifier: bv8)
      requires Valid()
      modifies data
      ensures Value() == WithKey(old(Value()), KBytes(modifier, 0))
    {
      AddKey(KBytes(modifier, 0x00));
    }

    /** push_modifier_key_keycode */
    method PushModifierKeyKeycode(modifier: bv8, key: u8)
      requires Valid()
      modifies data
      ensures Value() == WithKey(old(Value()), KBytes(modifier, key))
    {
      AddKey(KBytes(modifier, key));
    }

    /** push_key: the key's bytes if it resolves; otherwise nothing changes
        and None is returned. */
    method PushKey(key: BasicKey) returns (r: Option<u8>)
      requires Valid()
      modifies data
      ensures r.None? <==> KbytesOf(key).None?
      ensures r.Some? ==> r.value == KbytesOf(key).value.keycode
      ensures Value() == if r.None? then old(Value()) else WithKey(old(Value()), KbytesOf(key).value)
    {
      match key
      case Char(c, origin) =>
        r := PushChar(c, origin);
      case Special(special) =>
        r := PushSpecial(special);
    }

    /** push_char */
    method PushChar(key: char, origin: KeyOrigin) returns (r: Option<u8>)
      requires Valid()
      modifies data
      ensures r.None? <==> ToKbytes(key, origin).None?
      ensures r.Some? ==> r.value == ToKbytes(key, origin).value.keycode
      ensures Value() == if r.None? then old(Value()) else WithKey(old(Value()), ToKbytes(key, origin).value)
    {
      var kbytes := ToKbytes(key, origin);
      if kbytes.None? {
        return None;
      }
      AddKey(kbytes.value);
      return Some(kbytes.value.keycode);
    }

    /** push_special: always succeeds. */
    method PushSpecial(special: SpecialKey) returns (r: Option<u8>)
      requires Valid()
      modifies data
      ensures r == Some(special.ToKbyte())
      ensures Value() == WithKey(old(Value()), KBytes(0, special.ToKbyte()))
    {
      var kbytes := special.ToKbyte();
      AddKey(KBytes(0x0, kbytes));
      return Some(kbytes);
    }

    /** contains_char: the byte-equality test of contains_kbyte on the
        character's keycode; false when the character does not resolve. */
    method ContainsChar(key: char, origin: KeyOrigin) returns (r: bool)
      requires Valid()
      ensures r <==> ToKbytes(key, origin).Some? && HasByte(Value(), ToKbytes(key, origin).value.keycode)
    {
      var kbytes := ToKbytes(key, origin);
      if kbytes.None? {
        return false;
      }
      r := ContainsKbyte(kbytes.value.keycode);
    }

    /** contains_any */
    method ContainsAny(packet: KeyPacket) returns (r: bool)
      requires Valid() && packet.Valid()
      ensures r <==> Keys(Value()) * Keys(packet.Value()) != {}
    {
      r := ScanAny(Value(), packet.Value());
    }

    /** contains_special */
    method ContainsSpecial(special: SpecialKey) returns (r: bool)
      requires Valid()
      ensures r <==> HasByte(Value(), special.ToKbyte())
    {
      r := ContainsKbyte(special.ToKbyte());
    }

    /** get_key: whether the keycode's bit is set in the packet. */
    method GetKey(kbytes: KBytes) returns (r: bool)
      requires Valid()
      ensures r <==> kbytes.keycode in Keys(Value())
    {
      r := data[KeyByte(kbytes.keycode)] & KeyBit(kbytes.keycode) != 0;
    }

    /** contains_kbyte */
    method ContainsKbyte(kbyte: u8) returns (r: bool)
      requires Valid()
      ensures r <==> HasByte(Value(), kbyte)
    {
      r := ScanKbyte(Value(), kbyte);
    }

    /** send: writes the report to the keyboard device. */
    method Send(hid: Hid) returns (r: Result<()>)
      requires Valid()
      modifies hid
      ensures r.Ok? ==> hid.keyLog == old(hid.keyLog) + [Value()]
      ensures r.Err? ==> hid.keyLog == old(hid.keyLog)
      ensures hid.mouseLog == old(hid.mouseLog) && hid.ledReads == old(hid.ledReads)
    {
      r := hid.SendKeyPacket(data[..]);
    }

    /** send_all: writes the reports in order and stops at the first error,
        so a failure leaves a proper prefix of them written. */
    static method SendAll(packets: seq<Report>, hid: Hid) returns (r: Result<()>)
      modifies hid
      ensures r.Ok? ==> hid.keyLog == old(hid.keyLog) + packets
      ensures r.Err? ==> exists n :: 0 <= n < |packets| && hid.keyLog == old(hid.keyLog) + packets[..n]
      ensures hid.mouseLog == old(hid.mouseLog) && hid.ledReads == old(hid.ledReads)
    {
      for i := 0 to |packets|
        invariant hid.keyLog == old(hid.keyLog) + packets[..i]
        invariant hid.mouseLog == old(hid.mouseLog) && hid.ledReads == old(hid.ledReads)
      {
        var res := hid.SendKeyPacket(packets[i]);
        if res.Err? {
          return Err(res.error);
        }
        assert packets[..i + 1] == packets[..i] + [packets[i]];
      }
      assert packets[..|packets|] == packets;
      return Ok(());
    }
  }

  /** A from_list packet holds exactly the keys that resolved, and its
      modifier byte is the listed modifiers plus LeftShift when a character
      needed it. */
  lemma FromListReport(modifiers: seq<Modifier>, keys: seq<(char, KeyOrigin)>)
    ensures var p := AddAll(Blank[ModIdx := AllToByte(modifiers)], Resolve(keys));
      Keys(p) == Codes(Resolve(keys)) &&
      p[ModIdx] == AllToByte(modifiers) | (if Shifted(Resolve(keys)) then ShiftBit else 0)
  {
    var start := Blank[ModIdx := AllToByte(modifiers)];
    AddAllKeys(start, Resolve(keys));
    AddAllModifier(start, Resolve(keys));
    NoKeysWithoutBitmap(AllToByte(modifiers));
  }

  // ---------------------------------------------------------------------
  // LED states
  // ---------------------------------------------------------------------

  /** The five LEDs of the host's one-byte LED report. */
  datatype LEDState = Kana | Compose | ScrollLock | CapsLock | NumLock
  {
    /** The LED's own bit: the report LedByte encodes with this LED alone
        on, a single bit among the low five. */
    function Lamp(): (b: bv8)
      ensures b != 0 && b & (b - 1) == 0 && b & 0xE0 == 0
    {
      LedByte(this.NumLock?, this.CapsLock?, this.ScrollLock?, this.Compose?, this.Kana?)
    }

    /** get_state: whether the LED is on in the report, that is whether the
        report has the LED's bit of the LedByte encoding set. */
    predicate GetState(packet: bv8)
      ensures GetState(packet) <==> packet & Lamp() != 0
    {
      match this
      case Kana => packet & (0x01 << 4) != 0
      case Compose => packet & (0x01 << 3) != 0
      case ScrollLock => packet & (0x01 << 2) != 0
      case CapsLock => packet & (0x01 << 1) != 0
      case NumLock => packet & 0x01 != 0
    }
  }

  /** The LED report for five states: NumLock bit 0, CapsLock bit 1,
      ScrollLock bit 2, Compose bit 3, Kana bit 4. */
  function LedByte(numLock: bool, capsLock: bool, scrollLock: bool, compose: bool, kana: bool): bv8
  {
    (if numLock then 0x01 else 0) | (if capsLock then 0x02 else 0) | (if scrollLock then 0x04 else 0)
      | (if compose then 0x08 else 0) | (if kana then 0x10 else 0)
  }

  /** get_state reads back each state LedByte encodes. */
  lemma GetStateDecodesLedByte(numLock: bool, capsLock: bool, scrollLock: bool, compose: bool, kana: bool)
    ensures var b := LedByte(numLock, capsLock, scrollLock, compose, kana);
      LEDState.NumLock.GetState(b) == numLock && LEDState.CapsLock.GetState(b) == capsLock &&
      LEDState.ScrollLock.GetState(b) == scrollLock && LEDState.Compose.GetState(b) == compose &&
      LEDState.Kana.GetState(b) == kana
  {
  }

  /** The five states of a report determine its low five bits; bits 5..7
      are ignored. */
  lemma LedByteEncodesStates(b: bv8)
    ensures LedByte(LEDState.NumLock.GetState(b), LEDState.CapsLock.GetState(b),
      LEDState.ScrollLock.GetState(b), LEDState.Compose.GetState(b), LEDState.Kana.GetState(b)) == b & 0x1F
  {
  }

  /** The last LED report read from the host. */
  class LedStatePacket {
    var data: bv8

    /** new: all LEDs off. */
    constructor ()
      ensures data == 0
    {
      data := 0x00;
    }

    /** new_from_packet: the report read now, or 0 when none arrived before
        the timeout; a read error is passed on. */
    static method NewFromPacket(hid: Hid) returns (r: Result<LedStatePacket>)
      modifies hid
      ensures |hid.ledReads| == |old(hid.ledReads)| + 1 && hid.ledReads[..|old(hid.ledReads)|] == old(hid.ledReads)
      ensures var got := hid.ledReads[|old(hid.ledReads)|];
        (r.Err? <==> got.Err?) &&
        (r.Ok? ==> fresh(r.value) && r.value.data == if got.value.Some? then got.value.value else 0)
      ensures hid.keyLog == old(hid.keyLog) && hid.mouseLog == old(hid.mouseLog)
    {
      var read := hid.ReceiveStatesPacket();
      if read.Err? {
        return Err(read.error);
      }
      var packet := new LedStatePacket();
      packet.data := if read.value.Some? then read.value.value else 0;
      return Ok(packet);
    }

    /** get_state: whether the LED's bit is set in the stored report. */
    predicate GetState(state: LEDState)
      reads this
      ensures GetState(state) <==> data & state.Lamp() != 0
    {
      state.GetState(data)
    }

    /** update: a report read from the host replaces the stored one; no
        report leaves it as it was; a read error is passed on. */
    method Update(hid: Hid) returns (r: Result<()>)
      modifies this, hid
      ensures |hid.ledReads| == |old(hid.ledReads)| + 1 && hid.ledReads[..|old(hid.ledReads)|] == old(hid.ledReads)
      ensures var got := hid.ledReads[|old(hid.ledReads)|];
        (r.Err? <==> got.Err?) &&
        data == if got.Ok? && got.value.Some? then got.value.value else old(data)
      ensures hid.keyLog == old(hid.keyLog) && hid.mouseLog == old(hid.mouseLog)
    {
      var read := hid.ReceiveStatesPacket();
      if read.Err? {
        return Err(read.error);
      }
      match read.value {
        case Some(b) => data := b;
        case None =>
      }
      return Ok(());
    }
  }

  // ---------------------------------------------------------------------
  // The keyboard
  // ---------------------------------------------------------------------

  /** What the layout tables make of a character for the layout-aware press:
      no layout or no usable entry, a modifier byte with a key sequence, or
      a key (modifier byte and keycode) preceded by an optional dead key. */
  datatype Resolution =
    | Unresolved
    | ModifierKeySequence(modifier: bv8, sequence: seq<u8>)
    | RegularKey(deadKey: Option<KBytes>, key: KBytes)

  /** Keycodes without modifier, as push_key_keycode adds them. */
  function PlainKeys(sequence: seq<u8>): (r: seq<Option<KBytes>>)
    ensures |r| == |sequence| && forall i :: 0 <= i < |r| ==> r[i] == Some(KBytes(0, sequence[i]))
  {
    seq(|sequence|, i requires 0 <= i < |sequence| => Some(KBytes(0, sequence[i])))
  }

  /** The report of one key event: the packet, with the key if it resolves. */
  function Pressed(p: Report, kbytes: Option<KBytes>): Report
  {
    match kbytes
    case None => p
    case Some(kb) => WithKey(p, kb)
  }

  /** One packet as press queues it: the separator add_buffer may insert,
      the packet, and the holding report after add_held_keys has ORed the
      packet into it. */
  function QueuePressed(queue: seq<Report>, h: Report, p: Report, buffered: bool): (seq<Report>, Report)
  {
    ((queue + if buffered then BufferFrame(queue, p, h) else []) + [p, Merge(h, p)], Merge(h, p))
  }

  /** The queue and holding report after the layout-aware press. */
  function PressOutcome(queue: seq<Report>, h: Report, res: Resolution): (seq<Report>, Report)
  {
    if res.Unresolved? then (queue, h)
    else if res.ModifierKeySequence? then
      QueuePressed(queue, h, AddAll(WithKey(Blank, KBytes(res.modifier, 0)), PlainKeys(res.sequence)), true)
    else
      var before :=
        if res.deadKey.Some? then QueuePressed(queue, h, WithKey(Blank, res.deadKey.value), true) else (queue, h);
      QueuePressed(before.0, before.1, WithKey(Blank, res.key), false)
  }

  /** press_string: press for each character in turn. */
  function PressAllOutcome(queue: seq<Report>, h: Report, rs: seq<Resolution>): (seq<Report>, Report)
    decreases |rs|
  {
    if rs == [] then (queue, h)
    else
      var before := PressAllOutcome(queue, h, rs[..|rs| - 1]);
      PressOutcome(before.0, before.1, rs[|rs| - 1])
  }

  /** The layout-aware press leaves the pressed key in the holding report,
      as add_held_keys ORs the packet into it: the queue ends with the new
      holding report, which still holds the key, and nothing that was held
      is released. */
  lemma PressKeepsKeyHeld(queue: seq<Report>, h: Report, res: Resolution)
    requires res.RegularKey?
    ensures |PressOutcome(queue, h, res).0| >= |queue| + 2
    ensures PressOutcome(queue, h, res).0[..|queue|] == queue
    ensures PressOutcome(queue, h, res).0[|PressOutcome(queue, h, res).0| - 1] == PressOutcome(queue, h, res).1
    ensures Keys(h) <= Keys(PressOutcome(queue, h, res).1)
    ensures res.key.keycode in Keys(PressOutcome(queue, h, res).1)
  {
    var out := PressOutcome(queue, h, res);
    var q, h' := out.0, out.1;
    var before :=
      if res.deadKey.Some? then QueuePressed(queue, h, WithKey(Blank, res.deadKey.value), true) else (queue, h);
    var q1, h1 := before.0, before.1;
    if res.deadKey.Some? {
      MergeKeys(h, WithKey(Blank, res.deadKey.value));
    }
    WithKeyKeys(Blank, res.key);
    MergeKeys(h1, WithKey(Blank, res.key));
    assert q[..|queue|] == queue by {
      assert q1[..|queue|] == queue;
      assert q == q1 + [WithKey(Blank, res.key), h'];
    }
  }

  /** The virtual keyboard: the queue of reports not yet sent, the keys and
      modifiers held down, and the last LED report. */
  class Keyboard {
    var packets: seq<Report>
    const holding: KeyPacket
    const ledStates: LedStatePacket

    ghost predicate Valid()
      reads this, holding
    {
      holding.Valid()
    }

    /** The report of the keys and modifiers held down. */
    function Holding(): Report
      reads this, holding, holding.data
      requires Valid()
    {
      holding.Value()
    }

    /** new: nothing queued, nothing held, all LEDs off. */
    constructor ()
      ensures Valid() && fresh(holding) && fresh(holding.data) && fresh(ledStates)
      ensures packets == [] && Holding() == Blank && ledStates.data == 0
    {
      packets := [];
      holding := new KeyPacket();
      ledStates := new LedStatePacket();
    }

    /** from_str: a new keyboard with the keystrokes of a string queued. */
    constructor FromStr(s: string)
      ensures Valid() && fresh(holding) && fresh(holding.data) && fresh(ledStates)
      ensures packets == StringFrames(Blank, Resolve(OnKeyboard(s))) && Holding() == Blank
    {
      packets := [];
      holding := new KeyPacket();
      ledStates := new LedStatePacket();
      new;
      PressBasicString(s);
    }

    /** led_state: whether the LED's bit is set in the last LED report. */
    predicate LedState(state: LEDState)
      reads this, ledStates
      ensures LedState(state) <==> ledStates.data & state.Lamp() != 0
    {
      ledStates.GetState(state)
    }

    /** update_led_state */
    method UpdateLedState(hid: Hid) returns (r: Result<()>)
      modifies ledStates, hid
      ensures |hid.ledReads| == |old(hid.ledReads)| + 1 && hid.ledReads[..|old(hid.ledReads)|] == old(hid.ledReads)
      ensures var got := hid.ledReads[|old(hid.ledReads)|];
        (r.Err? <==> got.Err?) &&
        ledStates.data == if got.Ok? && got.value.Some? then got.value.value else old(ledStates.data)
      ensures hid.keyLog == old(hid.keyLog) && hid.mouseLog == old(hid.mouseLog)
    {
      r := ledStates.Update(hid);
    }

    /** create_release_packet: a copy of the holding packet. */
    method CreateReleasePacket() returns (p: KeyPacket)
      requires Valid()
      ensures fresh(p) && fresh(p.data) && p.Valid() && p.Value() == Holding()
    {
      p := new KeyPacket.Clone(holding);
    }

    /** add_buffer: queues the holding report first when the last queued
        report collides with the packet. */
    method AddBuffer(packet: KeyPacket)
      requires Valid() && packet.Valid()
      modifies this
      ensures packets == old(packets) + BufferFrame(old(packets), packet.Value(), Holding())
    {
      if |packets| > 0 {
        var last := packets[|packets| - 1];
        var collides := ScanAny(last, packet.Value());
        if collides {
          packets := packets + [Holding()];
        }
      }
    }

    /** hold_key: the key is held from now on; an unresolvable character
        changes nothing. */
    method HoldKey(key: BasicKey) returns (r: Option<u8>)
      requires Valid()
      modifies this, holding.data
      ensures Valid()
      ensures r.None? <==> KbytesOf(key).None?
      ensures r.None? ==> packets == old(packets) && Holding() == old(Holding())
      ensures r.Some? ==> r.value == KbytesOf(key).value.keycode
      ensures r.Some? ==> Holding() == WithKey(old(Holding()), KbytesOf(key).value)
      ensures r.Some? ==> packets == old(packets) + [Holding()]
    {
      var kbytes := KbytesOf(key);
      if kbytes.None? {
        return None;
      }
      holding.AddKey(kbytes.value);
      packets := packets + [Holding()];
      return Some(kbytes.value.keycode);
    }

    /** release_key: the key and its modifier bits are released; an
        unresolvable character changes nothing. */
    method ReleaseKey(key: BasicKey)
      requires Valid()
      modifies this, holding.data
      ensures Valid()
      ensures KbytesOf(key).None? ==> packets == old(packets) && Holding() == old(Holding())
      ensures KbytesOf(key).Some? ==> Holding() == WithoutKey(old(Holding()), KbytesOf(key).value)
      ensures KbytesOf(key).Some? ==> packets == old(packets) + [Holding()]
    {
      var kbytes := KbytesOf(key);
      if kbytes.None? {
        return;
      }
      holding.RemoveKey(kbytes.value);
      packets := packets + [Holding()];
    }

    /** hold_string: every resolvable character is held, then one report is
        queued. */
    method HoldString(s: string)
      requires Valid()
      modifies this, holding.data
      ensures Valid()
      ensures Holding() == AddAll(old(Holding()), Resolve(OnKeyboard(s)))
      ensures packets == old(packets) + [Holding()]
    {
      ghost var kbs := Resolve(OnKeyboard(s));
      for i := 0 to |s|
        invariant Holding() == AddAll(old(Holding()), kbs[..i])
        invariant packets == old(packets)
      {
        assert kbs[..i + 1][..i] == kbs[..i];
        var kbytes := ToKbytes(s[i], KeyOrigin.Keyboard);
        if kbytes.None? {
          continue;
        }
        holding.AddKey(kbytes.value);
      }
      assert kbs[..|s|] == kbs;
      packets := packets + [Holding()];
    }

    /** release_string: every resolvable character is released, then one
        report is queued. */
    method ReleaseString(s: string)
      requires Valid()
      modifies this, holding.data
      ensures Valid()
      ensures Holding() == RemoveAll(old(Holding()), Resolve(OnKeyboard(s)))
      ensures packets == old(packets) + [Holding()]
    {
      ghost var kbs := Resolve(OnKeyboard(s));
      for i := 0 to |s|
        invariant Holding() == RemoveAll(old(Holding()), kbs[..i])
        invariant packets == old(packets)
      {
        assert kbs[..i + 1][..i] == kbs[..i];
        var kbytes := ToKbytes(s[i], KeyOrigin.Keyboard);
        if kbytes.None? {
          continue;
        }
        holding.RemoveKey(kbytes.value);
      }
      assert kbs[..|s|] == kbs;
      packets := packets + [Holding()];
    }

    /** hold_keycode */
    method HoldKeycode(key: u8)
      requires Valid()
      modifies this, holding.data
      ensures Valid()
      ensures Holding() == WithKey(old(Holding()), KBytes(0, key)) && packets == old(packets) + [Holding()]
    {
      holding.AddKey(KBytes(0, key));
      packets := packets + [Holding()];
    }

    /** release_keycode */
    method ReleaseKeycode(key: u8)
      requires Valid()
      modifies this, holding.data
      ensures Valid()
      ensures Holding() == WithoutKey(old(Holding()), KBytes(0, key)) && packets == old(packets) + [Holding()]
    {
      holding.RemoveKey(KBytes(0, key));
      packets := packets + [Holding()];
    }

    /** hold_mod */
    method HoldMod(modifier: Modifier)
      requires Valid()
      modifies this, holding.data
      ensures Valid()
      ensures Holding() == WithMod(old(Holding()), modifier) && packets == old(packets) + [Holding()]
    {
      holding.PushModifier(modifier);
      packets := packets + [Holding()];
    }

    /** release_mod */
    method ReleaseMod(modifier: Modifier)
      requires Valid()
      modifies this, holding.data
      ensures Valid()
      ensures Holding() == WithoutMod(old(Holding()), modifier) && packets == old(packets) + [Holding()]
    {
      holding.RemoveMod(modifier);
      packets := packets + [Holding()];
    }

    /** add_held_keys: ORs every byte of the packet into the holding packet;
        the packet itself is left as it was. */
    method AddHeldKeys(packet: KeyPacket)
      requires Valid() && packet.Valid() && packet.data != holding.data
      modifies holding.data
      ensures Valid()
      ensures Holding() == Merge(old(Holding()), packet.Value())
      ensures packet.Value() == old(packet.Value())
    {
      for i := 0 to PacketLen
        invariant forall j :: 0 <= j < i ==> holding.data[j] == old(holding.data[j]) | packet.data[j]
        invariant forall j :: i <= j < PacketLen ==> holding.data[j] == old(holding.data[j])
      {
        holding.data[i] := holding.data[i] | packet.data[i];
      }
      assert holding.data[..] == Merge(old(Holding()), packet.Value());
    }

    /** The step press takes for each packet: the frame add_buffer may
        insert (when `buffered`), add_held_keys, then the packet and the new
        holding report are queued. */
    method QueuePacket(packet: KeyPacket, buffered: bool)
      requires Valid() && packet.Valid() && packet.data != holding.data
      modifies this, holding.data
      ensures Valid()
      ensures (packets, Holding()) == QueuePressed(old(packets), old(Holding()), packet.Value(), buffered)
    {
      ghost var q, h := packets, Holding();
      if buffered {
        AddBuffer(packet);
      }
      assert packets == q + if buffered then BufferFrame(q, packet.Value(), h) else [];
      AddHeldKeys(packet);
      packets := packets + [packet.Value()];
      packets := packets + [Holding()];
      assert Holding() == QueuePressed(q, h, packet.Value(), buffered).1;
      assert packets == QueuePressed(q, h, packet.Value(), buffered).0;
    }

    /** press: queues the packet the layout gives for the character, each
        followed by the holding report, which keeps the packet's keys. */
    method Press(res: Resolution) returns (ok: bool)
      requires Valid()
      modifies this, holding.data
      ensures Valid()
      ensures ok <==> !res.Unresolved?
      ensures (packets, Holding()) == PressOutcome(old(packets), old(Holding()), res)
    {
      if res.Unresolved? {
        return false;
      } else if res.ModifierKeySequence? {
        var packet := new KeyPacket.FromModKeycode(res.modifier);
        packet.PushKeyKeycodes(res.sequence);
        QueuePacket(packet, true);
      } else {
        if res.deadKey.Some? {
          var dead := new KeyPacket.FromKeycodes(res.deadKey.value.modifier, res.deadKey.value.keycode);
          QueuePacket(dead, true);
        }
        var packet := new KeyPacket.FromKeycodes(res.key.modifier, res.key.keycode);
        QueuePacket(packet, false);
      }
      ok := true;
    }

    /** press_packet: the packet's keys join the holding packet, and the
        packet itself is queued. */
    method PressPacket(packet: KeyPacket)
      requires Valid() && packet.Valid() && packet.data != holding.data
      modifies this, holding.data
      ensures Valid()
      ensures Holding() == Merge(old(Holding()), packet.Value())
      ensures packets == old(packets) + [packet.Value()]
    {
      AddHeldKeys(packet);
      packets := packets + [packet.Value()];
    }

    /** press_modifier: the holding report with the modifier, then the
        holding report. */
    method PressModifier(modifier: Modifier)
      requires Valid()
      modifies this
      ensures packets == old(packets) + [WithMod(Holding(), modifier), Holding()]
    {
      var packet := CreateReleasePacket();
      packet.PushModifier(modifier);
      packets := packets + [packet.Value()];
      packets := packets + [Holding()];
    }

    /** press_shortcut: the holding report, the holding report with every
        modifier and the key, then the holding report again; it never
        fails. */
    method PressShortcut(modifiers: seq<Modifier>, key: BasicKey) returns (ok: bool)
      requires Valid()
      modifies this
      ensures ok
      ensures var chord := Pressed(WithMods(Holding(), modifiers), KbytesOf(key));
        packets == old(packets) + [Holding(), chord, Holding()]
    {
      var packet := CreateReleasePacket();
      packet.PushModifiers(modifiers);
      ghost var chorded := packet.Value();
      var _ := packet.PushKey(key);
      assert packet.Value() == Pressed(chorded, KbytesOf(key));
      packets := packets + [Holding()];
      packets := packets + [packet.Value()];
      packets := packets + [Holding()];
      return true;
    }

    /** press_special: the holding report with the special key, after the
        frame add_buffer may insert. */
    method PressSpecial(special: SpecialKey)
      requires Valid()
      modifies this
      ensures var frame := WithKey(Holding(), KBytes(0, special.ToKbyte()));
        packets == old(packets) + BufferFrame(old(packets), frame, Holding()) + [frame]
    {
      var packet := CreateReleasePacket();
      var _ := packet.PushSpecial(special);
      AddBuffer(packet);
      packets := packets + [packet.Value()];
    }

    /** press_char: the holding report with the character's key, after the
        frame add_buffer may insert; an unresolvable character still queues
        the plain holding report, and the result is always success. */
    method PressChar(c: char, origin: KeyOrigin) returns (ok: bool)
      requires Valid()
      modifies this
      ensures ok
      ensures var frame := Pressed(Holding(), ToKbytes(c, origin));
        packets == old(packets) + BufferFrame(old(packets), frame, Holding()) + [frame]
    {
      var packet := CreateReleasePacket();
      var _ := packet.PushChar(c, origin);
      AddBuffer(packet);
      packets := packets + [packet.Value()];
      return true;
    }

    /** press_key */
    method PressKey(key: BasicKey) returns (ok: bool)
      requires Valid()
      modifies this
      ensures ok
      ensures var frame := Pressed(Holding(), KbytesOf(key));
        packets == old(packets) + BufferFrame(old(packets), frame, Holding()) + [frame]
    {
      match key {
        case Char(c, origin) =>
          ok := PressChar(c, origin);
        case Special(special) =>
          PressSpecial(special);
      }
      return true;
    }

    /** press_keycode: a report with only that key, built from the blank
        report rather than the holding one. */
    method PressKeycode(key: u8)
      requires Valid()
      modifies this
      ensures var frame := WithKey(Blank, KBytes(0, key));
        packets == old(packets) + BufferFrame(old(packets), frame, Holding()) + [frame]
    {
      var packet := new KeyPacket();
      packet.AddKey(KBytes(0, key));
      AddBuffer(packet);
      packets := packets + [packet.Value()];
    }

    /** press_basic_string: for each character that resolves on the main
        keyboard, the holding report with its key and then the holding
        report; other characters are skipped. */
    method PressBasicString(s: string)
      requires Valid()
      modifies this
      ensures packets == old(packets) + StringFrames(Holding(), Resolve(OnKeyboard(s)))
    {
      ghost var kbs := Resolve(OnKeyboard(s));
      for i := 0 to |s|
        invariant packets == old(packets) + StringFrames(Holding(), kbs[..i])
      {
        assert kbs[..i + 1][..i] == kbs[..i];
        var packet := CreateReleasePacket();
        var kbytes := ToKbytes(s[i], KeyOrigin.Keyboard);
        if kbytes.None? {
          continue;
        }
        packet.AddKey(kbytes.value);
        var needsSpace := packet.GetKey(kbytes.value);
        packets := packets + [packet.Value()];
        if needsSpace {
          packets := packets + [Holding()];
        }
      }
      assert kbs[..|s|] == kbs;
    }

    /** press_string: press for each character in turn. */
    method PressString(rs: seq<Resolution>)
      requires Valid()
      modifies this, holding.data
      ensures Valid()
      ensures (packets, Holding()) == PressAllOutcome(old(packets), old(Holding()), rs)
    {
      for i := 0 to |rs|
        invariant Valid()
        invariant (packets, Holding()) == PressAllOutcome(old(packets), old(Holding()), rs[..i])
      {
        assert rs[..i + 1][..i] == rs[..i];
        var _ := Press(rs[i]);
      }
      assert rs[..|rs|] == rs;
    }

    /** send: with an empty queue nothing is written; otherwise the holding
        report is queued, the queue is written in order and, on success,
        cleared.  On a write error the queue keeps the appended report. */
    method Send(hid: Hid) returns (r: Result<()>)
      requires Valid()
      modifies this, hid
      ensures Holding() == old(Holding())
      ensures old(packets) == [] ==> r.Ok? && packets == [] && hid.keyLog == old(hid.keyLog)
      ensures old(packets) != [] && r.Ok? ==>
        packets == [] && hid.keyLog == old(hid.keyLog) + old(packets) + [Holding()]
      ensures old(packets) != [] && r.Err? ==>
        packets == old(packets) + [Holding()] &&
        exists n :: 0 <= n <= |old(packets)| && hid.keyLog == old(hid.keyLog) + packets[..n]
      ensures hid.mouseLog == old(hid.mouseLog) && hid.ledReads == old(hid.ledReads)
    {
      if |packets| == 0 {
        return Ok(());
      }
      packets := packets + [Holding()];
      r := KeyPacket.SendAll(packets, hid);
      if r.Err? {
        return;
      }
      packets := [];
    }

    /** send_keep: the queue, then the holding report, are written; the
        queue is kept. */
    method SendKeep(hid: Hid) returns (r: Result<()>)
      requires Valid()
      modifies hid
      ensures packets == [] ==> r.Ok? && hid.keyLog == old(hid.keyLog)
      ensures packets != [] && r.Ok? ==> hid.keyLog == old(hid.keyLog) + packets + [Holding()]
      ensures packets != [] && r.Err? ==>
        exists n :: 0 <= n <= |packets| && hid.keyLog == old(hid.keyLog) + (packets + [Holding()])[..n]
      ensures hid.mouseLog == old(hid.mouseLog) && hid.ledReads == old(hid.ledReads)
    {
      if |packets| == 0 {
        return Ok(());
      }
      r := KeyPacket.SendAll(packets, hid);
      if r.Err? {
        assert forall n :: 0 <= n < |packets| ==> (packets + [Holding()])[..n] == packets[..n];
        return;
      }
      var release := CreateReleasePacket();
      r := release.Send(hid);
      assert (packets + [Holding()])[..|packets|] == packets;
    }
  }
}

# virt-hid in Dafny

A model of the core of `virt-hid`. The crate drives a Linux USB HID gadget that acts as a virtual keyboard and mouse. It turns intents into raw HID reports and writes them to the gadget's device files. Intents include holding, releasing or pressing a key, typing a string, clicking, moving and scrolling.

The model has five modules:

- `Translate` (`translate.dfy`, from `src/translate.rs`) holds the pure translation tables:
  - the one-bit mask of each of the eight modifiers and the OR of a list of them;
  - the keycode of every named special key;
  - the character table from a `(char, origin)` pair to a `(modifier byte, keycode)` pair.
- `Key` (`key.dfy`, from `src/key.rs`) models the keyboard side:
  - The 33-byte key report. Byte 0 is the modifier mask. Bytes 1..32 are a bitmap with one bit per keycode.
  - Its specification functions on report values (`WithKey`, `WithoutKey`, `Merge`, `Keys`, ...).
  - The `KeyPacket` class, a report held in an `array<bv8>` and updated in place.
  - The LED decoding (`LEDState`, `LedStatePacket`).
  - The `Keyboard` class. It keeps the queue of reports not yet sent, the report of what is held down, and the last LED report.
- `Mouse` (`mouse.dfy`, from `src/mouse.rs`) models the mouse:
  - the 5-byte pending report in an `array<bv8>` and the mask of held buttons;
  - the two-frame `send`.
- `Transport` (`hid.dfy`, from `src/hid.rs`) models the HID interface as an abstract device:
  - Every keyboard or mouse write may fail. A successful write is appended to a ghost log.
  - Every LED read may fail, return no byte, or return a byte, and is also logged.
- `Wrappers` (`wrappers.dfy`) is the `Option` type.

Layout-aware typing (`press`, `press_string`) looks each character up in foreign keyboard-layout tables. The model takes the result of that lookup as a `Resolution` parameter instead. It is one of three things:

- a modifier with a keycode sequence;
- a regular key with an optional dead key before it;
- no result.

The model keeps the behaviour of the code where it is surprising:

- `add_held_keys` ORs the pressed packet into the *holding* report. So `press` and `press_packet` leave the pressed key held.
- `contains_kbyte` compares whole bitmap bytes with the keycode. See "## Findings".
- Keycode 0 in `add_key` sets bit 0 of byte 1.
- `press_keycode` starts from an empty report, not from the holding report.
- `press_char` still queues the holding report when the character has no key.
- `press_basic_string` always queues a release report after each key.

## Model

| member | source | states |
|---|---|---|
| Translate.Modifier.ToMkbyte | src/translate.rs:39-51 | every modifier's mask has exactly one bit set |
| Translate.MaskIsDiscriminantBit | src/translate.rs:9-27 | the mask of the n-th modifier in declaration order is bit n (LeftControl 0x01 … RightMeta 0x80) |
| Translate.ModifierMasksDisjoint | src/translate.rs:39-51 | distinct modifiers have disjoint masks |
| Translate.ByteDeterminedByModifierBits | src/translate.rs:39-51 | a modifier byte is determined by which modifiers' bits it has set |
| Translate.AllToByte | src/translate.rs:31-36 | a modifier's bit is set in the result iff the modifier is in the list; empty list gives no bit |
| Translate.OrMasks | src/translate.rs:32-35 | the fold has a modifier's bit iff the accumulator or the remaining list has it |
| Translate.AllToByteIgnoresOrder | src/translate.rs:31-36 | two lists with the same members (any order, any duplicates) give the same byte |
| Translate.ModifierBitsOfMask | src/key.rs:484-490 | setting a modifier's mask in a byte turns that modifier on and keeps every other; clearing it turns only that modifier off |
| Translate.ModifierBitsOfOr | src/translate.rs:31-36 | a modifier is on in the OR of two bytes iff it is on in one of them |
| Translate.AllToByteSnoc | src/translate.rs:31-36 | appending a modifier ORs its mask into the byte |
| Translate.SpecialKey.ToKbyte | src/translate.rs:363-509 | every special key has a nonzero keycode |
| Translate.FunctionKeysConsecutive | src/translate.rs:372-411 | F1..F12 are 0x3A..0x45 and F13..F24 are 0x68..0x73, consecutively |
| Translate.KeypadDigitsConsecutive | src/translate.rs:473-482 | keypad 1..9 are 0x59..0x61 and keypad 0 is 0x62 |
| Translate.ModifierKeycodes | src/translate.rs:459-466 | the modifier special keys are 0xE0..0xE7 in modifier order, and a modifier's mask is bit (keycode − 0xE0) |
| Translate.ToKbytes | src/translate.rs:519-651 | Misc origin resolves nothing; keypad results carry no modifier; keyboard results carry no modifier or LeftShift; every keycode is at least 0x04 |
| Translate.KeyboardKbytes | src/translate.rs:521-620 | the keyboard table gives modifier 0 or LeftShift and keycodes from 0x04 |
| Translate.KeypadKbytes | src/translate.rs:621-648 | the keypad table gives modifier 0 and keycodes from 0x04 |
| Translate.WhitespaceKeys | src/translate.rs:522-524 | newline is keypad Enter 0x58 (not ReturnEnter 0x28), tab is Tab, space is Spacebar, all unshifted |
| Translate.LowerCaseLetters | src/translate.rs:525-576 | 'a'..'z' map to 0x04..0x1D without modifier |
| Translate.UpperCaseLetters | src/translate.rs:525-576 | 'A'..'Z' map to the same keycodes as their lower case, with LeftShift |
| Translate.Digits | src/translate.rs:577-596 | '1'..'9' map to 0x1E..0x26 and '0' to 0x27, without modifier |
| Translate.ShiftedSymbolsShareKey | src/translate.rs:577-618 | each shifted symbol has the keycode of its unshifted partner, with LeftShift |
| Key.KeyByte | src/key.rs:468 | the byte a keycode's bit lives in is always inside the bitmap (1..32) |
| Key.KeyPositionInjective | src/key.rs:468-469 | byte index and bit together determine the keycode |
| Key.WithKey | src/key.rs:466-470 | add_key ORs the modifier into byte 0, sets the keycode's bit, and leaves every other bitmap byte unchanged |
| Key.WithoutKey | src/key.rs:472-476 | remove_key clears the modifier bits and the keycode's bit, and leaves every other bitmap byte unchanged |
| Key.WithKeyKeys | src/key.rs:466-470 | the keys held after add_key are the old keys plus the keycode |
| Key.WithoutKeyKeys | src/key.rs:472-476 | the keys held after remove_key are the old keys minus the keycode |
| Key.WithoutKeyUndoesWithKey | src/key.rs:466-476 | remove_key undoes add_key on a report that had neither the key nor the modifier bits |
| Key.HasKeyIsBit | src/key.rs:478-482 | get_key tests bit k & 7 of bitmap byte 1 + (k >> 3) |
| Key.HasKeyAfterWithKey | src/key.rs:478-482 | get_key after add_key is true exactly for the added key and the keys held before |
| Key.WithMod | src/key.rs:484-486 | add_mod turns the modifier on, leaves every other modifier as it was and the held keys unchanged |
| Key.WithoutMod | src/key.rs:488-490 | remove_mod turns the modifier off, leaves every other modifier as it was and the held keys unchanged |
| Key.WithMods | src/key.rs:342-344 | pushing a list of modifiers turns on exactly the listed ones in addition to those already on, and leaves the held keys unchanged |
| Key.WithModsSnoc | src/key.rs:342-344 | pushing one more modifier is pushing the longer list |
| Key.NoKeysWithoutBitmap | src/key.rs:460-464 | a report with an empty bitmap holds no key whatever its modifier byte |
| Key.CollidesIffSharedKey | src/key.rs:544-552 | two reports share a bitmap bit iff they hold a common keycode (the modifier byte plays no part) |
| Key.CollisionIsSharedKey | src/key.rs:544-552 | a bit set in the same bitmap byte of both reports is a keycode both hold |
| Key.NoCollisionNoSharedKey | src/key.rs:544-552 | reports whose bitmap bytes share no bit hold no common keycode |
| Key.ScanAny | src/key.rs:544-552 | the scan over bytes 1..32 answers true iff the two reports hold a common key |
| Key.MergeKeys | src/key.rs:261-267 | the merged report holds the union of both reports' keys |
| Key.Resolve | src/key.rs:507-516 | resolving a key list resolves each pair by the character table, position by position |
| Key.AddAllKeys | src/key.rs:190-203 | adding a list of resolved keys holds the old keys plus every resolved keycode |
| Key.RemoveAllKeys | src/key.rs:206-219 | removing a list of resolved keys holds the old keys minus every resolved keycode |
| Key.AddAllModifier | src/key.rs:190-203 | adding keyboard keys sets LeftShift iff some key is shifted, and nothing else in byte 0 |
| Key.RemoveAllModifier | src/key.rs:206-219 | removing keyboard keys clears LeftShift iff some key is shifted, and nothing else in byte 0 |
| Key.StringFramesAlternate | src/key.rs:398-417 | typing a string queues exactly two reports per resolvable character: holding with the key, then holding |
| Key.BufferFrameReleasesUnheld | src/key.rs:149-155 | whatever is held, after add_buffer the last queued report shares with the packet only held keys, so every unheld key of the packet is up before it is sent |
| Key.BufferFrameReleases | src/key.rs:149-155 | corollary: when the holding report shares no key with the packet, the last queued report does not collide with it |
| Key.KbytesOf | src/key.rs:163-166 | a special key always resolves, without modifier; a character resolves only from the keyboard or keypad, with at most LeftShift; no keycode is 0 |
| Key.ScanKbyte | src/key.rs:559-567 | contains_kbyte's scan answers true iff some bitmap byte equals the keycode |
| Key.ContainsKbyteMissesHeldKey | src/key.rs:559-567 | a report holding 'a' (keycode 0x04) has no bitmap byte equal to 0x04 |
| Key.FromListReport | src/key.rs:507-516 | from_list holds exactly the resolved keys, and its modifier byte is the listed modifiers plus LeftShift iff a key is shifted |
| Key.KeyPacket.constructor | src/key.rs:460-464 | new is the all-zero report |
| Key.KeyPacket.Clone | src/key.rs:651-655 | clone is a fresh copy with the same bytes |
| Key.KeyPacket.FromKeycodes | src/key.rs:493-497 | from_keycodes is the empty report with the modifier and key added |
| Key.KeyPacket.FromModKeycode | src/key.rs:500-504 | from_mod_keycode has the modifier byte and holds keycode 0 only |
| Key.KeyPacket.FromList | src/key.rs:507-516 | from_list is the modifier byte of the list with every resolvable key added |
| Key.KeyPacket.FromSpecial | src/key.rs:527-532 | from_special is the empty report with the special key added |
| Key.KeyPacket.FromChar | src/key.rs:519-524 | from_char fails iff the character has no key, else it is the empty report with that key |
| Key.KeyPacket.AddKey | src/key.rs:466-470 | the packet becomes WithKey of its old value |
| Key.KeyPacket.RemoveKey | src/key.rs:472-476 | the packet becomes WithoutKey of its old value |
| Key.KeyPacket.AddMod | src/key.rs:484-486 | the packet becomes WithMod of its old value |
| Key.KeyPacket.RemoveMod | src/key.rs:488-490 | the packet becomes WithoutMod of its old value |
| Key.KeyPacket.PushModifier | src/key.rs:570-572 | the packet becomes WithMod of its old value |
| Key.KeyPacket.PushModifiers | src/key.rs:342-344 | the packet becomes WithMods of its old value and the list |
| Key.KeyPacket.PushKeyKeycodes | src/key.rs:279-281 | the packet has every keycode of the sequence added without modifier |
| Key.KeyPacket.PushKeyKeycode | src/key.rs:575-577 | the keycode is added without modifier |
| Key.KeyPacket.PushModifierKeycode | src/key.rs:580-582 | the modifier byte is added with keycode 0 |
| Key.KeyPacket.PushModifierKeyKeycode | src/key.rs:585-587 | the modifier byte and keycode are added |
| Key.KeyPacket.PushKey | src/key.rs:590-595 | fails iff the key has no keycode; otherwise adds it and returns its keycode |
| Key.KeyPacket.PushChar | src/key.rs:598-602 | fails iff the character has no key and leaves the packet alone; otherwise adds it and returns its keycode |
| Key.KeyPacket.PushSpecial | src/key.rs:605-609 | always adds the special key unshifted and returns its keycode |
| Key.KeyPacket.GetKey | src/key.rs:478-482 | true iff the packet holds the keycode |
| Key.KeyPacket.ContainsChar | src/key.rs:535-541 | true iff the character has a key and some bitmap byte equals that keycode |
| Key.KeyPacket.ContainsAny | src/key.rs:544-552 | true iff the two packets hold a common key |
| Key.KeyPacket.ContainsSpecial | src/key.rs:555-557 | true iff some bitmap byte equals the special key's keycode |
| Key.KeyPacket.ContainsKbyte | src/key.rs:559-567 | true iff some bitmap byte equals the keycode |
| Key.KeyPacket.Send | src/key.rs:612-614 | on success the report is appended to the keyboard log, on failure nothing is |
| Key.KeyPacket.SendAll | src/key.rs:617-623 | on success every report reaches the device in order; on failure a proper prefix did and sending stopped |
| Key.LEDState.GetState | src/key.rs:40-48 | an LED is on iff the report has the LED's bit of the LedByte encoding set |
| Key.GetStateDecodesLedByte | src/key.rs:40-48 | NumLock is bit 0, CapsLock bit 1, ScrollLock bit 2, Compose bit 3 and Kana bit 4 of the LED byte |
| Key.LedByteEncodesStates | src/key.rs:40-48 | the five LED states together recover the low five bits of the byte |
| Key.LedStatePacket.constructor | src/key.rs:58-60 | a new LED report is zero |
| Key.LedStatePacket.GetState | src/key.rs:72-74 | an LED is on iff its LedByte bit is set in the stored report |
| Key.LedStatePacket.NewFromPacket | src/key.rs:63-67 | one read; an error is passed on, no byte reads as zero, a byte becomes the state |
| Key.LedStatePacket.Update | src/key.rs:77-83 | one read; an error is passed on, a byte replaces the state, no byte keeps it |
| Key.PressKeepsKeyHeld | src/key.rs:287-307 | a regular key press queues at least two reports, ends with the new holding report, keeps every held key and leaves the pressed key held |
| Key.Keyboard.constructor | src/key.rs:120-126 | empty queue, nothing held, LED state zero |
| Key.Keyboard.FromStr | src/key.rs:111-115 | the queue is the typing frames of the string from an empty holding report |
| Key.Keyboard.LedState | src/key.rs:140-142 | an LED is on iff its LedByte bit is set in the last LED report |
| Key.Keyboard.UpdateLedState | src/key.rs:145-147 | updates the LED report from one read as LedStatePacket.Update does |
| Key.Keyboard.CreateReleasePacket | src/key.rs:269-271 | a fresh copy of the holding report |
| Key.Keyboard.AddBuffer | src/key.rs:149-155 | queues a holding report iff the queue is nonempty and its last report shares a key with the packet |
| Key.Keyboard.HoldKey | src/key.rs:158-170 | an unresolvable key changes nothing; otherwise the key is added to holding and one snapshot is queued |
| Key.Keyboard.ReleaseKey | src/key.rs:173-187 | an unresolvable key changes nothing; otherwise the key is removed from holding and one snapshot is queued |
| Key.Keyboard.HoldString | src/key.rs:190-203 | every resolvable character is added to holding, then one snapshot is queued |
| Key.Keyboard.ReleaseString | src/key.rs:206-219 | every resolvable character is removed from holding, then one snapshot is queued |
| Key.Keyboard.HoldKeycode | src/key.rs:222-229 | the keycode is added to holding and one snapshot is queued |
| Key.Keyboard.ReleaseKeycode | src/key.rs:232-239 | the keycode is removed from holding and one snapshot is queued |
| Key.Keyboard.HoldMod | src/key.rs:242-249 | the modifier is added to holding and one snapshot is queued |
| Key.Keyboard.ReleaseMod | src/key.rs:252-259 | the modifier is removed from holding and one snapshot is queued |
| Key.Keyboard.AddHeldKeys | src/key.rs:261-267 | holding becomes its OR with the packet; the packet is unchanged |
| Key.Keyboard.QueuePacket | src/key.rs:282-285 | optional separator, packet ORed into holding, then the packet and the new holding report queued |
| Key.Keyboard.Press | src/key.rs:274-315 | succeeds iff the character resolved; the queue and holding report are those of PressOutcome |
| Key.Keyboard.PressPacket | src/key.rs:318-321 | the packet is ORed into holding and queued |
| Key.Keyboard.PressModifier | src/key.rs:324-333 | queues holding with the modifier, then holding; holding unchanged |
| Key.Keyboard.PressShortcut | src/key.rs:336-351 | always succeeds and queues exactly holding, holding with the modifiers and key, holding |
| Key.Keyboard.PressSpecial | src/key.rs:353-362 | queues the separator if needed, then holding with the special key |
| Key.Keyboard.PressChar | src/key.rs:364-374 | always succeeds; queues the separator if needed, then holding with the character's key if it has one |
| Key.Keyboard.PressKey | src/key.rs:377-383 | always succeeds; as PressChar or PressSpecial for the key |
| Key.Keyboard.PressKeycode | src/key.rs:386-395 | queues the separator if needed, then a report with only the keycode (holding ignored) |
| Key.Keyboard.PressBasicString | src/key.rs:398-417 | queues the typing frames of the string over holding; holding unchanged |
| Key.Keyboard.PressString | src/key.rs:420-428 | the outcome of pressing each resolved character in turn |
| Key.Keyboard.Send | src/key.rs:431-440 | empty queue sends nothing; otherwise a holding report is queued, the whole queue is sent in order and then cleared; on failure a prefix was sent and the queue is kept |
| Key.Keyboard.SendKeep | src/key.rs:443-450 | sends the queue then one holding report, or nothing for an empty queue; the queue is kept |
| Transport.Hid.SendKeyPacket | src/hid.rs:62-65 | a successful write appends the report to the keyboard log; a failed one appends nothing |
| Transport.Hid.SendMousePacket | src/hid.rs:68-71 | a successful write appends the report to the mouse log; a failed one appends nothing |
| Transport.Hid.ReceiveStatesPacket | src/hid.rs:57-59 | each read's outcome is logged; nothing is written |
| Mouse.MouseButton.ToByte | src/mouse.rs:24-30 | each button is one bit within the low three |
| Mouse.ButtonIsDiscriminantBit | src/mouse.rs:24-30 | the n-th button in declaration order is bit n: Left 0x01, Right 0x02, Middle 0x04 |
| Mouse.ButtonBitsDisjoint | src/mouse.rs:24-30 | two buttons share a bit iff they are the same button |
| Mouse.ToBeByte | src/mouse.rs:96-97 | the byte of a displacement is its value modulo 256 (two's complement) |
| Mouse.FromBeByte | src/mouse.rs:96-97 | decoding gives the displacement congruent to the byte, negative iff the top bit is set |
| Mouse.BeByteRoundTrip | src/mouse.rs:96-97 | every byte is the encoding of its decoding |
| Mouse.DisplacementRoundTrip | src/mouse.rs:96-97 | every displacement is the decoding of its encoding |
| Mouse.Decode | src/mouse.rs:45-48 | a report's buttons, X, Y and wheel are bytes 0..3 |
| Mouse.WriteDisplacement | src/mouse.rs:90-108 | writing an axis or wheel byte sets that movement and keeps the others as they decoded |
| Mouse.FramesMoveOnce | src/mouse.rs:111-125 | the first frame carries the pending movement, the second frame none |
| Mouse.FramesClickAndHold | src/mouse.rs:111-125 | a button is down in the first frame iff pressed or held, and in the second iff held |
| Mouse.Mouse.constructor | src/mouse.rs:58-60 | a new mouse has an all-zero report and nothing held |
| Mouse.Mouse.PressButton | src/mouse.rs:63-69 | only byte 0 changes: the button goes down, every other button as before |
| Mouse.Mouse.HoldButton | src/mouse.rs:72-78 | the button joins the held set, the others stay as they were |
| Mouse.Mouse.ReleaseButton | src/mouse.rs:81-87 | the button leaves the held set, the others stay as they were |
| Mouse.Mouse.MoveMouse | src/mouse.rs:90-99 | only the axis byte changes, to the displacement's byte |
| Mouse.Mouse.ScrollWheel | src/mouse.rs:102-108 | only the wheel byte changes, to the displacement's byte |
| Mouse.Mouse.Send | src/mouse.rs:111-125 | writes the pending report with the held buttons, then the held buttons alone; hold is kept; after a successful first write the report is all zero, after a failed one it keeps the held buttons ORed in |
| Mouse.Mouse.ClearData | src/mouse.rs:114 | the report becomes all zero |

## Left out

- Device I/O of `src/hid.rs` is not modelled. This covers the device files, `write_all`/`sync_all`, partial writes, `ppoll` with a timeout, the debug `HID` that writes to temporary files, and the `Duration` arguments. Each write or read is an abstract step that may fail.
- `src/lib.rs` is not part of this model. It only wires the modules together.
- Keyboard layouts are not part of this model. This covers `available_layouts`, `get_layout`, `keycode_for_unicode`, `deadkey_for_keycode`, `key_for_keycode` and `modifier_for_keycode`. `Press` and `PressString` take the lookup's result as a `Resolution`.
- Key.Keyboard.Press: an unknown layout name returns `None`, and so does any lookup result that is neither a modifier sequence nor a regular key. The model folds both into the `Unresolved` resolution.
- `print_data`, `print_packet`, `print_packets`, the debug `println!` blocks and the mouse module's test print only to the console. They are not modelled.
- The serde and num_enum derives are not modelled, and neither is `From<&LEDStatePacket> for u8`. They are library-generated conversions or a plain field read.
- Translate.SpecialKey.ToKbyte: only states that keycodes are nonzero and the keycode ranges above. It does not state that distinct special keys have distinct keycodes.
- Key.KeyPacket.FromList: requires exactly six keys, because the Rust parameter is a fixed array of six.
- Bytes and masks are `bv8`, keycodes a `u8` newtype over `int`, and displacements an `i8` newtype. The `>> 3` and `& 0x7` on a keycode in `add_key` are written as division and remainder by 8, which agree for every `u8`.
- Names that start with `_` in the source (such as `_1AndEnd`) are spelled with a `Keypad` prefix, because Dafny names cannot start with an underscore.

## Findings

| source | as written | input that shows it | evidently intended | confidence | as-written member | corrected member |
|---|---|---|---|---|---|---|
| src/key.rs:559-567 | `contains_kbyte` (and with it `contains_char`, `contains_special`) tests whether some bitmap byte equals the keycode | a report holding 'a': keycode 0x04 sets bit 4 of byte 1, which becomes 0x10, and no byte equals 0x04, so the held key is reported absent | test the keycode's bit, as `get_key` does | not executed | Key.ContainsKbyteMissesHeldKey | Key.HasKeyAfterWithKey |

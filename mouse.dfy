/**
 * The virtual mouse: a pending 5-byte report (buttons, X, Y, wheel and a
 * fifth byte that is never written) and a mask of held buttons.  Intent
 * methods edit the pending report or the mask; `Send` flushes the report as
 * two frames, the second of which keeps only the held buttons down.
 */
module Mouse {

  import opened Transport

  /** Indices of the pending report. */
  const ButtonIdx := 0
  const XIdx := 1
  const YIdx := 2
  const WheelIdx := 3
  const ReportLen := 5

  /** The report with no button down and no motion. */
  const Idle: seq<bv8> := [0, 0, 0, 0, 0]

  /** The three buttons and their bits in the button byte. */
  datatype MouseButton = Left | Right | Middle
  {
    /** The button's position in the declaration. */
    function Discriminant(): (n: nat)
      ensures n < 3
    {
      match this
      case Left => 0
      case Right => 1
      case Middle => 2
    }

    function ToByte(): (r: bv8)
      ensures r != 0 && r & (r - 1) == 0 && r & 0xF8 == 0
    {
      match this
      case Left => 0x01
      case Right => 0x02
      case Middle => 0x04
    }
  }

  /** A button's bit is the bit numbered by its position: Left 0x01,
      Right 0x02, Middle 0x04. */
  lemma ButtonIsDiscriminantBit(b: MouseButton)
    ensures b.ToByte() == 1 << b.Discriminant()
  {
  }

  /** Distinct buttons have disjoint bits, so the bit names the button. */
  lemma ButtonBitsDisjoint(a: MouseButton, b: MouseButton)
    ensures a == b <==> a.ToByte() & b.ToByte() != 0
  {
  }

  /** Whether `button` is down in the button byte `buttons`. */
  predicate Down(buttons: bv8, button: MouseButton)
  {
    buttons & button.ToByte() != 0
  }

  /** The axis a movement applies to. */
  datatype MouseDir = X | Y

  /** The index of the report byte an axis is written to. */
  function AxisIdx(dir: MouseDir): (i: nat)
    ensures i == (if dir.X? then XIdx else YIdx)
  {
    match dir
    case X => XIdx
    case Y => YIdx
  }

  /** A signed byte, as the displacements are. */
  newtype i8 = x: int | -128 <= x < 128

  /** to_be_bytes()[0] of a signed byte: its two's-complement bit
      pattern, the displacement modulo 256. */
  function ToBeByte(d: i8): (r: bv8)
    ensures r as int == (d as int) % 256
  {
    var pattern: int := if d >= 0 then d as int else d as int + 256;
    assert 0 <= pattern < 256;
    pattern as bv8
  }

  /** The signed byte a two's-complement bit pattern stands for: the one
      displacement congruent to it modulo 256. */
  function FromBeByte(b: bv8): (d: i8)
    ensures (d as int) % 256 == b as int
    ensures d < 0 <==> b as int >= 0x80
  {
    var n: int := b as int;
    if n < 0x80 then n as i8 else (n - 256) as i8
  }

  /** Every byte is the pattern of the displacement it decodes to. */
  lemma BeByteRoundTrip(b: bv8)
    ensures ToBeByte(FromBeByte(b)) == b
  {
    assert ToBeByte(FromBeByte(b)) as int == b as int;
  }

  /** Every displacement is decoded back from its pattern. */
  lemma DisplacementRoundTrip(d: i8)
    ensures FromBeByte(ToBeByte(d)) == d
  {
    var n := ToBeByte(d) as int;
    if d >= 0 {
      assert (d as int) % 256 == d as int;
      assert n < 0x80;
    } else {
      assert (d as int) % 256 == d as int + 256;
      assert n >= 0x80;
    }
  }

  /** A report decoded: the button byte and the three signed movements. */
  datatype Motion = Motion(buttons: bv8, x: i8, y: i8, wheel: i8)

  function Decode(report: seq<bv8>): (m: Motion)
    requires |report| == ReportLen
    ensures m.buttons == report[ButtonIdx]
    ensures ToBeByte(m.x) == report[XIdx] && ToBeByte(m.y) == report[YIdx]
    ensures ToBeByte(m.wheel) == report[WheelIdx]
  {
    BeByteRoundTrip(report[XIdx]);
    BeByteRoundTrip(report[YIdx]);
    BeByteRoundTrip(report[WheelIdx]);
    Motion(report[ButtonIdx], FromBeByte(report[XIdx]), FromBeByte(report[YIdx]), FromBeByte(report[WheelIdx]))
  }

  /** Writing a displacement's pattern into the X, Y or wheel byte of a
      report sets that movement and leaves the rest of the report as it
      decoded before, as move_mouse and scroll_wheel rely on. */
  lemma WriteDisplacement(report: seq<bv8>, i: nat, d: i8)
    requires |report| == ReportLen && XIdx <= i <= WheelIdx
    ensures var m, m' := Decode(report), Decode(report[i := ToBeByte(d)]);
      m'.buttons == m.buttons &&
      m'.x == (if i == XIdx then d else m.x) &&
      m'.y == (if i == YIdx then d else m.y) &&
      m'.wheel == (if i == WheelIdx then d else m.wheel)
  {
    DisplacementRoundTrip(d);
  }

  /** The first frame send writes: the pending report with the held
      buttons added to its button byte. */
  function FirstFrame(data: seq<bv8>, hold: bv8): (f: seq<bv8>)
    requires |data| == ReportLen
    ensures |f| == ReportLen
  {
    data[ButtonIdx := data[ButtonIdx] | hold]
  }

  /** The second frame send writes: only the held buttons, no motion. */
  function SecondFrame(hold: bv8): (f: seq<bv8>)
    ensures |f| == ReportLen
  {
    [hold, 0, 0, 0, 0]
  }

  /** The movement of the pending report happens once, in the first
      frame; the second frame carries no movement. */
  lemma FramesMoveOnce(data: seq<bv8>, hold: bv8)
    requires |data| == ReportLen
    ensures var m := Decode(FirstFrame(data, hold));
      m.x == Decode(data).x && m.y == Decode(data).y && m.wheel == Decode(data).wheel
    ensures Decode(SecondFrame(hold)) == Motion(hold, 0, 0, 0)
  {
    var f := FirstFrame(data, hold);
    assert f[XIdx] == data[XIdx] && f[YIdx] == data[YIdx] && f[WheelIdx] == data[WheelIdx];
    assert FromBeByte(0) == 0;
  }

  /** A held button is down in both frames; a button pressed but not held
      goes down in the first frame and up in the second, which makes a
      click. */
  lemma FramesClickAndHold(data: seq<bv8>, hold: bv8, b: MouseButton)
    requires |data| == ReportLen
    ensures Down(FirstFrame(data, hold)[ButtonIdx], b) <==> Down(data[ButtonIdx], b) || Down(hold, b)
    ensures Down(SecondFrame(hold)[ButtonIdx], b) <==> Down(hold, b)
  {
    assert (data[ButtonIdx] | hold) & b.ToByte() == (data[ButtonIdx] & b.ToByte()) | (hold & b.ToByte());
  }

  /** The virtual mouse. */
  class Mouse {
    /** The pending report. */
    const data: array<bv8>
    /** The held buttons. */
    var hold: bv8

    ghost predicate Valid()
      reads this
    {
      data.Length == ReportLen
    }

    /** new: no button, no motion, nothing held. */
    constructor ()
      ensures Valid() && fresh(data)
      ensures data[..] == Idle && hold == 0
    {
      data := new bv8[ReportLen](_ => 0);
      hold := 0;
    }

    /** press_button: the button goes down in the pending report; every
        other button and byte is as it was. */
    method PressButton(button: MouseButton)
      requires Valid()
      modifies data
      ensures data[..] == old(data[..])[ButtonIdx := old(data[ButtonIdx]) | button.ToByte()]
      ensures forall b: MouseButton :: Down(data[ButtonIdx], b) <==> Down(old(data[ButtonIdx]), b) || b == button
    {
      data[ButtonIdx] := data[ButtonIdx] | button.ToByte();
      forall b: MouseButton
        ensures Down(data[ButtonIdx], b) <==> Down(old(data[ButtonIdx]), b) || b == button
      {
        ButtonBitsDisjoint(b, button);
        assert data[ButtonIdx] & b.ToByte() == (old(data[ButtonIdx]) & b.ToByte()) | (button.ToByte() & b.ToByte());
      }
    }

    /** hold_button: the button joins the held mask; the report is not
        touched. */
    method HoldButton(button: MouseButton)
      modifies this
      ensures hold == old(hold) | button.ToByte()
      ensures forall b: MouseButton :: Down(hold, b) <==> Down(old(hold), b) || b == button
    {
      hold := hold | button.ToByte();
      forall b: MouseButton
        ensures Down(hold, b) <==> Down(old(hold), b) || b == button
      {
        ButtonBitsDisjoint(b, button);
        assert hold & b.ToByte() == (old(hold) & b.ToByte()) | (button.ToByte() & b.ToByte());
      }
    }

    /** release_button: the button leaves the held mask; the other held
        buttons stay. */
    method ReleaseButton(button: MouseButton)
      modifies this
      ensures hold == old(hold) & !button.ToByte()
      ensures forall b: MouseButton :: Down(hold, b) <==> Down(old(hold), b) && b != button
    {
      hold := hold & !button.ToByte();
      forall b: MouseButton
        ensures Down(hold, b) <==> Down(old(hold), b) && b != button
      {
        ButtonBitsDisjoint(b, button);
        assert hold & b.ToByte() == (old(hold) & b.ToByte()) & !button.ToByte();
      }
    }

    /** move_mouse: the displacement's byte replaces the axis byte. */
    method MoveMouse(displacement: i8, dir: MouseDir)
      requires Valid()
      modifies data
      ensures data[..] == old(data[..])[AxisIdx(dir) := ToBeByte(displacement)]
    {
      match dir
      case X => data[XIdx] := ToBeByte(displacement);
      case Y => data[YIdx] := ToBeByte(displacement);
    }

    /** scroll_wheel: the displacement's byte replaces the wheel byte. */
    method ScrollWheel(displacement: i8)
      requires Valid()
      modifies data
      ensures data[..] == old(data[..])[WheelIdx := ToBeByte(displacement)]
    {
      data[WheelIdx] := ToBeByte(displacement);
    }

    /** send: writes the first frame, then the second.  When the first
        write fails, send stops there, and the pending report keeps the held
        buttons ORed into it; once the first write has succeeded the pending
        report is idle again, whatever the second write does. */
    method Send(hid: Hid) returns (r: Result<()>)
      requires Valid()
      modifies data, hid
      ensures hold == old(hold)
      ensures hid.keyLog == old(hid.keyLog) && hid.ledReads == old(hid.ledReads)
      ensures r.Ok? ==> hid.mouseLog == old(hid.mouseLog) + [FirstFrame(old(data[..]), hold), SecondFrame(hold)]
      ensures r.Err? ==> hid.mouseLog == old(hid.mouseLog) || hid.mouseLog == old(hid.mouseLog) + [FirstFrame(old(data[..]), hold)]
      ensures |hid.mouseLog| == |old(hid.mouseLog)| ==> r.Err? && data[..] == FirstFrame(old(data[..]), hold)
      ensures |hid.mouseLog| > |old(hid.mouseLog)| ==> data[..] == Idle
    {
      if hold == 0x00 {
        assert FirstFrame(data[..], hold) == data[..];
        r := hid.SendMousePacket(data[..]);
        if r.Err? {
          return;
        }
        ClearData();
        assert data[..] == SecondFrame(hold);
        r := hid.SendMousePacket(data[..]);
      } else {
        data[ButtonIdx] := data[ButtonIdx] | hold;
        r := hid.SendMousePacket(data[..]);
        if r.Err? {
          return;
        }
        ClearData();
        data[ButtonIdx] := hold;
        assert data[..] == SecondFrame(hold);
        r := hid.SendMousePacket(data[..]);
        data[ButtonIdx] := 0;
      }
    }

    /** `data = [0; 5]` */
    method ClearData()
      requires Valid()
      modifies data
      ensures data[..] == Idle
    {
      forall i | 0 <= i < ReportLen {
        data[i] := 0;
      }
    }
  }
}

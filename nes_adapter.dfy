/**
 * The Bluetooth adapter's main loop: read the NES pad, turn the d-pad into
 * the first stick's two axes and the other four buttons into a 4-bit button
 * mask, and send a joystick report only when something changed. Also the
 * connection flags kept by the HID and GAP event callbacks.
 */
module NesAdapter {
  import opened Common
  import opened NesPad
  import opened HiddPrf

  /** The centre position of an axis. */
  const Centre: bv8 := 0x80

  /** One turn's result: the button mask and the axes of both sticks. */
  datatype Conversion = Conversion(buttons: bv16, js1x: bv8, js1y: bv8, js2x: bv8, js2y: bv8)

  /** Read the eight lines, OR-ing line `i` into bit `i`, then invert the word. */
  method ReadPad(levels: seq<bool>) returns (btns: bv16)
    requires |levels| == Lines
    ensures btns == Pressed(levels)
  {
    btns := 0;
    var i := 0;
    while i < 8
      invariant 0 <= i <= 8
      invariant btns == Levels(0, levels, i)
    {
      btns := ShiftIn(btns, 0, levels, i);
      i := i + 1;
    }
    btns := !btns;
  }

  /** Read the pad and convert the reading: the part of a turn before the change check. */
  method Sample(levels: seq<bool>) returns (btns: bv16, js1x: bv8, js1y: bv8, js2x: bv8, js2y: bv8)
    requires |levels| == Lines
    ensures Conversion(btns, js1x, js1y, js2x, js2y) == Convert(levels)
  {
    js1x, js1y, js2x, js2y := 0x80, 0x80, 0x80, 0x80;
    btns := ReadPad(levels);
    if btns & 0x10 != 0 {
      js1x := 0xff;
    } else if btns & 0x20 != 0 {
      js1x := 0x00;
    } else {
      js1x := 0x80;
    }
    if btns & 0x80 != 0 {
      js1y := 0xff;
    } else if btns & 0x40 != 0 {
      js1y := 0x00;
    } else {
      js1y := 0x80;
    }
    btns := btns & 0x000f;
  }

  /** The x axis of the first stick: Up (bit 4, 0x10) gives 0xff and wins over Down (bit 5, 0x20), which gives 0x00. */
  function AxisX(btns: bv16): bv8
  {
    if btns & 0x10 != 0 then 0xff
    else if btns & 0x20 != 0 then 0x00
    else 0x80
  }

  /** The y axis of the first stick: Right (bit 7, 0x80) gives 0xff and wins over Left (bit 6, 0x40), which gives 0x00. */
  function AxisY(btns: bv16): bv8
  {
    if btns & 0x80 != 0 then 0xff
    else if btns & 0x40 != 0 then 0x00
    else 0x80
  }

  /** The conversion of one pad reading. */
  function Convert(levels: seq<bool>): (c: Conversion)
    requires |levels| == Lines
    ensures c.buttons & 0xfff0 == 0
    ensures c.js2x == Centre && c.js2y == Centre
  {
    var btns := Pressed(levels);
    Conversion(btns & 0x000f, AxisX(btns), AxisY(btns), Centre, Centre)
  }

  /** The axis word the loop compares: js2x, js2y, js1x, js1y from the top byte down. */
  function Pack(js2x: bv8, js2y: bv8, js1x: bv8, js1y: bv8): bv32
  {
    ((js2x as bv32) << 24) | ((js2y as bv32) << 16) | ((js1x as bv32) << 8) | (js1y as bv32)
  }

  /** Byte `k` (from the bottom) of an axis word. */
  function Byte(p: bv32, k: nat): bv8
    requires k < 4
  {
    if k == 0 then (p & 0xff) as bv8
    else if k == 1 then ((p >> 8) & 0xff) as bv8
    else if k == 2 then ((p >> 16) & 0xff) as bv8
    else (p >> 24) as bv8
  }

  /** The four axes read back from the packed word. */
  lemma PackBytes(js2x: bv8, js2y: bv8, js1x: bv8, js1y: bv8)
    ensures Byte(Pack(js2x, js2y, js1x, js1y), 3) == js2x
    ensures Byte(Pack(js2x, js2y, js1x, js1y), 2) == js2y
    ensures Byte(Pack(js2x, js2y, js1x, js1y), 1) == js1x
    ensures Byte(Pack(js2x, js2y, js1x, js1y), 0) == js1y
  {
  }

  /** Packing loses nothing: equal words mean equal axes. */
  lemma PackInjective(a: bv8, b: bv8, c: bv8, d: bv8, a': bv8, b': bv8, c': bv8, d': bv8)
    requires Pack(a, b, c, d) == Pack(a', b', c', d')
    ensures a == a' && b == b' && c == c' && d == d'
  {
    PackBytes(a, b, c, d);
    PackBytes(a', b', c', d');
  }

  /** The mask keeps the four buttons A, B, Select and Start, a set bit for a pressed button. */
  lemma ConvertButtons(levels: seq<bool>, k: nat)
    requires |levels| == Lines && k < 16
    ensures k < 4 ==> (Bit(Convert(levels).buttons, k) <==> !levels[k])
    ensures Convert(levels).buttons & 0xfff0 == 0
  {
    if k < 4 {
      PressedBit(levels, k);
      LowNibbleBit(Pressed(levels), k);
    }
  }

  lemma LowNibbleBit(w: bv16, k: nat)
    requires k < 4
    ensures Bit(w & 0x000f, k) <==> Bit(w, k)
  {
    if k == 0 {
      assert Bit(w & 0x000f, 0) <==> Bit(w, 0);
    } else if k == 1 {
      assert Bit(w & 0x000f, 1) <==> Bit(w, 1);
    } else if k == 2 {
      assert Bit(w & 0x000f, 2) <==> Bit(w, 2);
    } else {
      assert Bit(w & 0x000f, 3) <==> Bit(w, 3);
    }
  }

  /**
   * Lines 4 to 7 drive the first stick: x is 0xff when line 4 is pressed,
   * else 0x00 when line 5 is, else centred; y is 0xff when line 7 is pressed,
   * else 0x00 when line 6 is, else centred. The second stick is always centred.
   */
  lemma ConvertAxes(levels: seq<bool>)
    requires |levels| == Lines
    ensures Convert(levels).js1x == 0xff <==> !levels[4]
    ensures Convert(levels).js1x == 0x00 <==> levels[4] && !levels[5]
    ensures Convert(levels).js1x == 0x80 <==> levels[4] && levels[5]
    ensures Convert(levels).js1y == 0xff <==> !levels[7]
    ensures Convert(levels).js1y == 0x00 <==> levels[7] && !levels[6]
    ensures Convert(levels).js1y == 0x80 <==> levels[7] && levels[6]
    ensures Convert(levels).js2x == Centre && Convert(levels).js2y == Centre
  {
    var w := Pressed(levels);
    PressedBit(levels, 4);
    PressedBit(levels, 5);
    PressedBit(levels, 6);
    PressedBit(levels, 7);
    assert w & 0x10 != 0 <==> Bit(w, 4);
    assert w & 0x20 != 0 <==> Bit(w, 5);
    assert w & 0x40 != 0 <==> Bit(w, 6);
    assert w & 0x80 != 0 <==> Bit(w, 7);
  }

  /** The joystick report a conversion is sent as. */
  function Report(c: Conversion): seq<bv8>
  {
    JoystickReport(c.buttons, c.js1x, c.js1y, c.js2x, c.js2y)
  }

  /** What the loop remembers between turns. */
  datatype Last = Last(btns: bv16, js: bv32)

  /** The remembered values for a conversion. */
  function LastOf(c: Conversion): Last
  {
    Last(c.buttons, Pack(c.js2x, c.js2y, c.js1x, c.js1y))
  }

  /** One turn: the conversion to send, if it differs from the remembered values, and the new memory. */
  function Step(last: Last, levels: seq<bool>): (r: (Option<Conversion>, Last))
    requires |levels| == Lines
    ensures r.0.Some? ==> r.0.value == Convert(levels)
    ensures r.1 == LastOf(Convert(levels))
  {
    var c := Convert(levels);
    var js := Pack(c.js2x, c.js2y, c.js1x, c.js1y);
    (if c.buttons != last.btns || last.js != js then Some(c) else None, Last(c.buttons, js))
  }

  /** A report goes out exactly when the buttons or an axis differ from the previous turn. */
  lemma SendsIffChanged(prev: Conversion, levels: seq<bool>)
    requires |levels| == Lines
    ensures Step(LastOf(prev), levels).0.Some? <==> Convert(levels) != prev
    ensures Step(LastOf(prev), levels).0.Some? ==> Step(LastOf(prev), levels).0.value == Convert(levels)
    ensures Step(LastOf(prev), levels).1 == LastOf(Convert(levels))
  {
    var c := Convert(levels);
    if LastOf(prev) == LastOf(c) {
      PackInjective(prev.js2x, prev.js2y, prev.js1x, prev.js1y, c.js2x, c.js2y, c.js1x, c.js1y);
    }
  }

  /** The memory starts at zero, which no conversion packs to: the first turn always sends. */
  lemma FirstTurnSends(levels: seq<bool>)
    requires |levels| == Lines
    ensures Step(Last(0, 0), levels).0.Some?
  {
    var c := Convert(levels);
    PackBytes(c.js2x, c.js2y, c.js1x, c.js1y);
  }

  /** The same reading twice in a row is sent at most once. */
  lemma RepeatNotResent(last: Last, levels: seq<bool>)
    requires |levels| == Lines
    ensures Step(Step(last, levels).1, levels).0.None?
  {
  }

  /** HID profile events the adapter's callback reacts to. */
  datatype HiddEvent =
    | RegFinish(initOk: bool)
    | BatteryReg
    | DeinitFinish
    | Connect(connId: bv16)
    | Disconnect
    | VendorReportWrite
    | OtherHiddEvent

  /** GAP events the adapter's handler reacts to. */
  datatype GapEvent =
    | AdvDataSetComplete
    | SecurityRequest(addr: seq<bv8>)
    | AuthComplete(success: bool)
    | OtherGapEvent

  /** Calls into the GAP API. */
  datatype GapCall =
    | SetDeviceName(name: string)
    | ConfigAdvData
    | StartAdvertising
    | SecurityResponse(addr: seq<bv8>, accept: bool)

  const DeviceName := "Old gamepad/joystick adapter"

  /** The connection flags and id. */
  datatype Link = Link(connected: bool, secConn: bool, connId: bv16)

  /** The HID callback: the new flags and the GAP calls it makes. */
  function OnHidd(l: Link, e: HiddEvent): (r: (Link, seq<GapCall>))
    ensures e.Connect? ==> r.0.connected && r.0.connId == e.connId && r.0.secConn == l.secConn
    ensures e.Disconnect? ==> !r.0.connected && !r.0.secConn && r.0.connId == l.connId
  {
    match e
    case RegFinish(ok) => (l, if ok then [SetDeviceName(DeviceName), ConfigAdvData] else [])
    case Connect(id) => (l.(connected := true, connId := id), [])
    case Disconnect => (l.(secConn := false, connected := false), [StartAdvertising])
    case BatteryReg => (l, [])
    case DeinitFinish => (l, [])
    case VendorReportWrite => (l, [])
    case OtherHiddEvent => (l, [])
  }

  /** The GAP handler: the new flags and the GAP calls it makes. */
  function OnGap(l: Link, e: GapEvent): (r: (Link, seq<GapCall>))
    ensures r.0.connected == l.connected && r.0.connId == l.connId
  {
    match e
    case AdvDataSetComplete => (l, [StartAdvertising])
    case SecurityRequest(addr) => (l, [SecurityResponse(addr, true)])
    case AuthComplete(_) => (l.(secConn := true), [])
    case OtherGapEvent => (l, [])
  }

  /** Connect records the connection id; disconnect clears both flags and advertises again. */
  lemma ConnectThenDisconnect(l: Link, id: bv16)
    ensures OnHidd(l, Connect(id)).0.connected && OnHidd(l, Connect(id)).0.connId == id
    ensures OnHidd(l, Connect(id)).0.secConn == l.secConn
    ensures var d := OnHidd(OnHidd(l, Connect(id)).0, Disconnect);
      !d.0.connected && !d.0.secConn && d.0.connId == id && d.1 == [StartAdvertising]
  {
  }

  /** Only connect, disconnect and a completed pairing touch the flags. */
  lemma OtherEventsKeepLink(l: Link, e: HiddEvent, g: GapEvent)
    ensures !e.Connect? && !e.Disconnect? ==> OnHidd(l, e).0 == l
    ensures !g.AuthComplete? ==> OnGap(l, g).0 == l
    ensures g.AuthComplete? ==> OnGap(l, g).0 == l.(secConn := true)
  {
  }

  /** The adapter: the loop's memory, the connection flags, the HID profile and the GAP calls. */
  class Adapter {
    var btnsLast: bv16
    var jsLast: bv32
    var connected: bool
    var secConn: bool
    var hidConnId: bv16
    var gapCalls: seq<GapCall>
    const hid: HiddEnv

    ghost function Flags(): Link
      reads this
    {
      Link(connected, secConn, hidConnId)
    }

    constructor (hid: HiddEnv)
      ensures btnsLast == 0 && jsLast == 0 && Flags() == Link(false, false, 0)
      ensures gapCalls == [] && this.hid == hid
    {
      btnsLast, jsLast := 0, 0;
      connected, secConn, hidConnId := false, false, 0;
      gapCalls := [];
      this.hid := hid;
    }

    /** One turn of the main loop for the pad reading `levels`. */
    method Iteration(levels: seq<bool>)
      requires |levels| == Lines
      modifies this, hid
      ensures var (sent, last) := Step(Last(old(btnsLast), old(jsLast)), levels);
        Last(btnsLast, jsLast) == last
        && hid.Model() == old(hid.Model())
        && (sent.None? ==> hid.calls == old(hid.calls))
        && (sent.Some? ==>
              hid.calls == old(hid.calls) + [SendReport(hid.gattIf, hidConnId, Report(sent.value))])
      ensures Flags() == old(Flags()) && gapCalls == old(gapCalls)
    {
      var btns, js1x, js1y, js2x, js2y := Sample(levels);
      if btns != btnsLast || jsLast != Pack(js2x, js2y, js1x, js1y) {
        hid.SendJoystickValue(hidConnId, btns, js1x, js1y, js2x, js2y);
      }
      btnsLast := btns;
      jsLast := Pack(js2x, js2y, js1x, js1y);
    }

    /** The HID event callback. */
    method OnHiddEvent(e: HiddEvent)
      modifies this
      ensures Flags() == OnHidd(old(Flags()), e).0
      ensures gapCalls == old(gapCalls) + OnHidd(old(Flags()), e).1
      ensures btnsLast == old(btnsLast) && jsLast == old(jsLast)
    {
      match e {
        case RegFinish(ok) =>
          if ok {
            gapCalls := gapCalls + [SetDeviceName(DeviceName), ConfigAdvData];
          }
        case Connect(id) =>
          connected := true;
          hidConnId := id;
        case Disconnect =>
          secConn := false;
          connected := false;
          gapCalls := gapCalls + [StartAdvertising];
        case BatteryReg =>
        case DeinitFinish =>
        case VendorReportWrite =>
        case OtherHiddEvent =>
      }
    }

    /** The GAP event handler. */
    method OnGapEvent(e: GapEvent)
      modifies this
      ensures Flags() == OnGap(old(Flags()), e).0
      ensures gapCalls == old(gapCalls) + OnGap(old(Flags()), e).1
      ensures btnsLast == old(btnsLast) && jsLast == old(jsLast)
    {
      match e {
        case AdvDataSetComplete =>
          gapCalls := gapCalls + [StartAdvertising];
        case SecurityRequest(addr) =>
          gapCalls := gapCalls + [SecurityResponse(addr, true)];
        case AuthComplete(_) =>
          secConn := true;
        case OtherGapEvent =>
      }
    }
  }
}

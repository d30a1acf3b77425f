/**
 * The radio controller's main loop: read the NES pad into a 16-bit mask
 * whose upper byte is forced to zero, and broadcast a 32-byte gamepad
 * packet over the nRF24L01+ radio whenever the mask differs from the last
 * one sent.
 */
module RadioController {
  import opened Common
  import opened NesPad
  import opened ExitGuard

  /** "gamepad" and its terminating zero, the packet's first eight bytes. */
  const Magic: seq<bv8> := [0x67, 0x61, 0x6d, 0x65, 0x70, 0x61, 0x64, 0x00]

  /** Bytes of padding after the button word. */
  const PadBytes := 22

  /** Size of the packet on the air. */
  const PacketSize := 32

  /** `struct gamepad_packet`: the magic, the button mask and the padding. */
  datatype GamepadPacket = GamepadPacket(magic: seq<bv8>, button: bv16, pad: seq<bv8>)

  predicate WellFormed(p: GamepadPacket)
  {
    |p.magic| == 8 && |p.pad| == PadBytes
  }

  /** The bytes of a packet as the radio sends them, the button word little-endian. */
  function Encode(p: GamepadPacket): (bytes: seq<bv8>)
    requires WellFormed(p)
    ensures |bytes| == PacketSize
  {
    p.magic + [(p.button & 0xff) as bv8, (p.button >> 8) as bv8] + p.pad
  }

  /** The packet a receiver reads back from 32 bytes. */
  function Decode(bytes: seq<bv8>): (p: GamepadPacket)
    requires |bytes| == PacketSize
    ensures WellFormed(p)
  {
    GamepadPacket(bytes[..8], ((bytes[9] as bv16) << 8) | (bytes[8] as bv16), bytes[10..])
  }

  lemma ByteSplit(b: bv16)
    ensures ((((b >> 8) as bv8) as bv16) << 8) | (((b & 0xff) as bv8) as bv16) == b
  {
  }

  /** Decoding the sent bytes gives back the packet. */
  lemma DecodeEncode(p: GamepadPacket)
    requires WellFormed(p)
    ensures Decode(Encode(p)) == p
  {
    var bytes := Encode(p);
    assert bytes[..8] == p.magic;
    assert bytes[10..] == p.pad;
    ByteSplit(p.button);
  }

  /** The mask for one reading: 0xff00 with the eight lines OR-ed in, inverted. */
  function Sampled(levels: seq<bool>): (b: bv16)
    requires |levels| == Lines
    ensures b == Pressed(levels) & 0x00ff
  {
    LevelsFromBase(0xff00, levels);
    !Levels(0xff00, levels, 8)
  }

  /** Read the eight lines into the low byte of 0xff00, then invert the word. */
  method Sample(levels: seq<bool>) returns (b: bv16)
    requires |levels| == Lines
    ensures b == Sampled(levels)
  {
    b := 0xff00;
    for i := 0 to 8
      invariant b == Levels(0xff00, levels, i)
    {
      b := ShiftIn(b, 0xff00, levels, i);
    }
    b := !b;
  }

  /** The upper byte of a mask is always zero; bit `k` is set iff button `k` is pressed. */
  lemma SampledBits(levels: seq<bool>, k: nat)
    requires |levels| == Lines && k < Lines
    ensures Sampled(levels) & 0xff00 == 0
    ensures Bit(Sampled(levels), k) <==> !levels[k]
  {
    PressedBit(levels, k);
    LowByteBit(Pressed(levels), k);
  }

  lemma LowByteBit(w: bv16, k: nat)
    requires k < Lines
    ensures Bit(w & 0x00ff, k) <==> Bit(w, k)
  {
    if k == 0 {
      assert Bit(w & 0x00ff, 0) <==> Bit(w, 0);
    } else if k == 1 {
      assert Bit(w & 0x00ff, 1) <==> Bit(w, 1);
    } else if k == 2 {
      assert Bit(w & 0x00ff, 2) <==> Bit(w, 2);
    } else if k == 3 {
      assert Bit(w & 0x00ff, 3) <==> Bit(w, 3);
    } else if k == 4 {
      assert Bit(w & 0x00ff, 4) <==> Bit(w, 4);
    } else if k == 5 {
      assert Bit(w & 0x00ff, 5) <==> Bit(w, 5);
    } else if k == 6 {
      assert Bit(w & 0x00ff, 6) <==> Bit(w, 6);
    } else {
      assert Bit(w & 0x00ff, 7) <==> Bit(w, 7);
    }
  }

  /**
   * One turn: the packet to send if the mask differs from `prev`, and the
   * new `prev`. `pad` is whatever the packet's padding bytes happen to hold.
   */
  function Step(prev: bv16, levels: seq<bool>, pad: seq<bv8>): (r: (Option<GamepadPacket>, bv16))
    requires |levels| == Lines
    ensures r.1 == Sampled(levels)
    ensures r.0.Some? ==> r.0.value.magic == Magic && r.0.value.button == r.1
  {
    var b := Sampled(levels);
    if b != prev then (Some(GamepadPacket(Magic, b, pad)), b) else (None, prev)
  }

  /**
   * A packet goes out exactly when the mask changed; it carries the magic and
   * the mask; either way the remembered mask ends up equal to the new one.
   */
  lemma SendsIffChanged(prev: bv16, levels: seq<bool>, pad: seq<bv8>)
    requires |levels| == Lines
    ensures Step(prev, levels, pad).0.Some? <==> Sampled(levels) != prev
    ensures Step(prev, levels, pad).0.Some? ==>
      Step(prev, levels, pad).0.value.magic == Magic && Step(prev, levels, pad).0.value.button == Sampled(levels)
    ensures Step(prev, levels, pad).1 == Sampled(levels)
  {
  }

  /** The remembered mask starts at 0xffff, which no mask equals: the first reading is sent. */
  lemma FirstReadingSent(levels: seq<bool>, pad: seq<bv8>)
    requires |levels| == Lines
    ensures Step(0xffff, levels, pad).0.Some?
  {
    SampledBits(levels, 0);
  }

  /** The same reading twice in a row is sent at most once. */
  lemma RepeatNotResent(prev: bv16, levels: seq<bool>, pad: seq<bv8>, pad2: seq<bv8>)
    requires |levels| == Lines
    ensures Step(Step(prev, levels, pad).1, levels, pad2).0.None?
  {
  }

  /** The controller: the last mask sent, the packets sent and the exit guard. */
  class Controller {
    var bPrev: bv16
    var sent: seq<GamepadPacket>
    const guard: Guard

    constructor ()
      ensures bPrev == 0xffff && sent == []
      ensures fresh(guard) && guard.Valid() && guard.steps == ControllerCleanup && guard.count == 0
    {
      bPrev := 0xffff;
      sent := [];
      guard := new Guard(ControllerCleanup);
    }

    /** One turn of the main loop for the reading `levels`. */
    method Iteration(levels: seq<bool>, pad: seq<bv8>)
      requires |levels| == Lines && |pad| == PadBytes
      modifies this
      ensures var (packet, prev) := Step(old(bPrev), levels, pad);
        bPrev == prev
        && (packet.None? ==> sent == old(sent))
        && (packet.Some? ==> sent == old(sent) + [packet.value] && WellFormed(packet.value))
    {
      var b := Sample(levels);
      if b != bPrev {
        var pck := GamepadPacket([0, 0, 0, 0, 0, 0, 0, 0], 0, pad);
        pck := pck.(magic := Magic);
        pck := pck.(button := b);
        sent := sent + [pck];
        bPrev := b;
      }
    }

    /** Initialisation failed: exit with failure through the guard. */
    method InitFailed()
      requires guard.Valid() && guard.steps == ControllerCleanup
      modifies guard
      ensures guard.Valid()
      ensures guard.exits == old(guard.exits) + [ExitFailure]
      ensures old(guard.count) == 0 ==> guard.performed == ControllerCleanup
      ensures old(guard.count) > 0 ==> guard.performed == old(guard.performed)
    {
      guard.Exit(ExitFailure);
    }
  }
}

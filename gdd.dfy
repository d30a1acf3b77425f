/**
 * The daemon's uinput devices: one virtual gamepad per sender id, kept in a
 * list that is searched before anything is opened, and the translation of a
 * button mask into the key events written to such a device.
 *
 * The kernel side is an append-only log of the system calls made: opening
 * the uinput node, the ioctls that configure and create a device, and the
 * events written to it. What `open` returns and whether the node allocation
 * succeeds come in as parameters.
 */
module Gdd {
  import opened Common

  // Event types and codes from the Linux input event interface.
  const EvSyn := 0x00
  const EvKey := 0x01
  const SynReport := 0
  const BtnA := 0x130
  const BtnB := 0x131
  const BtnSelect := 0x13a
  const BtnStart := 0x13b
  const BtnDpadUp := 0x220
  const BtnDpadDown := 0x221
  const BtnDpadLeft := 0x222
  const BtnDpadRight := 0x223
  const BusUsb := 0x03

  /** Number of key events per batch, one per pad line. */
  const Keys := 8

  /** One `struct input_event`; the timestamp fields are written as zero. */
  datatype InputEvent = InputEvent(sec: int, usec: int, evType: int, code: int, value: int)

  /** The `struct uinput_setup` passed to `UI_DEV_SETUP`. */
  datatype UinputSetup = UinputSetup(bustype: int, vendor: int, product: int, name: string)

  datatype Request =
    | SetEvBit(evType: int)
    | SetKeyBit(code: int)
    | DevSetup(setup: UinputSetup)
    | DevCreate
    | DevDestroy

  /** A system call the daemon makes on the uinput side. */
  datatype Syscall =
    | OpenUinput
    | Ioctl(fd: int, request: Request)
    | Write(fd: int, event: InputEvent)
    | Close(fd: int)

  /** The identity every created device announces. */
  function GamepadSetup(): (s: UinputSetup)
    ensures s.bustype == BusUsb && s.vendor == 0x7777 && s.product == 0x7777
    ensures s.name == "Duge's gamepad"
  {
    UinputSetup(BusUsb, 0x7777, 0x7777, "Duge's gamepad")
  }

  /** The key code bit `i` of the mask drives. */
  function ButtonCode(i: nat): int
    requires i < Keys
  {
    match i
    case 0 => BtnA
    case 1 => BtnB
    case 2 => BtnSelect
    case 3 => BtnStart
    case 4 => BtnDpadUp
    case 5 => BtnDpadDown
    case 6 => BtnDpadLeft
    case _ => BtnDpadRight
  }

  /** The key codes in bit order, as the device enables them. */
  const KeyCodes: seq<int> := [BtnA, BtnB, BtnSelect, BtnStart, BtnDpadUp, BtnDpadDown, BtnDpadLeft, BtnDpadRight]

  /** The calls that configure and create a device on the freshly opened `fd`. */
  function SetupCalls(fd: int): (calls: seq<Syscall>)
    ensures |calls| == 2 + Keys + 1
    ensures calls[0] == Ioctl(fd, SetEvBit(EvKey))
    ensures forall i :: 0 <= i < Keys ==> calls[1 + i] == Ioctl(fd, SetKeyBit(KeyCodes[i]))
    ensures calls[|calls| - 2] == Ioctl(fd, DevSetup(GamepadSetup()))
    ensures calls[|calls| - 1] == Ioctl(fd, DevCreate)
  {
    [Ioctl(fd, SetEvBit(EvKey))]
    + [Ioctl(fd, SetKeyBit(BtnA)), Ioctl(fd, SetKeyBit(BtnB)), Ioctl(fd, SetKeyBit(BtnSelect)),
       Ioctl(fd, SetKeyBit(BtnStart)), Ioctl(fd, SetKeyBit(BtnDpadUp)), Ioctl(fd, SetKeyBit(BtnDpadDown)),
       Ioctl(fd, SetKeyBit(BtnDpadLeft)), Ioctl(fd, SetKeyBit(BtnDpadRight))]
    + [Ioctl(fd, DevSetup(GamepadSetup())), Ioctl(fd, DevCreate)]
  }

  /** The key event for bit `i`: value 1 when the bit is set, else 0. */
  function KeyEvent(mask: bv16, i: nat): InputEvent
    requires i < Keys
  {
    InputEvent(0, 0, EvKey, ButtonCode(i), if Bit(mask, i) then 1 else 0)
  }

  /** The synchronisation event that closes a batch. */
  function SynEvent(): InputEvent
  {
    InputEvent(0, 0, EvSyn, SynReport, 0)
  }

  /** The key events for bits `0 .. n-1`, in bit order. */
  function KeyEvents(mask: bv16, n: nat): (es: seq<InputEvent>)
    requires n <= Keys
    ensures |es| == n
    ensures forall i :: 0 <= i < n ==> es[i] == KeyEvent(mask, i)
  {
    if n == 0 then [] else KeyEvents(mask, n - 1) + [KeyEvent(mask, n - 1)]
  }

  /** The events written for one button mask: eight key events, then a sync. */
  function ButtonBatch(mask: bv16): (batch: seq<InputEvent>)
    ensures |batch| == Keys + 1
    ensures forall i :: 0 <= i < Keys ==> batch[i].evType == EvKey
    ensures batch[Keys].evType == EvSyn
  {
    KeyEvents(mask, Keys) + [SynEvent()]
  }

  /** The writes of `events` to `fd`, in order. */
  function Writes(fd: int, events: seq<InputEvent>): (calls: seq<Syscall>)
    ensures |calls| == |events|
    ensures forall i :: 0 <= i < |events| ==> calls[i] == Write(fd, events[i])
  {
    seq(|events|, i requires 0 <= i < |events| => Write(fd, events[i]))
  }

  /**
   * A batch is nine events: eight key events for the pad's buttons in bit
   * order, each 1 exactly when its bit is set, then SYN_REPORT with value 0.
   */
  lemma BatchShape(mask: bv16)
    ensures |ButtonBatch(mask)| == Keys + 1
    ensures forall i :: 0 <= i < Keys ==>
      ButtonBatch(mask)[i].evType == EvKey && ButtonBatch(mask)[i].code == KeyCodes[i]
      && (ButtonBatch(mask)[i].value == 1 <==> Bit(mask, i))
      && (ButtonBatch(mask)[i].value == 0 <==> !Bit(mask, i))
    ensures ButtonBatch(mask)[Keys] == InputEvent(0, 0, EvSyn, SynReport, 0)
  {
    forall i | 0 <= i < Keys
      ensures ButtonBatch(mask)[i].code == KeyCodes[i]
    {
      assert ButtonBatch(mask)[i] == KeyEvent(mask, i);
    }
  }

  /** The eight buttons map to eight different key codes. */
  lemma ButtonCodesDistinct(i: nat, j: nat)
    requires i < Keys && j < Keys && i != j
    ensures ButtonCode(i) != ButtonCode(j)
  {
  }

  /** Two masks give the same batch iff they agree on their low byte. */
  lemma BatchDependsOnLowByte(m1: bv16, m2: bv16)
    ensures ButtonBatch(m1) == ButtonBatch(m2) <==> m1 & 0xff == m2 & 0xff
  {
    if m1 & 0xff == m2 & 0xff {
      LowByteBits(m1, m2);
      assert KeyEvents(m1, Keys) == KeyEvents(m2, Keys);
    }
    if ButtonBatch(m1) == ButtonBatch(m2) {
      forall i | 0 <= i < Keys
        ensures Bit(m1, i) == Bit(m2, i)
      {
        assert ButtonBatch(m1)[i] == ButtonBatch(m2)[i];
      }
      BitsLowByte(m1, m2);
    }
  }

  lemma LowByteBits(m1: bv16, m2: bv16)
    requires m1 & 0xff == m2 & 0xff
    ensures forall i :: 0 <= i < Keys ==> Bit(m1, i) == Bit(m2, i)
  {
    assert Bit(m1, 0) == Bit(m2, 0);
    assert Bit(m1, 1) == Bit(m2, 1);
    assert Bit(m1, 2) == Bit(m2, 2);
    assert Bit(m1, 3) == Bit(m2, 3);
    assert Bit(m1, 4) == Bit(m2, 4);
    assert Bit(m1, 5) == Bit(m2, 5);
    assert Bit(m1, 6) == Bit(m2, 6);
    assert Bit(m1, 7) == Bit(m2, 7);
  }

  lemma BitsLowByte(m1: bv16, m2: bv16)
    requires forall i :: 0 <= i < Keys ==> Bit(m1, i) == Bit(m2, i)
    ensures m1 & 0xff == m2 & 0xff
  {
    assert Bit(m1, 0) == Bit(m2, 0);
    assert Bit(m1, 1) == Bit(m2, 1);
    assert Bit(m1, 2) == Bit(m2, 2);
    assert Bit(m1, 3) == Bit(m2, 3);
    assert Bit(m1, 4) == Bit(m2, 4);
    assert Bit(m1, 5) == Bit(m2, 5);
    assert Bit(m1, 6) == Bit(m2, 6);
    assert Bit(m1, 7) == Bit(m2, 7);
  }

  /** Every key a batch reports was enabled on the device when it was set up. */
  lemma BatchKeysEnabled(fd: int, mask: bv16, i: nat)
    requires i < Keys
    ensures Ioctl(fd, SetKeyBit(ButtonBatch(mask)[i].code)) in SetupCalls(fd)
    ensures Ioctl(fd, SetEvBit(ButtonBatch(mask)[i].evType)) in SetupCalls(fd)
  {
    BatchShape(mask);
    assert SetupCalls(fd)[1 + i] == Ioctl(fd, SetKeyBit(KeyCodes[i]));
  }

  /** What the list records per device: the sender id and the uinput handle. */
  datatype Device = Device(id: U24, fd: int)

  /** The position of the first device with `id`, searching from the head. */
  function Find(devices: seq<Device>, id: U24): (r: Option<nat>)
    ensures r.Some? ==> r.value < |devices| && devices[r.value].id == id
    ensures r.Some? ==> forall k :: 0 <= k < r.value ==> devices[k].id != id
    ensures r.None? <==> forall k :: 0 <= k < |devices| ==> devices[k].id != id
  {
    if devices == [] then None
    else if devices[0].id == id then Some(0)
    else match Find(devices[1..], id)
      case None => None
      case Some(k) => Some(k + 1)
  }

  ghost predicate UniqueIds(devices: seq<Device>)
  {
    forall j, k :: 0 <= j < k < |devices| ==> devices[j].id != devices[k].id
  }

  /** The outcome of a lookup-or-create: the list, the calls made, the device returned. */
  datatype Created = Created(devices: seq<Device>, calls: seq<Syscall>, handle: Option<nat>)

  /**
   * Lookup-or-create for sender `id`. `openResult` is what opening the uinput
   * node returns (negative on failure), `allocSucceeds` whether the list node
   * could be allocated. A device configured and created before a failed
   * allocation stays open but is not listed.
   */
  function LookupOrCreate(devices: seq<Device>, id: U24, openResult: int, allocSucceeds: bool): (c: Created)
    ensures c.handle.Some? ==> c.handle.value < |c.devices|
    ensures c.calls == [] <==> Find(devices, id).Some?
  {
    match Find(devices, id)
    case Some(k) => Created(devices, [], Some(k))
    case None =>
      if openResult < 0 then Created(devices, [OpenUinput], None)
      else if !allocSucceeds then Created(devices, [OpenUinput] + SetupCalls(openResult), None)
      else Created(devices + [Device(id, openResult)], [OpenUinput] + SetupCalls(openResult), Some(|devices|))
  }

  /** A device handed back is listed under the requested id. */
  lemma CreateReturnsId(devices: seq<Device>, id: U24, openResult: int, allocSucceeds: bool)
    ensures var c := LookupOrCreate(devices, id, openResult, allocSucceeds);
      c.handle.Some? ==> c.handle.value < |c.devices| && c.devices[c.handle.value].id == id
  {
  }

  /** An id already listed gets its own device back, and nothing is opened or changed. */
  lemma CreateExisting(devices: seq<Device>, id: U24, openResult: int, allocSucceeds: bool, k: nat)
    requires UniqueIds(devices) && k < |devices| && devices[k].id == id
    ensures LookupOrCreate(devices, id, openResult, allocSucceeds) == Created(devices, [], Some(k))
  {
  }

  /** A failed open returns nothing, leaves the list alone and makes no further call. */
  lemma CreateOpenFails(devices: seq<Device>, id: U24, openResult: int, allocSucceeds: bool)
    requires openResult < 0
    ensures var c := LookupOrCreate(devices, id, openResult, allocSucceeds);
      c.devices == devices && c.calls in {[], [OpenUinput]}
      && (c.handle.None? <==> Find(devices, id).None?)
  {
  }

  /**
   * A new id whose device is opened and allocated is appended at the tail with its
   * handle; the devices before it are untouched and the device was set up
   * before being listed.
   */
  lemma CreateAppends(devices: seq<Device>, id: U24, openResult: int, allocSucceeds: bool)
    requires Find(devices, id).None? && openResult >= 0 && allocSucceeds
    ensures var c := LookupOrCreate(devices, id, openResult, allocSucceeds);
      c.devices == devices + [Device(id, openResult)] && c.handle == Some(|devices|)
      && c.calls == [OpenUinput] + SetupCalls(openResult)
  {
  }

  /** Lookup before append keeps the sender ids in the list distinct. */
  lemma CreateKeepsIdsUnique(devices: seq<Device>, id: U24, openResult: int, allocSucceeds: bool)
    requires UniqueIds(devices)
    ensures UniqueIds(LookupOrCreate(devices, id, openResult, allocSucceeds).devices)
  {
  }

  /** The list only grows at its tail. */
  lemma CreateOnlyAppends(devices: seq<Device>, id: U24, openResult: int, allocSucceeds: bool)
    ensures var c := LookupOrCreate(devices, id, openResult, allocSucceeds);
      devices <= c.devices && |c.devices| <= |devices| + 1
  {
  }

  /** Once a sender has a device, asking again returns it without any call. */
  lemma CreateTwice(devices: seq<Device>, id: U24, openResult: int, allocSucceeds: bool, openResult2: int, allocSucceeds2: bool)
    requires UniqueIds(devices)
    requires LookupOrCreate(devices, id, openResult, allocSucceeds).handle.Some?
    ensures var c := LookupOrCreate(devices, id, openResult, allocSucceeds);
      var c2 := LookupOrCreate(c.devices, id, openResult2, allocSucceeds2);
      c2.devices == c.devices && c2.calls == [] && c2.handle == c.handle
  {
    var c := LookupOrCreate(devices, id, openResult, allocSucceeds);
    CreateKeepsIdsUnique(devices, id, openResult, allocSucceeds);
    CreateExisting(c.devices, id, openResult2, allocSucceeds2, c.handle.value);
  }

  /** A listed device: a `struct gdd` without its list links. */
  class Node {
    const id: U24
    const fd: int

    constructor (id: U24, fd: int)
      ensures this.id == id && this.fd == fd
    {
      this.id := id;
      this.fd := fd;
    }
  }

  /** What the list nodes `ns` record, in list order. */
  function Devices(ns: seq<Node>): (ds: seq<Device>)
    ensures |ds| == |ns|
    ensures forall k :: 0 <= k < |ns| ==> ds[k] == Device(ns[k].id, ns[k].fd)
  {
    seq(|ns|, k requires 0 <= k < |ns| => Device(ns[k].id, ns[k].fd))
  }

  /** The device list from `gdd_first` to `gdd_last`, and the calls made so far. */
  class Registry {
    var nodes: seq<Node>
    var log: seq<Syscall>

    ghost function Model(): seq<Device>
      reads this
    {
      Devices(nodes)
    }

    /** An empty list; nothing has been opened. */
    constructor ()
      ensures nodes == [] && log == []
    {
      nodes := [];
      log := [];
    }

    /** Walk the list from its head for a device with `id`. */
    method Lookup(id: U24) returns (g: Node?)
      ensures g == null <==> Find(Model(), id).None?
      ensures g != null ==> g == nodes[Find(Model(), id).value]
    {
      var k := 0;
      while k < |nodes|
        invariant 0 <= k <= |nodes|
        invariant forall j :: 0 <= j < k ==> nodes[j].id != id
      {
        if nodes[k].id == id {
          assert Model()[k].id == id;
          return nodes[k];
        }
        k := k + 1;
      }
      return null;
    }

    /** Return the device for `id`, opening, configuring and listing a new one if needed. */
    method Create(id: U24, openResult: int, allocSucceeds: bool) returns (g: Node?)
      modifies this
      ensures var c := LookupOrCreate(old(Model()), id, openResult, allocSucceeds);
        Model() == c.devices && log == old(log) + c.calls
        && (g == null <==> c.handle.None?)
        && (g != null ==> g == nodes[c.handle.value])
      ensures old(nodes) <= nodes
    {
      g := Lookup(id);
      if g != null {
        return;
      }
      log := log + [OpenUinput];
      if openResult < 0 {
        return null;
      }
      var fd := openResult;
      log := log + [Ioctl(fd, SetEvBit(EvKey))];
      log := log + [Ioctl(fd, SetKeyBit(BtnA)), Ioctl(fd, SetKeyBit(BtnB))];
      log := log + [Ioctl(fd, SetKeyBit(BtnSelect)), Ioctl(fd, SetKeyBit(BtnStart))];
      log := log + [Ioctl(fd, SetKeyBit(BtnDpadUp)), Ioctl(fd, SetKeyBit(BtnDpadDown))];
      log := log + [Ioctl(fd, SetKeyBit(BtnDpadLeft)), Ioctl(fd, SetKeyBit(BtnDpadRight))];
      var setup := UinputSetup(0, 0, 0, "");
      setup := setup.(bustype := BusUsb, vendor := 0x7777, product := 0x7777);
      setup := setup.(name := "Duge's gamepad");
      log := log + [Ioctl(fd, DevSetup(setup)), Ioctl(fd, DevCreate)];
      assert log == old(log) + ([OpenUinput] + SetupCalls(fd));
      if !allocSucceeds {
        return null;
      }
      g := new Node(id, fd);
      nodes := nodes + [g];
      assert Model() == old(Model()) + [Device(id, fd)];
    }

    /** Write one button mask to device `g` as a batch of key events and a sync. */
    method SetButtons(g: Node, buttons: bv16) returns (r: int)
      modifies this
      ensures nodes == old(nodes)
      ensures log == old(log) + Writes(g.fd, ButtonBatch(buttons))
      ensures r == 0
    {
      for i := 0 to Keys
        invariant nodes == old(nodes)
        invariant log == old(log) + Writes(g.fd, KeyEvents(buttons, i))
      {
        var ie := InputEvent(0, 0, EvKey, 0, if buttons & ((1 as bv16) << i) != 0 then 1 else 0);
        ie := ie.(code := ButtonCode(i));
        log := log + [Write(g.fd, ie)];
      }
      log := log + [Write(g.fd, SynEvent())];
      return 0;
    }

    /** Remove device `g` from the system; a null device is ignored. The list is not touched. */
    method Destroy(g: Node?)
      modifies this
      ensures nodes == old(nodes)
      ensures g == null ==> log == old(log)
      ensures g != null ==> log == old(log) + [Ioctl(g.fd, DevDestroy), Close(g.fd)]
    {
      if g != null {
        log := log + [Ioctl(g.fd, DevDestroy), Close(g.fd)];
      }
    }

    /** Shutdown of the device layer: releases nothing. */
    method Quit()
      ensures nodes == old(nodes) && log == old(log)
    {
    }
  }
}

/**
 * The daemon's main loop: receive a packet, keep only broadcast gamepad
 * packets whose message id has not been seen, then look up or create the
 * sender's uinput device and write the packet's button mask to it. A
 * receive error ends the loop.
 */
module Daemon {
  import opened Common
  import opened Dedup
  import opened Gdd
  import opened ExitGuard

  /** Packet delivery modes; only broadcast packets are handled. */
  datatype Mode = Broadcast | OtherMode

  /** Packet payload types; only gamepad packets are handled. */
  datatype PacketType = GamepadType | OtherType

  /** The header fields the loop reads, already in host byte order, and the first button word. */
  datatype Packet = Packet(from: U24, to: U24, fw: U24, rid: U24, mode: Mode, ptype: PacketType, buttons: bv16)

  /**
   * What one turn of the loop depends on: the receive result and packet,
   * and what opening the uinput node and allocating a list node would give.
   */
  datatype Tick = Tick(received: int, packet: Packet, openResult: int, allocSucceeds: bool)

  /** The loop's state: the dedup ring, the device list and the uinput calls made. */
  datatype State = State(window: Window, devices: seq<Device>, log: seq<Syscall>)

  ghost predicate Valid(s: State)
  {
    Dedup.Valid(s.window) && UniqueIds(s.devices)
  }

  /** A packet is looked at only if something arrived and it is a broadcast gamepad packet. */
  predicate Considered(t: Tick)
  {
    t.received > 0 && t.packet.mode == Broadcast && t.packet.ptype == GamepadType
  }

  /** The daemon's start state: a zero-filled ring and no devices. */
  function Start(): (s: State)
    ensures Valid(s)
  {
    State(Initial(), [], [])
  }

  /** One turn of the loop: whether it ends the loop, and the state afterwards. */
  function Step(s: State, t: Tick): (r: (bool, State))
    requires Dedup.Valid(s.window)
    ensures Dedup.Valid(r.1.window)
  {
    if t.received < 0 then (true, s)
    else if !Considered(t) || Seen(s.window, t.packet.rid) then (false, s)
    else
      var c := LookupOrCreate(s.devices, t.packet.from, t.openResult, t.allocSucceeds);
      var writes := match c.handle
        case None => []
        case Some(k) => Writes(c.devices[k].fd, ButtonBatch(t.packet.buttons));
      (false, State(Remember(s.window, t.packet.rid), c.devices, s.log + c.calls + writes))
  }

  /** The loop over `ticks`: whether some turn ended it, and the state then. */
  function Loop(s: State, ticks: seq<Tick>): (r: (bool, State))
    requires Dedup.Valid(s.window)
    ensures Dedup.Valid(r.1.window)
    decreases |ticks|
  {
    if ticks == [] then (false, s)
    else
      var (stopped, s') := Loop(s, ticks[..|ticks| - 1]);
      if stopped then (true, s') else Step(s', ticks[|ticks| - 1])
  }

  /** The message ids the loop offers to the ring: those of considered packets before the end. */
  function Offered(ticks: seq<Tick>): seq<U24>
    decreases |ticks|
  {
    if ticks == [] then []
    else
      var t := ticks[|ticks| - 1];
      if Ended(ticks[..|ticks| - 1]) || !Considered(t) then Offered(ticks[..|ticks| - 1])
      else Offered(ticks[..|ticks| - 1]) + [t.packet.rid]
  }

  /** Whether some tick of `ticks` is a receive error. */
  predicate Ended(ticks: seq<Tick>)
  {
    exists k :: 0 <= k < |ticks| && ticks[k].received < 0
  }

  /** A receive error ends the loop and changes nothing. */
  lemma ReceiveErrorEnds(s: State, t: Tick)
    requires Dedup.Valid(s.window) && t.received < 0
    ensures Step(s, t) == (true, s)
  {
  }

  /** A packet that is not a received broadcast gamepad packet has no effect at all. */
  lemma FilteredHasNoEffect(s: State, t: Tick)
    requires Dedup.Valid(s.window) && t.received >= 0 && !Considered(t)
    ensures Step(s, t) == (false, s)
  {
  }

  /** A packet whose id is in the ring creates no device and writes no buttons. */
  lemma DuplicateHasNoEffect(s: State, t: Tick)
    requires Dedup.Valid(s.window) && t.received >= 0 && Seen(s.window, t.packet.rid)
    ensures Step(s, t) == (false, s)
  {
  }

  /**
   * An accepted packet is remembered in the ring; its sender's device is
   * looked up or created, and exactly when that yields a device the packet's
   * buttons are written to it as one batch.
   */
  lemma AcceptedReachesDevice(s: State, t: Tick)
    requires Dedup.Valid(s.window) && Considered(t) && !Seen(s.window, t.packet.rid)
    ensures var (stopped, s') := Step(s, t);
      var c := LookupOrCreate(s.devices, t.packet.from, t.openResult, t.allocSucceeds);
      !stopped && s'.window == Remember(s.window, t.packet.rid) && s'.devices == c.devices
      && (c.handle.None? ==> s'.log == s.log + c.calls)
      && (c.handle.Some? ==>
            c.devices[c.handle.value].id == t.packet.from
            && s'.log == s.log + c.calls + Writes(c.devices[c.handle.value].fd, ButtonBatch(t.packet.buttons)))
  {
    CreateReturnsId(s.devices, t.packet.from, t.openResult, t.allocSucceeds);
  }

  /** The same packet delivered twice in a row is handled once. */
  lemma RepeatIsIgnored(s: State, t: Tick)
    requires Dedup.Valid(s.window) && t.received >= 0
    ensures Step(Step(s, t).1, t) == (false, Step(s, t).1)
  {
  }

  /** A turn keeps the sender ids in the device list distinct. */
  lemma StepKeepsValid(s: State, t: Tick)
    requires Valid(s)
    ensures Valid(Step(s, t).1)
  {
    if t.received >= 0 && Considered(t) && !Seen(s.window, t.packet.rid) {
      CreateKeepsIdsUnique(s.devices, t.packet.from, t.openResult, t.allocSucceeds);
    }
  }

  /** Whatever arrives, the device list never holds two devices for one sender. */
  lemma {:induction false} LoopKeepsValid(s: State, ticks: seq<Tick>)
    requires Valid(s)
    ensures Valid(Loop(s, ticks).1)
    decreases |ticks|
  {
    if ticks != [] {
      LoopKeepsValid(s, ticks[..|ticks| - 1]);
      var (stopped, s') := Loop(s, ticks[..|ticks| - 1]);
      if !stopped {
        StepKeepsValid(s', ticks[|ticks| - 1]);
      }
    }
  }

  /** The loop stops exactly when some tick was a receive error. */
  lemma {:induction false} LoopStopsOnError(s: State, ticks: seq<Tick>)
    requires Dedup.Valid(s.window)
    ensures Loop(s, ticks).0 <==> Ended(ticks)
    decreases |ticks|
  {
    if ticks != [] {
      var n := |ticks| - 1;
      LoopStopsOnError(s, ticks[..n]);
      assert forall k :: 0 <= k < n ==> ticks[..n][k] == ticks[k];
    }
  }

  /** The loop's ring is the dedup window run over the ids of the considered packets. */
  lemma {:induction false} LoopWindowIsRun(s: State, ticks: seq<Tick>)
    requires Dedup.Valid(s.window)
    ensures Loop(s, ticks).1.window == Run(s.window, Offered(ticks)).1
    decreases |ticks|
  {
    if ticks != [] {
      var n := |ticks| - 1;
      LoopWindowIsRun(s, ticks[..n]);
      LoopStopsOnError(s, ticks[..n]);
      var t := ticks[n];
      if !Ended(ticks[..n]) && Considered(t) {
        var offered := Offered(ticks[..n]) + [t.packet.rid];
        assert offered[..|offered| - 1] == Offered(ticks[..n]);
      }
    }
  }

  /** The daemon: the ring, the device registry and the exit guard. */
  class Daemon {
    const window: MessageWindow
    const registry: Registry
    const guard: Guard

    ghost predicate Valid()
      reads this, window, registry, guard
    {
      window.Valid() && guard.Valid() && guard.steps == DaemonCleanup
      && UniqueIds(registry.Model())
    }

    ghost function Model(): State
      reads this, window, window.ids, registry
    {
      State(window.Model(), registry.Model(), registry.log)
    }

    /** The ring cleared to zeros, an empty device list, no exit yet. */
    constructor ()
      ensures Valid() && Model() == Start() && guard.count == 0
      ensures fresh(window) && fresh(window.ids) && fresh(registry) && fresh(guard)
    {
      window := new MessageWindow();
      registry := new Registry();
      guard := new Guard(DaemonCleanup);
    }

    /** One turn of the loop for tick `t`; `stop` says the loop must end. */
    method Iterate(t: Tick) returns (stop: bool)
      requires Valid()
      modifies window, window.ids, registry
      ensures Valid()
      ensures (stop, Model()) == Step(old(Model()), t)
    {
      if t.received < 0 {
        return true;
      }
      if !Considered(t) {
        return false;
      }
      var found := window.Contains(t.packet.rid);
      if found {
        return false;
      }
      window.Store(t.packet.rid);
      ghost var devicesBefore := registry.Model();
      ghost var c := LookupOrCreate(devicesBefore, t.packet.from, t.openResult, t.allocSucceeds);
      CreateKeepsIdsUnique(devicesBefore, t.packet.from, t.openResult, t.allocSucceeds);
      var gdd := registry.Create(t.packet.from, t.openResult, t.allocSucceeds);
      if gdd != null {
        assert gdd.fd == c.devices[c.handle.value].fd;
        var _ := registry.SetButtons(gdd, t.packet.buttons);
      }
      ghost var writes := match c.handle
        case None => []
        case Some(k) => Writes(c.devices[k].fd, ButtonBatch(t.packet.buttons));
      assert registry.log == old(registry.log) + c.calls + writes;
      assert Step(old(Model()), t) == (false, State(Remember(old(Model()).window, t.packet.rid), c.devices, old(registry.log) + c.calls + writes));
      return false;
    }

    /** The loop over `ticks`; a receive error ends it and exits with success. */
    method Run(ticks: seq<Tick>)
      requires Valid()
      modifies window, window.ids, registry, guard
      ensures Valid()
      ensures Model() == Loop(old(Model()), ticks).1
      ensures Ended(ticks) ==> guard.exits == old(guard.exits) + [ExitSuccess]
      ensures !Ended(ticks) ==> guard.exits == old(guard.exits)
    {
      var i := 0;
      var stop := false;
      while i < |ticks| && !stop
        invariant 0 <= i <= |ticks|
        invariant Valid()
        invariant (stop, Model()) == Loop(old(Model()), ticks[..i])
        invariant guard.exits == old(guard.exits) && guard.count == old(guard.count)
      {
        assert ticks[..i + 1][..i] == ticks[..i];
        stop := Iterate(ticks[i]);
        i := i + 1;
      }
      LoopStopsOnError(old(Model()), ticks[..i]);
      LoopStopsOnError(old(Model()), ticks);
      if stop {
        StoppedPrefix(old(Model()), ticks, i);
        guard.Exit(ExitSuccess);
      } else {
        assert ticks[..i] == ticks;
      }
    }

    /** SIGINT or SIGTERM: exit with failure through the guard. */
    method OnSignal()
      requires Valid()
      modifies guard
      ensures Valid()
      ensures guard.exits == old(guard.exits) + [ExitFailure]
      ensures old(guard.count) == 0 ==> guard.performed == DaemonCleanup
      ensures old(guard.count) > 0 ==> guard.performed == old(guard.performed)
    {
      guard.Exit(ExitFailure);
    }
  }

  /** Once a prefix has ended the loop, the longer run ends in the same state. */
  lemma {:induction false} StoppedPrefix(s: State, ticks: seq<Tick>, i: nat)
    requires Dedup.Valid(s.window) && i <= |ticks| && Loop(s, ticks[..i]).0
    ensures Loop(s, ticks) == Loop(s, ticks[..i])
    decreases |ticks| - i
  {
    if i < |ticks| {
      var n := |ticks| - 1;
      assert ticks[..n][..i] == ticks[..i];
      StoppedPrefix(s, ticks[..n], i);
    } else {
      assert ticks[..i] == ticks;
    }
  }
}

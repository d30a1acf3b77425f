/**
 * The BLE HID device profile wrapper of the Bluetooth adapter: the profile's
 * enabled flag and callback in its environment record, the init, deinit and
 * callback-registration entry points, and the 6-byte joystick input report.
 * The GATT stack is outside the model: what its calls return comes in as
 * parameters and the calls made are kept in a log.
 */
module HiddPrf {
  import opened Common

  const EspOk := 0
  const EspFail := -1

  /** A registered event callback, identified by its address. */
  type Callback = nat

  /** The two GATT applications the profile registers. */
  datatype App = BatteryApp | HiddApp

  /** A call into the GATT server API or the HID device report sender. */
  datatype GattCall =
    | AppRegister(app: App)
    | AppUnregister(gattIf: int)
    | StopService(handle: bv16)
    | DeleteService(handle: bv16)
    | SendReport(gattIf: int, connId: bv16, data: seq<bv8>)

  /**
   * The parts of the profile environment `hidd_le_env` the entry points use:
   * the enabled flag, the callback, the HID service handle and the GATT
   * interface.
   */
  datatype Env = Env(enabled: bool, callbacks: Option<Callback>, serviceHandle: bv16, gattIf: int)

  /** The environment as zero-filled memory. */
  const Cleared := Env(false, None, 0, 0)

  /** Profile init: refused when enabled; otherwise clear the environment and enable. */
  function Init(e: Env): (r: (int, Env))
    ensures r.1.enabled
    ensures r.0 == EspOk <==> !e.enabled
  {
    if e.enabled then (EspFail, e) else (EspOk, Cleared.(enabled := true))
  }

  /**
   * Profile deinit: nothing to do when not enabled; refused when the service
   * was never created; otherwise stop and delete the service and unregister
   * the application. The environment itself is left as it is.
   */
  function Deinit(e: Env): (r: (int, Env, seq<GattCall>))
    ensures r.1 == e
  {
    if !e.enabled then (EspOk, e, [])
    else if e.serviceHandle == 0 then (EspFail, e, [])
    else (EspOk, e, [StopService(e.serviceHandle), DeleteService(e.serviceHandle), AppUnregister(e.gattIf)])
  }

  /**
   * Callback registration. `registerResult` is what registering the profile's
   * own GATT callback returns, `appResult` what registering the HID
   * application returns; the battery application's result is not looked at.
   */
  function Register(e: Env, callbacks: Option<Callback>, registerResult: int, appResult: int): (r: (int, Env, seq<GattCall>))
    ensures callbacks.None? ==> r == (EspFail, e, [])
    ensures callbacks.Some? ==> r.1 == e.(callbacks := callbacks)
  {
    if callbacks.None? then (EspFail, e, [])
    else
      var e' := e.(callbacks := callbacks);
      if registerResult != EspOk then (registerResult, e', [])
      else (appResult, e', [AppRegister(BatteryApp), AppRegister(HiddApp)])
  }

  /** Init succeeds exactly when the profile is off, and the profile is on afterwards. */
  lemma InitEnables(e: Env)
    ensures Init(e).1.enabled
    ensures Init(e).0 == EspOk <==> !e.enabled
    ensures Init(e).0 == EspFail <==> e.enabled
    ensures e.enabled ==> Init(e).1 == e
    ensures !e.enabled ==> Init(e).1.callbacks.None? && Init(e).1.serviceHandle == 0
    ensures !e.enabled ==> Init(e).1.gattIf == 0
  {
  }

  /** A second init always fails, even with a deinit in between. */
  lemma InitOnlyOnce(e: Env)
    ensures Init(Init(e).1).0 == EspFail
    ensures Init(Deinit(Init(e).1).1).0 == EspFail
  {
  }

  /** Deinit never changes the environment, so it never turns the profile off. */
  lemma DeinitKeepsEnv(e: Env)
    ensures Deinit(e).1 == e
    ensures Deinit(e).0 == EspOk <==> !e.enabled || e.serviceHandle != 0
    ensures Deinit(e).2 != [] <==> e.enabled && e.serviceHandle != 0
  {
  }

  /** Right after init, before any service exists, deinit is refused. */
  lemma DeinitRightAfterInit(e: Env)
    requires !e.enabled
    ensures Deinit(Init(e).1).0 == EspFail
  {
  }

  /** A missing callback is refused and stores nothing. */
  lemma RegisterNullFails(e: Env, registerResult: int, appResult: int)
    ensures Register(e, None, registerResult, appResult) == (EspFail, e, [])
  {
  }

  /**
   * A given callback is stored whatever happens next; the applications are
   * registered only after the profile callback was, and the result is the
   * first failure or the HID application's result.
   */
  lemma RegisterStores(e: Env, cb: Callback, registerResult: int, appResult: int)
    ensures var (status, e', calls) := Register(e, Some(cb), registerResult, appResult);
      e' == e.(callbacks := Some(cb))
      && (registerResult != EspOk ==> status == registerResult && calls == [])
      && (registerResult == EspOk ==> status == appResult && AppRegister(HiddApp) in calls)
  {
  }

  /** A callback registered after init stays in place and the profile stays on. */
  lemma InitThenRegister(e: Env, cb: Callback, registerResult: int, appResult: int)
    requires !e.enabled
    ensures var e' := Register(Init(e).1, Some(cb), registerResult, appResult).1;
      e'.enabled && e'.callbacks == Some(cb)
  {
  }

  /** The biased axis byte the report carries for an axis value. */
  function Bias(v: bv8): bv8
  {
    v ^ 0x80
  }

  /** The 6-byte report: button word little-endian, then four biased axis bytes. */
  function JoystickReport(buttons: bv16, x: bv8, y: bv8, z: bv8, rx: bv8): (report: seq<bv8>)
    ensures |report| == 6 && ReportButtons(report) == buttons
  {
    [(buttons & 0xff) as bv8, (buttons >> 8) as bv8, Bias(x), Bias(y), Bias(z), Bias(rx)]
  }

  /** The button word a report carries. */
  function ReportButtons(report: seq<bv8>): bv16
    requires |report| >= 2
  {
    ((report[1] as bv16) << 8) | (report[0] as bv16)
  }

  /** Biasing is its own inverse; the centre 0x80 is sent as 0 and 0 as 0x80. */
  lemma BiasInvolution(v: bv8)
    ensures Bias(Bias(v)) == v
    ensures Bias(v) == 0 <==> v == 0x80
    ensures Bias(v) == 0x80 <==> v == 0
  {
  }

  /** A report is six bytes from which the buttons and all four axes read back. */
  lemma ReportRoundTrip(buttons: bv16, x: bv8, y: bv8, z: bv8, rx: bv8)
    ensures var report := JoystickReport(buttons, x, y, z, rx);
      |report| == 6 && ReportButtons(report) == buttons
      && Bias(report[2]) == x && Bias(report[3]) == y && Bias(report[4]) == z && Bias(report[5]) == rx
  {
    BiasInvolution(x);
    BiasInvolution(y);
    BiasInvolution(z);
    BiasInvolution(rx);
  }

  /** Different inputs give different reports. */
  lemma ReportInjective(b1: bv16, x1: bv8, y1: bv8, z1: bv8, r1: bv8, b2: bv16, x2: bv8, y2: bv8, z2: bv8, r2: bv8)
    requires JoystickReport(b1, x1, y1, z1, r1) == JoystickReport(b2, x2, y2, z2, r2)
    ensures b1 == b2 && x1 == x2 && y1 == y2 && z1 == z2 && r1 == r2
  {
    ReportRoundTrip(b1, x1, y1, z1, r1);
    ReportRoundTrip(b2, x2, y2, z2, r2);
  }

  /** The profile environment and the calls made into the GATT stack. */
  class HiddEnv {
    var enabled: bool
    var callbacks: Option<Callback>
    var serviceHandle: bv16
    var gattIf: int
    var calls: seq<GattCall>

    ghost function Model(): Env
      reads this
    {
      Env(enabled, callbacks, serviceHandle, gattIf)
    }

    /** Static storage: zero-filled, no calls yet. */
    constructor ()
      ensures Model() == Cleared && calls == []
    {
      enabled := false;
      callbacks := None;
      serviceHandle := 0;
      gattIf := 0;
      calls := [];
    }

    method RegisterCallbacks(cb: Option<Callback>, registerResult: int, appResult: int) returns (status: int)
      modifies this
      ensures var (s, e, made) := Register(old(Model()), cb, registerResult, appResult);
        status == s && Model() == e && calls == old(calls) + made
    {
      if cb != None {
        callbacks := cb;
      } else {
        return EspFail;
      }
      status := registerResult;
      if status != EspOk {
        return status;
      }
      calls := calls + [AppRegister(BatteryApp)];
      calls := calls + [AppRegister(HiddApp)];
      status := appResult;
      if status != EspOk {
        return status;
      }
      return status;
    }

    method ProfileInit() returns (status: int)
      modifies this
      ensures (status, Model()) == Init(old(Model())) && calls == old(calls)
    {
      if enabled {
        return EspFail;
      }
      enabled, callbacks, serviceHandle, gattIf := false, None, 0, 0;
      enabled := true;
      return EspOk;
    }

    method ProfileDeinit() returns (status: int)
      modifies this
      ensures var (s, e, made) := Deinit(old(Model()));
        status == s && Model() == e && calls == old(calls) + made
    {
      var handle := serviceHandle;
      if !enabled {
        return EspOk;
      }
      if handle != 0 {
        calls := calls + [StopService(handle), DeleteService(handle)];
      } else {
        return EspFail;
      }
      calls := calls + [AppUnregister(gattIf)];
      return EspOk;
    }

    /** Build the joystick report and hand it to the report sender on the profile's interface. */
    method SendJoystickValue(connId: bv16, buttons: bv16, x: bv8, y: bv8, z: bv8, rx: bv8)
      modifies this
      ensures Model() == old(Model())
      ensures calls == old(calls) + [SendReport(gattIf, connId, JoystickReport(buttons, x, y, z, rx))]
    {
      var buffer := new bv8[6];
      buffer[0] := (buttons & 0xff) as bv8;
      buffer[1] := (buttons >> 8) as bv8;
      buffer[2] := x ^ 0x80;
      buffer[3] := y ^ 0x80;
      buffer[4] := z ^ 0x80;
      buffer[5] := rx ^ 0x80;
      assert buffer[..] == JoystickReport(buttons, x, y, z, rx);
      calls := calls + [SendReport(gattIf, connId, buffer[..])];
    }
  }
}

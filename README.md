# gamepad — a Dafny model of its core

This project models the core logic of the gamepad system:

- **The radio controller** reads an NES pad and broadcasts a 32-byte packet over an nRF24L01+ link whenever the button mask changes.
- **The daemon** receives those packets and suppresses duplicates with a 32-slot window of message ids. For each new packet it looks up or creates a Linux uinput device for the sender, then writes the packet's buttons to that device as key events.
- **The BLE adapter firmware** reads an NES pad and converts it to a joystick report: four buttons and two sticks. It sends the report over the HID-over-GATT profile when it changes, and tracks the connection through the BLE callbacks.

## Modules

- `Common` holds shared pieces: 24-bit ids, `Option`, and the bit test `Bit`.
- `NesPad` holds the word the eight pad lines are OR-ed into, shared by both pad readers. It proves that each line lands in its own bit and that inversion flips it.
- `Dedup` models the duplicate-suppression window of `daemon/main.c`:
  - a functional `Window` with its properties;
  - the `MessageWindow` class, which keeps the `message_ids` array and its cursor, searched by a loop and written in place.
- `Gdd` models `daemon/gdd.c`:
  - The kernel side is an append-only log of `open`/`ioctl`/`write`/`close` calls.
  - Whether `open` succeeds and whether allocation succeeds are parameters.
  - A functional `LookupOrCreate` over a sequence of `(id, fd)` devices is the specification.
  - The `Registry` class holds the device list (`gdd_first`/`gdd_last`) and is proved against `LookupOrCreate`.
- `ExitGuard` models `p_exit`, the one-shot shutdown guard shared by the daemon and the controller.
- `Daemon` models the daemon's receive loop:
  - as a step function `Step` and its iteration `Loop`;
  - as the `Daemon` class, whose `Iterate` and `Run` are proved against them.
- `HiddPrf` models `bluetooth/main/esp_hidd_prf_api.c`:
  - the profile's enable flag;
  - callback registration, with the GATT calls it makes as a log;
  - the 6-byte joystick report.
- `NesAdapter` models the loop body and callbacks of `bluetooth/main/main.c`.
- `RadioController` models the loop body of `controller/main.c` and the packet layout of `gamepad.h`.

## Model

| member | source | states |
|---|---|---|
| NesPad.ShiftIn | controller/main.c:111 | OR-ing line `i` into the word at bit `i` extends the levels word from `i` lines to `i + 1` lines |
| NesPad.LineBit | bluetooth/main/main.c:253-261 | after eight reads from 0, bit `k` of the word is set iff line `k` was high |
| NesPad.PressedBit | bluetooth/main/main.c:262 | after inversion, bit `k` is set iff line `k` was low (pressed) |
| NesPad.UpperByteClear | bluetooth/main/main.c:253-261 | reading eight lines into 0 leaves the upper byte zero |
| NesPad.PressedUpperByte | bluetooth/main/main.c:262 | the inverted word always has its upper byte all ones |
| NesPad.LevelsFromBase | controller/main.c:101-112 | reading the lines into a start word is the same as OR-ing that word with the lines read into 0 |
| Dedup.Initial | daemon/main.c:90-98 | the window starts with all 32 slots zero and the cursor at 0 |
| Dedup.Remember | daemon/main.c:119-120 | storing an id puts it in the cursor's slot, keeps the cursor in [0, 32) and makes the id seen |
| Dedup.RememberAll | daemon/main.c:119-120 | storing ids one after another keeps the cursor in range; where they land is stated by `RememberAllSlots` |
| Dedup.Run | daemon/main.c:109-120 | offering ids one after another keeps the cursor in range; accepted ids are at most as many as offered and each was offered |
| Dedup.Admit | daemon/main.c:109-120 | an id is accepted iff no slot holds it; an accepted id is remembered; a rejected one leaves the window unchanged |
| Dedup.Age | daemon/main.c:120 | every slot is reached exactly once by the next 32 writes from any cursor |
| Dedup.SlotNext | daemon/main.c:120 | advancing the cursor modulo 32 moves to the next slot in ring order |
| Dedup.RememberAllAppend | daemon/main.c:119-120 | remembering two runs of ids is remembering their concatenation |
| Dedup.RememberAllSlots | daemon/main.c:119-120 | up to 32 stored ids land in consecutive ring slots from the cursor; slots not yet reached keep their ids |
| Dedup.WindowHoldsLast | daemon/main.c:109-120 | once 32 or more ids have been stored, an id is seen iff it is among the last 32 stored |
| Dedup.RecentIsSeen | daemon/main.c:109-120 | each of the last 32 stored ids is seen |
| Dedup.InitialRemembersZero | daemon/main.c:90-98 | while fewer than 32 ids have been stored since start, the seen ids are exactly 0 and the stored ones |
| Dedup.RunRemembersAccepted | daemon/main.c:109-120 | after any sequence of offers, the window is the start window with exactly the accepted ids stored, in order |
| Dedup.RunAcceptsUnseen | daemon/main.c:109-118 | every accepted id was unseen given the ids accepted before it |
| Dedup.AcceptedIdsAreSpaced | daemon/main.c:109-120 | a later acceptance of the same id comes at least 33 acceptances after the earlier one (at least 32 others in between) |
| Dedup.ZeroRejectedUntilOverwritten | daemon/main.c:90-98 | from the zero-filled start, id 0 is never among the first 32 accepted ids |
| Dedup.EvictedIsAcceptedAgain | daemon/main.c:119-120 | an id absent from the last 32 stored ids is accepted when offered again |
| Dedup.MessageWindow.constructor | daemon/main.c:90-98 | the array is zero-filled and the cursor is 0 |
| Dedup.MessageWindow.Contains | daemon/main.c:109-115 | the search loop finds the id iff some slot holds it |
| Dedup.MessageWindow.Store | daemon/main.c:119-120 | the array and cursor become `Remember` of their old value |
| Gdd.GamepadSetup | daemon/gdd.c:60-64 | the device is a USB device with vendor and product 0x7777, named "Duge's gamepad" |
| Gdd.SetupCalls | daemon/gdd.c:49-66 | a new device is set up with EV_KEY, then the eight button keys in order, then DEV_SETUP and DEV_CREATE |
| Gdd.KeyEvents | daemon/gdd.c:92-123 | the first `n` key events are the events for bits 0 to `n - 1` |
| Gdd.Writes | daemon/gdd.c:124-130 | one write call per event, in order, to the device's descriptor |
| Gdd.BatchShape | daemon/gdd.c:92-130 | a button batch is nine events: eight EV_KEY events with codes in the fixed order, each with value 1 iff its bit is set and 0 otherwise, then EV_SYN/SYN_REPORT with value 0 |
| Gdd.ButtonCodesDistinct | daemon/gdd.c:97-122 | the eight bits map to eight different key codes |
| Gdd.BatchDependsOnLowByte | daemon/gdd.c:92-95 | two masks give the same batch iff their low bytes agree; bits 8 to 15 never matter |
| Gdd.BatchKeysEnabled | daemon/gdd.c:49-57 | every key code and event type written is one that the device's setup enabled |
| Gdd.ButtonBatch | daemon/gdd.c:92-130 | the batch for a mask is nine events, eight EV_KEY then one EV_SYN; their codes and values are stated by `BatchShape` |
| Gdd.LookupOrCreate | daemon/gdd.c:33-75 | a returned handle indexes the resulting list; no system call is made iff the id is already listed |
| Gdd.Find | daemon/gdd.c:39-43 | the lookup returns the first device with the id, or none iff no device has it |
| Gdd.CreateReturnsId | daemon/gdd.c:33-75 | a returned device always has the requested id |
| Gdd.CreateExisting | daemon/gdd.c:39-43 | an id already in the list returns that device and makes no system call |
| Gdd.CreateOpenFails | daemon/gdd.c:45-46 | if opening /dev/uinput fails, the list is unchanged; nothing is returned unless the id was already present |
| Gdd.CreateAppends | daemon/gdd.c:45-72 | a new id with a successful open and allocation appends `(id, fd)` at the tail after the open and setup calls |
| Gdd.CreateKeepsIdsUnique | daemon/gdd.c:39-72 | the list never holds two devices with one id |
| Gdd.CreateOnlyAppends | daemon/gdd.c:69-72 | earlier devices are unchanged and at most one is added |
| Gdd.CreateTwice | daemon/gdd.c:39-43 | creating the same id again returns the same device with no calls |
| Gdd.Devices | daemon/gdd.h:13-19 | the list's nodes seen as `(id, fd)` pairs, in order |
| Gdd.Node.constructor | daemon/gdd.c:69-71 | a node holds the given id and descriptor |
| Gdd.Registry.constructor | daemon/gdd.c:20-27 | the list starts empty with no calls made |
| Gdd.Registry.Lookup | daemon/gdd.c:39-43 | the list walk returns the node `Find` selects, or null |
| Gdd.Registry.Create | daemon/gdd.c:33-75 | the list and call log become those of `LookupOrCreate`; null is returned iff it gives no device; existing nodes stay in place |
| Gdd.Registry.SetButtons | daemon/gdd.c:86-133 | the nine batch events are written to the node's descriptor, the list is untouched, and the result is 0 whatever the writes do |
| Gdd.Registry.Destroy | daemon/gdd.c:77-84 | null does nothing; otherwise DEV_DESTROY and close are issued on the node's descriptor |
| Gdd.Registry.Quit | daemon/gdd.c:29-31 | shutting the registry down changes nothing |
| ExitGuard.CleanupAtMostOnce | daemon/main.c:49-61 | however many calls are made, the shutdown sequence runs at most once, and only if the counter started at 0 |
| ExitGuard.Guard.constructor | daemon/main.c:51 | the counter starts at 0 with nothing performed |
| ExitGuard.Guard.Exit | daemon/main.c:49-61 | each call counts and exits with its code; the first call runs the shutdown steps, later calls perform nothing; the steps performed are always the sequence repeated `CleanupRuns(0, count)` times, which `CleanupAtMostOnce` bounds by one |
| Daemon.Start | daemon/main.c:90-98 | the loop starts with a valid window and no devices |
| Daemon.Step | daemon/main.c:102-136 | one turn of the loop keeps the window's cursor in range; what the turn does is stated by the lemmas below |
| Daemon.Loop | daemon/main.c:102-140 | the turns of the loop up to the first receive error keep the window's cursor in range |
| Daemon.ReceiveErrorEnds | daemon/main.c:105-107 | a negative receive result ends the loop and changes nothing |
| Daemon.FilteredHasNoEffect | daemon/main.c:108 | an empty receive, or a packet that is not a broadcast gamepad packet, has no effect on window, devices or calls |
| Daemon.DuplicateHasNoEffect | daemon/main.c:109-118 | a packet whose id is in the window creates no device and writes no buttons |
| Daemon.AcceptedReachesDevice | daemon/main.c:119-125 | an accepted packet is stored in the window; the sender's device is looked up or created; its buttons are written iff that gives a device, and to that sender's device |
| Daemon.RepeatIsIgnored | daemon/main.c:109-118 | the same packet received twice in a row is handled once |
| Daemon.StepKeepsValid | daemon/main.c:122 | a turn keeps sender ids distinct in the device list |
| Daemon.LoopKeepsValid | daemon/main.c:102-140 | however packets arrive, the device list never holds two devices for one sender |
| Daemon.LoopStopsOnError | daemon/main.c:105-107 | the loop stops exactly when some receive result was negative |
| Daemon.LoopWindowIsRun | daemon/main.c:108-120 | the loop's window is the dedup window run over the ids of the considered packets before the end |
| Daemon.StoppedPrefix | daemon/main.c:105-107 | once the loop has stopped, later input changes nothing |
| Daemon.Daemon.constructor | daemon/main.c:88-98 | zeroed window, empty device list, exit guard not yet triggered |
| Daemon.Daemon.Iterate | daemon/main.c:103-136 | a turn of the loop changes window, devices and calls exactly as `Step` does and keeps ids unique |
| Daemon.Daemon.Run | daemon/main.c:102-143 | the loop ends in the state `Loop` gives; if a receive failed it exits once with EXIT_SUCCESS, otherwise it does not exit |
| Daemon.Daemon.OnSignal | daemon/main.c:36-41 | SIGINT/SIGTERM exits with EXIT_FAILURE, running the daemon's shutdown only if no exit came before |
| HiddPrf.Init | bluetooth/main/esp_hidd_prf_api.c:46-56 | the profile is enabled after init; init returns ESP_OK iff it was not enabled before |
| HiddPrf.Deinit | bluetooth/main/esp_hidd_prf_api.c:58-77 | deinit never changes the environment, so `enabled` stays set |
| HiddPrf.Register | bluetooth/main/esp_hidd_prf_api.c:23-44 | no callbacks gives ESP_FAIL with nothing stored or called; otherwise the callbacks are stored and nothing else in the environment changes |
| HiddPrf.JoystickReport | bluetooth/main/esp_hidd_prf_api.c:79-90 | the report is six bytes whose first two read little-endian give the button word |
| HiddPrf.InitEnables | bluetooth/main/esp_hidd_prf_api.c:46-56 | init fails with ESP_FAIL and changes nothing iff already enabled; otherwise it clears the environment (callbacks, service handle and GATT interface) and enables it with ESP_OK |
| HiddPrf.InitOnlyOnce | bluetooth/main/esp_hidd_prf_api.c:46-77 | a second init fails, even after a deinit |
| HiddPrf.DeinitKeepsEnv | bluetooth/main/esp_hidd_prf_api.c:58-76 | deinit never changes the environment; it returns ESP_OK iff disabled or the service handle is nonzero; it makes GATT calls iff enabled with a service |
| HiddPrf.DeinitRightAfterInit | bluetooth/main/esp_hidd_prf_api.c:53-71 | deinit straight after init fails because the service handle was cleared |
| HiddPrf.RegisterNullFails | bluetooth/main/esp_hidd_prf_api.c:27-31 | registering no callbacks returns ESP_FAIL, stores nothing and calls nothing |
| HiddPrf.RegisterStores | bluetooth/main/esp_hidd_prf_api.c:27-43 | callbacks are stored; a failing internal registration is returned without app registration; otherwise the HID app registration's result is returned |
| HiddPrf.InitThenRegister | bluetooth/main/esp_hidd_prf_api.c:23-56 | after init, registering keeps the profile enabled and holds the callbacks |
| HiddPrf.BiasInvolution | bluetooth/main/esp_hidd_prf_api.c:86-89 | biasing twice is the identity; 0x80 encodes to 0 and 0 to 0x80 |
| HiddPrf.ReportRoundTrip | bluetooth/main/esp_hidd_prf_api.c:81-89 | the report is six bytes; its first two bytes read little-endian give the buttons; unbiasing bytes 2 to 5 gives the four axes |
| HiddPrf.ReportInjective | bluetooth/main/esp_hidd_prf_api.c:81-89 | different inputs give different reports |
| HiddPrf.HiddEnv.constructor | bluetooth/main/esp_hidd_prf_api.c:46-56 | the environment starts cleared with no calls |
| HiddPrf.HiddEnv.RegisterCallbacks | bluetooth/main/esp_hidd_prf_api.c:23-44 | status, environment and calls are those of `Register` |
| HiddPrf.HiddEnv.ProfileInit | bluetooth/main/esp_hidd_prf_api.c:46-56 | status and environment are those of `Init` |
| HiddPrf.HiddEnv.ProfileDeinit | bluetooth/main/esp_hidd_prf_api.c:58-77 | status, environment and calls are those of `Deinit` |
| HiddPrf.HiddEnv.SendJoystickValue | bluetooth/main/esp_hidd_prf_api.c:79-92 | one report is sent on the stored GATT interface and the given connection, with the bytes of `JoystickReport`; the environment is unchanged |
| NesAdapter.ReadPad | bluetooth/main/main.c:253-262 | the read loop and inversion give the pressed-buttons word |
| NesAdapter.Sample | bluetooth/main/main.c:243-281 | the loop body's buttons and four axes are the conversion of the line levels |
| NesAdapter.PackBytes | bluetooth/main/main.c:292 | the packed axis word holds js2x, js2y, js1x, js1y from its high byte to its low byte |
| NesAdapter.PackInjective | bluetooth/main/main.c:285 | two packed words are equal only for equal axes |
| NesAdapter.ConvertButtons | bluetooth/main/main.c:262-281 | the button mask keeps only bits 0 to 3, each set iff its line is pressed |
| NesAdapter.ConvertAxes | bluetooth/main/main.c:244-278 | js1x is 0xff if line 4 is pressed, else 0x00 if line 5 is, else 0x80; js1y is 0xff if line 7 is pressed, else 0x00 if line 6 is, else 0x80; js2x and js2y are 0x80 |
| NesAdapter.SendsIffChanged | bluetooth/main/main.c:285-292 | a report is sent iff buttons or packed axes differ from the previous turn; it carries the new conversion; the previous values are updated every turn |
| NesAdapter.FirstTurnSends | bluetooth/main/main.c:241-285 | the first turn always sends, because the centred axes never pack to 0 |
| NesAdapter.RepeatNotResent | bluetooth/main/main.c:285-292 | the same reading twice in a row sends at most once |
| NesAdapter.Convert | bluetooth/main/main.c:262-281 | the converted button mask has bits 4 to 15 clear, and the second stick is centred |
| NesAdapter.Step | bluetooth/main/main.c:285-292 | a sent report carries the turn's conversion; the remembered values become the turn's conversion whether or not it was sent |
| NesAdapter.OnHidd | bluetooth/main/main.c:88-125 | connect sets connected and stores the id, keeping sec_conn; disconnect clears connected and sec_conn and keeps the id |
| NesAdapter.OnGap | bluetooth/main/main.c:127-155 | GAP events never change the connected flag or the connection id |
| NesAdapter.ConnectThenDisconnect | bluetooth/main/main.c:104-115 | connect sets connected and stores the id; disconnect clears connected and sec_conn and restarts advertising |
| NesAdapter.OtherEventsKeepLink | bluetooth/main/main.c:88-155 | other HID events leave the flags alone; GAP auth-complete sets sec_conn; other GAP events leave the flags alone |
| NesAdapter.Adapter.constructor | bluetooth/main/main.c:48-51 | the flags, the connection id and the previous values all start at zero or false |
| NesAdapter.Adapter.Iteration | bluetooth/main/main.c:243-292 | a turn updates the previous values as `Step` says and sends its report, if any, on the stored connection; the profile and flags are unchanged |
| NesAdapter.Adapter.OnHiddEvent | bluetooth/main/main.c:88-125 | flags and GAP calls change as `OnHidd` says |
| NesAdapter.Adapter.OnGapEvent | bluetooth/main/main.c:127-155 | flags and GAP calls change as `OnGap` says |
| RadioController.Encode | gamepad.h:7-11 | a packet is 32 bytes on the air |
| RadioController.Decode | gamepad.h:7-11 | 32 bytes read back as a packet give the field sizes of the layout |
| RadioController.DecodeEncode | gamepad.h:7-11 | decoding an encoded packet gives back magic, button word and padding |
| RadioController.Sample | controller/main.c:101-116 | the loop from 0xff00 and the inversion give the sampled mask |
| RadioController.Sampled | controller/main.c:101-116 | the mask read from 0xff00 and inverted is the pressed-buttons word cut to its low byte |
| RadioController.Step | controller/main.c:120-128 | after a turn the remembered mask equals the current reading; a sent packet carries "gamepad\0" and that mask |
| RadioController.SampledBits | controller/main.c:101-116 | the mask's upper byte is always 0; bit `k` is set iff line `k` is pressed |
| RadioController.SendsIffChanged | controller/main.c:120-128 | a packet is sent iff the mask differs from the previous one; it carries "gamepad\0" and the mask; afterwards the previous mask equals the current one |
| RadioController.FirstReadingSent | controller/main.c:100-120 | starting from 0xffff, the first reading is always sent |
| RadioController.RepeatNotResent | controller/main.c:120-128 | the same reading twice in a row is sent once at most |
| RadioController.Controller.constructor | controller/main.c:100 | the previous mask starts at 0xffff with nothing sent |
| RadioController.Controller.Iteration | controller/main.c:100-131 | the previous mask and the sent packets change as `Step` says; the previous mask is updated only when a packet is sent |
| RadioController.Controller.InitFailed | controller/main.c:83-87 | failed initialisation exits with EXIT_FAILURE and runs the radio/SPI shutdown once |

Two behaviours of the code worth knowing, which the model follows:

- **`gdd_quit` is empty** (`daemon/gdd.c:29-31`): shutdown neither destroys nor closes any device.
- **Exit codes:** a caught SIGINT/SIGTERM exits with EXIT_FAILURE (`daemon/main.c:40`); a receive error ends the loop with EXIT_SUCCESS (`daemon/main.c:142`).

## Left out

- **BLE stack setup** (`bluetooth/main/main.c:157-218`) is left out: NVS, controller and bluedroid init, advertising and security parameters, and GATT registration are ESP-IDF calls. The adapter receives the HID environment ready-made.
- **The internal GATT registration** `hidd_register_cb` and `esp_ble_gatts_app_register` are foreign calls. Their results are parameters of `Register`.
- **GPIO bit-banging and delays** are left out: latch and clock pulses, `ets_delay_us`, `os_sleepf`, `vTaskDelay`. The eight data-line levels read in a turn are an input sequence.
- **The nRF24L01+ radio and SPI** are left out: `nrf_send`, `comm_recv` and their initialisation are foreign libraries. Received packets are input ticks; sent packets are an output list.
- **lib/packet.h is not part of this model.**
  - `PTOH24` decoding: `rid` and `from` are taken as already-decoded 24-bit numbers.
  - `PACKET_MODE_BROADCAST` and `PACKET_TYPE_GAMEPAD` become two-valued datatypes, since only their equality is tested.
  - `pck.gamepad.buttons[0]` is modelled as one 16-bit word.
- **Kernel semantics of uinput** are left out. `open`, `ioctl`, `write` and `close` are entries in a call log. The result of `open` and the success of the node allocation are parameters. A failing write is not modelled: the source ignores it anyway.
- Gdd.Registry.Destroy: the `free` of the node is not modelled. Like the source, it does not unlink the node from the list, and the node stays in the model's list.
- **Option parsing, logging and `printf` output, `signal` installation and the SIGTSTP handler** are left out, because they have no effect on the modelled state. The daemon's initialisation failure (`daemon/main.c:94-97`) takes the same path as `Daemon.Daemon.OnSignal`: `p_exit(EXIT_FAILURE)`.
- ExitGuard.Guard.Exit: `exit` does not return in the program. The model returns so that a later call, for example from a signal handler, can be described. The `static int` counter is unbounded in the model; the program would overflow it only after about 2^31 calls.
- **Padding bytes of the radio packet** are uninitialised stack memory in the source. They are a parameter of `RadioController.Step`.
- **Byte order** of the radio packet's button word follows the host. The model encodes it little-endian, as on both of the program's targets.
- **Packed axis word** in the adapter: `js2x << 24` is a signed `int` shift in C. The model takes the 32-bit pattern it produces, which is what the comparison with `js_last` sees.
- **HID report id and report type constants** of `hid_dev_send_report` are not modelled. The report's bytes, GATT interface and connection id are.
- **Concurrency** is not modelled. The BLE callbacks and the adapter loop run on different tasks in the firmware. The model treats each callback and each loop turn as atomic.

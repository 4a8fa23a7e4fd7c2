# ETX transmitter firmware: application state machine and LED driver

This project models the application core of the EVRS transmitter (ETX). The
transmitter is a BLE peripheral on a CC2650 board. The user picks a
destination base station and a reply with the digit keys and confirms each
choice with OK. The device then advertises its reply. The model covers two
source files:

- `evrs_tx_cc2650etx_app/src/evrs_tx_main.c`:
  - the INIT / IDLE / ACTIVE state machine;
  - the key, characteristic-enquiry and GAP-role handlers;
  - the FIFO of deferred application messages and its drain loop;
  - the boot steps the application decides: LEDs on, the supply-rail
    floor, the device-id check and regeneration, the scan-response update
    and the battery-low flag;
  - the system-id layout;
  - the retry bookkeeping of a pending ATT response.
- `evrs_tx_cc2650etx_app/drv/etx_board_led.c`: the two-LED driver, with its
  recorded state table, the output levels of the pins, the per-LED flash
  clocks and the LED-id-to-pin mapping.

Layout:

- `board_led.dfy` (module `BoardLed`):
  - `AfterInit`, `AfterControl` and `AfterFlashTimeout` describe each driver
    operation on a `LedBank` value;
  - class `LedDriver` keeps the driver's static tables in arrays, and its
    methods are proved to produce exactly those values.
- `etx_spec.dfy` (module `EtxSpec`):
  - the application state as an `AppView` value;
  - one `After…` function per handler;
  - effect lemmas that spell out what each handler does, state by state.
- `etx_main.dfy` (module `EtxMain`):
  - class `Transmitter`, whose fields are the C file's static variables;
  - `advertData`, `scanRspData` and `devID` are arrays written in place;
  - every handler is a method that ensures
    `View() == After…(old(View()), …)`;
  - `ProcessQueue` is the drain loop. It is proved against `AfterDrain`,
    with a loop invariant and a termination measure.
- `etx_properties.dfy` (module `EtxProperties`): properties that span
  several handlers, stated over the queue drain:
  - the last digit wins;
  - digits then confirm lead to the next state;
  - the power key shuts down from any state;
  - the device id survives a reboot;
  - the retry count.

Collaborators are inputs of the model:

- What the BLE stack, the profile and the heap answer while one message is
  processed is a `StackReply`. The drain takes one reply per message, as a
  function `reply: nat -> StackReply`.
- The ADC readings are microvolt parameters.
- The non-volatile store's device-id item is an `Option`, and its write
  result is a `bool`.
- The TRNG word is a parameter.
- What the application hands to the stack (advertising enabled, advertising
  payload, CMD/DATA characteristic values, system id, connection-event
  notices) is recorded in a `Ble` value.

Behaviour of the code worth knowing:

- Board_ledControl acts only on OFF, ON and FLASH. LOW, HIGH and LOWFLASH
  only record the state: there is no low-flash cadence, and the red-LED
  "pulse" around each key press changes no pin.
- OFF stops a flash clock only when the recorded state is FLASH. After
  ACTIVE then IDLE, the blue LED is recorded LOWFLASH while its ACTIVE clock
  keeps firing, and the power key's OFF leaves that clock armed
  (`BlueClockOutlivesPowerOff`). "Both LEDs off" holds for the recorded
  states and the pin levels at that moment, not for later clock expiries.
- When the device id cannot be read from the store, the zeroed buffer lacks
  the prefix, so a new id is generated. The device does not go on with a
  zero id.
- INIT is re-entered not only by the power key: the stack's STARTED
  notification also queues it.

## Model

| member | source | states |
|---|---|---|
| BoardLed.IdParser | evrs_tx_cc2650etx_app/drv/etx_board_led.c:32 | the red LED's id selects the red pin (IOID 13) and every other id selects the blue pin, both directions |
| BoardLed.AfterInit | evrs_tx_cc2650etx_app/drv/etx_board_led.c:77-92 | after initialisation both LEDs are recorded OFF, both pins are low, and both clocks are disarmed with the 500 ms default period |
| BoardLed.AfterControl | evrs_tx_cc2650etx_app/drv/etx_board_led.c:105-130 | a control request always records the requested state for that LED; the other LED's record, clock and pin are unchanged |
| BoardLed.ControlEffect | evrs_tx_cc2650etx_app/drv/etx_board_led.c:107-128 | OFF drives the pin to 0 and ON to 1, each stopping the clock only when the previous record was FLASH; FLASH drives the pin to 0 and restarts the clock with the given period; LOW, HIGH and LOWFLASH leave pins and clocks untouched |
| BoardLed.AfterFlashTimeout | evrs_tx_cc2650etx_app/drv/etx_board_led.c:135-140 | a clock expiry inverts that LED's pin and re-arms its clock with the same timeout; the other LED and all records are unchanged |
| BoardLed.InitIsConsistent | evrs_tx_cc2650etx_app/drv/etx_board_led.c:77-92 | initialisation establishes the driver invariant: FLASH means an armed clock, and OFF (ON) with a disarmed clock means a low (high) pin |
| BoardLed.ControlPreservesConsistent | evrs_tx_cc2650etx_app/drv/etx_board_led.c:105-130 | every control request preserves that invariant |
| BoardLed.TimeoutPreservesConsistent | evrs_tx_cc2650etx_app/drv/etx_board_led.c:135-140 | every clock expiry preserves that invariant |
| BoardLed.TwoTimeoutsRestorePin | evrs_tx_cc2650etx_app/drv/etx_board_led.c:135-140 | two expiries of the same clock restore the pin levels |
| BoardLed.FlashClockSurvivesOffAfterLowFlash | evrs_tx_cc2650etx_app/drv/etx_board_led.c:109-129 | FLASH, then LOWFLASH, then OFF leaves the LED recorded OFF with its flash clock still armed at the FLASH period |
| BoardLed.LedDriver.constructor | evrs_tx_cc2650etx_app/drv/etx_board_led.c:47-57 | the static tables start zeroed: both records OFF, both clocks disarmed, both pins low |
| BoardLed.LedDriver.InitLeds | evrs_tx_cc2650etx_app/drv/etx_board_led.c:77-92 | the arrays and the pin map afterwards equal AfterInit |
| BoardLed.LedDriver.Control | evrs_tx_cc2650etx_app/drv/etx_board_led.c:105-130 | the in-place update of the state and clock arrays and of the pin map equals AfterControl of the old snapshot |
| BoardLed.LedDriver.FlashTimeout | evrs_tx_cc2650etx_app/drv/etx_board_led.c:135-140 | the in-place toggle and re-arm equals AfterFlashTimeout of the old snapshot |
| EtxSpec.AdvertTemplate | evrs_tx_cc2650etx_app/src/evrs_tx_main.c:155-170 | the advertising data is 10 bytes, with the destination AD type at byte 8 and the destination, initially 0, at byte 9 |
| EtxSpec.ScanRspTemplate | evrs_tx_cc2650etx_app/src/evrs_tx_main.c:174-190 | the scan response is 15 bytes, with the device-id AD type at byte 10 and a zeroed device-id field at bytes 11..14 |
| EtxSpec.PowerOnView | evrs_tx_cc2650etx_app/src/evrs_tx_main.c:151-209 | at power-on the state is INIT, the queue is empty and no ATT response is pending |
| EtxSpec.BatteryThresholds | evrs_tx_cc2650etx_app/src/evrs_tx_main.c:338-471 | (the rail floor at lines 338-339, the battery threshold at 467-471) the battery is low strictly below 2,500,000 µV and the supply rail too low strictly below 3,000,000 µV (an ADC error, read as 0, is too low) |
| EtxSpec.RegeneratedId | evrs_tx_cc2650etx_app/src/evrs_tx_main.c:997-1002 | a generated id is 4 bytes, the last one the prefix, and each of the first three is at most 0xFE |
| EtxSpec.AfterDevIdFind | evrs_tx_cc2650etx_app/src/evrs_tx_main.c:987-994 | a successful store read replaces the id buffer; a failed one leaves it; nothing else changes |
| EtxSpec.AfterDevIdRefresh | evrs_tx_cc2650etx_app/src/evrs_tx_main.c:997-1012 | the buffer gets the generated id with the 0x95 prefix; the store holds it exactly when the write succeeds; nothing else changes |
| EtxSpec.AfterUpdateScanRsp | evrs_tx_cc2650etx_app/src/evrs_tx_main.c:1014-1020 | scan-response bytes 11..14 become the device id, every other byte is kept, and nothing else changes |
| EtxSpec.SystemId | evrs_tx_cc2650etx_app/src/evrs_tx_main.c:751-757 | the system id is 8 bytes: 'E','T','X',0 followed by the device id |
| EtxSpec.SystemIdInjective | evrs_tx_cc2650etx_app/src/evrs_tx_main.c:751-757 | two system ids are equal exactly when the device ids are |
| EtxSpec.AfterBoot | evrs_tx_cc2650etx_app/src/evrs_tx_main.c:330-471 | boot leaves the state machine, the queue, the stack values and the advertising data untouched |
| EtxSpec.BootEffect | evrs_tx_cc2650etx_app/src/evrs_tx_main.c:330-471 | below the rail floor: both LEDs off, shutdown, and the id, store, scan response and battery flag untouched. Otherwise: both LEDs recorded on with both pins high, and the ATT bookkeeping kept; the stored id is used when it has the prefix, else a new one is generated and stored on a successful write; the scan response carries the id; the battery flag follows the threshold |
| EtxSpec.WeightShrinks | evrs_tx_cc2650etx_app/src/evrs_tx_main.c:527-536 | processing a message lowers the queue's weight, so the drain loop ends although handlers enqueue |
| EtxSpec.AfterAppStateChange | evrs_tx_cc2650etx_app/src/evrs_tx_main.c:935-981 | entering any state records it and keeps the queue, the shutdown flag, the device id and the ATT bookkeeping |
| EtxSpec.AppStateChangeEffect | evrs_tx_cc2650etx_app/src/evrs_tx_main.c:935-981 | advertising is enabled exactly in ACTIVE. INIT clears the destination, advertData[9], the user data and the DATA value, on a low battery flashes the red LED (clock armed at 500 ms, pin low) and otherwise records it LOWFLASH with its clock and pin kept, and turns the blue LED off with its pin low, stopping the blue clock only when it was recorded FLASH. IDLE records the blue LED LOWFLASH and keeps its clock and pin. ACTIVE flashes it at 100 ms, driving its pin low. IDLE and ACTIVE keep the session and the red LED |
| EtxSpec.KeyInInit | evrs_tx_cc2650etx_app/src/evrs_tx_main.c:888-903 | a digit sets the destination and advertData[9] and queues nothing. OK with a destination publishes the advertising data when the GAP role accepts it, and only then queues IDLE (when the message can be allocated). The state and the user data are kept |
| EtxSpec.KeyInIdle | evrs_tx_cc2650etx_app/src/evrs_tx_main.c:905-916 | a digit sets the user data. OK with user data writes it to DATA when the profile accepts it, and only then queues ACTIVE. The state, the destination and the advertising data are kept |
| EtxSpec.KeyInState | evrs_tx_cc2650etx_app/src/evrs_tx_main.c:887-922 | the state's handler keeps the LEDs and the device and appends at most one state-change request |
| EtxSpec.KeyHandled | evrs_tx_cc2650etx_app/src/evrs_tx_main.c:886-923 | the red LED goes HIGH, then LOW, around the state's handler; it ends recorded LOW and its pin and clock are unaffected |
| EtxSpec.PoweredDown | evrs_tx_cc2650etx_app/src/evrs_tx_main.c:925-931 | the power path ends in INIT with a shutdown requested and the queue unchanged |
| EtxSpec.AfterKeyPress | evrs_tx_cc2650etx_app/src/evrs_tx_main.c:881-932 | a key press keeps the device identity and appends at most one state-change request |
| EtxSpec.PowerKeyEffect | evrs_tx_cc2650etx_app/src/evrs_tx_main.c:925-931 | the power key in any state ends in INIT with the destination, advertData[9] and the user data 0, both LEDs recorded OFF with low pins, advertising disabled, shutdown requested and the queue unchanged |
| EtxSpec.KeyPressEffect | evrs_tx_cc2650etx_app/src/evrs_tx_main.c:881-923 | any other key keeps the state and records the red LED LOW. INIT: as KeyInInit, the advertising payload published exactly when OK, a destination and acceptance hold and nothing else sent to the stack, and something is queued exactly when OK, a destination, acceptance and allocation all hold. IDLE: as KeyInIdle with the same exactness. ACTIVE: nothing else changes |
| EtxSpec.AfterCharEnquire | evrs_tx_cc2650etx_app/src/evrs_tx_main.c:848-878 | reading CMD clears CMD only. Reading DATA clears the user data and the DATA value and queues IDLE (when allocated). Either way the system id and the notice flag are kept. The state never changes here, and other characteristics change nothing |
| EtxSpec.AfterGapRoleStateChange | evrs_tx_cc2650etx_app/src/evrs_tx_main.c:747-824 | STARTED publishes SystemId(devID) and queues INIT, keeping the device id, the store, the scan response, the battery flag and the ATT bookkeeping. WAITING and WAITING_AFTER_TIMEOUT drop the pending ATT response and reset the count when one was pending, changing nothing else. Every other role changes nothing |
| EtxSpec.AfterProcessAppMsg | evrs_tx_cc2650etx_app/src/evrs_tx_main.c:561-586 | processing one message keeps the rest of the queue and appends at most one state-change request, never for a state-change message |
| EtxSpec.AfterDrain | evrs_tx_cc2650etx_app/src/evrs_tx_main.c:527-536 | the drain processes messages, including those appended while draining, until the queue is empty or a handler has requested the shutdown (Power_shutdown halts the device, evrs_tx_main.c:930); a drain started after a shutdown changes nothing |
| EtxSpec.AfterFreeAttRsp | evrs_tx_cc2650etx_app/src/evrs_tx_main.c:655-675 | afterwards nothing is pending; a pending response is dropped with the retry count reset to 0; without one nothing changes |
| EtxSpec.AfterSendAttRsp | evrs_tx_cc2650etx_app/src/evrs_tx_main.c:621-644 | with nothing pending nothing changes. A settled status drops the response, resets the count and stops the notices. BlePending and MsgBufferNotAvail keep it and count one more attempt modulo 256 |
| EtxSpec.AfterGattMsgReceived | evrs_tx_cc2650etx_app/src/evrs_tx_main.c:711-744 | a BlePending message with notices enabled replaces any pending response (resetting the count when one was pending) and turns notices on, changing nothing else (state, session, queue, device, LEDs); any other message changes nothing |
| EtxMain.Transmitter.constructor | evrs_tx_cc2650etx_app/src/evrs_tx_main.c:151-209 | the static storage equals PowerOnView |
| EtxMain.Transmitter.Boot | evrs_tx_cc2650etx_app/src/evrs_tx_main.c:330-471 | the in-place boot steps equal AfterBoot |
| EtxMain.Transmitter.LightUp | evrs_tx_cc2650etx_app/src/evrs_tx_main.c:328-335 | LED initialisation then both LEDs ON, nothing else changed |
| EtxMain.Transmitter.ShutDown | evrs_tx_cc2650etx_app/src/evrs_tx_main.c:342-344 | both LEDs OFF and the shutdown requested, nothing else changed |
| EtxMain.Transmitter.CheckDevId | evrs_tx_cc2650etx_app/src/evrs_tx_main.c:351-355 | the id is read, then regenerated exactly when devID[3] is not the prefix |
| EtxMain.Transmitter.DevIdFind | evrs_tx_cc2650etx_app/src/evrs_tx_main.c:987-994 | the id buffer written in place equals AfterDevIdFind |
| EtxMain.Transmitter.DevIdRefresh | evrs_tx_cc2650etx_app/src/evrs_tx_main.c:997-1012 | the id buffer written byte by byte, and the store, equal AfterDevIdRefresh |
| EtxMain.Transmitter.UpdateScanRsp | evrs_tx_cc2650etx_app/src/evrs_tx_main.c:1014-1020 | the four in-place byte writes equal AfterUpdateScanRsp |
| EtxMain.Transmitter.EnqueueMsg | evrs_tx_cc2650etx_app/src/evrs_tx_main.c:547-558 | the message is appended at the back when it can be allocated, and dropped otherwise |
| EtxMain.Transmitter.GapRoleStateChangeCallback | evrs_tx_cc2650etx_app/src/evrs_tx_main.c:683-685 | the callback only enqueues the GAP state change |
| EtxMain.Transmitter.CharValueChangeCallback | evrs_tx_cc2650etx_app/src/evrs_tx_main.c:688-690 | the callback only enqueues the characteristic change |
| EtxMain.Transmitter.CharValueEnquireCallback | evrs_tx_cc2650etx_app/src/evrs_tx_main.c:693-695 | the callback only enqueues the enquiry |
| EtxMain.Transmitter.KeyPressCallback | evrs_tx_cc2650etx_app/src/evrs_tx_main.c:698-700 | the callback only enqueues the key press |
| EtxMain.Transmitter.AppStateChange | evrs_tx_cc2650etx_app/src/evrs_tx_main.c:935-981 | the in-place state entry equals AfterAppStateChange |
| EtxMain.Transmitter.EnterInit | evrs_tx_cc2650etx_app/src/evrs_tx_main.c:939-956 | INIT entry equals AfterAppStateChange(…, Init) |
| EtxMain.Transmitter.ClearSession | evrs_tx_cc2650etx_app/src/evrs_tx_main.c:936-950 | INIT is recorded; the destination, advertData[9], the user data and the DATA value become 0; advertising is disabled; nothing else changes |
| EtxMain.Transmitter.EnterIdle | evrs_tx_cc2650etx_app/src/evrs_tx_main.c:958-967 | IDLE entry equals AfterAppStateChange(…, Idle) |
| EtxMain.Transmitter.EnterActive | evrs_tx_cc2650etx_app/src/evrs_tx_main.c:969-976 | ACTIVE entry equals AfterAppStateChange(…, Active) |
| EtxMain.Transmitter.KeyPress | evrs_tx_cc2650etx_app/src/evrs_tx_main.c:881-932 | the in-place key handling equals AfterKeyPress |
| EtxMain.Transmitter.HandleKey | evrs_tx_cc2650etx_app/src/evrs_tx_main.c:886-923 | the LED-framed handling equals KeyHandled |
| EtxMain.Transmitter.DispatchKey | evrs_tx_cc2650etx_app/src/evrs_tx_main.c:887-922 | the switch on the state equals KeyInState |
| EtxMain.Transmitter.HandleInitKey | evrs_tx_cc2650etx_app/src/evrs_tx_main.c:888-903 | the INIT branch, with its in-place write of advertData[9], equals KeyInInit |
| EtxMain.Transmitter.HandleIdleKey | evrs_tx_cc2650etx_app/src/evrs_tx_main.c:905-916 | the IDLE branch equals KeyInIdle |
| EtxMain.Transmitter.CharValueEnquire | evrs_tx_cc2650etx_app/src/evrs_tx_main.c:848-878 | equals AfterCharEnquire |
| EtxMain.Transmitter.GapRoleStateChange | evrs_tx_cc2650etx_app/src/evrs_tx_main.c:747-824 | equals AfterGapRoleStateChange |
| EtxMain.Transmitter.ProcessAppMsg | evrs_tx_cc2650etx_app/src/evrs_tx_main.c:561-586 | the dispatch on the message kind equals AfterProcessAppMsg |
| EtxMain.Transmitter.ProcessQueue | evrs_tx_cc2650etx_app/src/evrs_tx_main.c:527-536 | the while loop that takes the front message until the queue is empty or the shutdown is requested equals AfterDrain of the starting state |
| EtxMain.Transmitter.FreeAttRsp | evrs_tx_cc2650etx_app/src/evrs_tx_main.c:655-675 | equals AfterFreeAttRsp |
| EtxMain.Transmitter.SendAttRsp | evrs_tx_cc2650etx_app/src/evrs_tx_main.c:621-644 | equals AfterSendAttRsp, with the 8-bit wrap of the count |
| EtxMain.Transmitter.GattMsgReceived | evrs_tx_cc2650etx_app/src/evrs_tx_main.c:711-744 | equals AfterGattMsgReceived; the message may be freed exactly when it is not held for retry |
| EtxProperties.DigitInInit | evrs_tx_cc2650etx_app/src/evrs_tx_main.c:889-893 | a drained digit in INIT sets the destination and advertData[9], queues nothing and keeps the stack values |
| EtxProperties.ConfirmInInit | evrs_tx_cc2650etx_app/src/evrs_tx_main.c:895-901 | OK in INIT with a destination, accepted and allocated, publishes the advertising data and, after the queued request, ends in IDLE with advertising disabled |
| EtxProperties.DigitsLastWins | evrs_tx_cc2650etx_app/src/evrs_tx_main.c:889-893 | a run of digits in INIT leaves the last one as the destination and in advertData[9], still in INIT, with the stack untouched |
| EtxProperties.SelectThenConfirm | evrs_tx_cc2650etx_app/src/evrs_tx_main.c:888-903 | digits then OK in INIT, with cooperative collaborators, end in IDLE with the last digit as the destination and the published advertising data carrying it |
| EtxProperties.DigitInIdle | evrs_tx_cc2650etx_app/src/evrs_tx_main.c:906-909 | a drained digit in IDLE sets the user data and queues nothing |
| EtxProperties.ConfirmInIdle | evrs_tx_cc2650etx_app/src/evrs_tx_main.c:910-915 | OK in IDLE with user data, accepted and allocated, writes DATA and ends in ACTIVE with advertising on and the blue LED flashing at 100 ms |
| EtxProperties.DataThenConfirm | evrs_tx_cc2650etx_app/src/evrs_tx_main.c:905-916 | digits then OK in IDLE end in ACTIVE with the last digit as the user data and the DATA value |
| EtxProperties.ActiveIgnoresKeys | evrs_tx_cc2650etx_app/src/evrs_tx_main.c:917-918 | in ACTIVE any run of non-power keys changes nothing but the red LED's record (LOW) |
| EtxProperties.PowerKeyShutsDown | evrs_tx_cc2650etx_app/src/evrs_tx_main.c:925-931 | the power key at the head of the queue, from any state and whatever is queued behind it, ends in INIT with a cleared session, both LEDs off with low pins, advertising disabled, shutdown requested, the device id kept and the messages behind it left unprocessed |
| EtxProperties.ConfirmThenPowerHaltsInInit | evrs_tx_cc2650etx_app/src/evrs_tx_main.c:895-931 | OK then the power key in INIT: the IDLE request queued by OK sits behind the power key and is never processed, so the device halts in INIT with both LEDs recorded OFF |
| EtxProperties.DataEnquiryReturnsToIdle | evrs_tx_cc2650etx_app/src/evrs_tx_main.c:862-871 | reading DATA, in any state, ends in IDLE with the user data and DATA cleared, advertising disabled and the blue LED recorded LOWFLASH |
| EtxProperties.CmdEnquiryKeepsState | evrs_tx_cc2650etx_app/src/evrs_tx_main.c:853-860 | reading CMD clears CMD and changes nothing else |
| EtxProperties.StackStartEntersInit | evrs_tx_cc2650etx_app/src/evrs_tx_main.c:750-764 | the stack's STARTED publishes the system id and ends in INIT with a cleared session and the red LED set by the battery flag |
| EtxProperties.LastTransitionWins | evrs_tx_cc2650etx_app/src/evrs_tx_main.c:527-536 | queued state changes are applied in FIFO order: the last one decides the state and the advertising flag |
| EtxProperties.IdleAfterActiveKeepsFastFlash | evrs_tx_cc2650etx_app/src/evrs_tx_main.c:958-976 | ACTIVE then IDLE records the blue LED LOWFLASH while its clock stays armed at the 100 ms ACTIVE period |
| EtxProperties.BlueClockOutlivesPowerOff | evrs_tx_cc2650etx_app/src/evrs_tx_main.c:925-931 | after ACTIVE then IDLE, the power key records the blue LED OFF with a low pin, but its clock is still armed |
| EtxProperties.BootPersistsDevId | evrs_tx_cc2650etx_app/src/evrs_tx_main.c:351-356 | a boot whose store write succeeds leaves the store holding the id in use, and that id has the prefix |
| EtxProperties.RebootKeepsDevId | evrs_tx_cc2650etx_app/src/evrs_tx_main.c:351-356 | the next boot finds the same id, whatever the random word and the store write do then, and the scan response is the same |
| EtxProperties.RetriesCount | evrs_tx_cc2650etx_app/src/evrs_tx_main.c:621-644 | while the stack answers BlePending or MsgBufferNotAvail, the response stays pending and n events add n to the count modulo 256, with nothing else changed |
| EtxProperties.SettledSendDropsResponse | evrs_tx_cc2650etx_app/src/evrs_tx_main.c:633-638 | once any status settles, the response is gone and the count is 0 |
| EtxProperties.NoPendingSendsChangeNothing | evrs_tx_cc2650etx_app/src/evrs_tx_main.c:623 | with nothing pending, connection events change nothing |
| EtxProperties.RetryBookkeepingKept | evrs_tx_cc2650etx_app/src/evrs_tx_main.c:655-675 | "count is 0 when nothing is pending" holds at power-on and is kept by freeing, sending, receiving and processing any queued message (a disconnection frees the response) |
| EtxProperties.ProcessingKeepsRetryBookkeeping | evrs_tx_cc2650etx_app/src/evrs_tx_main.c:802-812 | processing any queued message keeps "count is 0 when nothing is pending": WAITING and WAITING_AFTER_TIMEOUT free the response and reset the count, and no other message touches either |

## Left out

- The ICall registration, semaphore wait and message fetch of the task loop
  (evrs_tx_main.c:485-525) are RTOS plumbing. Only the drain of the
  application queue is modelled, and a connection-event end is a call of
  `SendAttRsp`.
- ETX_processStackMsg is not modelled: it is the dispatch of stack messages
  to the GATT handler and the HCI assert. `GattMsgReceived` takes the GATT
  message directly.
- The BLE stack calls are not executed: GAPRole_SetParameter,
  ETXProfile_Set/GetParameter, GATT_SendRsp, HCI_EXT_ConnEventNoticeCmd and
  DevInfo_SetParameter. The values set are recorded in `Ble`. Only the
  results the source tests are inputs: the advertising-data and DATA
  writes on OK (evrs_tx_main.c:897, 912) are `StackReply` fields,
  GATT_SendRsp's result is a `Status`, and the notice request is
  `noticeOk`.
- Calls whose result the source ignores are recorded in `Ble` as if the
  stack had accepted them: the advertising enable at evrs_tx_main.c:947,
  961 and 972, the DATA and CMD clears at 858, 867 and 943, the system id
  at 759 and the notice disable at 635.
- The GAP, bond and GATT configuration at boot (evrs_tx_main.c:358-465) is
  not modelled. That includes the hand-over of the scan response (with the
  device id) and of the advertising data to the GAP role at lines 383-386;
  the model's `Ble` record starts from what the handlers publish later.
- The ADC driver (evrs_tx_main.c:1026-1050), the non-volatile store
  (osal_snv_read/write) and Util_GetTRNG are hardware. Their results are
  parameters. The read-back after a successful write is taken to return the
  written bytes.
- Power_shutdown is a `shutdown` flag, and the halt is modelled by stopping
  there: the boot stops on the supply-rail path, and the queue drain stops
  after the power key's handler.
- Logging (uout*) and message and payload frees (ICall_free,
  ICall_freeMsg, GATT_bm_free) are not modelled. ETX_EVT_charValueChange
  only reads and logs, so a `CharChange` message changes nothing.
- ETX_CBm_appStateChange is a one-line enqueue. It appears as
  `EnqueueMsg(AppStateChg(…), …)` at its call sites rather than as a
  separate method.
- The queue carries typed `AppMsg` values, not `{event, state}` byte pairs.
  An unknown event kind (the switch's default) cannot be expressed, and
  neither can an out-of-range state byte. A GAP role code the handler does
  not name is `OtherRole`.
- The key driver (etx_board_key.c) is not part of this model. Key codes
  are taken as bytes as the state machine receives them.
- The pin driver and the clock module are not modelled as hardware. A pin
  is a level in a map, and a clock is an armed flag and a timeout. When a
  clock fires is left to the caller of `FlashTimeout`, which requires an
  armed clock.
- ETXPROFILE_SERV_UUID is defined in a profile header that is not part of
  this model, so it is a parameter of the advertising template. The BLE
  status codes and the profile parameter ids have no numeric values here;
  they are datatype constructors.
- The system id is built in a temporary stack buffer in the source. In the
  model it is the sequence `SystemIdHead + devID[..]` handed to the stack.
- Only the drain checks the shutdown flag. The handlers called from
  outside it (`SendAttRsp`, `GattMsgReceived`, the callbacks) do not,
  because a halted device has no caller left to invoke them.
- Concurrency is not modelled. Callbacks only enqueue, and the queue is a
  sequence owned by the single application task.

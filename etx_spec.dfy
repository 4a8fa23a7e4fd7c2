/** The transmitter application of evrs_tx_main.c as functions on a value.

    AppView holds everything the application owns (its state machine
    variables, the advertising and scan-response buffers, the device id, the
    queue of deferred application messages and the pending ATT response),
    plus what it has handed to its collaborators: the LED driver's state, the
    values last set on the BLE stack (Ble) and whether a shutdown was asked
    for. Each After... function is the state after one handler of the source
    runs; class Transmitter in module EtxMain is proved against them. */
module EtxSpec {
  import opened BoardLed

  type Byte = x: int | 0 <= x < 256

  /** A 32-bit unsigned word. */
  type Word = x: int | 0 <= x < 0x1_0000_0000

  datatype Option<T> = None | Some(value: T)

  /** Key codes produced by the key driver. */
  const KeyOk: Byte := 0x0A
  const KeyPower: Byte := 0x0B

  /** Battery thresholds in microvolts: below VccFloor on the supply rail the
      device halts at boot; below BatteryLowLevel on the battery input the
      battery is flagged low. */
  const VccFloor: nat := 3_000_000
  const BatteryLowLevel: nat := 2_500_000

  /** LED flash periods (ms) used on state entry. */
  const LowBatteryFlashMs: nat := 500
  const InitLowFlashMs: nat := 2000
  const IdleLowFlashMs: nat := 1000
  const ActiveFlashMs: nat := 100

  /** Advertising and scan-response layout. */
  const AdTypeDest: Byte := 0xAF
  const AdTypeDevId: Byte := 0xAE
  const DestIndex: nat := 9
  const ScanRspDevIdAt: nat := 11

  /** Device id: 4 bytes, the last one a fixed prefix. */
  const DevIdLen: nat := 4
  const DevIdPrefix: Byte := 0x95

  /** The fixed head of the system-id attribute: 'E', 'T', 'X', 0. */
  const SystemIdHead: seq<Byte> := [0x45, 0x54, 0x58, 0x00]

  /** Standard advertising data types and flags (Bluetooth Core
      Specification Supplement, Part A, section 1) and the connection
      interval bounds (units of 1.25 ms) the device asks for. */
  const AdTypeFlags: Byte := 0x01
  const AdFlagsGeneralNoBrEdr: Byte := 0x06
  const AdType16BitMore: Byte := 0x02
  const AdTypeConnIntervalRange: Byte := 0x12
  const AdTypePowerLevel: Byte := 0x0A
  const MinConnInterval: nat := 32
  const MaxConnInterval: nat := 80

  datatype AppState = Init | Idle | Active

  /** Characteristics of the transmitter's GATT profile. */
  datatype Param = Cmd | Data | OtherParam(id: Byte)

  /** GAP peripheral role states reported by the BLE stack. */
  datatype GapRole = Started | Advertising | Connected | ConnectedAdv | Waiting
                   | WaitingAfterTimeout | RoleError | OtherRole(code: Byte)

  /** Status codes returned by the BLE stack. */
  datatype Status = Success | Failure | BlePending | MsgBufferNotAvail | BleNotConnected
                  | OtherStatus(code: Byte)

  /** A GATT message from the stack; a response that could not be sent
      carries status BlePending. */
  datatype GattMsg = GattMsg(connHandle: nat, status: Status)

  /** A deferred application message, as the callbacks enqueue it. */
  datatype AppMsg =
    | GapStateChg(role: GapRole)
    | AppStateChg(next: AppState)
    | CharChange(changed: Param)
    | CharEnquire(enquired: Param)
    | KeyPressed(keys: Byte)

  /** What the collaborators answer while one message is processed: whether
      the GAP role accepts new advertising data, whether the profile accepts
      a DATA write, and whether the heap can allocate a queued message. */
  datatype StackReply = StackReply(advertAccepted: bool, dataAccepted: bool, msgAllocated: bool)

  /** The values last handed to the BLE stack. */
  datatype Ble = Ble(
    advertEnabled: bool,        // advertising enabled flag of the GAP role
    advertPayload: seq<Byte>,   // advertising data last accepted by the GAP role
    cmdChar: Byte,              // CMD characteristic value
    dataChar: Byte,             // DATA characteristic value
    systemId: seq<Byte>,        // system-id attribute of the device information service
    connEvtNotice: bool)        // connection-event-end notices requested from HCI

  datatype AppView = AppView(
    appState: AppState,
    destBSID: Byte,
    userData: Byte,
    isBatLow: bool,
    advertData: seq<Byte>,
    scanRspData: seq<Byte>,
    devID: seq<Byte>,
    nvDevId: Option<seq<Byte>>,  // the device-id item of the non-volatile store
    queue: seq<AppMsg>,
    attRsp: Option<GattMsg>,
    rspTxRetry: Byte,
    leds: LedBank,
    ble: Ble,
    shutdown: bool)
  {
    ghost predicate Valid() {
      && |advertData| == 10 && |scanRspData| == 15 && |devID| == DevIdLen
      && (nvDevId.Some? ==> |nvDevId.value| == DevIdLen)
      && leds.Valid()
    }
  }

  /** The two views agree on the device identity, the battery flag and the
      ATT response bookkeeping. */
  ghost predicate SameDevice(v: AppView, w: AppView) {
    && w.devID == v.devID && w.nvDevId == v.nvDevId && w.scanRspData == v.scanRspData
    && w.isBatLow == v.isBatLow && w.attRsp == v.attRsp && w.rspTxRetry == v.rspTxRetry
  }

  // ---------------------------------------------------------------------
  // Static data and power-on state

  /** The advertising data as initialised: flags, the profile's 16-bit
      service UUID, and the destination field (initially 0). */
  function AdvertTemplate(serviceUuid: nat): (a: seq<Byte>)
    requires serviceUuid < 0x1_0000
    ensures |a| == 10 && a[DestIndex - 1] == AdTypeDest && a[DestIndex] == 0
  {
    [0x02, AdTypeFlags, AdFlagsGeneralNoBrEdr,
     0x03, AdType16BitMore, serviceUuid % 0x100, serviceUuid / 0x100,
     0x02, AdTypeDest, 0x00]
  }

  /** The scan-response data as initialised: the connection interval range,
      the transmit power, and a zeroed device-id field. */
  function ScanRspTemplate(): (s: seq<Byte>)
    ensures |s| == 15 && s[ScanRspDevIdAt - 1] == AdTypeDevId && s[ScanRspDevIdAt..] == [0, 0, 0, 0]
  {
    [0x05, AdTypeConnIntervalRange, MinConnInterval % 0x100, MinConnInterval / 0x100,
     MaxConnInterval % 0x100, MaxConnInterval / 0x100,
     0x02, AdTypePowerLevel, 0x00,
     0x05, AdTypeDevId, 0x00, 0x00, 0x00, 0x00]
  }

  /** State of the application at power-on, before the boot sequence: all
      static variables at their initial values; `nv` is what the
      non-volatile store holds. */
  function PowerOnView(serviceUuid: nat, nv: Option<seq<Byte>>): (v: AppView)
    requires serviceUuid < 0x1_0000 && (nv.Some? ==> |nv.value| == DevIdLen)
    ensures v.Valid() && v.appState == Init && v.queue == [] && v.attRsp == None
  {
    AppView(Init, 0, 0, false, AdvertTemplate(serviceUuid), ScanRspTemplate(), [0, 0, 0, 0], nv,
            [], None, 0,
            LedBank([Off, Off], [Clock(false, 0), Clock(false, 0)], map[RedPin := 0, BluePin := 0]),
            Ble(false, [], 0, 0, [], false), false)
  }

  // ---------------------------------------------------------------------
  // Battery thresholds

  /** The supply rail is too low to run: the device halts at boot. An ADC
      that cannot be opened or read reports 0, which is too low. */
  predicate VccTooLow(microvolts: nat) { microvolts < VccFloor }

  /** The battery is flagged low (fast red flash in INIT). */
  predicate BatteryLow(microvolts: nat) { microvolts < BatteryLowLevel }

  lemma BatteryThresholds()
    ensures !BatteryLow(BatteryLowLevel) && BatteryLow(BatteryLowLevel - 1)
    ensures !VccTooLow(VccFloor) && VccTooLow(VccFloor - 1) && VccTooLow(0)
  {
  }

  // ---------------------------------------------------------------------
  // Device id, scan response and system id

  /** A stored device id is valid when its last byte is the prefix. */
  predicate HasPrefix(id: seq<Byte>)
    requires |id| == DevIdLen
  {
    id[3] == DevIdPrefix
  }

  /** A freshly generated device id from a random word: three bytes taken
      from the word reduced modulo 0xFFFFFF, each reduced modulo 0xFF, and
      the prefix. */
  function RegeneratedId(trng: Word, prefix: Byte): (id: seq<Byte>)
    ensures |id| == DevIdLen && id[3] == prefix
    ensures forall i :: 0 <= i < 3 ==> id[i] <= 0xFE
  {
    var rnd := trng % 0xFF_FFFF;
    [rnd % 0xFF, (rnd / 0x100) % 0xFF, (rnd / 0x1_0000) % 0xFF, prefix]
  }

  /** The device id read at boot: the stored item when there is one,
      otherwise the buffer unchanged. */
  function AfterDevIdFind(v: AppView): (w: AppView)
    requires v.Valid()
    ensures w.Valid()
    ensures w.devID == if v.nvDevId.Some? then v.nvDevId.value else v.devID
    ensures w == v.(devID := w.devID)
  {
    if v.nvDevId.Some? then v.(devID := v.nvDevId.value) else v
  }

  /** A new device id is generated into the buffer and written to the store;
      when the write succeeds the store holds it (reading it back yields the
      same bytes). */
  function AfterDevIdRefresh(v: AppView, trng: Word, nvWriteOk: bool): (w: AppView)
    requires v.Valid()
    ensures w.Valid()
    ensures HasPrefix(w.devID) && w.devID == RegeneratedId(trng, DevIdPrefix)
    ensures w.nvDevId == if nvWriteOk then Some(w.devID) else v.nvDevId
    ensures w == v.(devID := w.devID, nvDevId := w.nvDevId)
  {
    var id := RegeneratedId(trng, DevIdPrefix);
    v.(devID := id, nvDevId := if nvWriteOk then Some(id) else v.nvDevId)
  }

  /** The device-id field of the scan response gets the device id; every
      other scan-response byte is kept. */
  function AfterUpdateScanRsp(v: AppView): (w: AppView)
    requires v.Valid()
    ensures w.Valid()
    ensures w.scanRspData[ScanRspDevIdAt..] == v.devID
    ensures forall i :: 0 <= i < ScanRspDevIdAt ==> w.scanRspData[i] == v.scanRspData[i]
    ensures w == v.(scanRspData := w.scanRspData)
  {
    v.(scanRspData := v.scanRspData[..ScanRspDevIdAt] + v.devID)
  }

  /** The system-id attribute: the head 'E','T','X',0 followed by the
      device id. */
  function SystemId(id: seq<Byte>): (s: seq<Byte>)
    requires |id| == DevIdLen
    ensures |s| == 8 && s[..4] == SystemIdHead && s[4..] == id
  {
    SystemIdHead + id
  }

  /** The system id determines the device id. */
  lemma SystemIdInjective(a: seq<Byte>, b: seq<Byte>)
    requires |a| == DevIdLen && |b| == DevIdLen
    ensures SystemId(a) == SystemId(b) <==> a == b
  {
    if SystemId(a) == SystemId(b) {
      assert a == SystemId(a)[4..];
    }
  }

  // ---------------------------------------------------------------------
  // Boot

  /** The part of the boot sequence the application decides: LEDs
      initialised and both turned on; a supply rail below the floor turns
      them off and halts (nothing after runs); otherwise the device id is
      read, regenerated when its prefix is wrong, copied into the scan
      response, and the battery-low flag is set. */
  function AfterBoot(v: AppView, vccUv: nat, batUv: nat, trng: Word, nvWriteOk: bool): (w: AppView)
    requires v.Valid()
    ensures w.Valid()
    ensures w.appState == v.appState && w.destBSID == v.destBSID && w.userData == v.userData
    ensures w.queue == v.queue && w.ble == v.ble && w.advertData == v.advertData
  {
    var lit := AfterControl(AfterControl(AfterInit(), RLED, On, 0), BLED, On, 0);
    if VccTooLow(vccUv) then
      v.(leds := AfterControl(AfterControl(lit, RLED, Off, 0), BLED, Off, 0), shutdown := true)
    else
      var found := AfterDevIdFind(v.(leds := lit));
      var checked := if !HasPrefix(found.devID) then AfterDevIdRefresh(found, trng, nvWriteOk) else found;
      AfterUpdateScanRsp(checked).(isBatLow := BatteryLow(batUv))
  }

  /** What a boot does, state by state. */
  lemma BootEffect(v: AppView, vccUv: nat, batUv: nat, trng: Word, nvWriteOk: bool) returns (w: AppView)
    requires v.Valid()
    ensures w == AfterBoot(v, vccUv, batUv, trng, nvWriteOk)
    ensures VccTooLow(vccUv) ==>
      && w.shutdown && w.leds.states == [Off, Off] && w.leds.pins[RedPin] == 0 && w.leds.pins[BluePin] == 0
      && w.devID == v.devID && w.nvDevId == v.nvDevId && w.scanRspData == v.scanRspData
      && w.isBatLow == v.isBatLow
    ensures !VccTooLow(vccUv) ==>
      && w.shutdown == v.shutdown && w.leds.states == [On, On]
      && w.leds.pins[RedPin] == 1 && w.leds.pins[BluePin] == 1
      && w.attRsp == v.attRsp && w.rspTxRetry == v.rspTxRetry
      && HasPrefix(w.devID) && w.scanRspData == v.scanRspData[..ScanRspDevIdAt] + w.devID
      && w.isBatLow == BatteryLow(batUv)
    ensures !VccTooLow(vccUv) ==>
      var found := if v.nvDevId.Some? then v.nvDevId.value else v.devID;
      && (HasPrefix(found) ==> w.devID == found && w.nvDevId == v.nvDevId)
      && (!HasPrefix(found) ==>
            w.devID == RegeneratedId(trng, DevIdPrefix)
            && w.nvDevId == (if nvWriteOk then Some(w.devID) else v.nvDevId))
  {
    w := AfterBoot(v, vccUv, batUv, trng, nvWriteOk);
  }

  // ---------------------------------------------------------------------
  // Application message queue

  /** A message appended to the queue; it is dropped when it cannot be
      allocated. */
  function Enqueued(v: AppView, m: AppMsg, heapOk: bool): AppView
  {
    if heapOk then v.(queue := v.queue + [m]) else v
  }

  /** Processing one message leaves the rest of the queue in place and
      appends at most one state-change request, and only when the message
      was not itself a state change. */
  ghost predicate QueueStep(before: seq<AppMsg>, after: seq<AppMsg>, m: AppMsg) {
    || after == before
    || (!m.AppStateChg? && |after| == |before| + 1 && after[..|before|] == before
        && after[|before|].AppStateChg?)
  }

  /** Termination measure of the drain loop: a state-change request weighs
      1, any other message 2. */
  function MsgWeight(m: AppMsg): nat { if m.AppStateChg? then 1 else 2 }

  function Weight(q: seq<AppMsg>): nat
  {
    if q == [] then 0 else MsgWeight(q[0]) + Weight(q[1..])
  }

  lemma {:induction false} WeightAppend(q: seq<AppMsg>, m: AppMsg)
    ensures Weight(q + [m]) == Weight(q) + MsgWeight(m)
  {
    if q != [] {
      assert (q + [m])[1..] == q[1..] + [m];
      WeightAppend(q[1..], m);
    }
  }

  lemma WeightShrinks(before: seq<AppMsg>, after: seq<AppMsg>, m: AppMsg)
    requires QueueStep(before, after, m)
    ensures Weight(after) < MsgWeight(m) + Weight(before)
  {
    if after != before {
      assert after == before + [after[|before|]];
      WeightAppend(before, after[|before|]);
    }
  }

  // ---------------------------------------------------------------------
  // State transitions

  /** Entering a state. INIT clears the destination, its advertising byte,
      the user data and the DATA characteristic, disables advertising, sets
      the red LED to flash (fast when the battery is low, low-flash
      otherwise) and turns the blue LED off. IDLE disables advertising and
      low-flashes the blue LED. ACTIVE enables advertising and flashes the
      blue LED. */
  function AfterAppStateChange(v: AppView, next: AppState): (w: AppView)
    requires v.Valid()
    ensures w.Valid() && SameDevice(v, w)
    ensures w.appState == next && w.queue == v.queue && w.shutdown == v.shutdown
  {
    var entered := v.(appState := next);
    match next
    case Init =>
      var cleared := entered.(destBSID := 0, advertData := entered.advertData[DestIndex := 0], userData := 0,
                              ble := entered.ble.(dataChar := 0, advertEnabled := false));
      var red := if v.isBatLow then AfterControl(cleared.leds, RLED, Flash, LowBatteryFlashMs)
                 else AfterControl(cleared.leds, RLED, LowFlash, InitLowFlashMs);
      cleared.(leds := AfterControl(red, BLED, Off, 0))
    case Idle =>
      entered.(ble := entered.ble.(advertEnabled := false),
               leds := AfterControl(entered.leds, BLED, LowFlash, IdleLowFlashMs))
    case Active =>
      entered.(ble := entered.ble.(advertEnabled := true),
               leds := AfterControl(entered.leds, BLED, Flash, ActiveFlashMs))
  }

  /** What entering each state does to the session, the stack and the
      LEDs. */
  lemma AppStateChangeEffect(v: AppView, next: AppState) returns (w: AppView)
    requires v.Valid()
    ensures w == AfterAppStateChange(v, next)
    ensures w.ble.advertEnabled == (next == Active)
    ensures w.ble.advertPayload == v.ble.advertPayload && w.ble.cmdChar == v.ble.cmdChar
    ensures w.ble.systemId == v.ble.systemId && w.ble.connEvtNotice == v.ble.connEvtNotice
    ensures next == Init ==>
      && w.destBSID == 0 && w.userData == 0 && w.advertData == v.advertData[DestIndex := 0]
      && w.ble.dataChar == 0
      && w.leds.states[RLED] == (if v.isBatLow then Flash else LowFlash) && w.leds.states[BLED] == Off
      && w.leds.pins[BluePin] == 0
      && (v.isBatLow ==> w.leds.clocks[RLED] == Clock(true, LowBatteryFlashMs) && w.leds.pins[RedPin] == 0)
      && (!v.isBatLow ==> w.leds.clocks[RLED] == v.leds.clocks[RLED] && w.leds.pins[RedPin] == v.leds.pins[RedPin])
      && w.leds.clocks[BLED] == (if v.leds.states[BLED] == Flash then Stopped(v.leds.clocks[BLED]) else v.leds.clocks[BLED])
    ensures next != Init ==>
      && w.destBSID == v.destBSID && w.userData == v.userData && w.advertData == v.advertData
      && w.ble.dataChar == v.ble.dataChar
      && w.leds.states[RLED] == v.leds.states[RLED] && w.leds.clocks[RLED] == v.leds.clocks[RLED]
      && w.leds.pins[RedPin] == v.leds.pins[RedPin]
    ensures next == Idle ==>
      && w.leds.states[BLED] == LowFlash
      && w.leds.clocks[BLED] == v.leds.clocks[BLED] && w.leds.pins[BluePin] == v.leds.pins[BluePin]
    ensures next == Active ==>
      && w.leds.states[BLED] == Flash && w.leds.clocks[BLED] == Clock(true, ActiveFlashMs)
      && w.leds.pins[BluePin] == 0
  {
    w := AfterAppStateChange(v, next);
  }

  /** A key in INIT: a code below OK selects the destination and writes it
      into the advertising data; OK with a destination set publishes the
      advertising data and, if the GAP role accepts it, asks for IDLE. */
  function KeyInInit(v: AppView, keys: Byte, rep: StackReply): (w: AppView)
    requires v.Valid()
    ensures w.Valid() && SameDevice(v, w)
    ensures w.appState == v.appState && w.userData == v.userData && w.leds == v.leds
    ensures w.shutdown == v.shutdown
    ensures keys < KeyOk ==>
      w.destBSID == keys && w.advertData == v.advertData[DestIndex := keys] && w.queue == v.queue && w.ble == v.ble
    ensures keys >= KeyOk ==> w.destBSID == v.destBSID && w.advertData == v.advertData
    ensures var published := keys == KeyOk && v.destBSID != 0 && rep.advertAccepted;
      && w.ble == (if published then v.ble.(advertPayload := v.advertData) else v.ble)
      && w.queue == (if published && rep.msgAllocated then v.queue + [AppStateChg(Idle)] else v.queue)
  {
    var selected := if keys < KeyOk then v.(destBSID := keys, advertData := v.advertData[DestIndex := keys]) else v;
    if keys == KeyOk && selected.destBSID != 0 && rep.advertAccepted then
      Enqueued(selected.(ble := selected.ble.(advertPayload := selected.advertData)), AppStateChg(Idle), rep.msgAllocated)
    else
      selected
  }

  /** A key in IDLE: a code below OK selects the user data; OK with user
      data set writes it to the DATA characteristic and, if the write is
      accepted, asks for ACTIVE. */
  function KeyInIdle(v: AppView, keys: Byte, rep: StackReply): (w: AppView)
    requires v.Valid()
    ensures w.Valid() && SameDevice(v, w)
    ensures w.appState == v.appState && w.destBSID == v.destBSID && w.advertData == v.advertData
    ensures w.leds == v.leds && w.shutdown == v.shutdown
    ensures keys < KeyOk ==> w.userData == keys && w.queue == v.queue && w.ble == v.ble
    ensures keys >= KeyOk ==> w.userData == v.userData
    ensures var written := keys == KeyOk && v.userData != 0 && rep.dataAccepted;
      && w.ble == (if written then v.ble.(dataChar := v.userData) else v.ble)
      && w.queue == (if written && rep.msgAllocated then v.queue + [AppStateChg(Active)] else v.queue)
  {
    var selected := if keys < KeyOk then v.(userData := keys) else v;
    if keys == KeyOk && selected.userData != 0 && rep.dataAccepted then
      Enqueued(selected.(ble := selected.ble.(dataChar := selected.userData)), AppStateChg(Active), rep.msgAllocated)
    else
      selected
  }

  /** The power key's path: INIT is entered at once, both LEDs are turned
      off and a shutdown is requested. */
  function PoweredDown(v: AppView): (w: AppView)
    requires v.Valid()
    ensures w.Valid() && SameDevice(v, w)
    ensures w.appState == Init && w.shutdown && w.queue == v.queue
  {
    var entered := AfterAppStateChange(v, Init);
    entered.(leds := AfterControl(AfterControl(entered.leds, RLED, Off, 0), BLED, Off, 0), shutdown := true)
  }

  /** A key press. The red LED is recorded HIGH while the key is handled
      and LOW afterwards (neither touches its pin or clock). Digits and OK
      act according to the state; confirmed transitions are only queued.
      The power key, in any state, enters INIT at once and shuts down. */
  function AfterKeyPress(v: AppView, keys: Byte, rep: StackReply): (w: AppView)
    requires v.Valid()
    ensures w.Valid() && SameDevice(v, w)
    ensures QueueStep(v.queue, w.queue, KeyPressed(keys))
  {
    var handled := KeyHandled(v, keys, rep);
    if keys == KeyPower then PoweredDown(handled) else handled
  }

  /** A key handled by the current state, between the red LED going HIGH
      and going LOW: the LED records do not interact with the handling. */
  function KeyHandled(v: AppView, keys: Byte, rep: StackReply): (w: AppView)
    requires v.Valid()
    ensures w.Valid() && SameDevice(v, w)
    ensures w == KeyInState(v, keys, rep).(leds := v.leds.(states := v.leds.states[RLED := Low]))
  {
    var handled := KeyInState(v.(leds := AfterControl(v.leds, RLED, High, 0)), keys, rep);
    handled.(leds := AfterControl(handled.leds, RLED, Low, 0))
  }

  /** The handler of the current state; keys are ignored in ACTIVE. */
  function KeyInState(v: AppView, keys: Byte, rep: StackReply): (w: AppView)
    requires v.Valid()
    ensures w.Valid() && SameDevice(v, w) && w.leds == v.leds
    ensures QueueStep(v.queue, w.queue, KeyPressed(keys))
  {
    match v.appState
    case Init => KeyInInit(v, keys, rep)
    case Idle => KeyInIdle(v, keys, rep)
    case Active => v
  }

  /** The power key, in any state: INIT is entered with the session
      cleared, both LEDs are off and a shutdown is requested. */
  lemma PowerKeyEffect(v: AppView, rep: StackReply) returns (w: AppView)
    requires v.Valid()
    ensures w == AfterKeyPress(v, KeyPower, rep)
    ensures && w.appState == Init && w.destBSID == 0 && w.userData == 0 && w.advertData[DestIndex] == 0
            && w.leds.states[RLED] == Off && w.leds.states[BLED] == Off
            && w.leds.pins[RedPin] == 0 && w.leds.pins[BluePin] == 0
            && !w.ble.advertEnabled && w.shutdown && w.queue == v.queue
  {
    var handled := KeyHandled(v, KeyPower, rep);
    w := AfterKeyPress(v, KeyPower, rep);
    var entered := AppStateChangeEffect(handled, Init);
    ControlEffect(AfterControl(entered.leds, RLED, Off, 0), BLED, Off, 0);
    ControlEffect(entered.leds, RLED, Off, 0);
  }

  /** What any other key does in each state. */
  lemma KeyPressEffect(v: AppView, keys: Byte, rep: StackReply) returns (w: AppView)
    requires v.Valid() && keys != KeyPower
    ensures w == AfterKeyPress(v, keys, rep)
    ensures && w.appState == v.appState && w.shutdown == v.shutdown
            && w.leds == v.leds.(states := v.leds.states[RLED := Low])
            && w.ble.advertEnabled == v.ble.advertEnabled
    ensures v.appState == Init ==>
      && w.userData == v.userData && w.ble.dataChar == v.ble.dataChar
      && (keys < KeyOk ==> w.destBSID == keys && w.advertData == v.advertData[DestIndex := keys] && w.queue == v.queue)
      && (keys >= KeyOk ==> w.destBSID == v.destBSID && w.advertData == v.advertData)
      && (w.queue != v.queue <==> keys == KeyOk && v.destBSID != 0 && rep.advertAccepted && rep.msgAllocated)
      && (w.queue != v.queue ==> w.queue == v.queue + [AppStateChg(Idle)])
      && w.ble == (if keys == KeyOk && v.destBSID != 0 && rep.advertAccepted
                   then v.ble.(advertPayload := v.advertData) else v.ble)
    ensures v.appState == Idle ==>
      && w.destBSID == v.destBSID && w.advertData == v.advertData
      && w.ble.advertPayload == v.ble.advertPayload
      && (keys < KeyOk ==> w.userData == keys && w.queue == v.queue)
      && (keys >= KeyOk ==> w.userData == v.userData)
      && (w.queue != v.queue <==> keys == KeyOk && v.userData != 0 && rep.dataAccepted && rep.msgAllocated)
      && (w.queue != v.queue ==> w.queue == v.queue + [AppStateChg(Active)])
      && w.ble.dataChar == (if keys == KeyOk && v.userData != 0 && rep.dataAccepted then v.userData else v.ble.dataChar)
    ensures v.appState == Active ==>
      && w.destBSID == v.destBSID && w.userData == v.userData && w.advertData == v.advertData
      && w.queue == v.queue && w.ble == v.ble
  {
    w := AfterKeyPress(v, keys, rep);
  }

  /** The remote side has read a characteristic. CMD: its value is cleared.
      DATA: the user data and the DATA value are cleared and IDLE is asked
      for. The state itself never changes here. */
  function AfterCharEnquire(v: AppView, p: Param, rep: StackReply): (w: AppView)
    requires v.Valid()
    ensures w.Valid() && SameDevice(v, w)
    ensures w.appState == v.appState && w.destBSID == v.destBSID && w.advertData == v.advertData
    ensures w.leds == v.leds && w.shutdown == v.shutdown
    ensures w.ble.advertEnabled == v.ble.advertEnabled && w.ble.advertPayload == v.ble.advertPayload
    ensures w.ble.systemId == v.ble.systemId && w.ble.connEvtNotice == v.ble.connEvtNotice
    ensures p == Cmd ==> w.ble.cmdChar == 0 && w.ble.dataChar == v.ble.dataChar && w.userData == v.userData && w.queue == v.queue
    ensures p == Data ==>
      && w.userData == 0 && w.ble.dataChar == 0 && w.ble.cmdChar == v.ble.cmdChar
      && w.queue == (if rep.msgAllocated then v.queue + [AppStateChg(Idle)] else v.queue)
    ensures p.OtherParam? ==> w == v
  {
    match p
    case Cmd => v.(ble := v.ble.(cmdChar := 0))
    case Data => Enqueued(v.(userData := 0, ble := v.ble.(dataChar := 0)), AppStateChg(Idle), rep.msgAllocated)
    case OtherParam(_) => v
  }

  /** A GAP role state change. STARTED publishes the system id and asks for
      INIT; a disconnection or timeout drops the pending ATT response; the
      other states change nothing. */
  function AfterGapRoleStateChange(v: AppView, role: GapRole, rep: StackReply): (w: AppView)
    requires v.Valid()
    ensures w.Valid()
    ensures w.appState == v.appState && w.destBSID == v.destBSID && w.userData == v.userData
    ensures w.advertData == v.advertData && w.leds == v.leds && w.shutdown == v.shutdown
    ensures role == Started ==>
      && SameDevice(v, w) && w.ble == v.ble.(systemId := SystemId(v.devID))
      && w.queue == (if rep.msgAllocated then v.queue + [AppStateChg(Init)] else v.queue)
    ensures role == Waiting || role == WaitingAfterTimeout ==>
      w == v.(attRsp := None, rspTxRetry := if v.attRsp.Some? then 0 else v.rspTxRetry)
    ensures role != Started && role != Waiting && role != WaitingAfterTimeout ==> w == v
  {
    match role
    case Started => Enqueued(v.(ble := v.ble.(systemId := SystemId(v.devID))), AppStateChg(Init), rep.msgAllocated)
    case Waiting => AfterFreeAttRsp(v, BleNotConnected)
    case WaitingAfterTimeout => AfterFreeAttRsp(v, BleNotConnected)
    case _ => v
  }

  /** Dispatch of one queued message. A changed characteristic is only read
      and logged. */
  function AfterProcessAppMsg(v: AppView, m: AppMsg, rep: StackReply): (w: AppView)
    requires v.Valid()
    ensures w.Valid()
    ensures QueueStep(v.queue, w.queue, m)
  {
    match m
    case GapStateChg(role) => AfterGapRoleStateChange(v, role, rep)
    case AppStateChg(next) => AfterAppStateChange(v, next)
    case CharChange(_) => v
    case CharEnquire(p) => AfterCharEnquire(v, p, rep)
    case KeyPressed(keys) => AfterKeyPress(v, keys, rep)
  }

  /** Draining the queue: messages are taken from the front one at a time,
      including those appended while draining, until the queue is empty or
      a shutdown has been requested (the device halts there, and whatever
      is still queued is never processed). reply(k) is what the
      collaborators answer while the k-th message is processed. */
  function AfterDrain(v: AppView, reply: nat -> StackReply, k: nat): (w: AppView)
    requires v.Valid()
    ensures w.Valid() && (w.queue == [] || w.shutdown)
    ensures v.shutdown ==> w == v
    decreases Weight(v.queue)
  {
    if v.queue == [] || v.shutdown then v
    else
      var rest := v.(queue := v.queue[1..]);
      var u := AfterProcessAppMsg(rest, v.queue[0], reply(k));
      WeightShrinks(rest.queue, u.queue, v.queue[0]);
      AfterDrain(u, reply, k + 1)
  }

  // ---------------------------------------------------------------------
  // Pending ATT response

  /** Drops the pending ATT response, if any, and resets the retry count. */
  function AfterFreeAttRsp(v: AppView, status: Status): (w: AppView)
    requires v.Valid()
    ensures w.Valid() && w.attRsp == None
    ensures v.attRsp == None ==> w == v
    ensures v.attRsp != None ==> w == v.(attRsp := None, rspTxRetry := 0)
  {
    if v.attRsp.Some? then v.(attRsp := None, rspTxRetry := 0) else v
  }

  /** A send status after which the response is not retried. */
  predicate SendSettled(status: Status) {
    status != BlePending && status != MsgBufferNotAvail
  }

  /** A connection event ended: the pending response, if any, is sent again
      (the attempt counted, modulo 256). A settled status stops the
      connection-event notices and drops the response; otherwise it stays
      pending. */
  function AfterSendAttRsp(v: AppView, status: Status): (w: AppView)
    requires v.Valid()
    ensures w.Valid()
    ensures v.attRsp == None ==> w == v
    ensures v.attRsp != None && SendSettled(status) ==>
      w == v.(attRsp := None, rspTxRetry := 0, ble := v.ble.(connEvtNotice := false))
    ensures v.attRsp != None && !SendSettled(status) ==>
      w == v.(rspTxRetry := (v.rspTxRetry + 1) % 256)
  {
    if v.attRsp.None? then v
    else
      var counted := v.(rspTxRetry := (v.rspTxRetry + 1) % 256);
      if SendSettled(status) then
        AfterFreeAttRsp(counted.(ble := counted.ble.(connEvtNotice := false)), status)
      else
        counted
  }

  /** Whether a received GATT message is held for retransmission: it is a
      response the stack could not send and connection-event notices could
      be turned on. */
  predicate HeldForRetry(msg: GattMsg, noticeOk: bool) {
    msg.status == BlePending && noticeOk
  }

  /** A GATT message from the stack. A held message replaces (and frees)
      any pending response; otherwise nothing changes and the message may be
      deallocated. */
  function AfterGattMsgReceived(v: AppView, msg: GattMsg, noticeOk: bool): (w: AppView)
    requires v.Valid()
    ensures w.Valid()
    ensures HeldForRetry(msg, noticeOk) ==>
      w == v.(attRsp := Some(msg), rspTxRetry := if v.attRsp.Some? then 0 else v.rspTxRetry,
              ble := v.ble.(connEvtNotice := true))
    ensures !HeldForRetry(msg, noticeOk) ==> w == v
  {
    if HeldForRetry(msg, noticeOk) then
      var freed := AfterFreeAttRsp(v, Failure);
      freed.(attRsp := Some(msg), ble := freed.ble.(connEvtNotice := true))
    else v
  }

  /** The retry count is zero whenever no response is pending. */
  ghost predicate RetryBookkeeping(v: AppView) {
    v.attRsp.None? ==> v.rspTxRetry == 0
  }

  /** Repeated connection events, each answered with a send status. */
  function AfterSends(v: AppView, statuses: seq<Status>): (w: AppView)
    requires v.Valid()
    ensures w.Valid()
    decreases |statuses|
  {
    if statuses == [] then v else AfterSends(AfterSendAttRsp(v, statuses[0]), statuses[1..])
  }
}

/** The transmitter application of evrs_tx_main.c as the source runs it:
    the file's static variables are the fields of one Transmitter object,
    the fixed-size buffers are arrays written in place, and every handler is
    a method whose postcondition ties the new state, seen through View(), to
    the matching function of module EtxSpec. */
module EtxMain {
  import opened BoardLed
  import opened EtxSpec

  class Transmitter {
    var appState: AppState
    var destBSID: Byte
    var userData: Byte
    var isBatLow: bool
    const advertData: array<Byte>
    const scanRspData: array<Byte>
    const devID: array<Byte>
    /** The device-id item of the non-volatile store. */
    var nvDevId: Option<seq<Byte>>
    /** The RTOS queue of application messages. */
    var appMsgQueue: seq<AppMsg>
    /** The ATT response held for retransmission, and the attempts so far. */
    var pAttRsp: Option<GattMsg>
    var rspTxRetry: Byte
    const leds: LedDriver
    /** The values last handed to the BLE stack. */
    var ble: Ble
    /** Whether a power shutdown was requested. */
    var shutdown: bool

    ghost predicate Valid()
      reads this, leds
    {
      && advertData.Length == 10 && scanRspData.Length == 15 && devID.Length == DevIdLen
      && advertData != scanRspData && advertData != devID && scanRspData != devID
      && (nvDevId.Some? ==> |nvDevId.value| == DevIdLen)
      && leds.Valid()
    }

    /** The whole application state as a value. */
    function View(): (v: AppView)
      reads this, advertData, scanRspData, devID, leds, leds.ledState, leds.ledFlashClk
      requires Valid()
      ensures v.Valid()
    {
      AppView(appState, destBSID, userData, isBatLow, advertData[..], scanRspData[..], devID[..],
              nvDevId, appMsgQueue, pAttRsp, rspTxRetry, leds.Snapshot(), ble, shutdown)
    }

    /** Static storage at power-on; `nv` is what the non-volatile store holds. */
    constructor (serviceUuid: nat, nv: Option<seq<Byte>>)
      requires serviceUuid < 0x1_0000 && (nv.Some? ==> |nv.value| == DevIdLen)
      ensures Valid() && View() == PowerOnView(serviceUuid, nv)
      ensures fresh(advertData) && fresh(scanRspData) && fresh(devID)
      ensures fresh(leds) && fresh(leds.ledState) && fresh(leds.ledFlashClk)
    {
      appState, destBSID, userData, isBatLow := Init, 0, 0, false;
      var advert := AdvertTemplate(serviceUuid);
      advertData := new Byte[10](i requires 0 <= i < 10 => advert[i]);
      var scanRsp := ScanRspTemplate();
      scanRspData := new Byte[15](i requires 0 <= i < 15 => scanRsp[i]);
      devID := new Byte[DevIdLen](_ => 0);
      nvDevId := nv;
      appMsgQueue, pAttRsp, rspTxRetry := [], None, 0;
      leds := new LedDriver();
      ble := Ble(false, [], 0, 0, [], false);
      shutdown := false;
      new;
      assert advertData[..] == advert;
      assert scanRspData[..] == scanRsp;
      assert devID[..] == [0, 0, 0, 0];
    }

    // -------------------------------------------------------------------
    // Boot

    /** ETX_init, the steps the application decides: LED initialisation,
        both LEDs on, the supply-rail floor, the device-id check and the
        battery-low flag. */
    method Boot(vccUv: nat, batUv: nat, trng: Word, nvWriteOk: bool)
      requires Valid()
      modifies this, scanRspData, devID, leds, leds.ledState, leds.ledFlashClk
      ensures Valid() && View() == AfterBoot(old(View()), vccUv, batUv, trng, nvWriteOk)
    {
      LightUp();
      if VccTooLow(vccUv) {
        ShutDown();
        return;
      }
      CheckDevId(trng, nvWriteOk);
      UpdateScanRsp();
      isBatLow := BatteryLow(batUv);
    }

    /** The LEDs initialised and both turned on. */
    method LightUp()
      requires Valid()
      modifies leds, leds.ledState, leds.ledFlashClk
      ensures Valid()
      ensures View() == old(View()).(leds := AfterControl(AfterControl(AfterInit(), RLED, On, 0), BLED, On, 0))
    {
      leds.InitLeds();
      leds.Control(RLED, On, 0);
      leds.Control(BLED, On, 0);
    }

    /** Both LEDs turned off and Power_shutdown requested. */
    method ShutDown()
      requires Valid()
      modifies this, leds, leds.ledState, leds.ledFlashClk
      ensures Valid()
      ensures View() == old(View()).(leds := AfterControl(AfterControl(old(View()).leds, RLED, Off, 0), BLED, Off, 0),
                                     shutdown := true)
    {
      leds.Control(RLED, Off, 0);
      leds.Control(BLED, Off, 0);
      shutdown := true;
    }

    /** The stored device id is read, and regenerated when its prefix is
        wrong. */
    method CheckDevId(trng: Word, nvWriteOk: bool)
      requires Valid()
      modifies this`nvDevId, devID
      ensures Valid()
      ensures var found := AfterDevIdFind(old(View()));
        View() == if !HasPrefix(found.devID) then AfterDevIdRefresh(found, trng, nvWriteOk) else found
    {
      DevIdFind();
      if devID[3] != DevIdPrefix {
        DevIdRefresh(trng, nvWriteOk);
      }
    }

    /** ETX_DevId_Find: a successful read of the store fills the buffer. */
    method DevIdFind()
      requires Valid()
      modifies devID
      ensures Valid() && View() == AfterDevIdFind(old(View()))
    {
      if nvDevId.Some? {
        var stored := nvDevId.value;
        devID[0], devID[1], devID[2], devID[3] := stored[0], stored[1], stored[2], stored[3];
        assert devID[..] == stored;
      }
    }

    /** ETX_DevId_Refresh: a new id from the random word, written to the
        store and, on success, read back. */
    method DevIdRefresh(trng: Word, nvWriteOk: bool)
      requires Valid()
      modifies this`nvDevId, devID
      ensures Valid() && View() == AfterDevIdRefresh(old(View()), trng, nvWriteOk)
    {
      var rnd := trng % 0xFF_FFFF;
      devID[0] := rnd % 0xFF;
      devID[1] := (rnd / 0x100) % 0xFF;
      devID[2] := (rnd / 0x1_0000) % 0xFF;
      devID[3] := DevIdPrefix;
      assert devID[..] == RegeneratedId(trng, DevIdPrefix);
      if nvWriteOk {
        nvDevId := Some(devID[..]);
      }
    }

    /** ETX_DevID_updateScanRsp: the device id into bytes 11..14 of the
        scan response. */
    method UpdateScanRsp()
      requires Valid()
      modifies scanRspData
      ensures Valid() && View() == AfterUpdateScanRsp(old(View()))
    {
      scanRspData[11] := devID[0];
      scanRspData[12] := devID[1];
      scanRspData[13] := devID[2];
      scanRspData[14] := devID[3];
      assert scanRspData[..] == old(scanRspData[..])[..ScanRspDevIdAt] + devID[..];
    }

    // -------------------------------------------------------------------
    // Message queue and callbacks

    /** ETX_enqueueMsg: the message is appended when it can be allocated. */
    method EnqueueMsg(m: AppMsg, heapOk: bool)
      requires Valid()
      modifies this`appMsgQueue
      ensures Valid() && appMsgQueue == if heapOk then old(appMsgQueue) + [m] else old(appMsgQueue)
      ensures View() == Enqueued(old(View()), m, heapOk)
    {
      if heapOk {
        appMsgQueue := appMsgQueue + [m];
      }
    }

    /** The stack and driver callbacks only enqueue. */
    method GapRoleStateChangeCallback(role: GapRole, heapOk: bool)
      requires Valid()
      modifies this`appMsgQueue
      ensures Valid() && View() == Enqueued(old(View()), GapStateChg(role), heapOk)
    {
      EnqueueMsg(GapStateChg(role), heapOk);
    }

    method CharValueChangeCallback(p: Param, heapOk: bool)
      requires Valid()
      modifies this`appMsgQueue
      ensures Valid() && View() == Enqueued(old(View()), CharChange(p), heapOk)
    {
      EnqueueMsg(CharChange(p), heapOk);
    }

    method CharValueEnquireCallback(p: Param, heapOk: bool)
      requires Valid()
      modifies this`appMsgQueue
      ensures Valid() && View() == Enqueued(old(View()), CharEnquire(p), heapOk)
    {
      EnqueueMsg(CharEnquire(p), heapOk);
    }

    method KeyPressCallback(keys: Byte, heapOk: bool)
      requires Valid()
      modifies this`appMsgQueue
      ensures Valid() && View() == Enqueued(old(View()), KeyPressed(keys), heapOk)
    {
      EnqueueMsg(KeyPressed(keys), heapOk);
    }

    // -------------------------------------------------------------------
    // Event handlers

    /** ETX_EVT_appStateChange: the new state is recorded and entered. */
    method AppStateChange(next: AppState)
      requires Valid()
      modifies this, advertData, leds, leds.ledState, leds.ledFlashClk
      ensures Valid() && View() == AfterAppStateChange(old(View()), next)
    {
      match next {
        case Init => EnterInit();
        case Idle => EnterIdle();
        case Active => EnterActive();
      }
    }

    /** INIT entry: destination, its advertising byte, user data and the
        DATA characteristic cleared, advertising off, red LED flashing as
        the battery dictates, blue LED off. */
    method EnterInit()
      requires Valid()
      modifies this, advertData, leds, leds.ledState, leds.ledFlashClk
      ensures Valid() && View() == AfterAppStateChange(old(View()), Init)
    {
      ClearSession();
      if isBatLow {
        leds.Control(RLED, Flash, LowBatteryFlashMs);
      } else {
        leds.Control(RLED, LowFlash, InitLowFlashMs);
      }
      leds.Control(BLED, Off, 0);
    }

    /** The variables INIT entry resets, and the DATA characteristic and the
        advertising flag it sets on the stack. */
    method ClearSession()
      requires Valid()
      modifies this, advertData
      ensures Valid()
      ensures View() == old(View()).(appState := Init, destBSID := 0, advertData := old(advertData[..])[DestIndex := 0],
                                     userData := 0, ble := old(ble).(dataChar := 0, advertEnabled := false))
    {
      appState := Init;
      destBSID := 0;
      advertData[DestIndex] := destBSID;
      userData := 0;
      ble := ble.(dataChar := userData);
      ble := ble.(advertEnabled := false);
    }

    /** IDLE entry: advertising off, blue LED low-flashing. */
    method EnterIdle()
      requires Valid()
      modifies this, leds, leds.ledState, leds.ledFlashClk
      ensures Valid() && View() == AfterAppStateChange(old(View()), Idle)
    {
      appState := Idle;
      ble := ble.(advertEnabled := false);
      leds.Control(BLED, LowFlash, IdleLowFlashMs);
    }

    /** ACTIVE entry: advertising on, blue LED flashing. */
    method EnterActive()
      requires Valid()
      modifies this, leds, leds.ledState, leds.ledFlashClk
      ensures Valid() && View() == AfterAppStateChange(old(View()), Active)
    {
      appState := Active;
      ble := ble.(advertEnabled := true);
      leds.Control(BLED, Flash, ActiveFlashMs);
    }

    /** ETX_EVT_keyPress; `rep` says whether the GAP role accepts the
        advertising data, the profile the DATA write, and the heap the
        queued message. */
    method KeyPress(keys: Byte, rep: StackReply)
      requires Valid()
      modifies this, advertData, leds, leds.ledState, leds.ledFlashClk
      ensures Valid() && View() == AfterKeyPress(old(View()), keys, rep)
    {
      HandleKey(keys, rep);
      if keys == KeyPower {
        AppStateChange(Init);
        ShutDown();
      }
    }

    /** The key handled by the current state, with the red LED HIGH. */
    method HandleKey(keys: Byte, rep: StackReply)
      requires Valid()
      modifies this, advertData, leds, leds.ledState, leds.ledFlashClk
      ensures Valid() && View() == KeyHandled(old(View()), keys, rep)
    {
      leds.Control(RLED, High, 0);
      DispatchKey(keys, rep);
      leds.Control(RLED, Low, 0);
    }

    /** The switch on the application state inside the key handler. */
    method DispatchKey(keys: Byte, rep: StackReply)
      requires Valid()
      modifies this, advertData
      ensures Valid() && View() == KeyInState(old(View()), keys, rep)
    {
      match appState {
        case Init => HandleInitKey(keys, rep);
        case Idle => HandleIdleKey(keys, rep);
        case Active =>
      }
    }

    /** The INIT branch of a key press. */
    method HandleInitKey(keys: Byte, rep: StackReply)
      requires Valid()
      modifies this, advertData
      ensures Valid() && View() == KeyInInit(old(View()), keys, rep)
    {
      if keys < KeyOk {
        destBSID := keys;
        advertData[DestIndex] := destBSID;
      }
      if keys == KeyOk && destBSID != 0 {
        if rep.advertAccepted {
          ble := ble.(advertPayload := advertData[..]);
          EnqueueMsg(AppStateChg(Idle), rep.msgAllocated);
        }
      }
    }

    /** The IDLE branch of a key press. */
    method HandleIdleKey(keys: Byte, rep: StackReply)
      requires Valid()
      modifies this
      ensures Valid() && View() == KeyInIdle(old(View()), keys, rep)
    {
      if keys < KeyOk {
        userData := keys;
      }
      if keys == KeyOk && userData != 0 {
        if rep.dataAccepted {
          ble := ble.(dataChar := userData);
          EnqueueMsg(AppStateChg(Active), rep.msgAllocated);
        }
      }
    }

    /** ETX_EVT_charValueEnquire. */
    method CharValueEnquire(p: Param, rep: StackReply)
      requires Valid()
      modifies this
      ensures Valid() && View() == AfterCharEnquire(old(View()), p, rep)
    {
      match p {
        case Cmd =>
          ble := ble.(cmdChar := 0);
        case Data =>
          userData := 0;
          ble := ble.(dataChar := userData);
          EnqueueMsg(AppStateChg(Idle), rep.msgAllocated);
        case OtherParam(_) =>
      }
    }

    /** ETX_EVT_GAPRoleStateChange. */
    method GapRoleStateChange(role: GapRole, rep: StackReply)
      requires Valid()
      modifies this
      ensures Valid() && View() == AfterGapRoleStateChange(old(View()), role, rep)
    {
      match role {
        case Started =>
          ble := ble.(systemId := SystemIdHead + devID[..]);
          EnqueueMsg(AppStateChg(Init), rep.msgAllocated);
        case Waiting =>
          FreeAttRsp(BleNotConnected);
        case WaitingAfterTimeout =>
          FreeAttRsp(BleNotConnected);
        case _ =>
      }
    }

    /** ETX_processAppMsg. */
    method ProcessAppMsg(m: AppMsg, rep: StackReply)
      requires Valid()
      modifies this, advertData, leds, leds.ledState, leds.ledFlashClk
      ensures Valid() && View() == AfterProcessAppMsg(old(View()), m, rep)
    {
      match m {
        case GapStateChg(role) => GapRoleStateChange(role, rep);
        case AppStateChg(next) => AppStateChange(next);
        case CharChange(_) =>
        case CharEnquire(p) => CharValueEnquire(p, rep);
        case KeyPressed(keys) => KeyPress(keys, rep);
      }
    }

    /** The application loop's drain of the message queue: the front message
        is taken and processed until the queue is empty; once a handler has
        requested the shutdown the device is halted and nothing more runs. */
    method ProcessQueue(reply: nat -> StackReply)
      requires Valid()
      modifies this, advertData, leds, leds.ledState, leds.ledFlashClk
      ensures Valid() && View() == AfterDrain(old(View()), reply, 0)
    {
      var k: nat := 0;
      while appMsgQueue != [] && !shutdown
        invariant Valid()
        invariant AfterDrain(View(), reply, k) == AfterDrain(old(View()), reply, 0)
        decreases Weight(appMsgQueue)
      {
        ghost var before := View();
        var m := appMsgQueue[0];
        appMsgQueue := appMsgQueue[1..];
        ghost var rest := View();
        ProcessAppMsg(m, reply(k));
        WeightShrinks(rest.queue, appMsgQueue, m);
        assert AfterDrain(before, reply, k) == AfterDrain(View(), reply, k + 1);
        k := k + 1;
      }
    }

    // -------------------------------------------------------------------
    // Pending ATT response

    /** ETX_freeAttRsp. */
    method FreeAttRsp(status: Status)
      requires Valid()
      modifies this`pAttRsp, this`rspTxRetry
      ensures Valid() && View() == AfterFreeAttRsp(old(View()), status)
    {
      if pAttRsp.Some? {
        pAttRsp := None;
        rspTxRetry := 0;
      }
    }

    /** ETX_sendAttRsp; `status` is what the stack answers to the attempt. */
    method SendAttRsp(status: Status)
      requires Valid()
      modifies this`pAttRsp, this`rspTxRetry, this`ble
      ensures Valid() && View() == AfterSendAttRsp(old(View()), status)
    {
      if pAttRsp.Some? {
        rspTxRetry := (rspTxRetry + 1) % 256;
        if status != BlePending && status != MsgBufferNotAvail {
          ble := ble.(connEvtNotice := false);
          FreeAttRsp(status);
        }
      }
    }

    /** ETX_EVT_GATTMsgReceived; `noticeOk` is whether HCI accepts the
        request for connection-event notices. */
    method GattMsgReceived(msg: GattMsg, noticeOk: bool) returns (safeToDealloc: bool)
      requires Valid()
      modifies this`pAttRsp, this`rspTxRetry, this`ble
      ensures Valid() && View() == AfterGattMsgReceived(old(View()), msg, noticeOk)
      ensures safeToDealloc == !HeldForRetry(msg, noticeOk)
    {
      if msg.status == BlePending {
        if noticeOk {
          ble := ble.(connEvtNotice := true);
          FreeAttRsp(Failure);
          pAttRsp := Some(msg);
          return false;
        }
      }
      return true;
    }
  }
}

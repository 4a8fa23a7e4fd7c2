/** Properties of the transmitter application that span several handlers:
    what draining the message queue achieves from the user's key presses and
    the stack's events, what the boot sequence keeps across power cycles,
    and how the ATT response retry count evolves. */
module EtxProperties {
  import opened BoardLed
  import opened EtxSpec

  /** The queue messages a sequence of key presses produces. */
  function Keys(ks: seq<Byte>): seq<AppMsg>
  {
    if ks == [] then [] else [KeyPressed(ks[0])] + Keys(ks[1..])
  }

  /** The first key press of a run heads its queue; the rest follow. */
  lemma KeysSplit(ks: seq<Byte>, tail: seq<AppMsg>)
    requires ks != []
    ensures (Keys(ks) + tail)[0] == KeyPressed(ks[0])
    ensures (Keys(ks) + tail)[1..] == Keys(ks[1..]) + tail
  {
    assert Keys(ks) + tail == [KeyPressed(ks[0])] + (Keys(ks[1..]) + tail);
  }

  /** Digit keys: the codes below OK. */
  predicate AllDigits(ks: seq<Byte>)
  {
    ks == [] || (ks[0] < KeyOk && AllDigits(ks[1..]))
  }

  /** Collaborators that accept every request and never run out of memory. */
  ghost predicate Cooperative(reply: nat -> StackReply) {
    forall i :: reply(i).advertAccepted && reply(i).dataAccepted && reply(i).msgAllocated
  }

  // ---------------------------------------------------------------------
  // Key sequences through the queue

  /** One digit key drained in INIT: it selects the destination and
      queues nothing. */
  lemma DigitInInit(v: AppView, ks: seq<Byte>, tail: seq<AppMsg>, reply: nat -> StackReply, k: nat)
    returns (u: AppView)
    requires v.Valid() && !v.shutdown && v.appState == Init && ks != [] && ks[0] < KeyOk && v.queue == Keys(ks) + tail
    ensures u.Valid() && AfterDrain(v, reply, k) == AfterDrain(u, reply, k + 1)
    ensures !u.shutdown && u.appState == Init && u.destBSID == ks[0]
    ensures u.advertData == v.advertData[DestIndex := ks[0]]
    ensures u.queue == Keys(ks[1..]) + tail && u.ble == v.ble
  {
    KeysSplit(ks, tail);
    u := KeyPressEffect(v.(queue := v.queue[1..]), ks[0], reply(k));
  }

  lemma UpdateTwice(s: seq<Byte>, i: nat, a: Byte, b: Byte)
    requires i < |s|
    ensures s[i := a][i := b] == s[i := b]
  {
  }

  /** In INIT, OK with a destination selected publishes the advertising
      data and enters IDLE. */
  lemma ConfirmInInit(v: AppView, reply: nat -> StackReply, k: nat)
    requires v.Valid() && !v.shutdown && v.appState == Init && v.destBSID != 0 && v.queue == [KeyPressed(KeyOk)]
    requires reply(k).advertAccepted && reply(k).msgAllocated
    ensures var w := AfterDrain(v, reply, k);
      && w.appState == Idle && w.destBSID == v.destBSID && w.advertData == v.advertData
      && w.ble.advertPayload == v.advertData && !w.ble.advertEnabled
  {
    var u := AfterProcessAppMsg(v.(queue := []), KeyPressed(KeyOk), reply(k));
    assert u.queue == [AppStateChg(Idle)];
    var u2 := AfterProcessAppMsg(u.(queue := []), AppStateChg(Idle), reply(k + 1));
    assert AfterDrain(u2, reply, k + 2) == u2;
  }

  /** Digit keys alone, in INIT: only the last one counts, nothing is
      queued and the state stays INIT. */
  lemma {:induction false} DigitsLastWins(v: AppView, ks: seq<Byte>, reply: nat -> StackReply, k: nat)
    requires v.Valid() && !v.shutdown && v.appState == Init && ks != [] && AllDigits(ks) && v.queue == Keys(ks)
    ensures var w := AfterDrain(v, reply, k);
      && w.appState == Init && w.destBSID == ks[|ks| - 1]
      && w.advertData == v.advertData[DestIndex := ks[|ks| - 1]]
      && w.ble == v.ble
    decreases |ks|
  {
    var u := DigitInInit(v, ks, [], reply, k);
    assert Keys(ks) + [] == Keys(ks) && Keys(ks[1..]) + [] == Keys(ks[1..]);
    if |ks| == 1 {
      assert AfterDrain(u, reply, k + 1) == u;
    } else {
      DigitsLastWins(u, ks[1..], reply, k + 1);
      UpdateTwice(v.advertData, DestIndex, ks[0], ks[|ks| - 1]);
    }
  }

  /** In INIT, digit keys followed by OK: the last digit becomes the
      destination, is published in the advertising data, and the device
      enters IDLE (advertising still disabled there). */
  lemma {:induction false} SelectThenConfirm(v: AppView, ks: seq<Byte>, reply: nat -> StackReply, k: nat)
    requires v.Valid() && !v.shutdown && v.appState == Init && ks != [] && AllDigits(ks) && Cooperative(reply)
    requires v.queue == Keys(ks) + [KeyPressed(KeyOk)] && ks[|ks| - 1] != 0
    ensures var w := AfterDrain(v, reply, k);
      && w.appState == Idle && w.destBSID == ks[|ks| - 1]
      && w.advertData == v.advertData[DestIndex := ks[|ks| - 1]]
      && w.ble.advertPayload == w.advertData && !w.ble.advertEnabled
    decreases |ks|
  {
    var u := DigitInInit(v, ks, [KeyPressed(KeyOk)], reply, k);
    if |ks| == 1 {
      ConfirmInInit(u, reply, k + 1);
    } else {
      SelectThenConfirm(u, ks[1..], reply, k + 1);
      UpdateTwice(v.advertData, DestIndex, ks[0], ks[|ks| - 1]);
    }
  }

  /** One digit key drained in IDLE: it selects the user data and queues
      nothing. */
  lemma DigitInIdle(v: AppView, ks: seq<Byte>, tail: seq<AppMsg>, reply: nat -> StackReply, k: nat)
    returns (u: AppView)
    requires v.Valid() && !v.shutdown && v.appState == Idle && ks != [] && ks[0] < KeyOk && v.queue == Keys(ks) + tail
    ensures u.Valid() && AfterDrain(v, reply, k) == AfterDrain(u, reply, k + 1)
    ensures !u.shutdown && u.appState == Idle && u.userData == ks[0]
    ensures u.queue == Keys(ks[1..]) + tail && u.ble == v.ble
  {
    KeysSplit(ks, tail);
    u := KeyPressEffect(v.(queue := v.queue[1..]), ks[0], reply(k));
  }

  /** In IDLE, OK with user data selected writes the DATA characteristic
      and enters ACTIVE. */
  lemma ConfirmInIdle(v: AppView, reply: nat -> StackReply, k: nat)
    requires v.Valid() && !v.shutdown && v.appState == Idle && v.userData != 0 && v.queue == [KeyPressed(KeyOk)]
    requires reply(k).dataAccepted && reply(k).msgAllocated
    ensures var w := AfterDrain(v, reply, k);
      && w.appState == Active && w.userData == v.userData && w.ble.dataChar == v.userData
      && w.ble.advertEnabled
      && w.leds.states[BLED] == Flash && w.leds.clocks[BLED] == Clock(true, ActiveFlashMs)
  {
    var u := AfterProcessAppMsg(v.(queue := []), KeyPressed(KeyOk), reply(k));
    assert u.queue == [AppStateChg(Active)];
    var u2 := AfterProcessAppMsg(u.(queue := []), AppStateChg(Active), reply(k + 1));
    assert AfterDrain(u2, reply, k + 2) == u2;
  }

  /** In IDLE, digit keys followed by OK: the last digit becomes the user
      data, is written to the DATA characteristic, and the device enters
      ACTIVE with advertising enabled and the blue LED flashing. */
  lemma {:induction false} DataThenConfirm(v: AppView, ks: seq<Byte>, reply: nat -> StackReply, k: nat)
    requires v.Valid() && !v.shutdown && v.appState == Idle && ks != [] && AllDigits(ks) && Cooperative(reply)
    requires v.queue == Keys(ks) + [KeyPressed(KeyOk)] && ks[|ks| - 1] != 0
    ensures var w := AfterDrain(v, reply, k);
      && w.appState == Active && w.userData == ks[|ks| - 1] && w.ble.dataChar == w.userData
      && w.ble.advertEnabled
      && w.leds.states[BLED] == Flash && w.leds.clocks[BLED] == Clock(true, ActiveFlashMs)
    decreases |ks|
  {
    var u := DigitInIdle(v, ks, [KeyPressed(KeyOk)], reply, k);
    if |ks| == 1 {
      ConfirmInIdle(u, reply, k + 1);
    } else {
      DataThenConfirm(u, ks[1..], reply, k + 1);
    }
  }

  /** In ACTIVE, key presses other than the power key change nothing but
      the red LED's recorded state. */
  lemma {:induction false} ActiveIgnoresKeys(v: AppView, ks: seq<Byte>, reply: nat -> StackReply, k: nat)
    requires v.Valid() && !v.shutdown && v.appState == Active && ks != [] && v.queue == Keys(ks)
    requires forall i :: 0 <= i < |ks| ==> ks[i] != KeyPower
    ensures AfterDrain(v, reply, k) == v.(queue := [], leds := v.leds.(states := v.leds.states[RLED := Low]))
    decreases |ks|
  {
    var rest := v.(queue := v.queue[1..]);
    var u := AfterProcessAppMsg(rest, KeyPressed(ks[0]), reply(k));
    assert Keys(ks)[1..] == Keys(ks[1..]);
    if ks[1..] != [] {
      ActiveIgnoresKeys(u, ks[1..], reply, k + 1);
      assert u.leds.states[RLED := Low] == u.leds.states;
    }
  }

  /** The power key at the head of the queue, in any state: INIT is
      entered, the session is cleared, both LEDs are off and a shutdown is
      requested; the device halts there, so nothing queued behind the key
      is processed. */
  lemma PowerKeyShutsDown(v: AppView, tail: seq<AppMsg>, reply: nat -> StackReply, k: nat)
    requires v.Valid() && !v.shutdown && v.queue == [KeyPressed(KeyPower)] + tail
    ensures var w := AfterDrain(v, reply, k);
      && w.shutdown && w.appState == Init && w.destBSID == 0 && w.userData == 0
      && w.leds.states == [Off, Off] && w.leds.pins[RedPin] == 0 && w.leds.pins[BluePin] == 0
      && !w.ble.advertEnabled && w.devID == v.devID && w.queue == tail
  {
    var u := PowerKeyEffect(v.(queue := tail), reply(k));
    assert v.queue[1..] == tail;
  }

  /** OK then the power key in INIT: the confirmed IDLE request is queued
      behind the power key and never processed, so the device halts in
      INIT with both LEDs off. */
  lemma ConfirmThenPowerHaltsInInit(v: AppView, reply: nat -> StackReply, k: nat)
    requires v.Valid() && !v.shutdown && v.appState == Init && v.destBSID != 0
    requires v.queue == [KeyPressed(KeyOk), KeyPressed(KeyPower)]
    requires reply(k).advertAccepted && reply(k).msgAllocated
    ensures var w := AfterDrain(v, reply, k);
      && w.shutdown && w.appState == Init && w.leds.states == [Off, Off]
      && w.queue == [AppStateChg(Idle)]
  {
    var u := KeyPressEffect(v.(queue := [KeyPressed(KeyPower)]), KeyOk, reply(k));
    assert u.queue == [KeyPressed(KeyPower)] + [AppStateChg(Idle)];
    PowerKeyShutsDown(u, [AppStateChg(Idle)], reply, k + 1);
  }

  /** Reading the DATA characteristic, in any state, clears the user data
      and returns the device to IDLE. */
  lemma DataEnquiryReturnsToIdle(v: AppView, reply: nat -> StackReply, k: nat)
    requires v.Valid() && !v.shutdown && v.queue == [CharEnquire(Data)] && reply(k).msgAllocated
    ensures var w := AfterDrain(v, reply, k);
      && w.appState == Idle && w.userData == 0 && w.ble.dataChar == 0 && !w.ble.advertEnabled
      && w.leds.states[BLED] == LowFlash
  {
    var u := AfterProcessAppMsg(v.(queue := []), CharEnquire(Data), reply(k));
    assert u.queue == [AppStateChg(Idle)];
    var u2 := AfterProcessAppMsg(u.(queue := []), AppStateChg(Idle), reply(k + 1));
    assert AfterDrain(u2, reply, k + 2) == u2;
  }

  /** Reading the CMD characteristic clears it and changes no state. */
  lemma CmdEnquiryKeepsState(v: AppView, reply: nat -> StackReply, k: nat)
    requires v.Valid() && !v.shutdown && v.queue == [CharEnquire(Cmd)]
    ensures AfterDrain(v, reply, k) == v.(queue := [], ble := v.ble.(cmdChar := 0))
  {
    var u := AfterProcessAppMsg(v.(queue := []), CharEnquire(Cmd), reply(k));
    assert AfterDrain(u, reply, k + 1) == u;
  }

  /** The stack has started: the system id is published and the device
      enters INIT with a cleared session. */
  lemma StackStartEntersInit(v: AppView, reply: nat -> StackReply, k: nat)
    requires v.Valid() && !v.shutdown && v.queue == [GapStateChg(Started)] && reply(k).msgAllocated
    ensures var w := AfterDrain(v, reply, k);
      && w.appState == Init && w.destBSID == 0 && w.userData == 0
      && w.ble.systemId == SystemId(v.devID) && !w.ble.advertEnabled
      && w.leds.states[RLED] == (if v.isBatLow then Flash else LowFlash) && w.leds.states[BLED] == Off
  {
    var u := AfterProcessAppMsg(v.(queue := []), GapStateChg(Started), reply(k));
    assert u.queue == [AppStateChg(Init)];
    var u2 := AfterProcessAppMsg(u.(queue := []), AppStateChg(Init), reply(k + 1));
    assert AfterDrain(u2, reply, k + 2) == u2;
  }

  /** State-change requests take effect in the order they were queued: the
      last one decides the state. */
  lemma {:induction false} LastTransitionWins(v: AppView, next: seq<AppState>, reply: nat -> StackReply, k: nat)
    requires v.Valid() && !v.shutdown && next != []
    requires |v.queue| == |next| && forall i :: 0 <= i < |next| ==> v.queue[i] == AppStateChg(next[i])
    ensures var w := AfterDrain(v, reply, k);
      w.appState == next[|next| - 1] && w.ble.advertEnabled == (next[|next| - 1] == Active)
    decreases |next|
  {
    var u := AfterProcessAppMsg(v.(queue := v.queue[1..]), AppStateChg(next[0]), reply(k));
    if |next| > 1 {
      LastTransitionWins(u, next[1..], reply, k + 1);
    } else {
      assert AfterDrain(u, reply, k + 1) == u;
    }
  }

  // ---------------------------------------------------------------------
  // LED behaviour seen from the application

  /** ACTIVE flashes the blue LED; leaving it for IDLE records LOWFLASH,
      which the driver does not act on, so the blue clock keeps firing at
      the ACTIVE period. */
  lemma IdleAfterActiveKeepsFastFlash(v: AppView)
    requires v.Valid()
    ensures var w := AfterAppStateChange(AfterAppStateChange(v, Active), Idle);
      w.leds.states[BLED] == LowFlash && w.leds.clocks[BLED] == Clock(true, ActiveFlashMs)
  {
    var a := AfterAppStateChange(v, Active);
    ControlEffect(a.leds, BLED, LowFlash, IdleLowFlashMs);
  }

  /** After ACTIVE then IDLE, the power key records the blue LED OFF and
      drives its pin low, but OFF only stops a clock recorded FLASH: the
      blue clock is still armed when the shutdown is requested. */
  lemma BlueClockOutlivesPowerOff(v: AppView, rep: StackReply)
    requires v.Valid()
    ensures var w := AfterKeyPress(AfterAppStateChange(AfterAppStateChange(v, Active), Idle), KeyPower, rep);
      && w.shutdown && w.leds.states[BLED] == Off && w.leds.pins[BluePin] == 0
      && w.leds.clocks[BLED] == Clock(true, ActiveFlashMs)
  {
    var i := AfterAppStateChange(AfterAppStateChange(v, Active), Idle);
    IdleAfterActiveKeepsFastFlash(v);
    var h := KeyHandled(i, KeyPower, rep);
    assert h.leds.clocks[BLED] == Clock(true, ActiveFlashMs) && h.leds.states[BLED] == LowFlash;
    var e := AfterAppStateChange(h, Init);
    ControlEffect(AfterControl(e.leds, RLED, Off, 0), BLED, Off, 0);
  }

  // ---------------------------------------------------------------------
  // Device id across power cycles

  /** A boot whose store write succeeds leaves the store holding the
      device id in use. */
  lemma BootPersistsDevId(uuid: nat, nv: Option<seq<Byte>>, vccUv: nat, batUv: nat, trng: Word)
    requires uuid < 0x1_0000 && (nv.Some? ==> |nv.value| == DevIdLen) && !VccTooLow(vccUv)
    ensures var w := AfterBoot(PowerOnView(uuid, nv), vccUv, batUv, trng, true);
      w.nvDevId == Some(w.devID) && HasPrefix(w.devID)
  {
    var p := PowerOnView(uuid, nv);
    var w := BootEffect(p, vccUv, batUv, trng, true);
    if nv.None? {
      assert !HasPrefix(p.devID);
    }
  }

  /** The device id survives a power cycle: once the store holds it, the
      next boot finds it, whatever the random source and the store then
      do, and the scan response carries the same id. */
  lemma RebootKeepsDevId(uuid: nat, nv: Option<seq<Byte>>, vcc1: nat, bat1: nat, trng1: Word,
                         vcc2: nat, bat2: nat, trng2: Word, nvWriteOk2: bool)
    requires uuid < 0x1_0000 && (nv.Some? ==> |nv.value| == DevIdLen)
    requires !VccTooLow(vcc1) && !VccTooLow(vcc2)
    ensures var w1 := AfterBoot(PowerOnView(uuid, nv), vcc1, bat1, trng1, true);
      var w2 := AfterBoot(PowerOnView(uuid, w1.nvDevId), vcc2, bat2, trng2, nvWriteOk2);
      && w2.devID == w1.devID && w2.nvDevId == w1.nvDevId
      && w2.scanRspData == w1.scanRspData
  {
    BootPersistsDevId(uuid, nv, vcc1, bat1, trng1);
    var w1 := BootEffect(PowerOnView(uuid, nv), vcc1, bat1, trng1, true);
    var w2 := BootEffect(PowerOnView(uuid, w1.nvDevId), vcc2, bat2, trng2, nvWriteOk2);
  }

  // ---------------------------------------------------------------------
  // ATT response retries

  /** While the stack keeps answering "try again", the response stays
      pending and every connection event counts one attempt, modulo 256. */
  lemma {:induction false} RetriesCount(v: AppView, statuses: seq<Status>)
    requires v.Valid() && v.attRsp.Some?
    requires forall i :: 0 <= i < |statuses| ==> !SendSettled(statuses[i])
    ensures var w := AfterSends(v, statuses);
      w.attRsp == v.attRsp && w.rspTxRetry == (v.rspTxRetry + |statuses|) % 256
      && w == v.(rspTxRetry := w.rspTxRetry)
    decreases |statuses|
  {
    if statuses != [] {
      var u := AfterSendAttRsp(v, statuses[0]);
      assert u == v.(rspTxRetry := (v.rspTxRetry + 1) % 256);
      RetriesCount(u, statuses[1..]);
      CountModulo(v.rspTxRetry, |statuses| - 1);
    }
  }

  lemma CountModulo(a: int, n: nat)
    ensures ((a + 1) % 256 + n) % 256 == (a + 1 + n) % 256
  {
  }

  /** Once any attempt settles, the response is dropped and the count is
      back to zero. */
  lemma {:induction false} SettledSendDropsResponse(v: AppView, statuses: seq<Status>, i: nat)
    requires v.Valid() && i < |statuses| && SendSettled(statuses[i])
    ensures var w := AfterSends(v, statuses);
      w.attRsp == None && w.rspTxRetry == (if v.attRsp.Some? then 0 else v.rspTxRetry)
    decreases |statuses|
  {
    var u := AfterSendAttRsp(v, statuses[0]);
    if i == 0 {
      NoPendingSendsChangeNothing(u, statuses[1..]);
    } else {
      SettledSendDropsResponse(u, statuses[1..], i - 1);
    }
  }

  /** Without a pending response, connection events change nothing. */
  lemma {:induction false} NoPendingSendsChangeNothing(v: AppView, statuses: seq<Status>)
    requires v.Valid() && v.attRsp.None?
    ensures AfterSends(v, statuses) == v
    decreases |statuses|
  {
    if statuses != [] {
      NoPendingSendsChangeNothing(AfterSendAttRsp(v, statuses[0]), statuses[1..]);
    }
  }

  /** The retry count is zero whenever nothing is pending: true at power-on
      and kept by every handler that touches the response, including the
      processing of any queued message (a disconnection frees it). */
  lemma RetryBookkeepingKept(v: AppView, status: Status, msg: GattMsg, noticeOk: bool, uuid: nat,
                             nv: Option<seq<Byte>>, m: AppMsg, rep: StackReply)
    requires v.Valid() && RetryBookkeeping(v)
    requires uuid < 0x1_0000 && (nv.Some? ==> |nv.value| == DevIdLen)
    ensures RetryBookkeeping(PowerOnView(uuid, nv))
    ensures RetryBookkeeping(AfterFreeAttRsp(v, status))
    ensures RetryBookkeeping(AfterSendAttRsp(v, status))
    ensures RetryBookkeeping(AfterGattMsgReceived(v, msg, noticeOk))
    ensures RetryBookkeeping(AfterProcessAppMsg(v, m, rep))
  {
    ProcessingKeepsRetryBookkeeping(v, m, rep);
  }

  /** Processing a queued message keeps the retry count's invariant: only a
      disconnection touches the response, and it frees it. */
  lemma ProcessingKeepsRetryBookkeeping(v: AppView, m: AppMsg, rep: StackReply)
    requires v.Valid() && RetryBookkeeping(v)
    ensures RetryBookkeeping(AfterProcessAppMsg(v, m, rep))
  {
    match m
    case GapStateChg(role) =>
    case AppStateChg(next) =>
    case CharChange(_) =>
    case CharEnquire(p) =>
    case KeyPressed(keys) =>
  }
}

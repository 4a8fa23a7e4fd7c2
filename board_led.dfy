/** The LED driver of the transmitter board: two LEDs (red and blue), each
    with a recorded state, the output latch of its pin, and a one-shot flash
    clock whose expiry toggles the pin and re-arms the clock.

    The pure functions below (AfterInit, AfterControl, AfterFlashTimeout)
    describe each driver operation on a value; class LedDriver keeps the
    driver's static tables in arrays and is proved against them. */
module BoardLed {

  /** LED identifiers, the values of BoardLedID_t. */
  const RLED: nat := 0
  const BLED: nat := 1
  type LedId = i: nat | i < 2

  /** The other LED of the pair. */
  function Other(id: LedId): LedId { 1 - id }

  /** IO ids of the two LED pins (IOID_13 and IOID_14). */
  const RedPin: int := 13
  const BluePin: int := 14
  type Pin = p: int | p == 13 || p == 14 witness 13

  /** An output level of a pin. */
  type Level = x: int | 0 <= x <= 1

  /** Timeout every flash clock is constructed with, in milliseconds. */
  const FlashPeriod: nat := 500

  /** The states a LED can be asked to enter (BoardLedState_t). */
  datatype LedState = Off | On | Low | High | Flash | LowFlash

  /** A flash clock: whether it is armed, and the timeout (ms) it fires after. */
  datatype Clock = Clock(running: bool, timeout: nat)

  /** Clock stop: disarms, keeps the timeout. */
  function Stopped(c: Clock): Clock { c.(running := false) }

  /** Clock restart with a new timeout: stops if armed, sets the timeout, arms. */
  function Restarted(c: Clock, timeout: nat): Clock { Clock(true, timeout) }

  /** Clock start: arms with the timeout already set. */
  function Rearmed(c: Clock): Clock { c.(running := true) }

  /** The whole driver state as a value: the recorded state and the flash
      clock of each LED (indexed by LedId) and the level of each LED pin
      (indexed by pin). */
  datatype LedBank = LedBank(states: seq<LedState>, clocks: seq<Clock>, pins: map<Pin, Level>)
  {
    ghost predicate Valid() {
      |states| == 2 && |clocks| == 2 && RedPin in pins && BluePin in pins
    }
  }

  /** The LED-id to pin mapping: the red LED's id selects the red pin, any
      other id selects the blue pin. */
  function IdParser(id: int): (pin: Pin)
    ensures pin == RedPin <==> id == RLED
    ensures pin == BluePin <==> id != RLED
  {
    if id == RLED then RedPin else BluePin
  }

  /** Driver state right after initialisation: both LEDs recorded OFF, both
      pins low, both clocks constructed disarmed with the default period. */
  function AfterInit(): (b: LedBank)
    ensures b.Valid()
    ensures b.states[RLED] == Off && b.states[BLED] == Off
    ensures b.pins[RedPin] == 0 && b.pins[BluePin] == 0
    ensures forall id: LedId :: !b.clocks[id].running && b.clocks[id].timeout == FlashPeriod
  {
    LedBank([Off, Off], [Clock(false, FlashPeriod), Clock(false, FlashPeriod)],
            map[RedPin := 0, BluePin := 0])
  }

  /** Driver state after a control request `state` (with flash period
      `period`) for LED `id`. The requested state is always recorded; only
      that LED's pin, clock and record can change. */
  function AfterControl(b: LedBank, id: LedId, state: LedState, period: nat): (r: LedBank)
    requires b.Valid()
    ensures r.Valid()
    ensures r.states[id] == state
    ensures r.states[Other(id)] == b.states[Other(id)]
    ensures r.clocks[Other(id)] == b.clocks[Other(id)]
    ensures r.pins[IdParser(Other(id))] == b.pins[IdParser(Other(id))]
  {
    var pin := IdParser(id);
    var driven := match state
      case Off =>
        b.(pins := b.pins[pin := 0],
           clocks := if b.states[id] == Flash then b.clocks[id := Stopped(b.clocks[id])] else b.clocks)
      case On =>
        b.(pins := b.pins[pin := 1],
           clocks := if b.states[id] == Flash then b.clocks[id := Stopped(b.clocks[id])] else b.clocks)
      case Flash =>
        b.(pins := b.pins[pin := 0], clocks := b.clocks[id := Restarted(b.clocks[id], period)])
      case _ => b;
    driven.(states := driven.states[id := state])
  }

  /** Driver state after LED `id`'s armed flash clock fires: that LED's pin
      is inverted and its clock re-armed with the same timeout; nothing else
      changes. */
  function AfterFlashTimeout(b: LedBank, id: LedId): (r: LedBank)
    requires b.Valid() && b.clocks[id].running
    ensures r.Valid()
    ensures r.pins[IdParser(id)] == 1 - b.pins[IdParser(id)]
    ensures r.pins[IdParser(Other(id))] == b.pins[IdParser(Other(id))]
    ensures r.clocks[id] == b.clocks[id] && r.clocks[id].running
    ensures r.clocks[Other(id)] == b.clocks[Other(id)]
    ensures r.states == b.states
  {
    var pin := IdParser(id);
    b.(pins := b.pins[pin := 1 - b.pins[pin]], clocks := b.clocks[id := Rearmed(b.clocks[id])])
  }

  /** What the driver keeps true of one LED: a LED recorded FLASH has an
      armed clock, and a LED recorded OFF (ON) whose clock is disarmed shows
      a low (high) pin. */
  ghost predicate Consistent(b: LedBank, id: LedId)
    requires b.Valid()
  {
    && (b.states[id] == Flash ==> b.clocks[id].running)
    && (b.states[id] == Off && !b.clocks[id].running ==> b.pins[IdParser(id)] == 0)
    && (b.states[id] == On && !b.clocks[id].running ==> b.pins[IdParser(id)] == 1)
  }

  ghost predicate AllConsistent(b: LedBank)
    requires b.Valid()
  {
    Consistent(b, RLED) && Consistent(b, BLED)
  }

  lemma InitIsConsistent()
    ensures AllConsistent(AfterInit())
  {
  }

  lemma ControlPreservesConsistent(b: LedBank, id: LedId, state: LedState, period: nat)
    requires b.Valid() && AllConsistent(b)
    ensures AllConsistent(AfterControl(b, id, state, period))
  {
    var r := AfterControl(b, id, state, period);
    assert Consistent(r, Other(id));
  }

  lemma TimeoutPreservesConsistent(b: LedBank, id: LedId)
    requires b.Valid() && b.clocks[id].running && AllConsistent(b)
    ensures AllConsistent(AfterFlashTimeout(b, id))
  {
    var r := AfterFlashTimeout(b, id);
    assert Consistent(r, Other(id));
  }

  /** Per-state effect of a control request on the LED it addresses. */
  lemma ControlEffect(b: LedBank, id: LedId, state: LedState, period: nat)
    requires b.Valid()
    ensures var r := AfterControl(b, id, state, period);
      && (state == Off ==> r.pins[IdParser(id)] == 0)
      && (state == On ==> r.pins[IdParser(id)] == 1)
      && (state in {Off, On} ==>
            r.clocks[id] == if b.states[id] == Flash then Stopped(b.clocks[id]) else b.clocks[id])
      && (state == Flash ==> r.pins[IdParser(id)] == 0 && r.clocks[id] == Clock(true, period))
      && (state !in {Off, On, Flash} ==>
            r.pins == b.pins && r.clocks == b.clocks)
  {
  }

  /** Two expiries of the same armed clock leave its pin where it was. */
  lemma TwoTimeoutsRestorePin(b: LedBank, id: LedId)
    requires b.Valid() && b.clocks[id].running
    ensures AfterFlashTimeout(AfterFlashTimeout(b, id), id).pins == b.pins
  {
    var r := AfterFlashTimeout(AfterFlashTimeout(b, id), id);
    assert r.pins[IdParser(id)] == b.pins[IdParser(id)];
    assert r.pins[IdParser(Other(id))] == b.pins[IdParser(Other(id))];
  }

  /** OFF stops the flash clock only when the recorded state is FLASH: a LED
      taken from FLASH to LOWFLASH and then OFF still has its clock armed, so
      its pin goes on toggling although it is recorded OFF. */
  lemma FlashClockSurvivesOffAfterLowFlash(b: LedBank, id: LedId, fast: nat, slow: nat)
    requires b.Valid()
    ensures var r := AfterControl(AfterControl(AfterControl(b, id, Flash, fast), id, LowFlash, slow), id, Off, 0);
      r.states[id] == Off && r.clocks[id] == Clock(true, fast)
  {
    ControlEffect(b, id, Flash, fast);
    var f := AfterControl(b, id, Flash, fast);
    ControlEffect(f, id, LowFlash, slow);
    var l := AfterControl(f, id, LowFlash, slow);
    ControlEffect(l, id, Off, 0);
  }

  /** The driver's static tables: the recorded state and the flash clock of
      each LED, and the output latch of the LED pins. */
  class LedDriver {
    const ledState: array<LedState>
    const ledFlashClk: array<Clock>
    var pinLevel: map<Pin, Level>

    ghost predicate Valid()
      reads this
    {
      ledState.Length == 2 && ledFlashClk.Length == 2 && RedPin in pinLevel && BluePin in pinLevel
    }

    /** The driver state as a value. */
    function Snapshot(): (b: LedBank)
      reads this, ledState, ledFlashClk
      requires Valid()
      ensures b.Valid()
    {
      LedBank(ledState[..], ledFlashClk[..], pinLevel)
    }

    /** Zero-initialised static storage, before Board_initLEDs runs. */
    constructor ()
      ensures Valid() && fresh(ledState) && fresh(ledFlashClk)
      ensures Snapshot() == LedBank([Off, Off], [Clock(false, 0), Clock(false, 0)], map[RedPin := 0, BluePin := 0])
    {
      ledState := new LedState[2](_ => Off);
      ledFlashClk := new Clock[2](_ => Clock(false, 0));
      pinLevel := map[RedPin := 0, BluePin := 0];
    }

    /** Board_initLEDs: opens the pins low, records both LEDs OFF and
        constructs both flash clocks disarmed. */
    method InitLeds()
      requires Valid()
      modifies this`pinLevel, ledState, ledFlashClk
      ensures Valid() && Snapshot() == AfterInit()
    {
      pinLevel := map[RedPin := 0, BluePin := 0];
      ledState[RLED] := Off;
      ledState[BLED] := Off;
      ledFlashClk[RLED] := Clock(false, FlashPeriod);
      ledFlashClk[BLED] := Clock(false, FlashPeriod);
    }

    /** Board_ledControl: drives the pin and the clock of LED `id` as the
        requested state and the previously recorded one dictate, then records
        the requested state. */
    method Control(id: LedId, state: LedState, period: nat)
      requires Valid()
      modifies this`pinLevel, ledState, ledFlashClk
      ensures Valid() && Snapshot() == AfterControl(old(Snapshot()), id, state, period)
    {
      match state {
        case Off =>
          pinLevel := pinLevel[IdParser(id) := 0];
          if ledState[id] == Flash {
            ledFlashClk[id] := Stopped(ledFlashClk[id]);
          }
        case On =>
          pinLevel := pinLevel[IdParser(id) := 1];
          if ledState[id] == Flash {
            ledFlashClk[id] := Stopped(ledFlashClk[id]);
          }
        case Flash =>
          pinLevel := pinLevel[IdParser(id) := 0];
          ledFlashClk[id] := Restarted(ledFlashClk[id], period);
        case _ =>
      }
      ledState[id] := state;
    }

    /** Board_ledFlashTimeoutCB: runs when LED `id`'s armed clock expires;
        inverts the pin and re-arms the clock. */
    method FlashTimeout(id: LedId)
      requires Valid() && ledFlashClk[id].running
      modifies this`pinLevel, ledFlashClk
      ensures Valid() && Snapshot() == AfterFlashTimeout(old(Snapshot()), id)
    {
      var pin := IdParser(id);
      pinLevel := pinLevel[pin := 1 - pinLevel[pin]];
      ledFlashClk[id] := Rearmed(ledFlashClk[id]);
    }
  }
}

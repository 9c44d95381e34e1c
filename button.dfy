/**
 * The push button: an interrupt marks a level change, and the main loop's
 * `buttonCtrl` then handles it. A press starts a timer and counts clicks that
 * follow each other within `clickTime`; a release after a hold of a second or
 * more puts the board into deep sleep, and a release after a double click
 * toggles inference mode (turning it on restarts calibration).
 */
module ButtonControl {
  import opened Words

  /** A release this long after the press sends the board to deep sleep. */
  const HOLD_TO_SLEEP: nat := 1000

  /**
   * `timer` (0 when no press is being timed), the statics `click_count` and `last_click`
   * (the latter initialised at the first press), the interrupt's `button_update` flag,
   * and whether deep sleep was entered.
   */
  datatype ButtonState = ButtonState(timer: uint32, clickCount: uint8, lastClick: Option<uint32>, pending: bool, asleep: bool)

  const Initial: ButtonState := ButtonState(0, 0, None, false, false)

  /** Milliseconds since the press being timed, on the wrapping clock; 0 when none is. */
  function GetTimer(timer: uint32, now: uint32): (r: uint32)
    ensures timer == 0 ==> r == 0
    ensures timer != 0 ==> (r + timer) % 0x1_0000_0000 == now
  {
    if timer == 0 then 0 else Wrap32(now - timer)
  }

  /** Without a wrap of the clock, a running timer reads the time since the press. */
  lemma TimerIsHoldTime(timer: uint32, now: uint32)
    requires 0 < timer <= now
    ensures GetTimer(timer, now) == now - timer
  {
  }

  /** The interrupt routine: a change of level marks an event to handle. */
  function Interrupt(s: ButtonState): (r: ButtonState)
    ensures r.pending && r.(pending := s.pending) == s
  {
    if !s.pending then s.(pending := true) else s
  }

  /** What `buttonCtrl` leaves behind: the button's state and the two variables it was handed. */
  datatype Control = Control(state: ButtonState, flag: bool, counter: uint32)

  /** The click count after a press at `now`: one more when it follows the previous press within clickTime, else 1. */
  function CountAfterPress(s: ButtonState, clickTime: uint32, now: uint32): uint8
  {
    var last := if s.lastClick.None? then now else s.lastClick.value;
    if Wrap32(now - last) <= clickTime then (s.clickCount + 1) % 0x100 else 1
  }

  /** One call of `buttonCtrl` with the pin's current level and the time. */
  function Ctrl(s: ButtonState, clickTime: uint32, pinHigh: bool, now: uint32, flag: bool, counter: uint32): Control
  {
    if s.asleep || !s.pending then Control(s, flag, counter)
    else if pinHigh then
      Control(s.(timer := now, clickCount := CountAfterPress(s, clickTime, now), lastClick := Some(now), pending := false), flag, counter)
    else if GetTimer(s.timer, now) >= HOLD_TO_SLEEP then Control(s.(asleep := true), flag, counter)
    else if s.clickCount == 2 then Control(s.(clickCount := 0, timer := 0, pending := false), !flag, if !flag then 0 else counter)
    else Control(s.(timer := 0, pending := false), flag, counter)
  }

  /** Nothing happens without an event, and nothing after deep sleep. */
  lemma QuietWithoutEvent(s: ButtonState, clickTime: uint32, pinHigh: bool, now: uint32, flag: bool, counter: uint32)
    requires !s.pending || s.asleep
    ensures Ctrl(s, clickTime, pinHigh, now, flag, counter) == Control(s, flag, counter)
  {
  }

  /** A handled event is consumed, unless it sent the board to sleep. */
  lemma EventConsumed(s: ButtonState, clickTime: uint32, pinHigh: bool, now: uint32, flag: bool, counter: uint32)
    requires s.pending && !s.asleep
    ensures var c := Ctrl(s, clickTime, pinHigh, now, flag, counter); !c.state.pending || c.state.asleep
  {
  }

  /** A press starts the timer and counts the click; the first press ever counts as following itself. */
  lemma PressCounts(s: ButtonState, clickTime: uint32, now: uint32, flag: bool, counter: uint32)
    requires s.pending && !s.asleep
    ensures var c := Ctrl(s, clickTime, true, now, flag, counter);
      c.state.timer == now && c.state.lastClick == Some(now) && c.flag == flag && c.counter == counter
      && (s.lastClick.None? ==> c.state.clickCount == (s.clickCount + 1) % 0x100)
      && (s.lastClick.Some? && s.lastClick.value <= now ==>
            c.state.clickCount == if now - s.lastClick.value <= clickTime then (s.clickCount + 1) % 0x100 else 1)
  {
  }

  /** Every release that does not end in sleep stops the timer; only a release on a double click changes the mode. */
  lemma ReleaseStopsTimer(s: ButtonState, clickTime: uint32, now: uint32, flag: bool, counter: uint32)
    requires s.pending && !s.asleep
    ensures var c := Ctrl(s, clickTime, false, now, flag, counter);
      c.state.asleep <==> GetTimer(s.timer, now) >= HOLD_TO_SLEEP
    ensures var c := Ctrl(s, clickTime, false, now, flag, counter);
      !c.state.asleep ==> c.state.timer == 0 && (c.flag != flag <==> s.clickCount == 2)
  {
  }

  /** Sleep keeps the mode and the counter as they were. */
  lemma LongHoldSleeps(s: ButtonState, clickTime: uint32, now: uint32, flag: bool, counter: uint32)
    requires s.pending && !s.asleep && 0 < s.timer <= now && now - s.timer >= HOLD_TO_SLEEP
    ensures Ctrl(s, clickTime, false, now, flag, counter) == Control(s.(asleep := true), flag, counter)
  {
    TimerIsHoldTime(s.timer, now);
  }

  /** Turning inference on restarts calibration from 0; turning it off keeps the counter. */
  lemma ToggleEffect(s: ButtonState, clickTime: uint32, now: uint32, flag: bool, counter: uint32)
    requires s.pending && !s.asleep && s.clickCount == 2 && GetTimer(s.timer, now) < HOLD_TO_SLEEP
    ensures var c := Ctrl(s, clickTime, false, now, flag, counter);
      c.flag == !flag && c.counter == (if flag then counter else 0) && c.state.clickCount == 0 && c.state.timer == 0
  {
  }

  /**
   * A double click: press at t1, release at t1 + a, press at t2 within clickTime of t1, release at t2 + b,
   * each seen by the interrupt, with both holds shorter than a second and no clock wrap. Starting from
   * no counted clicks, it toggles the mode.
   */
  lemma DoubleClickToggles(s: ButtonState, clickTime: uint32, t1: uint32, a: nat, t2: uint32, b: nat, flag: bool, counter: uint32)
    requires !s.asleep && s.clickCount == 0
    requires 0 < t1 && t1 + a <= t2 && t2 - t1 <= clickTime && t2 + b < 0x1_0000_0000
    requires a < HOLD_TO_SLEEP && b < HOLD_TO_SLEEP
    ensures var c1 := Ctrl(Interrupt(s), clickTime, true, t1, flag, counter);
      var c2 := Ctrl(Interrupt(c1.state), clickTime, false, t1 + a, c1.flag, c1.counter);
      var c3 := Ctrl(Interrupt(c2.state), clickTime, true, t2, c2.flag, c2.counter);
      var c4 := Ctrl(Interrupt(c3.state), clickTime, false, t2 + b, c3.flag, c3.counter);
      c4.flag == !flag && c4.counter == (if flag then counter else 0) && !c4.state.asleep && c4.state.clickCount == 0
  {
    var c1 := Ctrl(Interrupt(s), clickTime, true, t1, flag, counter);
    assert c1.state.clickCount == 1 && c1.state.timer == t1;
    var c2 := Ctrl(Interrupt(c1.state), clickTime, false, t1 + a, c1.flag, c1.counter);
    TimerIsHoldTime(t1, t1 + a);
    assert c2.state.clickCount == 1 && c2.state.lastClick == Some(t1) && !c2.state.asleep;
    var c3 := Ctrl(Interrupt(c2.state), clickTime, true, t2, c2.flag, c2.counter);
    assert c3.state.clickCount == 2 && c3.state.timer == t2;
    TimerIsHoldTime(t2, t2 + b);
  }

  class Button {
    var timer: uint32
    var clickCount: uint8
    var lastClick: Option<uint32>
    /** The global `button_update` the interrupt sets. */
    var buttonUpdate: bool
    var asleep: bool

    function State(): ButtonState
      reads this
    {
      ButtonState(timer, clickCount, lastClick, buttonUpdate, asleep)
    }

    constructor ()
      ensures State() == Initial
    {
      timer := 0;
      clickCount := 0;
      lastClick := None;
      buttonUpdate := false;
      asleep := false;
    }

    /** `ButtonISR`, run on every level change of the pin. */
    method Isr()
      modifies this
      ensures State() == Interrupt(old(State()))
    {
      if !buttonUpdate {
        buttonUpdate := true;
      }
    }

    /** `buttonCtrl(clickTime, &flag, &counter)`: returns the new values of the two variables it was handed. */
    method ButtonCtrl(clickTime: uint32, pinHigh: bool, now: uint32, flag: bool, counter: uint32) returns (flag': bool, counter': uint32)
      modifies this
      ensures Control(State(), flag', counter') == Ctrl(old(State()), clickTime, pinHigh, now, flag, counter)
    {
      flag', counter' := flag, counter;
      if asleep || !buttonUpdate {
        return;
      }
      if pinHigh {
        timer := now;
        if lastClick.None? {
          lastClick := Some(timer);
        }
        if Wrap32(timer - lastClick.value) <= clickTime {
          clickCount := (clickCount + 1) % 0x100;
        } else {
          clickCount := 1;
        }
        lastClick := Some(timer);
      } else {
        var timerVal := GetTimer(timer, now);
        if timerVal >= HOLD_TO_SLEEP {
          // deep sleep: nothing after this runs
          asleep := true;
          return;
        }
        if clickCount == 2 {
          if flag' == false {
            flag' := true;
            counter' := 0;
          } else {
            flag' := false;
          }
          clickCount := 0;
        }
        timer := 0;
      }
      buttonUpdate := false;
    }
  }
}

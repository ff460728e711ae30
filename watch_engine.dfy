/** The watch face engine's state: display flags, the time-zone receiver
    registration guard, and the self-rearming redraw timer kept as
    `MSG_UPDATE_TIME` messages in the engine's handler queue. */
module WatchEngine {
  import JavaMath
  import HexClock
  import HexLabel

  /** `INTERACTIVE_UPDATE_RATE_MS`: the redraw period in interactive mode. */
  const InteractiveUpdateRateMs: int := 83

  /** The zone `onDraw` forces on its calendar before reading the time. */
  const DrawZone: string := "PST"

  /** `83 - (timeMs % 83)`: the delay `handleUpdateTimeMessage` asks for, with
      Java's truncating `%`. */
  function NextDelay(timeMs: int): (delay: int)
    ensures 1 <= delay
    ensures LandsOnTick(timeMs, delay)
    ensures timeMs >= 0 ==> delay <= InteractiveUpdateRateMs
  {
    InteractiveUpdateRateMs - JavaMath.Rem(timeMs, InteractiveUpdateRateMs)
  }

  /** Waiting `delay` ms from `timeMs` ends on a multiple of the update period. */
  predicate LandsOnTick(timeMs: int, delay: int)
  {
    (timeMs + delay) % InteractiveUpdateRateMs == 0
  }

  /** The delay is positive and the redraw lands on a multiple of 83 ms. For a
      non-negative clock it is at most 83 ms and it is the nearest such
      boundary: no earlier positive delay lands on one. */
  lemma NextDelayAligned(timeMs: int)
    ensures 1 <= NextDelay(timeMs)
    ensures LandsOnTick(timeMs, NextDelay(timeMs))
    ensures timeMs >= 0 ==> NextDelay(timeMs) <= InteractiveUpdateRateMs
    ensures timeMs >= 0 ==> forall e :: 0 < e < NextDelay(timeMs) ==> !LandsOnTick(timeMs, e)
  {
  }

  /** A call the engine makes on the platform to subscribe to, or drop, the
      time-zone-changed broadcast. */
  datatype PlatformCall = Register | Unregister

  /** Registrations still active after a sequence of platform calls. */
  function ActiveRegistrations(calls: seq<PlatformCall>): (active: int)
  {
    if calls == [] then 0
    else ActiveRegistrations(calls[..|calls| - 1]) + (if calls[|calls| - 1] == Register then 1 else -1)
  }

  /** The calls alternate, starting with a registration. */
  predicate Alternating(calls: seq<PlatformCall>)
  {
    forall i :: 0 <= i < |calls| ==> calls[i] == (if i % 2 == 0 then Register else Unregister)
  }

  /** Alternating calls never leave more than one subscription active, nor
      unregister one that is not there: the active count is 1 exactly after a
      registration and 0 otherwise. */
  lemma {:induction false} AlternatingActive(calls: seq<PlatformCall>)
    requires Alternating(calls)
    ensures ActiveRegistrations(calls) == |calls| % 2
  {
    if calls != [] {
      var init := calls[..|calls| - 1];
      assert Alternating(init);
      AlternatingActive(init);
    }
  }

  class Engine {
    /** `isVisible()` of the framework engine, updated by `super.onVisibilityChanged`. */
    var visible: bool
    /** `mAmbient`. */
    var ambient: bool
    /** `mLowBitAmbient`. */
    var lowBitAmbient: bool
    /** `mBurnInProtection`. */
    var burnInProtection: bool
    /** `mRegisteredTimeZoneReceiver`. */
    var registered: bool
    /** Every register/unregister call made on the platform, in order. */
    var calls: seq<PlatformCall>
    /** Delays of the `MSG_UPDATE_TIME` messages waiting in `mUpdateTimeHandler`. */
    var pending: seq<int>
    /** Number of `invalidate()` calls, i.e. redraw requests. */
    var invalidations: nat
    /** The calendar `cal`: its instant and its time-zone id. */
    var calMillis: int
    var calZone: string

    /** `shouldTimerBeRunning`: the timer runs only when visible and interactive. */
    predicate ShouldTimerBeRunning()
      reads this
      ensures Valid() ==> (ShouldTimerBeRunning() <==> pending != [])
      ensures Valid() ==> (ShouldTimerBeRunning() <==> registered && !ambient)
    {
      visible && !ambient
    }

    /** The receiver is registered exactly while the face is visible, and the
        platform saw alternating calls that agree with the guard flag; exactly
        one redraw message is queued while the timer should run and none
        otherwise, and no message is queued for the past. */
    ghost predicate Valid()
      reads this
    {
      && Alternating(calls)
      && registered == (|calls| % 2 == 1)
      && registered == visible
      && |pending| == (if visible && !ambient then 1 else 0)
      && (forall i :: 0 <= i < |pending| ==> pending[i] >= 0)
    }

    /** The engine after `onCreate`: `cal = Calendar.getInstance()` reads the
        clock and the default zone, then `invalidate()`. */
    constructor (now: int, defaultZone: string)
      ensures Valid()
      ensures !visible && !ambient && !lowBitAmbient && !burnInProtection
      ensures !registered && calls == [] && pending == []
      ensures invalidations == 1 && calMillis == now && calZone == defaultZone
    {
      visible, ambient, lowBitAmbient, burnInProtection := false, false, false, false;
      registered, calls, pending := false, [], [];
      invalidations := 1;
      calMillis, calZone := now, defaultZone;
    }

    /** `registerReceiver`: subscribes only if not already subscribed. */
    method RegisterReceiver()
      modifies this
      ensures registered
      ensures calls == if old(registered) then old(calls) else old(calls) + [Register]
      ensures visible == old(visible) && ambient == old(ambient) && pending == old(pending)
      ensures lowBitAmbient == old(lowBitAmbient) && burnInProtection == old(burnInProtection)
      ensures invalidations == old(invalidations) && calMillis == old(calMillis) && calZone == old(calZone)
    {
      if registered {
        return;
      }
      registered := true;
      calls := calls + [Register];
    }

    /** `unregisterReceiver`: unsubscribes only if subscribed. */
    method UnregisterReceiver()
      modifies this
      ensures !registered
      ensures calls == if old(registered) then old(calls) + [Unregister] else old(calls)
      ensures visible == old(visible) && ambient == old(ambient) && pending == old(pending)
      ensures lowBitAmbient == old(lowBitAmbient) && burnInProtection == old(burnInProtection)
      ensures invalidations == old(invalidations) && calMillis == old(calMillis) && calZone == old(calZone)
    {
      if !registered {
        return;
      }
      registered := false;
      calls := calls + [Unregister];
    }

    /** `updateTimer`: drops every queued redraw message, then queues one
        immediate message if and only if the timer should run. */
    method UpdateTimer()
      modifies this
      ensures pending == if ShouldTimerBeRunning() then [0] else []
      ensures visible == old(visible) && ambient == old(ambient) && registered == old(registered)
      ensures calls == old(calls) && lowBitAmbient == old(lowBitAmbient) && burnInProtection == old(burnInProtection)
      ensures invalidations == old(invalidations) && calMillis == old(calMillis) && calZone == old(calZone)
    {
      pending := [];
      if ShouldTimerBeRunning() {
        pending := pending + [0];
      }
    }

    /** `handleUpdateTimeMessage`, run when a redraw message fires at clock
        time `now`: request a redraw and, while the timer should run, queue
        the next message for the next 83 ms boundary. */
    method HandleUpdateTimeMessage(now: int)
      modifies this
      ensures invalidations == old(invalidations) + 1
      ensures pending == if ShouldTimerBeRunning() then old(pending) + [NextDelay(now)] else old(pending)
      ensures visible == old(visible) && ambient == old(ambient) && registered == old(registered)
      ensures calls == old(calls) && lowBitAmbient == old(lowBitAmbient) && burnInProtection == old(burnInProtection)
      ensures calMillis == old(calMillis) && calZone == old(calZone)
    {
      invalidations := invalidations + 1;
      if ShouldTimerBeRunning() {
        pending := pending + [NextDelay(now)];
      }
    }

    /** The handler delivering the queued redraw message (`EngineHandler.handleMessage`):
        the message leaves the queue and `handleUpdateTimeMessage` runs. The
        timer stays armed, with one message queued, exactly while it should run. */
    method DispatchUpdateMessage(now: int)
      requires Valid() && pending != []
      modifies this
      ensures Valid()
      ensures pending == [NextDelay(now)]
      ensures invalidations == old(invalidations) + 1
      ensures visible == old(visible) && ambient == old(ambient) && registered == old(registered)
      ensures calls == old(calls) && lowBitAmbient == old(lowBitAmbient) && burnInProtection == old(burnInProtection)
      ensures calMillis == old(calMillis) && calZone == old(calZone)
    {
      pending := pending[1..];
      HandleUpdateTimeMessage(now);
      NextDelayAligned(now);
    }

    /** `onAmbientModeChanged`: record the mode and re-evaluate the timer. */
    method OnAmbientModeChanged(inAmbientMode: bool)
      requires Valid()
      modifies this
      ensures Valid()
      ensures ambient == inAmbientMode
      ensures pending == if visible && !inAmbientMode then [0] else []
      ensures visible == old(visible) && registered == old(registered) && calls == old(calls)
      ensures lowBitAmbient == old(lowBitAmbient) && burnInProtection == old(burnInProtection)
      ensures invalidations == old(invalidations) && calMillis == old(calMillis) && calZone == old(calZone)
    {
      ambient := inAmbientMode;
      UpdateTimer();
    }

    /** `onVisibilityChanged`: subscribe (and re-read the default zone and
        redraw) when becoming visible, unsubscribe otherwise, then
        re-evaluate the timer. A platform call is made only when the
        registration flag actually flips. */
    method OnVisibilityChanged(isVisible: bool, defaultZone: string)
      requires Valid()
      modifies this
      ensures Valid()
      ensures visible == isVisible && registered == isVisible
      ensures calls == if isVisible == old(registered) then old(calls)
                       else old(calls) + [if isVisible then Register else Unregister]
      ensures pending == if isVisible && !ambient then [0] else []
      ensures invalidations == old(invalidations) + (if isVisible then 1 else 0)
      ensures calZone == if isVisible then defaultZone else old(calZone)
      ensures ambient == old(ambient) && lowBitAmbient == old(lowBitAmbient)
      ensures burnInProtection == old(burnInProtection) && calMillis == old(calMillis)
    {
      visible := isVisible;
      if isVisible {
        RegisterReceiver();
        calZone := defaultZone;
        invalidations := invalidations + 1;
      } else {
        UnregisterReceiver();
      }
      UpdateTimer();
    }

    /** The time-zone receiver's `onReceive`: re-read the default zone and redraw. */
    method OnTimeZoneChanged(defaultZone: string)
      requires Valid()
      modifies this
      ensures Valid()
      ensures calZone == defaultZone && invalidations == old(invalidations) + 1
      ensures visible == old(visible) && ambient == old(ambient) && registered == old(registered)
      ensures calls == old(calls) && pending == old(pending) && lowBitAmbient == old(lowBitAmbient)
      ensures burnInProtection == old(burnInProtection) && calMillis == old(calMillis)
    {
      calZone := defaultZone;
      invalidations := invalidations + 1;
    }

    /** `onTimeTick`: the host's coarse tick (once a minute in ambient mode) only
        requests a redraw. */
    method OnTimeTick()
      requires Valid()
      modifies this
      ensures Valid()
      ensures invalidations == old(invalidations) + 1
      ensures visible == old(visible) && ambient == old(ambient) && registered == old(registered)
      ensures calls == old(calls) && pending == old(pending) && lowBitAmbient == old(lowBitAmbient)
      ensures burnInProtection == old(burnInProtection) && calMillis == old(calMillis) && calZone == old(calZone)
    {
      invalidations := invalidations + 1;
    }

    /** `onPropertiesChanged`: record the display's low-bit and burn-in properties. */
    method OnPropertiesChanged(lowBit: bool, burnIn: bool)
      requires Valid()
      modifies this
      ensures Valid()
      ensures lowBitAmbient == lowBit && burnInProtection == burnIn
      ensures visible == old(visible) && ambient == old(ambient) && registered == old(registered)
      ensures calls == old(calls) && pending == old(pending) && invalidations == old(invalidations)
      ensures calMillis == old(calMillis) && calZone == old(calZone)
    {
      lowBitAmbient, burnInProtection := lowBit, burnIn;
    }

    /** `onDestroy`: drop every queued redraw message. */
    method OnDestroy()
      modifies this
      ensures pending == []
      ensures visible == old(visible) && ambient == old(ambient) && registered == old(registered)
      ensures calls == old(calls) && lowBitAmbient == old(lowBitAmbient) && burnInProtection == old(burnInProtection)
      ensures invalidations == old(invalidations) && calMillis == old(calMillis) && calZone == old(calZone)
    {
      pending := [];
    }

    /** The time-dependent part of `onDraw` at clock time `now`: set the
        calendar, read the five digits from it, and produce the hex label and
        the rotations of hands 1 to 4 (hand k is nudged by digit k + 1). The
        label and rotations depend on the calendar's instant only, never on
        its zone. */
    method OnDraw(now: int) returns (text: string, turns: seq<real>)
      requires Valid()
      modifies this
      ensures Valid()
      ensures calMillis == now && calZone == DrawZone
      ensures text == HexLabel.HexTimeLabel(now)
      ensures |turns| == 4
      ensures forall i :: 0 <= i < 4 ==>
                turns[i] == HexClock.HandTurn(HexClock.HexDigits(now)[i], HexClock.HexDigits(now)[i + 1])
      ensures visible == old(visible) && ambient == old(ambient) && registered == old(registered)
      ensures calls == old(calls) && pending == old(pending) && invalidations == old(invalidations)
      ensures lowBitAmbient == old(lowBitAmbient) && burnInProtection == old(burnInProtection)
    {
      calMillis := now;
      calZone := DrawZone;
      var h5 := HexClock.Digit(calMillis, 5);
      var h4 := HexClock.Digit(calMillis, 4);
      var h4rot := HexClock.HandTurn(h4, h5);
      var h3 := HexClock.Digit(calMillis, 3);
      var h3rot := HexClock.HandTurn(h3, h4);
      var h2 := HexClock.Digit(calMillis, 2);
      var h2rot := HexClock.HandTurn(h2, h3);
      var h1 := HexClock.Digit(calMillis, 1);
      var h1rot := HexClock.HandTurn(h1, h2);
      text := HexLabel.Label([h1, h2, h3, h4, h5]);
      turns := [h1rot, h2rot, h3rot, h4rot];
    }
  }

  /** The timer policy over all four flag combinations: after any visibility or
      ambient change, a redraw message is queued if and only if the face is
      visible and interactive. */
  method TimerPolicyExample(isVisible: bool, inAmbient: bool) returns (armed: bool)
    ensures armed <==> isVisible && !inAmbient
  {
    var e := new Engine(0, "UTC");
    e.OnVisibilityChanged(isVisible, "UTC");
    e.OnAmbientModeChanged(inAmbient);
    armed := e.pending != [];
  }
}

/**
 * The inactivity timeout shared by `Backlight` and `BacklightManager`, as a
 * state machine over values: whether the light is on and when the last
 * activity was seen. `now` is the `millis()` reading of each call.
 */
module Inactivity {
  import opened Arduino

  /** The default `timeoutMs`. */
  const DEFAULT_TIMEOUT: ULong := 60000

  datatype Timer = Timer(isOn: bool, lastActivity: ULong)

  /** The state the constructor leaves. */
  const Initial := Timer(false, 0)

  /** `begin()`: dark, with the timeout counted from `now`. */
  function Begin(now: ULong): (t: Timer)
    ensures !t.isOn && Elapsed(now, t.lastActivity) == 0
  {
    Timer(false, now)
  }

  /** `registerActivity()`: the light is on and the timeout restarts at `now`. */
  function Activity(t: Timer, now: ULong): (u: Timer)
    ensures u.isOn && Elapsed(now, u.lastActivity) == 0
  {
    Timer(true, now)
  }

  /** True when `update()` at `now` switches the light off. */
  predicate TimedOut(t: Timer, timeout: ULong, now: ULong): (out: bool)
    ensures out ==> t.isOn
    ensures t.isOn && t.lastActivity <= now ==> (out <==> now - t.lastActivity >= timeout)
    ensures t.isOn && now < t.lastActivity ==> (out <==> ULONG_MODULUS - t.lastActivity + now >= timeout)
  {
    t.isOn && Elapsed(now, t.lastActivity) >= timeout
  }

  /** `update()`: off once `timeout` ms (with wrap-around) have passed since the last activity. */
  function Update(t: Timer, timeout: ULong, now: ULong): (u: Timer)
    ensures u.lastActivity == t.lastActivity
    ensures u.isOn <==> t.isOn && !TimedOut(t, timeout, now)
  {
    if TimedOut(t, timeout, now) then t.(isOn := false) else t
  }

  /** `update` switches the light off exactly on a timeout and changes nothing else. */
  lemma UpdateSwitchesOff(t: Timer, timeout: ULong, now: ULong)
    ensures Update(t, timeout, now).lastActivity == t.lastActivity
    ensures Update(t, timeout, now).isOn <==> t.isOn && Elapsed(now, t.lastActivity) < timeout
    ensures !TimedOut(t, timeout, now) ==> Update(t, timeout, now) == t
  {
  }

  /** A second `update` at the same instant changes nothing. */
  lemma UpdateIdempotent(t: Timer, timeout: ULong, now: ULong)
    ensures Update(Update(t, timeout, now), timeout, now) == Update(t, timeout, now)
  {
  }

  /** With a positive timeout, activity followed by `update` at the same instant leaves the light on. */
  lemma ActivityThenUpdateStaysOn(t: Timer, timeout: ULong, now: ULong)
    requires timeout > 0
    ensures Update(Activity(t, now), timeout, now) == Timer(true, now)
  {
    assert Elapsed(now, now) == 0;
  }

  /** With a zero timeout the same sequence switches the light straight off again. */
  lemma ZeroTimeoutSwitchesOff(t: Timer, now: ULong)
    ensures !Update(Activity(t, now), 0, now).isOn
  {
  }

  /**
   * The light stays on for less than `timeout` ms after the last activity:
   * an `update` fewer than `timeout` ms later, counted across a wrap of the
   * clock, keeps it on.
   */
  lemma OnUntilTimeout(t: Timer, timeout: ULong, now: ULong, later: nat)
    requires later < timeout
    ensures Update(Activity(t, now), timeout, ToUnsigned(now + later)).isOn
  {
    var n := ToUnsigned(now + later);
    assert Elapsed(n, now) == later by {
      assert (n - (now + later)) % ULONG_MODULUS == 0;
    }
  }

  /** `begin` never leaves the light on, whatever `update` follows. */
  lemma BeginStaysDark(timeout: ULong, now: ULong, later: ULong)
    ensures !Update(Begin(now), timeout, later).isOn
  {
  }
}

/**
 * The Linux mouse back-end. Through XTEST, buttons become X button numbers
 * (1-3 for left, middle and right, 8 and 9 for back and forward) and a
 * scroll becomes up to ten clicks of the X wheel buttons (4 and 5 vertical,
 * 6 and 7 horizontal), one click per 120 units; through inputtino the
 * virtual mouse takes the buttons and the high-resolution distance itself.
 */
module Mouse {
  import opened Wrappers
  import opened Bytes
  import opened InputDevices

  /** One wheel click is 120 high-resolution units. */
  const UNITS_PER_CLICK: int := 120
  /** At most this many clicks are sent for one scroll. */
  const MAX_CLICKS: int := 10

  /** The X button for a Sunshine button; unknown buttons have none. */
  function XButtonFor(button: int): (r: Option<nat>)
    ensures r.Some? <==> BUTTON_LEFT <= button <= BUTTON_X2
    ensures r.Some? ==> r.value in {1, 2, 3, 8, 9}
  {
    if button == BUTTON_LEFT then Some(1)
    else if button == BUTTON_MIDDLE then Some(2)
    else if button == BUTTON_RIGHT then Some(3)
    else if button == BUTTON_X1 then Some(8)
    else if button == BUTTON_X2 then Some(9)
    else None
  }

  /** The inputtino button for a Sunshine button; unknown buttons have none. */
  function MouseKeyFor(button: int): (r: Option<MouseKey>)
    ensures r.Some? <==> BUTTON_LEFT <= button <= BUTTON_X2
  {
    if button == BUTTON_LEFT then Some(Left)
    else if button == BUTTON_MIDDLE then Some(Middle)
    else if button == BUTTON_RIGHT then Some(Right)
    else if button == BUTTON_X1 then Some(Side)
    else if button == BUTTON_X2 then Some(Extra)
    else None
  }

  /** Distinct Sunshine buttons press distinct X buttons and distinct virtual-mouse buttons. */
  lemma ButtonMapsInjective(a: int, b: int)
    requires XButtonFor(a).Some? && XButtonFor(b).Some? && a != b
    ensures XButtonFor(a) != XButtonFor(b) && MouseKeyFor(a) != MouseKeyFor(b)
  {
  }

  /** `n` clicks of an X button: press then release, `n` times. */
  function Clicks(button: nat, n: nat): (r: seq<DeviceEvent>)
    ensures |r| == 2 * n
  {
    if n == 0 then [] else Clicks(button, n - 1) + [XButton(button, true), XButton(button, false)]
  }

  /** Every click is a press immediately followed by the release of the same button. */
  lemma {:induction false} ClicksAlternate(button: nat, n: nat)
    ensures forall i :: 0 <= i < n ==> Clicks(button, n)[2 * i] == XButton(button, true)
    ensures forall i :: 0 <= i < n ==> Clicks(button, n)[2 * i + 1] == XButton(button, false)
  {
    if n > 0 {
      ClicksAlternate(button, n - 1);
      var r := Clicks(button, n);
      assert r == Clicks(button, n - 1) + [XButton(button, true), XButton(button, false)];
      assert forall i :: 0 <= i < n - 1 ==> r[2 * i] == Clicks(button, n - 1)[2 * i];
      assert forall i :: 0 <= i < n - 1 ==> r[2 * i + 1] == Clicks(button, n - 1)[2 * i + 1];
    }
  }

  /**
   * The XTEST events for a scroll: the click count is the distance over
   * 120, truncated toward zero; positive counts click `positive`, others
   * `negative`; at most ten clicks.
   */
  function WheelClicks(distance: int, positive: nat, negative: nat): (r: seq<DeviceEvent>)
  {
    var clicks := CDiv(distance, UNITS_PER_CLICK);
    Clicks(if clicks > 0 then positive else negative, Min(if clicks > 0 then clicks else -clicks, MAX_CLICKS))
  }

  /** Less than one click in either direction scrolls nothing; any scroll is at most ten clicks. */
  lemma WheelClicksBounds(distance: int, positive: nat, negative: nat)
    ensures |WheelClicks(distance, positive, negative)| <= 2 * MAX_CLICKS
    ensures -UNITS_PER_CLICK < distance < UNITS_PER_CLICK <==> WheelClicks(distance, positive, negative) == []
    ensures distance >= UNITS_PER_CLICK * MAX_CLICKS ==> WheelClicks(distance, positive, negative) == Clicks(positive, MAX_CLICKS)
    ensures distance <= -UNITS_PER_CLICK ==>
      WheelClicks(distance, positive, negative) == Clicks(negative, Min(CDiv(-distance, UNITS_PER_CLICK), MAX_CLICKS))
  {
    if distance <= -UNITS_PER_CLICK {
      assert CDiv(distance, UNITS_PER_CLICK) == -CDiv(-distance, UNITS_PER_CLICK);
    }
  }

  /** `move`: relative motion through XTEST, else the virtual mouse if there is one. */
  method Move(raw: RawInput, deltaX: int, deltaY: int)
    modifies raw
    ensures raw.XtestActive() ==> raw.events == old(raw.events) + [XRelativeMotion(deltaX, deltaY)]
    ensures !raw.XtestActive() ==>
      raw.events == old(raw.events) + (if raw.mouseReady then [MouseMotion(deltaX, deltaY)] else [])
    ensures raw.useXtest == old(raw.useXtest) && raw.displayOpen == old(raw.displayOpen)
  {
    if raw.useXtest && raw.displayOpen {
      raw.events := raw.events + [XRelativeMotion(deltaX, deltaY)];
    } else if raw.mouseReady {
      raw.events := raw.events + [MouseMotion(deltaX, deltaY)];
    }
  }

  /** `button`: an unknown button does nothing on either path. */
  method Button(raw: RawInput, button: int, release: bool)
    modifies raw
    ensures raw.XtestActive() ==>
      raw.events == old(raw.events) + (if XButtonFor(button).Some? then [XButton(XButtonFor(button).value, !release)] else [])
    ensures !raw.XtestActive() && raw.mouseReady ==>
      raw.events == old(raw.events)
        + (match MouseKeyFor(button)
           case None => []
           case Some(k) => if release then [MouseRelease(k)] else [MousePress(k)])
    ensures !raw.XtestActive() && !raw.mouseReady ==> raw.events == old(raw.events)
    ensures raw.useXtest == old(raw.useXtest) && raw.displayOpen == old(raw.displayOpen)
  {
    if raw.useXtest && raw.displayOpen {
      var xButton := XButtonFor(button);
      if xButton.None? {
        return;
      }
      raw.events := raw.events + [XButton(xButton.value, !release)];
    } else if raw.mouseReady {
      var key := MouseKeyFor(button);
      if key.None? {
        return;
      }
      if release {
        raw.events := raw.events + [MouseRelease(key.value)];
      } else {
        raw.events := raw.events + [MousePress(key.value)];
      }
    }
  }

  /** The XTEST wheel loop shared by `scroll` and `hscroll`. */
  method ClickWheel(raw: RawInput, distance: int, positive: nat, negative: nat)
    modifies raw
    ensures raw.events == old(raw.events) + WheelClicks(distance, positive, negative)
    ensures raw.useXtest == old(raw.useXtest) && raw.displayOpen == old(raw.displayOpen)
  {
    var clicks := CDiv(distance, UNITS_PER_CLICK);
    var button := if clicks > 0 then positive else negative;
    var absClicks := if clicks > 0 then clicks else -clicks;
    var i := 0;
    while i < absClicks && i < MAX_CLICKS
      invariant 0 <= i <= Min(absClicks, MAX_CLICKS)
      invariant raw.events == old(raw.events) + Clicks(button, i)
      invariant raw.useXtest == old(raw.useXtest) && raw.displayOpen == old(raw.displayOpen)
    {
      raw.events := raw.events + [XButton(button, true)];
      raw.events := raw.events + [XButton(button, false)];
      i := i + 1;
    }
  }

  /** `scroll`: wheel buttons 4 (up) and 5 through XTEST, else the virtual mouse's vertical scroll. */
  method Scroll(raw: RawInput, distance: int)
    modifies raw
    ensures raw.XtestActive() ==> raw.events == old(raw.events) + WheelClicks(distance, 4, 5)
    ensures !raw.XtestActive() ==>
      raw.events == old(raw.events) + (if raw.mouseReady then [VerticalScroll(distance)] else [])
    ensures raw.useXtest == old(raw.useXtest) && raw.displayOpen == old(raw.displayOpen)
  {
    if raw.useXtest && raw.displayOpen {
      ClickWheel(raw, distance, 4, 5);
    } else if raw.mouseReady {
      raw.events := raw.events + [VerticalScroll(distance)];
    }
  }

  /** `hscroll`: wheel buttons 7 (right) and 6 through XTEST, else the virtual mouse's horizontal scroll. */
  method HorizontalScrollBy(raw: RawInput, distance: int)
    modifies raw
    ensures raw.XtestActive() ==> raw.events == old(raw.events) + WheelClicks(distance, 7, 6)
    ensures !raw.XtestActive() ==>
      raw.events == old(raw.events) + (if raw.mouseReady then [HorizontalScroll(distance)] else [])
    ensures raw.useXtest == old(raw.useXtest) && raw.displayOpen == old(raw.displayOpen)
  {
    if raw.useXtest && raw.displayOpen {
      ClickWheel(raw, distance, 7, 6);
    } else if raw.mouseReady {
      raw.events := raw.events + [HorizontalScroll(distance)];
    }
  }

  /** `get_location`: the cursor position is not read back, so it is the origin either way. */
  function GetLocation(raw: RawInput): (p: (int, int))
    reads raw
    ensures p == (0, 0)
  {
    if raw.mouseReady then (0, 0) else (0, 0)
  }
}

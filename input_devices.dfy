/**
 * The Linux input back-end's shared state. On an X server that does not
 * read uinput (Xvfb on display ":99", or when SUNSHINE_USE_XTEST is "1")
 * input goes through the XTEST extension on an X display connection;
 * otherwise through inputtino's virtual mouse and keyboard, either of
 * which may have failed to be created. The keyboard can also be driven by
 * the xdotool command line. What the back-end makes the devices do is
 * recorded as a list of device events.
 */
module InputDevices {
  import opened Wrappers

  /** Sunshine's mouse button numbers. */
  const BUTTON_LEFT: int := 1
  const BUTTON_MIDDLE: int := 2
  const BUTTON_RIGHT: int := 3
  const BUTTON_X1: int := 4
  const BUTTON_X2: int := 5

  predicate OccursAt(s: string, pattern: string, i: int)
  {
    0 <= i <= |s| - |pattern| && s[i..i + |pattern|] == pattern
  }

  /** `pattern` occurs somewhere in `s` (`find(pattern) != npos`). */
  predicate Contains(s: string, pattern: string)
  {
    exists i :: 0 <= i <= |s| - |pattern| && OccursAt(s, pattern, i)
  }

  predicate StartsWith(s: string, prefix: string)
  {
    |prefix| <= |s| && s[..|prefix|] == prefix
  }

  /**
   * Whether to use XTEST, from SUNSHINE_USE_XTEST and DISPLAY (`None` when
   * unset). Displays matching ":98" or starting with ":1" pass the first
   * check but not the second: only ":99" selects XTEST.
   */
  function ShouldUseXtest(forceXtest: Option<string>, display: Option<string>): (r: bool)
    ensures r <==> forceXtest == Some("1") || (display.Some? && Contains(display.value, ":99"))
  {
    if forceXtest.Some? && forceXtest.value == "1" then true
    else if display.Some? then
      var disp := display.value;
      if Contains(disp, ":99") || Contains(disp, ":98") || StartsWith(disp, ":1") then Contains(disp, ":99")
      else false
    else false
  }

  /** Xvfb's usual display selects XTEST, even with a screen number after it. */
  lemma XvfbDisplaySelected()
    ensures ShouldUseXtest(None, Some(":99"))
    ensures ShouldUseXtest(None, Some(":99.0"))
  {
    assert OccursAt(":99", ":99", 0);
    assert OccursAt(":99.0", ":99", 0);
  }

  /** Neither ":98" nor ":1", nor a SUNSHINE_USE_XTEST other than "1", selects XTEST. */
  lemma OtherDisplaysNotSelected()
    ensures !ShouldUseXtest(None, Some(":98"))
    ensures !ShouldUseXtest(None, Some(":1"))
    ensures !ShouldUseXtest(Some("true"), Some(":0"))
  {
    assert !OccursAt(":98", ":99", 0) by {
      assert ":98"[0..3] == ":98";
    }
  }

  /** The inputtino mouse buttons. */
  datatype MouseKey = Left | Middle | Right | Side | Extra

  /** What the back-end makes the devices do. */
  datatype DeviceEvent =
    | XButton(button: nat, press: bool)
    | XRelativeMotion(deltaX: int, deltaY: int)
    | MousePress(key: MouseKey)
    | MouseRelease(key: MouseKey)
    | MouseMotion(deltaX: int, deltaY: int)
    | VerticalScroll(distance: int)
    | HorizontalScroll(distance: int)
    | KeyPress(code: int)
    | KeyRelease(code: int)
    /** A shell command line run with `std::system`. */
    | Command(line: string)

  /** `input_raw_t`: the XTEST choice, the X display, the virtual devices and what they did. */
  class RawInput {
    var useXtest: bool
    /** Whether `x_display` holds an open connection. */
    var displayOpen: bool
    /** Whether inputtino created the virtual mouse and keyboard. */
    const mouseReady: bool
    const keyboardReady: bool
    /** `use_xdotool`: drive the keyboard through the xdotool command. */
    const useXdotool: bool
    var events: seq<DeviceEvent>

    /** Input goes through XTEST (`use_xtest && x_display`). */
    predicate XtestActive()
      reads this
    {
      useXtest && displayOpen
    }

    /**
     * Chooses XTEST from the environment, then falls back to uinput when
     * the display does not open or lacks the XTEST extension.
     */
    constructor(forceXtest: Option<string>, display: Option<string>, displayOpens: bool, hasXtest: bool,
                mouseCreated: bool, keyboardCreated: bool, xdotool: bool)
      ensures useXtest <==> ShouldUseXtest(forceXtest, display) && displayOpens && hasXtest
      ensures displayOpen == useXtest
      ensures mouseReady == mouseCreated && keyboardReady == keyboardCreated && useXdotool == xdotool
      ensures events == []
    {
      useXtest := ShouldUseXtest(forceXtest, display);
      displayOpen := false;
      mouseReady := mouseCreated;
      keyboardReady := keyboardCreated;
      useXdotool := xdotool;
      events := [];
      new;
      if useXtest {
        displayOpen := displayOpens;
        if displayOpen {
          if !hasXtest {
            displayOpen := false;
            useXtest := false;
          }
        } else {
          useXtest := false;
        }
      }
    }
  }
}

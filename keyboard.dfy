/**
 * The Linux keyboard back-end. A key goes either to xdotool, as a
 * `keydown`/`keyup` command naming the X key for the Windows virtual-key
 * code, or to inputtino's virtual keyboard as a press or release. Text is
 * typed by xdotool (shell-quoted) or, on the virtual keyboard, as
 * Ctrl+Shift+U followed by the hexadecimal code points.
 */
module Keyboard {
  import opened Wrappers
  import opened Bytes
  import opened InputDevices

  // ------------------------------------------------------------ key names

  /** `vk_to_xdotool`: the xdotool name of a Windows virtual-key code, or "" for a code without one. */
  function VkToXdotool(vk: int): string
  {
    match vk
    case 0x08 => "BackSpace"
    case 0x09 => "Tab"
    case 0x0D => "Return"
    case 0x10 => "Shift_L"
    case 0x11 => "Control_L"
    case 0x12 => "Alt_L"
    case 0x13 => "Pause"
    case 0x14 => "Caps_Lock"
    case 0x1B => "Escape"
    case 0x20 => "space"
    case 0x21 => "Page_Up"
    case 0x22 => "Page_Down"
    case 0x23 => "End"
    case 0x24 => "Home"
    case 0x25 => "Left"
    case 0x26 => "Up"
    case 0x27 => "Right"
    case 0x28 => "Down"
    case 0x2C => "Print"
    case 0x2D => "Insert"
    case 0x2E => "Delete"
    case 0x30 => "0"
    case 0x31 => "1"
    case 0x32 => "2"
    case 0x33 => "3"
    case 0x34 => "4"
    case 0x35 => "5"
    case 0x36 => "6"
    case 0x37 => "7"
    case 0x38 => "8"
    case 0x39 => "9"
    case 0x41 => "a"
    case 0x42 => "b"
    case 0x43 => "c"
    case 0x44 => "d"
    case 0x45 => "e"
    case 0x46 => "f"
    case 0x47 => "g"
    case 0x48 => "h"
    case 0x49 => "i"
    case 0x4A => "j"
    case 0x4B => "k"
    case 0x4C => "l"
    case 0x4D => "m"
    case 0x4E => "n"
    case 0x4F => "o"
    case 0x50 => "p"
    case 0x51 => "q"
    case 0x52 => "r"
    case 0x53 => "s"
    case 0x54 => "t"
    case 0x55 => "u"
    case 0x56 => "v"
    case 0x57 => "w"
    case 0x58 => "x"
    case 0x59 => "y"
    case 0x5A => "z"
    case 0x5B => "Super_L"
    case 0x5C => "Super_R"
    case 0x60 => "KP_0"
    case 0x61 => "KP_1"
    case 0x62 => "KP_2"
    case 0x63 => "KP_3"
    case 0x64 => "KP_4"
    case 0x65 => "KP_5"
    case 0x66 => "KP_6"
    case 0x67 => "KP_7"
    case 0x68 => "KP_8"
    case 0x69 => "KP_9"
    case 0x6A => "KP_Multiply"
    case 0x6B => "KP_Add"
    case 0x6D => "KP_Subtract"
    case 0x6E => "KP_Decimal"
    case 0x6F => "KP_Divide"
    case 0x70 => "F1"
    case 0x71 => "F2"
    case 0x72 => "F3"
    case 0x73 => "F4"
    case 0x74 => "F5"
    case 0x75 => "F6"
    case 0x76 => "F7"
    case 0x77 => "F8"
    case 0x78 => "F9"
    case 0x79 => "F10"
    case 0x7A => "F11"
    case 0x7B => "F12"
    case 0x90 => "Num_Lock"
    case 0x91 => "Scroll_Lock"
    case 0xA0 => "Shift_L"
    case 0xA1 => "Shift_R"
    case 0xA2 => "Control_L"
    case 0xA3 => "Control_R"
    case 0xA4 => "Alt_L"
    case 0xA5 => "Alt_R"
    case 0xBA => "semicolon"
    case 0xBB => "equal"
    case 0xBC => "comma"
    case 0xBD => "minus"
    case 0xBE => "period"
    case 0xBF => "slash"
    case 0xC0 => "grave"
    case 0xDB => "bracketleft"
    case 0xDC => "backslash"
    case 0xDD => "bracketright"
    case 0xDE => "apostrophe"
    case _ => ""
  }

  /** Letter keys 0x41-0x5A are "a" to "z". */
  lemma LetterKeyNames(i: int)
    requires 0 <= i < 26
    ensures VkToXdotool(0x41 + i) == [('a' as int + i) as char]
  {
    assert i == 0 || i == 1 || i == 2 || i == 3 || i == 4 || i == 5 || i == 6 || i == 7 || i == 8 ||
      i == 9 || i == 10 || i == 11 || i == 12 || i == 13 || i == 14 || i == 15 || i == 16 || i == 17 ||
      i == 18 || i == 19 || i == 20 || i == 21 || i == 22 || i == 23 || i == 24 || i == 25;
  }

  /** Digit keys 0x30-0x39 are "0" to "9". */
  lemma DigitKeyNames(i: int)
    requires 0 <= i < 10
    ensures VkToXdotool(0x30 + i) == [('0' as int + i) as char]
  {
    assert i == 0 || i == 1 || i == 2 || i == 3 || i == 4 || i == 5 || i == 6 || i == 7 || i == 8 ||
      i == 9;
  }

  /** Function keys 0x70-0x7B are "F1" to "F12". */
  lemma FunctionKeyNames(i: int)
    requires 0 <= i < 12
    ensures VkToXdotool(0x70 + i) == if i < 9 then ['F', ('1' as int + i) as char] else ['F', '1', ('0' as int + i - 9) as char]
  {
    assert i == 0 || i == 1 || i == 2 || i == 3 || i == 4 || i == 5 || i == 6 || i == 7 || i == 8 ||
      i == 9 || i == 10 || i == 11;
  }

  /** Codes below Backspace and above the apostrophe key have no name. */
  lemma OutsideTableUnnamed(vk: int)
    requires vk < 0x08 || vk > 0xDE
    ensures VkToXdotool(vk) == ""
  {
  }

  // ------------------------------------------------------------ xdotool command lines

  /** Each argument preceded by a space. */
  function JoinArgs(args: seq<string>): string
  {
    if args == [] then "" else JoinArgs(args[..|args| - 1]) + " " + args[|args| - 1]
  }

  /** The shell line `xdotool_cmd` runs: the program, the arguments, and stderr discarded. */
  function XdotoolLine(args: seq<string>): string
  {
    "xdotool" + JoinArgs(args) + " 2>/dev/null"
  }

  /** Joining two argument lists joins their texts. */
  lemma {:induction false} JoinArgsAppend(a: seq<string>, b: seq<string>)
    ensures JoinArgs(a + b) == JoinArgs(a) + JoinArgs(b)
    decreases |b|
  {
    if b == [] {
      assert a + b == a;
    } else {
      var init := b[..|b| - 1];
      assert (a + b)[..|a + b| - 1] == a + init;
      JoinArgsAppend(a, init);
    }
  }

  /** A two-word command: the line is the program, both words and the redirection, space-separated. */
  lemma TwoArgumentLine(verb: string, key: string)
    ensures XdotoolLine([verb, key]) == "xdotool " + verb + " " + key + " 2>/dev/null"
  {
    assert [verb, key][..1] == [verb];
    assert [verb][..0] == [];
    assert JoinArgs([verb]) == " " + verb;
    assert JoinArgs([verb, key]) == " " + verb + " " + key;
  }

  /** `xdotool_cmd`: builds the line argument by argument and runs it. */
  method XdotoolCmd(raw: RawInput, args: seq<string>)
    modifies raw
    ensures raw.events == old(raw.events) + [Command(XdotoolLine(args))]
    ensures raw.useXtest == old(raw.useXtest) && raw.displayOpen == old(raw.displayOpen)
  {
    var cmd := "xdotool";
    var i := 0;
    while i < |args|
      invariant 0 <= i <= |args|
      invariant cmd == "xdotool" + JoinArgs(args[..i])
    {
      assert args[..i + 1][..i] == args[..i];
      cmd := cmd + " " + args[i];
      i := i + 1;
    }
    assert args[..i] == args;
    cmd := cmd + " 2>/dev/null";
    raw.events := raw.events + [Command(cmd)];
  }

  // ------------------------------------------------------------ shell quoting

  /** A quote or backslash gets a backslash in front. */
  function EscapeChar(c: char): string
  {
    if c == '\'' || c == '\\' then ['\\', c] else [c]
  }

  function Escaped(text: string): string
  {
    if text == [] then "" else EscapeChar(text[0]) + Escaped(text[1..])
  }

  /** Drops the backslash in front of each escaped character. */
  function Unescape(s: string): string
  {
    if s == [] then ""
    else if s[0] == '\\' && |s| >= 2 then [s[1]] + Unescape(s[2..])
    else [s[0]] + Unescape(s[1..])
  }

  /** Removing the escapes gives back the text. */
  lemma {:induction false} UnescapeEscaped(text: string)
    ensures Unescape(Escaped(text)) == text
  {
    if text != [] {
      UnescapeEscaped(text[1..]);
      var e := Escaped(text);
      assert e == EscapeChar(text[0]) + Escaped(text[1..]);
      if text[0] == '\'' || text[0] == '\\' {
        assert e[2..] == Escaped(text[1..]);
      } else {
        assert e[1..] == Escaped(text[1..]);
      }
    }
  }

  /** Escaping one more character appends its escape. */
  lemma {:induction false} EscapedSnoc(text: string, c: char)
    ensures Escaped(text + [c]) == Escaped(text) + EscapeChar(c)
  {
    if text == [] {
      assert text + [c] == [c];
    } else {
      assert (text + [c])[1..] == text[1..] + [c];
      EscapedSnoc(text[1..], c);
    }
  }

  /** The escape loop of `unicode`. */
  method EscapeText(text: string) returns (escaped: string)
    ensures escaped == Escaped(text)
  {
    escaped := "";
    var i := 0;
    while i < |text|
      invariant 0 <= i <= |text|
      invariant escaped == Escaped(text[..i])
    {
      if text[i] == '\'' || text[i] == '\\' {
        escaped := escaped + "\\";
      }
      escaped := escaped + [text[i]];
      EscapedSnoc(text[..i], text[i]);
      assert text[..i + 1] == text[..i] + [text[i]];
      i := i + 1;
    }
    assert text[..i] == text;
  }

  /** `c` in front of the word the rest of a shell word reads as. */
  function Prepend(c: char, w: Option<string>): Option<string>
  {
    if w.Some? then Some([c] + w.value) else None
  }

  /**
   * How a POSIX shell reads one word (section 2.2 of the Shell Command
   * Language): outside quotes a backslash keeps the next character; inside
   * single quotes every character up to the closing quote is kept as it
   * is, a backslash included. `None` is an unterminated quote.
   */
  function ShellWord(s: string, quoted: bool): Option<string>
    decreases |s|
  {
    if s == [] then (if quoted then None else Some(""))
    else if quoted then
      (if s[0] == '\'' then ShellWord(s[1..], false) else Prepend(s[0], ShellWord(s[1..], true)))
    else if s[0] == '\'' then ShellWord(s[1..], true)
    else if s[0] == '\\' && |s| >= 2 then Prepend(s[1], ShellWord(s[2..], false))
    else Prepend(s[0], ShellWord(s[1..], false))
  }

  /** The word `unicode` hands the shell for `text`. */
  function QuotedAsWritten(text: string): string
  {
    "'" + Escaped(text) + "'"
  }

  /**
   * As written, a quote in the text ends the quoting: the shell finds an
   * unterminated quote and types nothing. A backslash reaches xdotool
   * doubled.
   */
  lemma QuotedAsWrittenBreaks()
    ensures ShellWord(QuotedAsWritten("'"), false) == None
    ensures ShellWord(QuotedAsWritten("\\"), false) == Some("\\\\")
  {
    var q := QuotedAsWritten("'");
    assert q == "'\\''";
    assert ShellWord(q, false) == ShellWord(q[1..], true) == Prepend('\\', ShellWord(q[2..], true));
    assert ShellWord(q[2..], true) == ShellWord(q[3..], false) == ShellWord(q[4..], true);
    var b := QuotedAsWritten("\\");
    assert b == "'\\\\'";
    assert ShellWord(b, false) == ShellWord(b[1..], true) == Prepend('\\', ShellWord(b[2..], true));
    assert ShellWord(b[2..], true) == Prepend('\\', ShellWord(b[3..], true));
    assert ShellWord(b[3..], true) == ShellWord(b[4..], false) == Some("");
    assert ['\\'] + "" == "\\";
    assert ['\\'] + "\\" == "\\\\";
  }

  /** A quote closes the quoting, is written escaped, and the quoting reopens; anything else stays as it is. */
  function QuoteChar(c: char): string
  {
    if c == '\'' then "'\\''" else [c]
  }

  function QuotedBody(text: string): string
  {
    if text == [] then "" else QuoteChar(text[0]) + QuotedBody(text[1..])
  }

  /** The corrected quoting: single quotes around the text, each quote in it written as `'\''`. */
  function ShellQuote(text: string): string
  {
    "'" + QuotedBody(text) + "'"
  }

  /** Inside quotes, an escaped quote reads as a quote and the quoting carries on. */
  lemma EscapedQuoteRead(tail: string)
    ensures ShellWord("'\\''" + tail, true) == Prepend('\'', ShellWord(tail, true))
  {
    var s := "'\\''" + tail;
    assert s[1..] == "\\''" + tail;
    assert s[1..][2..] == "'" + tail;
    assert ("'" + tail)[1..] == tail;
    assert ShellWord(s, true) == ShellWord(s[1..], false);
    assert ShellWord(s[1..], false) == Prepend('\'', ShellWord(s[1..][2..], false));
    assert ShellWord("'" + tail, false) == ShellWord(tail, true);
  }

  /** Inside quotes, any other character reads as itself. */
  lemma QuotedCharRead(c: char, tail: string)
    requires c != '\''
    ensures ShellWord([c] + tail, true) == Prepend(c, ShellWord(tail, true))
  {
    assert ([c] + tail)[1..] == tail;
  }

  lemma {:induction false} QuotedBodyRead(text: string, rest: string)
    ensures ShellWord(QuotedBody(text) + rest, true) ==
      (if ShellWord(rest, true).Some? then Some(text + ShellWord(rest, true).value) else None)
  {
    var r := ShellWord(rest, true);
    if text != [] {
      QuotedBodyRead(text[1..], rest);
      var tail := QuotedBody(text[1..]) + rest;
      assert QuotedBody(text) + rest == QuoteChar(text[0]) + tail;
      if text[0] == '\'' {
        EscapedQuoteRead(tail);
      } else {
        QuotedCharRead(text[0], tail);
      }
      if r.Some? {
        assert [text[0]] + (text[1..] + r.value) == text + r.value;
      }
    } else {
      assert QuotedBody(text) + rest == rest;
      if r.Some? {
        assert text + r.value == r.value;
      }
    }
  }

  /** The shell reads the corrected quoting of any text back as exactly that text. */
  lemma ShellQuoteRoundTrip(text: string)
    ensures ShellWord(ShellQuote(text), false) == Some(text)
  {
    QuotedBodyRead(text, "'");
    var w := ShellQuote(text);
    assert w[1..] == QuotedBody(text) + "'";
    assert ShellWord(w, false) == ShellWord(w[1..], true);
    assert ShellWord("'", true) == ShellWord("", false) == Some("");
    assert text + "" == text;
  }

  /** Quoting one more character appends its quoted form. */
  lemma {:induction false} QuotedBodySnoc(text: string, c: char)
    ensures QuotedBody(text + [c]) == QuotedBody(text) + QuoteChar(c)
  {
    if text == [] {
      assert text + [c] == [c];
      assert QuotedBody([c]) == QuoteChar(c) + QuotedBody([]);
    } else {
      assert (text + [c])[1..] == text[1..] + [c];
      QuotedBodySnoc(text[1..], c);
    }
  }

  /** The corrected quoting loop: the word it builds reads back as the text. */
  method QuoteText(text: string) returns (word: string)
    ensures word == ShellQuote(text)
    ensures ShellWord(word, false) == Some(text)
  {
    var body := "";
    var i := 0;
    while i < |text|
      invariant 0 <= i <= |text|
      invariant body == QuotedBody(text[..i])
    {
      if text[i] == '\'' {
        body := body + "'\\''";
      } else {
        body := body + [text[i]];
      }
      QuotedBodySnoc(text[..i], text[i]);
      assert text[..i + 1] == text[..i] + [text[i]];
      i := i + 1;
    }
    assert text[..i] == text;
    word := "'" + body + "'";
    ShellQuoteRoundTrip(text);
  }

  // ------------------------------------------------------------ hexadecimal code points

  const LOWER_DIGITS: string := "0123456789abcdef"
  const UPPER_DIGITS: string := "0123456789ABCDEF"

  /** `n` in base 16 with the given digits, without leading zeros ("0" for zero). */
  function Hex(n: nat, digits: string): (s: string)
    requires |digits| == 16
    ensures |s| >= 1
  {
    if n < 16 then [digits[n]] else Hex(n / 16, digits) + [digits[n % 16]]
  }

  function ToUpper(c: char): char
  {
    if 'a' <= c <= 'z' then (c as int - 32) as char else c
  }

  function UpperCase(s: string): (r: string)
    ensures |r| == |s| && forall i :: 0 <= i < |s| ==> r[i] == ToUpper(s[i])
  {
    seq(|s|, i requires 0 <= i < |s| => ToUpper(s[i]))
  }

  /** The lower-case hex of each code point in turn, as the string stream writes it. */
  function LowerHexOf(codePoints: seq<U32>): string
  {
    if codePoints == [] then "" else LowerHexOf(codePoints[..|codePoints| - 1]) + Hex(codePoints[|codePoints| - 1], LOWER_DIGITS)
  }

  /** `to_hex`: each code point's hex, unpadded, upper-cased. */
  function HexString(codePoints: seq<U32>): string
  {
    if codePoints == [] then "" else HexString(codePoints[..|codePoints| - 1]) + Hex(codePoints[|codePoints| - 1], UPPER_DIGITS)
  }

  lemma {:induction false} UpperHex(n: nat)
    ensures UpperCase(Hex(n, LOWER_DIGITS)) == Hex(n, UPPER_DIGITS)
    decreases n
  {
    if n >= 16 {
      UpperHex(n / 16);
      var d := n % 16;
      assert UpperCase(Hex(n, LOWER_DIGITS)) == UpperCase(Hex(n / 16, LOWER_DIGITS)) + [ToUpper(LOWER_DIGITS[d])];
    }
    assert forall d :: 0 <= d < 16 ==> ToUpper(LOWER_DIGITS[d]) == UPPER_DIGITS[d];
  }

  lemma {:induction false} UpperLowerHex(codePoints: seq<U32>)
    ensures UpperCase(LowerHexOf(codePoints)) == HexString(codePoints)
    decreases |codePoints|
  {
    if codePoints != [] {
      var init, last := codePoints[..|codePoints| - 1], codePoints[|codePoints| - 1];
      UpperLowerHex(init);
      UpperHex(last);
      assert UpperCase(LowerHexOf(init) + Hex(last, LOWER_DIGITS))
          == UpperCase(LowerHexOf(init)) + UpperCase(Hex(last, LOWER_DIGITS));
    }
  }

  /** The value of an upper-case hex digit. */
  function DigitValue(c: char): (v: nat)
    ensures v < 16
  {
    if '0' <= c <= '9' then c as int - '0' as int else if 'A' <= c <= 'F' then c as int - 'A' as int + 10 else 0
  }

  /** Reads upper-case hex back into a number. */
  function ParseHex(s: string): nat
  {
    if s == [] then 0 else ParseHex(s[..|s| - 1]) * 16 + DigitValue(s[|s| - 1])
  }

  /** One code point's hex reads back as that code point. */
  lemma {:induction false} ParseHexRoundTrip(n: nat)
    ensures ParseHex(Hex(n, UPPER_DIGITS)) == n
    decreases n
  {
    assert forall d :: 0 <= d < 16 ==> DigitValue(UPPER_DIGITS[d]) == d;
    if n >= 16 {
      ParseHexRoundTrip(n / 16);
      var s := Hex(n, UPPER_DIGITS);
      assert s[..|s| - 1] == Hex(n / 16, UPPER_DIGITS);
    }
  }

  /**
   * Unpadded digits run together: the code points U+1, U+23 and the code
   * points U+12, U+3 give the same hex string.
   */
  lemma HexStringAmbiguous()
    ensures HexString([0x1, 0x23]) == HexString([0x12, 0x3]) == "123"
  {
    assert [0x1, 0x23][..1] == [0x1];
    assert [0x12, 0x3][..1] == [0x12];
  }

  /** `to_hex`: the stream writes each code point in lower-case hex, then the whole string is upper-cased in place. */
  method ToHex(codePoints: seq<U32>) returns (hex: string)
    ensures hex == HexString(codePoints)
  {
    var stream := "";
    var i := 0;
    while i < |codePoints|
      invariant 0 <= i <= |codePoints|
      invariant stream == LowerHexOf(codePoints[..i])
    {
      assert codePoints[..i + 1][..i] == codePoints[..i];
      stream := stream + Hex(codePoints[i], LOWER_DIGITS);
      i := i + 1;
    }
    assert codePoints[..i] == codePoints;
    hex := stream;
    var j := 0;
    while j < |hex|
      invariant 0 <= j <= |hex| && |hex| == |stream|
      invariant forall k :: 0 <= k < j ==> hex[k] == ToUpper(stream[k])
      invariant forall k :: j <= k < |hex| ==> hex[k] == stream[k]
    {
      hex := hex[j := ToUpper(hex[j])];
      j := j + 1;
    }
    assert hex == UpperCase(stream);
    UpperLowerHex(codePoints);
  }

  // ------------------------------------------------------------ key events

  const LEFT_CTRL: int := 0xA2
  const LEFT_SHIFT: int := 0xA0
  const KEY_U: int := 0x55

  /**
   * The virtual-key code typed for a character: libevdev names "KEY_0" to
   * "KEY_9" and "KEY_A" to "KEY_Z", and the scan-code table maps those to
   * 0x30-0x39 and 0x41-0x5A; other characters have no key.
   */
  function KeyCodeFor(c: char): (r: Option<int>)
    ensures r.Some? <==> '0' <= c <= '9' || 'A' <= c <= 'Z'
  {
    if '0' <= c <= '9' then Some(0x30 + (c as int - '0' as int))
    else if 'A' <= c <= 'Z' then Some(0x41 + (c as int - 'A' as int))
    else None
  }

  /** A press and release of the character's key, or nothing when it has none. */
  function Tap(c: char): seq<DeviceEvent>
  {
    match KeyCodeFor(c)
    case None => []
    case Some(k) => [KeyPress(k), KeyRelease(k)]
  }

  function Taps(s: string): seq<DeviceEvent>
  {
    if s == [] then [] else Taps(s[..|s| - 1]) + Tap(s[|s| - 1])
  }

  /** Ctrl+Shift+U, a tap per hex digit, then Shift and Ctrl released. */
  function UnicodeKeys(hex: string): seq<DeviceEvent>
  {
    [KeyPress(LEFT_CTRL), KeyPress(LEFT_SHIFT), KeyPress(KEY_U), KeyRelease(KEY_U)]
    + Taps(hex) + [KeyRelease(LEFT_SHIFT), KeyRelease(LEFT_CTRL)]
  }

  /** Every key the sequence presses it also releases, as often. */
  ghost predicate Balanced(events: seq<DeviceEvent>)
  {
    forall k :: multiset(events)[KeyPress(k)] == multiset(events)[KeyRelease(k)]
  }

  lemma BalancedJoin(a: seq<DeviceEvent>, b: seq<DeviceEvent>)
    requires Balanced(a) && Balanced(b)
    ensures Balanced(a + b)
  {
    assert multiset(a + b) == multiset(a) + multiset(b);
  }

  lemma {:induction false} TapsBalanced(s: string)
    ensures Balanced(Taps(s))
    decreases |s|
  {
    if s != [] {
      TapsBalanced(s[..|s| - 1]);
      var k := Tap(s[|s| - 1]);
      assert Balanced(k);
      BalancedJoin(Taps(s[..|s| - 1]), k);
    }
  }

  /** The keys around the digits: Ctrl, Shift and U, each pressed once and released once. */
  lemma ModifiersBalanced()
    ensures Balanced([KeyPress(LEFT_CTRL), KeyPress(LEFT_SHIFT), KeyPress(KEY_U), KeyRelease(KEY_U)]
                     + [KeyRelease(LEFT_SHIFT), KeyRelease(LEFT_CTRL)])
  {
    var m := multiset([KeyPress(LEFT_CTRL), KeyPress(LEFT_SHIFT), KeyPress(KEY_U), KeyRelease(KEY_U)]
                      + [KeyRelease(LEFT_SHIFT), KeyRelease(LEFT_CTRL)]);
    assert m == multiset{KeyPress(LEFT_CTRL), KeyRelease(LEFT_CTRL)} + multiset{KeyPress(LEFT_SHIFT), KeyRelease(LEFT_SHIFT)}
              + multiset{KeyPress(KEY_U), KeyRelease(KEY_U)};
  }

  /** Typing text leaves no key held down, Ctrl and Shift included. */
  lemma UnicodeKeysBalanced(hex: string)
    ensures Balanced(UnicodeKeys(hex))
  {
    var head := [KeyPress(LEFT_CTRL), KeyPress(LEFT_SHIFT), KeyPress(KEY_U), KeyRelease(KEY_U)];
    var tail := [KeyRelease(LEFT_SHIFT), KeyRelease(LEFT_CTRL)];
    TapsBalanced(hex);
    ModifiersBalanced();
    BalancedJoin(head + tail, Taps(hex));
    assert multiset(UnicodeKeys(hex)) == multiset((head + tail) + Taps(hex));
  }

  /** Digits and the upper-case letters A to F. */
  predicate HexDigits(s: string)
  {
    forall i :: 0 <= i < |s| ==> '0' <= s[i] <= '9' || 'A' <= s[i] <= 'F'
  }

  lemma {:induction false} HexUpperDigits(n: nat)
    ensures HexDigits(Hex(n, UPPER_DIGITS))
    decreases n
  {
    assert HexDigits(UPPER_DIGITS);
    if n >= 16 {
      HexUpperDigits(n / 16);
    }
  }

  lemma {:induction false} HexStringDigits(codePoints: seq<U32>)
    ensures HexDigits(HexString(codePoints))
    decreases |codePoints|
  {
    if codePoints != [] {
      HexStringDigits(codePoints[..|codePoints| - 1]);
      HexUpperDigits(codePoints[|codePoints| - 1]);
    }
  }

  lemma {:induction false} HexDigitsTyped(s: string)
    requires HexDigits(s)
    ensures |Taps(s)| == 2 * |s|
    decreases |s|
  {
    if s != [] {
      HexDigitsTyped(s[..|s| - 1]);
    }
  }

  /** Every digit of a hex string has a key, so every digit is typed. */
  lemma HexDigitsAllTyped(codePoints: seq<U32>)
    ensures |Taps(HexString(codePoints))| == 2 * |HexString(codePoints)|
  {
    HexStringDigits(codePoints);
    HexDigitsTyped(HexString(codePoints));
  }

  // ------------------------------------------------------------ keyboard entry points

  /**
   * `update`: with xdotool, a named key becomes `keydown` or `keyup` and an
   * unnamed one nothing; otherwise the virtual keyboard, if there is one,
   * presses or releases the code.
   */
  method Update(raw: RawInput, modcode: U16, release: bool, flags: Byte)
    modifies raw
    ensures raw.useXdotool ==>
      raw.events == old(raw.events)
        + (if VkToXdotool(modcode) == "" then []
           else [Command(XdotoolLine([if release then "keyup" else "keydown", VkToXdotool(modcode)]))])
    ensures !raw.useXdotool ==>
      raw.events == old(raw.events)
        + (if raw.keyboardReady then [if release then KeyRelease(modcode) else KeyPress(modcode)] else [])
    ensures raw.useXtest == old(raw.useXtest) && raw.displayOpen == old(raw.displayOpen)
  {
    if raw.useXdotool {
      var key := VkToXdotool(modcode);
      if key != "" {
        if release {
          XdotoolCmd(raw, ["keyup", key]);
        } else {
          XdotoolCmd(raw, ["keydown", key]);
        }
      }
    } else if raw.keyboardReady {
      if release {
        raw.events := raw.events + [KeyRelease(modcode)];
      } else {
        raw.events := raw.events + [KeyPress(modcode)];
      }
    }
  }

  /** The virtual-keyboard half of `unicode`: Ctrl+Shift+U, a tap per hex digit that has a key, Shift and Ctrl released. */
  method TypeHex(raw: RawInput, hex: string)
    modifies raw
    ensures raw.events == old(raw.events) + UnicodeKeys(hex)
    ensures raw.useXtest == old(raw.useXtest) && raw.displayOpen == old(raw.displayOpen)
  {
    raw.events := raw.events + [KeyPress(LEFT_CTRL), KeyPress(LEFT_SHIFT), KeyPress(KEY_U), KeyRelease(KEY_U)];
    var i := 0;
    while i < |hex|
      invariant 0 <= i <= |hex|
      invariant raw.events == old(raw.events) + [KeyPress(LEFT_CTRL), KeyPress(LEFT_SHIFT), KeyPress(KEY_U), KeyRelease(KEY_U)]
                              + Taps(hex[..i])
      invariant raw.useXtest == old(raw.useXtest) && raw.displayOpen == old(raw.displayOpen)
    {
      assert hex[..i + 1][..i] == hex[..i];
      var code := KeyCodeFor(hex[i]);
      if code.Some? {
        raw.events := raw.events + [KeyPress(code.value), KeyRelease(code.value)];
      }
      i := i + 1;
    }
    assert hex[..i] == hex;
    raw.events := raw.events + [KeyRelease(LEFT_SHIFT), KeyRelease(LEFT_CTRL)];
  }

  /**
   * `unicode`: xdotool types the text quoted for the shell (with the
   * corrected quoting, so the shell hands it over unchanged); the virtual
   * keyboard types Ctrl+Shift+U and the hex of the code points the text
   * decodes to (the UTF-8 decoding is given).
   */
  method Unicode(raw: RawInput, text: string, codePoints: seq<U32>)
    modifies raw
    ensures raw.useXdotool ==>
      raw.events == old(raw.events) + [Command(XdotoolLine(["type", "--", ShellQuote(text)]))]
    ensures !raw.useXdotool ==>
      raw.events == old(raw.events) + (if raw.keyboardReady then UnicodeKeys(HexString(codePoints)) else [])
    ensures raw.useXtest == old(raw.useXtest) && raw.displayOpen == old(raw.displayOpen)
  {
    if raw.useXdotool {
      var word := QuoteText(text);
      XdotoolCmd(raw, ["type", "--", word]);
    } else if raw.keyboardReady {
      var hex := ToHex(codePoints);
      TypeHex(raw, hex);
    }
  }
}

/**
 * The function and navigation keys the terminal key map can bind: their
 * integer raw values, their display labels, and the mapping from Carbon
 * virtual key codes.
 */
module TerminalKey {
  import opened Wrappers

  /** The bindable keys, in declaration order (which fixes the raw values 0 to 33). */
  datatype Key =
    | F1 | F2 | F3 | F4 | F5 | F6 | F7 | F8 | F9 | F10
    | F11 | F12 | F13 | F14 | F15 | F16 | F17 | F18 | F19 | F20
    | Left | Right | Up | Down | Home | End | PageUp | PageDown
    | ForwardDelete | Delete
    | KeypadClear | KeypadDivide | KeypadMultiply | KeypadEquals

  /** `Key.allCases`. */
  const AllCases: seq<Key> := [
    F1, F2, F3, F4, F5, F6, F7, F8, F9, F10,
    F11, F12, F13, F14, F15, F16, F17, F18, F19, F20,
    Left, Right, Up, Down, Home, End, PageUp, PageDown,
    ForwardDelete, Delete,
    KeypadClear, KeypadDivide, KeypadMultiply, KeypadEquals
  ]

  /** The implicit `Int` raw value of a case: its position in the declaration. */
  function RawValue(k: Key): (n: nat)
    ensures n < 34
  {
    match k
    case F1 => 0 case F2 => 1 case F3 => 2 case F4 => 3 case F5 => 4
    case F6 => 5 case F7 => 6 case F8 => 7 case F9 => 8 case F10 => 9
    case F11 => 10 case F12 => 11 case F13 => 12 case F14 => 13 case F15 => 14
    case F16 => 15 case F17 => 16 case F18 => 17 case F19 => 18 case F20 => 19
    case Left => 20 case Right => 21 case Up => 22 case Down => 23
    case Home => 24 case End => 25 case PageUp => 26 case PageDown => 27
    case ForwardDelete => 28 case Delete => 29
    case KeypadClear => 30 case KeypadDivide => 31 case KeypadMultiply => 32
    case KeypadEquals => 33
  }

  lemma AllCasesInOrderLow(k: Key)
    requires RawValue(k) < 12
    ensures |AllCases| == 34 && AllCases[RawValue(k)] == k
  {
    match k
    case F1 => case F2 => case F3 => case F4 => case F5 => case F6 =>
    case F7 => case F8 => case F9 => case F10 => case F11 => case F12 =>
    case _ =>
  }

  lemma AllCasesInOrderMid(k: Key)
    requires 12 <= RawValue(k) < 24
    ensures |AllCases| == 34 && AllCases[RawValue(k)] == k
  {
    match k
    case F13 => case F14 => case F15 => case F16 => case F17 => case F18 =>
    case F19 => case F20 => case Left => case Right => case Up => case Down =>
    case _ =>
  }

  lemma AllCasesInOrderHigh(k: Key)
    requires 24 <= RawValue(k)
    ensures |AllCases| == 34 && AllCases[RawValue(k)] == k
  {
    match k
    case Home => case End => case PageUp => case PageDown => case ForwardDelete => case Delete =>
    case KeypadClear => case KeypadDivide => case KeypadMultiply => case KeypadEquals =>
    case _ =>
  }

  /** `allCases` lists the cases in raw-value order. */
  lemma AllCasesInOrder(k: Key)
    ensures |AllCases| == 34 && AllCases[RawValue(k)] == k
  {
    if RawValue(k) < 12 {
      AllCasesInOrderLow(k);
    } else if RawValue(k) < 24 {
      AllCasesInOrderMid(k);
    } else {
      AllCasesInOrderHigh(k);
    }
  }

  /** `Key(rawValue:)`: the case with that raw value, or nil outside 0 to 33. */
  function FromRawValue(n: int): Option<Key>
  {
    match n
    case 0 => Some(F1) case 1 => Some(F2) case 2 => Some(F3) case 3 => Some(F4)
    case 4 => Some(F5) case 5 => Some(F6) case 6 => Some(F7) case 7 => Some(F8)
    case 8 => Some(F9) case 9 => Some(F10) case 10 => Some(F11) case 11 => Some(F12)
    case 12 => Some(F13) case 13 => Some(F14) case 14 => Some(F15) case 15 => Some(F16)
    case 16 => Some(F17) case 17 => Some(F18) case 18 => Some(F19) case 19 => Some(F20)
    case 20 => Some(Left) case 21 => Some(Right) case 22 => Some(Up) case 23 => Some(Down)
    case 24 => Some(Home) case 25 => Some(End) case 26 => Some(PageUp) case 27 => Some(PageDown)
    case 28 => Some(ForwardDelete) case 29 => Some(Delete) case 30 => Some(KeypadClear) case 31 => Some(KeypadDivide)
    case 32 => Some(KeypadMultiply) case 33 => Some(KeypadEquals)
    case _ => None
  }

  lemma RawValueThenFromLow(k: Key)
    requires RawValue(k) < 12
    ensures FromRawValue(RawValue(k)) == Some(k)
  {
    match k
    case F1 => case F2 => case F3 => case F4 => case F5 => case F6 =>
    case F7 => case F8 => case F9 => case F10 => case F11 => case F12 =>
    case _ =>
  }

  lemma RawValueThenFromMid(k: Key)
    requires 12 <= RawValue(k) < 24
    ensures FromRawValue(RawValue(k)) == Some(k)
  {
    match k
    case F13 => case F14 => case F15 => case F16 => case F17 => case F18 =>
    case F19 => case F20 => case Left => case Right => case Up => case Down =>
    case _ =>
  }

  lemma RawValueThenFromHigh(k: Key)
    requires 24 <= RawValue(k)
    ensures FromRawValue(RawValue(k)) == Some(k)
  {
    match k
    case Home => case End => case PageUp => case PageDown => case ForwardDelete => case Delete =>
    case KeypadClear => case KeypadDivide => case KeypadMultiply => case KeypadEquals =>
    case _ =>
  }

  lemma RawValueThenFrom(k: Key)
    ensures FromRawValue(RawValue(k)) == Some(k)
  {
    if RawValue(k) < 12 {
      RawValueThenFromLow(k);
    } else if RawValue(k) < 24 {
      RawValueThenFromMid(k);
    } else {
      RawValueThenFromHigh(k);
    }
  }

  lemma FromRawValueBlock1(n: int)
    requires n < 7
    ensures FromRawValue(n).Some? <==> 0 <= n
    ensures FromRawValue(n).Some? ==> RawValue(FromRawValue(n).value) == n
  {
    match n
    case 0 => case 1 => case 2 => case 3 => case 4 => case 5 => case 6 =>
    case _ =>
  }

  lemma FromRawValueBlock2(n: int)
    requires 7 <= n < 14
    ensures FromRawValue(n).Some? && RawValue(FromRawValue(n).value) == n
  {
    match n
    case 7 => case 8 => case 9 => case 10 => case 11 => case 12 => case 13 =>
    case _ =>
  }

  lemma FromRawValueBlock3(n: int)
    requires 14 <= n < 20
    ensures FromRawValue(n).Some? && RawValue(FromRawValue(n).value) == n
  {
    match n
    case 14 => case 15 => case 16 => case 17 => case 18 => case 19 =>
    case _ =>
  }

  lemma FromRawValueBlock4(n: int)
    requires 20 <= n < 25
    ensures FromRawValue(n).Some? && RawValue(FromRawValue(n).value) == n
  {
    match n
    case 20 => case 21 => case 22 => case 23 => case 24 =>
    case _ =>
  }

  lemma FromRawValueBlock5(n: int)
    requires 25 <= n < 30
    ensures FromRawValue(n).Some? && RawValue(FromRawValue(n).value) == n
  {
    match n
    case 25 => case 26 => case 27 => case 28 => case 29 =>
    case _ =>
  }

  lemma FromRawValueBlock6(n: int)
    requires 30 <= n
    ensures FromRawValue(n).Some? <==> n < 34
    ensures FromRawValue(n).Some? ==> RawValue(FromRawValue(n).value) == n
  {
    match n
    case 30 => case 31 => case 32 => case 33 =>
    case _ =>
  }

  lemma FromThenRawValue(n: int)
    ensures FromRawValue(n).Some? <==> 0 <= n < 34
    ensures FromRawValue(n).Some? ==> RawValue(FromRawValue(n).value) == n
  {
    if n < 7 {
      FromRawValueBlock1(n);
    } else if n < 14 {
      FromRawValueBlock2(n);
    } else if n < 20 {
      FromRawValueBlock3(n);
    } else if n < 25 {
      FromRawValueBlock4(n);
    } else if n < 30 {
      FromRawValueBlock5(n);
    } else {
      FromRawValueBlock6(n);
    }
  }

  /** Raw values and cases are in one-to-one correspondence over 0 to 33. */
  lemma RawValueRoundTrip(k: Key, n: int)
    ensures FromRawValue(RawValue(k)) == Some(k)
    ensures FromRawValue(n).Some? <==> 0 <= n < 34
    ensures FromRawValue(n) == Some(k) ==> RawValue(k) == n
  {
    RawValueThenFrom(k);
    FromThenRawValue(n);
  }

  // ---------------------------------------------------------------------------
  // Labels

  /** The label shown for a key in the settings list. */
  function Label(k: Key): string
  {
    match k
    case F1 => "F1" case F2 => "F2" case F3 => "F3" case F4 => "F4" case F5 => "F5"
    case F6 => "F6" case F7 => "F7" case F8 => "F8" case F9 => "F9" case F10 => "F10"
    case F11 => "F11" case F12 => "F12" case F13 => "F13" case F14 => "F14" case F15 => "F15"
    case F16 => "F16" case F17 => "F17" case F18 => "F18" case F19 => "F19" case F20 => "F20"
    case Left => "\U{2190} Left"
    case Right => "\U{2192} Right"
    case Up => "\U{2191} Up"
    case Down => "\U{2193} Down"
    case Home => "\U{2196}\U{FE0E} Home"
    case End => "\U{2198}\U{FE0E} End"
    case PageUp => "\U{21DE} Page Up"
    case PageDown => "\U{21DF} Page Down"
    case ForwardDelete => "\U{2326} Forward Delete"
    case Delete => "\U{232B} Delete"
    case KeypadClear => "Numeric Keypad Clear"
    case KeypadDivide => "Numeric Keypad /"
    case KeypadMultiply => "Numeric Keypad *"
    case KeypadEquals => "Numeric Keypad ="
  }

  /** Reads a key back from its label. */
  function FromLabel(s: string): Option<Key>
  {
    if |s| == 0 then None
    else if s[0] == 'F' then
      if s == "F1" then Some(F1) else if s == "F2" then Some(F2) else if s == "F3" then Some(F3)
      else if s == "F4" then Some(F4) else if s == "F5" then Some(F5) else if s == "F6" then Some(F6)
      else if s == "F7" then Some(F7) else if s == "F8" then Some(F8) else if s == "F9" then Some(F9)
      else if s == "F10" then Some(F10) else if s == "F11" then Some(F11) else if s == "F12" then Some(F12)
      else if s == "F13" then Some(F13) else if s == "F14" then Some(F14) else if s == "F15" then Some(F15)
      else if s == "F16" then Some(F16) else if s == "F17" then Some(F17) else if s == "F18" then Some(F18)
      else if s == "F19" then Some(F19) else if s == "F20" then Some(F20) else None
    else if s[0] == 'N' then
      if s == "Numeric Keypad Clear" then Some(KeypadClear)
      else if s == "Numeric Keypad /" then Some(KeypadDivide)
      else if s == "Numeric Keypad *" then Some(KeypadMultiply)
      else if s == "Numeric Keypad =" then Some(KeypadEquals)
      else None
    else if s == "\U{2190} Left" then Some(Left)
    else if s == "\U{2192} Right" then Some(Right)
    else if s == "\U{2191} Up" then Some(Up)
    else if s == "\U{2193} Down" then Some(Down)
    else if s == "\U{2196}\U{FE0E} Home" then Some(Home)
    else if s == "\U{2198}\U{FE0E} End" then Some(End)
    else if s == "\U{21DE} Page Up" then Some(PageUp)
    else if s == "\U{21DF} Page Down" then Some(PageDown)
    else if s == "\U{2326} Forward Delete" then Some(ForwardDelete)
    else if s == "\U{232B} Delete" then Some(Delete)
    else None
  }

  lemma LabelRoundTripLow(k: Key)
    requires RawValue(k) < 12
    ensures FromLabel(Label(k)) == Some(k)
  {
    match k
    case F1 => case F2 => case F3 => case F4 => case F5 => case F6 =>
    case F7 => case F8 => case F9 => case F10 => case F11 => case F12 =>
    case _ =>
  }

  lemma LabelRoundTripMid(k: Key)
    requires 12 <= RawValue(k) < 24
    ensures FromLabel(Label(k)) == Some(k)
  {
    match k
    case F13 => case F14 => case F15 => case F16 => case F17 => case F18 =>
    case F19 => case F20 => case Left => case Right => case Up => case Down =>
    case _ =>
  }

  lemma LabelRoundTripHigh(k: Key)
    requires 24 <= RawValue(k)
    ensures FromLabel(Label(k)) == Some(k)
  {
    match k
    case Home => case End => case PageUp => case PageDown => case ForwardDelete => case Delete =>
    case KeypadClear => case KeypadDivide => case KeypadMultiply => case KeypadEquals =>
    case _ =>
  }

  /** Every label reads back as its key, so no two keys share a label. */
  lemma LabelRoundTrip(k: Key)
    ensures FromLabel(Label(k)) == Some(k)
  {
    if RawValue(k) < 12 {
      LabelRoundTripLow(k);
    } else if RawValue(k) < 24 {
      LabelRoundTripMid(k);
    } else {
      LabelRoundTripHigh(k);
    }
  }

  lemma LabelInjective(a: Key, b: Key)
    requires Label(a) == Label(b)
    ensures a == b
  {
    LabelRoundTrip(a);
    LabelRoundTrip(b);
  }

  /** No label starts with a space or with one of the modifier symbols ⌃ ⌥ ⇧. */
  lemma LabelHead(k: Key)
    ensures |Label(k)| >= 2
    ensures Label(k)[0] !in {' ', '\U{2303}', '\U{2325}', '\U{21E7}'}
  {
  }

  // ---------------------------------------------------------------------------
  // Carbon virtual key codes (Carbon.HIToolbox, Events.h)

  const kVK_F1: int := 0x7A
  const kVK_F2: int := 0x78
  const kVK_F3: int := 0x63
  const kVK_F4: int := 0x76
  const kVK_F5: int := 0x60
  const kVK_F6: int := 0x61
  const kVK_F7: int := 0x62
  const kVK_F8: int := 0x64
  const kVK_F9: int := 0x65
  const kVK_F10: int := 0x6D
  const kVK_F11: int := 0x67
  const kVK_F12: int := 0x6F
  const kVK_F13: int := 0x69
  const kVK_F14: int := 0x6B
  const kVK_F15: int := 0x71
  const kVK_F16: int := 0x6A
  const kVK_F17: int := 0x40
  const kVK_F18: int := 0x4F
  const kVK_F19: int := 0x50
  const kVK_F20: int := 0x5A
  const kVK_LeftArrow: int := 0x7B
  const kVK_RightArrow: int := 0x7C
  const kVK_DownArrow: int := 0x7D
  const kVK_UpArrow: int := 0x7E
  const kVK_Home: int := 0x73
  const kVK_End: int := 0x77
  const kVK_PageUp: int := 0x74
  const kVK_PageDown: int := 0x79
  const kVK_ForwardDelete: int := 0x75
  const kVK_Delete: int := 0x33
  const kVK_ANSI_KeypadClear: int := 0x47
  const kVK_ANSI_KeypadDivide: int := 0x4B
  const kVK_ANSI_KeypadMultiply: int := 0x43
  const kVK_ANSI_KeypadEquals: int := 0x51

  /** `Key(keyCode:)`: the key a key-down event's code stands for, or nil for any other key. */
  function FromKeyCode(code: int): Option<Key>
  {
    if code == kVK_F1 then Some(F1)
    else if code == kVK_F2 then Some(F2)
    else if code == kVK_F3 then Some(F3)
    else if code == kVK_F4 then Some(F4)
    else if code == kVK_F5 then Some(F5)
    else if code == kVK_F6 then Some(F6)
    else if code == kVK_F7 then Some(F7)
    else if code == kVK_F8 then Some(F8)
    else if code == kVK_F9 then Some(F9)
    else if code == kVK_F10 then Some(F10)
    else if code == kVK_F11 then Some(F11)
    else if code == kVK_F12 then Some(F12)
    else if code == kVK_F13 then Some(F13)
    else if code == kVK_F14 then Some(F14)
    else if code == kVK_F15 then Some(F15)
    else if code == kVK_F16 then Some(F16)
    else if code == kVK_F17 then Some(F17)
    else if code == kVK_F18 then Some(F18)
    else if code == kVK_F19 then Some(F19)
    else if code == kVK_F20 then Some(F20)
    else if code == kVK_LeftArrow then Some(Left)
    else if code == kVK_RightArrow then Some(Right)
    else if code == kVK_DownArrow then Some(Down)
    else if code == kVK_UpArrow then Some(Up)
    else if code == kVK_Home then Some(Home)
    else if code == kVK_End then Some(End)
    else if code == kVK_PageUp then Some(PageUp)
    else if code == kVK_PageDown then Some(PageDown)
    else if code == kVK_ForwardDelete then Some(ForwardDelete)
    else if code == kVK_Delete then Some(Delete)
    else if code == kVK_ANSI_KeypadClear then Some(KeypadClear)
    else if code == kVK_ANSI_KeypadDivide then Some(KeypadDivide)
    else if code == kVK_ANSI_KeypadMultiply then Some(KeypadMultiply)
    else if code == kVK_ANSI_KeypadEquals then Some(KeypadEquals)
    else None
  }

  /** The one virtual key code that produces each key (an independent table). */
  function KeyCode(k: Key): int
  {
    match k
    case F1 => 0x7A case F2 => 0x78 case F3 => 0x63 case F4 => 0x76 case F5 => 0x60
    case F6 => 0x61 case F7 => 0x62 case F8 => 0x64 case F9 => 0x65 case F10 => 0x6D
    case F11 => 0x67 case F12 => 0x6F case F13 => 0x69 case F14 => 0x6B case F15 => 0x71
    case F16 => 0x6A case F17 => 0x40 case F18 => 0x4F case F19 => 0x50 case F20 => 0x5A
    case Left => 0x7B case Right => 0x7C case Up => 0x7E case Down => 0x7D
    case Home => 0x73 case End => 0x77 case PageUp => 0x74 case PageDown => 0x79
    case ForwardDelete => 0x75 case Delete => 0x33
    case KeypadClear => 0x47 case KeypadDivide => 0x4B case KeypadMultiply => 0x43
    case KeypadEquals => 0x51
  }

  lemma KeyCodeInverseLow(k: Key, code: int)
    requires RawValue(k) < 12
    ensures FromKeyCode(KeyCode(k)) == Some(k)
    ensures FromKeyCode(code) == Some(k) ==> code == KeyCode(k)
  {
    match k
    case F1 => case F2 => case F3 => case F4 => case F5 => case F6 =>
    case F7 => case F8 => case F9 => case F10 => case F11 => case F12 =>
    case _ =>
  }

  lemma KeyCodeInverseMid(k: Key, code: int)
    requires 12 <= RawValue(k) < 24
    ensures FromKeyCode(KeyCode(k)) == Some(k)
    ensures FromKeyCode(code) == Some(k) ==> code == KeyCode(k)
  {
    match k
    case F13 => case F14 => case F15 => case F16 => case F17 => case F18 =>
    case F19 => case F20 => case Left => case Right => case Up => case Down =>
    case _ =>
  }

  lemma KeyCodeInverseHigh(k: Key, code: int)
    requires 24 <= RawValue(k)
    ensures FromKeyCode(KeyCode(k)) == Some(k)
    ensures FromKeyCode(code) == Some(k) ==> code == KeyCode(k)
  {
    match k
    case Home => case End => case PageUp => case PageDown => case ForwardDelete => case Delete =>
    case KeypadClear => case KeypadDivide => case KeypadMultiply => case KeypadEquals =>
    case _ =>
  }

  lemma KeyCodeInverse(k: Key, code: int)
    ensures FromKeyCode(KeyCode(k)) == Some(k)
    ensures FromKeyCode(code) == Some(k) ==> code == KeyCode(k)
  {
    if RawValue(k) < 12 {
      KeyCodeInverseLow(k, code);
    } else if RawValue(k) < 24 {
      KeyCodeInverseMid(k, code);
    } else {
      KeyCodeInverseHigh(k, code);
    }
  }

  /**
   * Every key is reachable from exactly one key code, and a code that is
   * not one of the 34 yields nil.
   */
  lemma KeyCodeRoundTrip(k: Key, code: int)
    ensures FromKeyCode(KeyCode(k)) == Some(k)
    ensures FromKeyCode(code) == Some(k) ==> code == KeyCode(k)
    ensures FromKeyCode(code).None? <==> forall j :: 0 <= j < |AllCases| ==> KeyCode(AllCases[j]) != code
  {
    KeyCodeInverse(k, code);
    if FromKeyCode(code).Some? {
      var found := FromKeyCode(code).value;
      KeyCodeInverse(found, code);
      var j := RawValue(found);
      AllCasesInOrder(found);
      assert KeyCode(AllCases[j]) == code;
    } else {
      forall j | 0 <= j < |AllCases|
        ensures KeyCode(AllCases[j]) != code
      {
        KeyCodeInverse(AllCases[j], code);
      }
    }
  }

  /** The backspace key (Delete) and the forward-delete key are distinct codes and distinct keys. */
  lemma DeleteKeysExample()
    ensures FromKeyCode(0x33) == Some(Delete)
    ensures FromKeyCode(0x75) == Some(ForwardDelete)
    ensures FromKeyCode(0x00).None?
  {
  }
}

/**
 * Key translation of the macOS driver (QHotkeyPrivateMac::nativeKeycode):
 * a fixed table for the well-known non-printable keys, and otherwise a scan of
 * the active keyboard layout for the key that types the requested character.
 */
module Keys {
  import opened Options

  /** The Qt keys the fixed table lists, in the table's order. */
  datatype NamedKey =
    | KeyReturn | KeyEnter | KeyTab | KeySpace | KeyBackspace | KeyEscape
    | KeyCapsLock | KeyOption | KeyF17 | KeyVolumeUp | KeyVolumeDown
    | KeyF18 | KeyF19 | KeyF20 | KeyF5 | KeyF6 | KeyF7 | KeyF3 | KeyF8
    | KeyF9 | KeyF11 | KeyF13 | KeyF16 | KeyF14 | KeyF10 | KeyF12 | KeyF15
    | KeyHelp | KeyHome | KeyPageUp | KeyDelete | KeyF4 | KeyEnd | KeyF2
    | KeyPageDown | KeyF1 | KeyLeft | KeyRight | KeyDown | KeyUp

  /** The Qt::Key enumeration value of each listed key. */
  function QtKeyValue(k: NamedKey): int
  {
    match k
    case KeyReturn => 0x0100_0004
    case KeyEnter => 0x0100_0005
    case KeyTab => 0x0100_0001
    case KeySpace => 0x20
    case KeyBackspace => 0x0100_0003
    case KeyEscape => 0x0100_0000
    case KeyCapsLock => 0x0100_0024
    case KeyOption => 0x0100_00E1
    case KeyF17 => 0x0100_0040
    case KeyVolumeUp => 0x0100_0072
    case KeyVolumeDown => 0x0100_0070
    case KeyF18 => 0x0100_0041
    case KeyF19 => 0x0100_0042
    case KeyF20 => 0x0100_0043
    case KeyF5 => 0x0100_0034
    case KeyF6 => 0x0100_0035
    case KeyF7 => 0x0100_0036
    case KeyF3 => 0x0100_0032
    case KeyF8 => 0x0100_0037
    case KeyF9 => 0x0100_0038
    case KeyF11 => 0x0100_003A
    case KeyF13 => 0x0100_003C
    case KeyF16 => 0x0100_003F
    case KeyF14 => 0x0100_003D
    case KeyF10 => 0x0100_0039
    case KeyF12 => 0x0100_003B
    case KeyF15 => 0x0100_003E
    case KeyHelp => 0x0100_0058
    case KeyHome => 0x0100_0010
    case KeyPageUp => 0x0100_0016
    case KeyDelete => 0x0100_0007
    case KeyF4 => 0x0100_0033
    case KeyEnd => 0x0100_0011
    case KeyF2 => 0x0100_0031
    case KeyPageDown => 0x0100_0017
    case KeyF1 => 0x0100_0030
    case KeyLeft => 0x0100_0012
    case KeyRight => 0x0100_0014
    case KeyDown => 0x0100_0015
    case KeyUp => 0x0100_0013
  }

  /** The cases of nativeKeycode's switch: the listed key a Qt::Key value names, if any. */
  function ListedKey(keycode: int): (r: Option<NamedKey>)
    ensures r.Some? ==> QtKeyValue(r.value) == keycode
  {
    if keycode == 0x0100_0004 then Some(KeyReturn)
    else if keycode == 0x0100_0005 then Some(KeyEnter)
    else if keycode == 0x0100_0001 then Some(KeyTab)
    else if keycode == 0x20 then Some(KeySpace)
    else if keycode == 0x0100_0003 then Some(KeyBackspace)
    else if keycode == 0x0100_0000 then Some(KeyEscape)
    else if keycode == 0x0100_0024 then Some(KeyCapsLock)
    else if keycode == 0x0100_00E1 then Some(KeyOption)
    else if keycode == 0x0100_0040 then Some(KeyF17)
    else if keycode == 0x0100_0072 then Some(KeyVolumeUp)
    else if keycode == 0x0100_0070 then Some(KeyVolumeDown)
    else if keycode == 0x0100_0041 then Some(KeyF18)
    else if keycode == 0x0100_0042 then Some(KeyF19)
    else if keycode == 0x0100_0043 then Some(KeyF20)
    else if keycode == 0x0100_0034 then Some(KeyF5)
    else if keycode == 0x0100_0035 then Some(KeyF6)
    else if keycode == 0x0100_0036 then Some(KeyF7)
    else if keycode == 0x0100_0032 then Some(KeyF3)
    else if keycode == 0x0100_0037 then Some(KeyF8)
    else if keycode == 0x0100_0038 then Some(KeyF9)
    else if keycode == 0x0100_003A then Some(KeyF11)
    else if keycode == 0x0100_003C then Some(KeyF13)
    else if keycode == 0x0100_003F then Some(KeyF16)
    else if keycode == 0x0100_003D then Some(KeyF14)
    else if keycode == 0x0100_0039 then Some(KeyF10)
    else if keycode == 0x0100_003B then Some(KeyF12)
    else if keycode == 0x0100_003E then Some(KeyF15)
    else if keycode == 0x0100_0058 then Some(KeyHelp)
    else if keycode == 0x0100_0010 then Some(KeyHome)
    else if keycode == 0x0100_0016 then Some(KeyPageUp)
    else if keycode == 0x0100_0007 then Some(KeyDelete)
    else if keycode == 0x0100_0033 then Some(KeyF4)
    else if keycode == 0x0100_0011 then Some(KeyEnd)
    else if keycode == 0x0100_0031 then Some(KeyF2)
    else if keycode == 0x0100_0017 then Some(KeyPageDown)
    else if keycode == 0x0100_0030 then Some(KeyF1)
    else if keycode == 0x0100_0012 then Some(KeyLeft)
    else if keycode == 0x0100_0014 then Some(KeyRight)
    else if keycode == 0x0100_0015 then Some(KeyDown)
    else if keycode == 0x0100_0013 then Some(KeyUp)
    else None
  }

  /** Every listed key is found by the switch under its own Qt value. */
  lemma ListedKeyRoundTrip(k: NamedKey)
    ensures ListedKey(QtKeyValue(k)) == Some(k)
  {
  }

  /**
   * The fixed table: the macOS virtual key code (Carbon's kVK_* constants)
   * of each listed key. Every code is a 7-bit key code.
   */
  function VirtualKeyCode(k: NamedKey): (code: nat)
    ensures code < 0x80
  {
    match k
    case KeyReturn => 0x24      // kVK_Return
    case KeyEnter => 0x4C       // kVK_ANSI_KeypadEnter
    case KeyTab => 0x30         // kVK_Tab
    case KeySpace => 0x31       // kVK_Space
    case KeyBackspace => 0x33   // kVK_Delete
    case KeyEscape => 0x35      // kVK_Escape
    case KeyCapsLock => 0x39    // kVK_CapsLock
    case KeyOption => 0x3A      // kVK_Option
    case KeyF17 => 0x40
    case KeyVolumeUp => 0x48
    case KeyVolumeDown => 0x49
    case KeyF18 => 0x4F
    case KeyF19 => 0x50
    case KeyF20 => 0x5A
    case KeyF5 => 0x60
    case KeyF6 => 0x61
    case KeyF7 => 0x62
    case KeyF3 => 0x63
    case KeyF8 => 0x64
    case KeyF9 => 0x65
    case KeyF11 => 0x67
    case KeyF13 => 0x69
    case KeyF16 => 0x6A
    case KeyF14 => 0x6B
    case KeyF10 => 0x6D
    case KeyF12 => 0x6F
    case KeyF15 => 0x71
    case KeyHelp => 0x72
    case KeyHome => 0x73
    case KeyPageUp => 0x74
    case KeyDelete => 0x75      // kVK_ForwardDelete
    case KeyF4 => 0x76
    case KeyEnd => 0x77
    case KeyF2 => 0x78
    case KeyPageDown => 0x79
    case KeyF1 => 0x7A
    case KeyLeft => 0x7B        // kVK_LeftArrow
    case KeyRight => 0x7C       // kVK_RightArrow
    case KeyDown => 0x7D        // kVK_DownArrow
    case KeyUp => 0x7E          // kVK_UpArrow
  }

  /** Reads the fixed table backwards: the listed key with a given code. */
  function NamedKeyOf(code: nat): Option<NamedKey>
  {
    if code == 0x24 then Some(KeyReturn)
    else if code == 0x4C then Some(KeyEnter)
    else if code == 0x30 then Some(KeyTab)
    else if code == 0x31 then Some(KeySpace)
    else if code == 0x33 then Some(KeyBackspace)
    else if code == 0x35 then Some(KeyEscape)
    else if code == 0x39 then Some(KeyCapsLock)
    else if code == 0x3A then Some(KeyOption)
    else if code == 0x40 then Some(KeyF17)
    else if code == 0x48 then Some(KeyVolumeUp)
    else if code == 0x49 then Some(KeyVolumeDown)
    else if code == 0x4F then Some(KeyF18)
    else if code == 0x50 then Some(KeyF19)
    else if code == 0x5A then Some(KeyF20)
    else if code == 0x60 then Some(KeyF5)
    else if code == 0x61 then Some(KeyF6)
    else if code == 0x62 then Some(KeyF7)
    else if code == 0x63 then Some(KeyF3)
    else if code == 0x64 then Some(KeyF8)
    else if code == 0x65 then Some(KeyF9)
    else if code == 0x67 then Some(KeyF11)
    else if code == 0x69 then Some(KeyF13)
    else if code == 0x6A then Some(KeyF16)
    else if code == 0x6B then Some(KeyF14)
    else if code == 0x6D then Some(KeyF10)
    else if code == 0x6F then Some(KeyF12)
    else if code == 0x71 then Some(KeyF15)
    else if code == 0x72 then Some(KeyHelp)
    else if code == 0x73 then Some(KeyHome)
    else if code == 0x74 then Some(KeyPageUp)
    else if code == 0x75 then Some(KeyDelete)
    else if code == 0x76 then Some(KeyF4)
    else if code == 0x77 then Some(KeyEnd)
    else if code == 0x78 then Some(KeyF2)
    else if code == 0x79 then Some(KeyPageDown)
    else if code == 0x7A then Some(KeyF1)
    else if code == 0x7B then Some(KeyLeft)
    else if code == 0x7C then Some(KeyRight)
    else if code == 0x7D then Some(KeyDown)
    else if code == 0x7E then Some(KeyUp)
    else None
  }

  /** Reading the table backwards recovers the key. */
  lemma TableRoundTrip(k: NamedKey)
    ensures NamedKeyOf(VirtualKeyCode(k)) == Some(k)
  {
  }

  /** Only a key's own table code reads back as that key. */
  lemma TableReverseRoundTrip(code: nat, k: NamedKey)
    requires NamedKeyOf(code) == Some(k)
    ensures VirtualKeyCode(k) == code
  {
  }

  /** No two listed keys share a native code. */
  lemma TableInjective(k1: NamedKey, k2: NamedKey)
    ensures VirtualKeyCode(k1) == VirtualKeyCode(k2) ==> k1 == k2
  {
    TableRoundTrip(k1);
    TableRoundTrip(k2);
  }

  // ---------------------------------------------------------------------
  // The keyboard-layout fallback, over an abstract view of the OS layout.

  /** A UTF-16 code unit. */
  type Utf16Char = c: nat | c < 0x1_0000

  /**
   * One 16-bit output entry of a key-to-character table, as the scan treats
   * it: a lookup of a state record by its index, a plain character the key
   * types, or an entry the scan cannot use. Which entries are which is the
   * caller's classification of the raw 16-bit values.
   */
  datatype KeyOutput = StateIndex(index: nat) | Character(ch: Utf16Char) | Unusable

  /**
   * One keyboard-type record of the layout: where its state-record index
   * lives (offset 0 meaning none) and whether that index has the expected
   * format, the state-zero character of each state record, whether its
   * key-to-character table index has the expected format, and its
   * key-to-character tables (entry k of a table belongs to key code k).
   */
  datatype KeyboardType = KeyboardType(
    stateRecordsIndexOffset: nat,
    stateRecordsIndexFormatOk: bool,
    stateZeroChars: seq<Utf16Char>,
    charTableIndexFormatOk: bool,
    charTables: seq<seq<KeyOutput>>)

  type Layout = seq<KeyboardType>

  /**
   * What the OS gives when asked for the current ASCII-capable keyboard
   * layout: no input source, an input source without layout data, or data.
   */
  datatype LayoutSource = NoKeyboard | NoLayoutData | LayoutData(layout: Layout)

  /** The state records of a keyboard type are used only when present and well-formed. */
  predicate HasStateRecords(t: KeyboardType)
  {
    t.stateRecordsIndexOffset != 0 && t.stateRecordsIndexFormatOk
  }

  /** An output entry types `ch` in state zero. */
  predicate OutputTypes(t: KeyboardType, o: KeyOutput, ch: Utf16Char)
  {
    match o
    case StateIndex(idx) => HasStateRecords(t) && idx < |t.stateZeroChars| && t.stateZeroChars[idx] == ch
    case Character(c) => c == ch
    case Unusable => false
  }

  /** Entry k of table j of keyboard type i exists, is scanned, and types `ch`. */
  predicate Hit(l: Layout, ch: Utf16Char, i: int, j: int, k: int)
  {
    && 0 <= i < |l|
    && l[i].charTableIndexFormatOk
    && 0 <= j < |l[i].charTables|
    && 0 <= k < |l[i].charTables[j]|
    && OutputTypes(l[i], l[i].charTables[j][k], ch)
  }

  /** (i', j', k') comes strictly before (i, j, k) in scan order. */
  predicate Before(i': int, j': int, k': int, i: int, j: int, k: int)
  {
    i' < i || (i' == i && (j' < j || (j' == j && k' < k)))
  }

  /** No entry scanned before (i, j, k) types `ch`. */
  ghost predicate NoHitBefore(l: Layout, ch: Utf16Char, i: int, j: int, k: int)
  {
    forall i', j', k' :: Before(i', j', k', i, j, k) ==> !Hit(l, ch, i', j', k')
  }

  /** `code` is the key code of the first entry in scan order that types `ch`. */
  ghost predicate FirstHit(l: Layout, ch: Utf16Char, code: nat)
  {
    exists i, j :: Hit(l, ch, i, j, code) && NoHitBefore(l, ch, i, j, code)
  }

  /** No scanned entry of the layout types `ch`. */
  ghost predicate NoHit(l: Layout, ch: Utf16Char)
  {
    forall i, j, k :: !Hit(l, ch, i, j, k)
  }

  /** The first hit, when there is one, is unique: the scan's answer is determined by the layout. */
  lemma FirstHitUnique(l: Layout, ch: Utf16Char, c1: nat, c2: nat)
    requires FirstHit(l, ch, c1) && FirstHit(l, ch, c2)
    ensures c1 == c2
  {
    var i1, j1 :| Hit(l, ch, i1, j1, c1) && NoHitBefore(l, ch, i1, j1, c1);
    var i2, j2 :| Hit(l, ch, i2, j2, c2) && NoHitBefore(l, ch, i2, j2, c2);
    assert !Before(i1, j1, c1, i2, j2, c2);
    assert !Before(i2, j2, c2, i1, j1, c1);
  }

  /** A first hit and no hit at all exclude each other. */
  lemma FirstHitExcludesNoHit(l: Layout, ch: Utf16Char, code: nat)
    requires FirstHit(l, ch, code)
    ensures !NoHit(l, ch)
  {
    var i, j :| Hit(l, ch, i, j, code) && NoHitBefore(l, ch, i, j, code);
  }

  /**
   * The triple loop of the layout fallback: keyboard types in order, skipping
   * one whose table index has the wrong format, then its tables, then the
   * entries of each table; the first entry that types `ch` gives its key code.
   */
  method ScanLayout(l: Layout, ch: Utf16Char) returns (code: nat, ok: bool)
    ensures ok ==> FirstHit(l, ch, code)
    ensures !ok ==> code == 0 && NoHit(l, ch)
  {
    var i := 0;
    while i < |l|
      invariant 0 <= i <= |l|
      invariant forall i', j', k' :: i' < i ==> !Hit(l, ch, i', j', k')
    {
      var t := l[i];
      if t.charTableIndexFormatOk {
        var j := 0;
        while j < |t.charTables|
          invariant 0 <= j <= |t.charTables|
          invariant forall j', k' :: j' < j ==> !Hit(l, ch, i, j', k')
        {
          var table := t.charTables[j];
          var k := 0;
          while k < |table|
            invariant 0 <= k <= |table|
            invariant forall k' :: k' < k ==> !Hit(l, ch, i, j, k')
          {
            if OutputTypes(t, table[k], ch) {
              assert Hit(l, ch, i, j, k) && NoHitBefore(l, ch, i, j, k);
              return k, true;
            }
            k := k + 1;
          }
          j := j + 1;
        }
      }
      i := i + 1;
    }
    return 0, false;
  }

  /** The UTF-16 code unit a Qt::Key value is converted to (kept modulo 2^16). */
  function Utf16Of(value: int): (ch: Utf16Char)
    ensures 0 <= value < 0x1_0000 ==> ch == value
    ensures (value - ch) % 0x1_0000 == 0
  {
    value % 0x1_0000
  }

  /**
   * QHotkeyPrivateMac::nativeKeycode: a listed key gets its table code; any
   * other key is looked up in the current layout, failing with code 0 when
   * the OS gives no layout data or no entry types the key's character.
   */
  method NativeKeycode(keycode: int, source: LayoutSource) returns (code: nat, ok: bool)
    ensures ListedKey(keycode).Some? ==> ok && code == VirtualKeyCode(ListedKey(keycode).value)
    ensures ListedKey(keycode).None? && !source.LayoutData? ==> !ok && code == 0
    ensures ListedKey(keycode).None? && source.LayoutData? && ok ==>
      FirstHit(source.layout, Utf16Of(keycode), code)
    ensures ListedKey(keycode).None? && source.LayoutData? && !ok ==>
      code == 0 && NoHit(source.layout, Utf16Of(keycode))
  {
    match ListedKey(keycode)
    case Some(k) =>
      return VirtualKeyCode(k), true;
    case None =>
      var ch := Utf16Of(keycode);
      match source
      case NoKeyboard =>
        return 0, false;
      case NoLayoutData =>
        return 0, false;
      case LayoutData(l) =>
        code, ok := ScanLayout(l, ch);
  }

  /**
   * Keys above the 16-bit range are truncated before the layout is scanned:
   * Key_Print is not listed, and the layout is asked for U+0009, the tab
   * character, so the answer is the key that types a tab.
   */
  lemma PrintKeyScansForTab()
    ensures ListedKey(0x0100_0009) == None
    ensures Utf16Of(0x0100_0009) == 0x0009
  {
  }
}

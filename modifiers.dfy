/**
 * Modifier translation of the macOS driver: Qt's keyboard-modifier flags are
 * turned into the native (Carbon) modifier mask stored in a shortcut, and the
 * flag word of an intercepted key event is turned into the same mask so that
 * the two can be compared.
 *
 * The bit values below are those of Qt's Qt::KeyboardModifier, Carbon's
 * Events.h and CoreGraphics' CGEventFlags. Nothing proved here depends on
 * which bits they are, only on each being a single bit distinct from the
 * others of its word.
 */
module Modifiers {

  // Qt::KeyboardModifier flags.
  const ShiftModifier: bv32 := 0x0200_0000
  const ControlModifier: bv32 := 0x0400_0000
  const AltModifier: bv32 := 0x0800_0000
  const MetaModifier: bv32 := 0x1000_0000
  const KeypadModifier: bv32 := 0x2000_0000

  // Native (Carbon) modifier bits, as stored in a native shortcut.
  const CmdKey: bv32 := 0x0100
  const ShiftKey: bv32 := 0x0200
  const OptionKey: bv32 := 0x0800
  const ControlKey: bv32 := 0x1000
  const NumLockMask: bv32 := 0x1_0000

  /** The native bits an intercepted event can ever contribute. */
  const EventModifierBits: bv32 := ShiftKey | CmdKey | OptionKey | ControlKey

  /** Every native bit the translation from Qt modifiers can produce. */
  const NativeModifierBits: bv32 := EventModifierBits | NumLockMask

  // CGEventFlags bits of an intercepted event (a 64-bit flag word).
  const FlagMaskShift: bv64 := 0x2_0000
  const FlagMaskControl: bv64 := 0x4_0000
  const FlagMaskAlternate: bv64 := 0x8_0000
  const FlagMaskCommand: bv64 := 0x10_0000

  /** `m` with `bit` or-ed in when `c` holds. */
  function SetIf(m: bv32, c: bool, bit: bv32): bv32
  {
    if c then m | bit else m
  }

  /**
   * QHotkeyPrivateMac::nativeModifiers: each recognised Qt modifier sets
   * exactly one native bit, unrecognised ones are ignored, and the
   * translation always reports success.
   */
  function NativeModifiers(modifiers: bv32): (r: (bv32, bool))
    ensures r.1
    ensures ((r.0 & ShiftKey) != 0) <==> ((modifiers & ShiftModifier) != 0)
    ensures ((r.0 & ControlKey) != 0) <==> ((modifiers & ControlModifier) != 0)
    ensures ((r.0 & OptionKey) != 0) <==> ((modifiers & AltModifier) != 0)
    ensures ((r.0 & CmdKey) != 0) <==> ((modifiers & MetaModifier) != 0)
    ensures ((r.0 & NumLockMask) != 0) <==> ((modifiers & KeypadModifier) != 0)
    ensures (r.0 & !NativeModifierBits) == 0
  {
    var m := SetIf(0, (modifiers & ShiftModifier) != 0, ShiftKey);
    var m := SetIf(m, (modifiers & ControlModifier) != 0, ControlKey);
    var m := SetIf(m, (modifiers & AltModifier) != 0, OptionKey);
    var m := SetIf(m, (modifiers & MetaModifier) != 0, CmdKey);
    var m := SetIf(m, (modifiers & KeypadModifier) != 0, NumLockMask);
    (m, true)
  }

  /**
   * The mask matchesShortcut builds from an event's flag word: the shift,
   * command, option and control flags each give their native bit, and every
   * other flag of the word is ignored.
   */
  function EventModifiers(flags: bv64): (m: bv32)
    ensures ((m & ShiftKey) != 0) <==> ((flags & FlagMaskShift) != 0)
    ensures ((m & CmdKey) != 0) <==> ((flags & FlagMaskCommand) != 0)
    ensures ((m & OptionKey) != 0) <==> ((flags & FlagMaskAlternate) != 0)
    ensures ((m & ControlKey) != 0) <==> ((flags & FlagMaskControl) != 0)
    ensures (m & !EventModifierBits) == 0
  {
    var m := SetIf(0, (flags & FlagMaskShift) != 0, ShiftKey);
    var m := SetIf(m, (flags & FlagMaskCommand) != 0, CmdKey);
    var m := SetIf(m, (flags & FlagMaskAlternate) != 0, OptionKey);
    SetIf(m, (flags & FlagMaskControl) != 0, ControlKey)
  }

  /** Flag bits other than the four modifier flags never change the mask. */
  lemma EventModifiersIgnoreOtherFlags(f: bv64, g: bv64)
    requires (f & (FlagMaskShift | FlagMaskControl | FlagMaskAlternate | FlagMaskCommand))
          == (g & (FlagMaskShift | FlagMaskControl | FlagMaskAlternate | FlagMaskCommand))
    ensures EventModifiers(f) == EventModifiers(g)
  {
    assert (f & FlagMaskShift) == (g & FlagMaskShift);
    assert (f & FlagMaskControl) == (g & FlagMaskControl);
    assert (f & FlagMaskAlternate) == (g & FlagMaskAlternate);
    assert (f & FlagMaskCommand) == (g & FlagMaskCommand);
  }

  /**
   * A shortcut translated from Qt modifiers that include the keypad modifier
   * carries the num-lock bit, which no event mask ever has: such a mask
   * equals no event's mask.
   */
  lemma KeypadMaskMatchesNoEvent(modifiers: bv32, flags: bv64)
    requires (modifiers & KeypadModifier) != 0
    ensures NativeModifiers(modifiers).0 != EventModifiers(flags)
  {
    var n := NativeModifiers(modifiers).0;
    var e := EventModifiers(flags);
    assert (n & NumLockMask) != 0;
    assert (e & NumLockMask) == 0 by {
      assert (e & !EventModifierBits) == 0;
    }
  }

  /**
   * Without the keypad modifier, the translation from Qt modifiers and the
   * translation of event flags agree bit for bit: a Qt modifier set and an
   * event produce the same mask exactly when each of shift, control, alt/option
   * and meta/command is present in both or in neither.
   */
  lemma MasksAgree(modifiers: bv32, flags: bv64)
    requires (modifiers & KeypadModifier) == 0
    ensures NativeModifiers(modifiers).0 == EventModifiers(flags) <==>
      && (((modifiers & ShiftModifier) != 0) <==> ((flags & FlagMaskShift) != 0))
      && (((modifiers & ControlModifier) != 0) <==> ((flags & FlagMaskControl) != 0))
      && (((modifiers & AltModifier) != 0) <==> ((flags & FlagMaskAlternate) != 0))
      && (((modifiers & MetaModifier) != 0) <==> ((flags & FlagMaskCommand) != 0))
  {
    var n := NativeModifiers(modifiers).0;
    var e := EventModifiers(flags);
    assert (n & !EventModifierBits) == 0;
    assert (e & !EventModifierBits) == 0;
  }
}

/**
 * Native shortcuts, the per-shortcut runtime record, intercepted key events,
 * and what the event-tap callback does to the registry for one event
 * (QHotkeyPrivateMac::eventTapCallback and matchesShortcut).
 */
module Shortcuts {
  import opened Modifiers
  import opened Options

  /**
   * A native shortcut: a key code, a native modifier mask, and the validity
   * flag the shortcut carries. The equality of the datatype (all three parts
   * equal) is the shortcut's equality as a registry key.
   */
  datatype NativeShortcut = NativeShortcut(key: nat, modifier: bv32, valid: bool)

  /** A registered shortcut and whether it is currently held down. */
  datatype HotkeyInfo = HotkeyInfo(shortcut: NativeShortcut, isPressed: bool)

  type Registry = map<NativeShortcut, HotkeyInfo>

  /** The kinds of event the tap delivers; `OtherEvent` stands for any further kind. */
  datatype EventType = KeyDown | KeyUp | FlagsChanged | OtherEvent

  /**
   * An intercepted event: the integer value of its keyboard key-code field
   * and its flag word.
   */
  datatype KeyEvent = KeyEvent(keycodeField: int, flags: bv64)

  datatype Signal = Activated | Released

  /** A notification raised on a registered shortcut. */
  datatype Notification = Notification(signal: Signal, shortcut: NativeShortcut)

  /** The event's key code, after the cast of the field value to a 16-bit key code. */
  function EventKeyCode(e: KeyEvent): (code: nat)
    ensures code < 0x1_0000
    ensures 0 <= e.keycodeField < 0x1_0000 ==> code == e.keycodeField
    ensures (e.keycodeField - code) % 0x1_0000 == 0
  {
    e.keycodeField % 0x1_0000
  }

  /**
   * matchesShortcut: exact equality of key code and of the event's modifier
   * mask. So a shortcut matches exactly when its key is the event's 16-bit
   * key code, its mask has no bit beyond the four modifiers, and each of the
   * four is in the mask exactly when its flag is set in the event.
   */
  predicate Matches(e: KeyEvent, s: NativeShortcut): (r: bool)
    ensures r <==>
      && s.key == EventKeyCode(e)
      && (s.modifier & !EventModifierBits) == 0
      && (((s.modifier & ShiftKey) != 0) <==> ((e.flags & FlagMaskShift) != 0))
      && (((s.modifier & CmdKey) != 0) <==> ((e.flags & FlagMaskCommand) != 0))
      && (((s.modifier & OptionKey) != 0) <==> ((e.flags & FlagMaskAlternate) != 0))
      && (((s.modifier & ControlKey) != 0) <==> ((e.flags & FlagMaskControl) != 0))
  {
    EventKeyCode(e) == s.key && EventModifiers(e.flags) == s.modifier
  }

  /** The one valid shortcut an event can match. */
  function Target(e: KeyEvent): NativeShortcut
  {
    NativeShortcut(EventKeyCode(e), EventModifiers(e.flags), true)
  }

  /** A valid shortcut matches an event exactly when it is the event's target. */
  lemma MatchesIffTarget(e: KeyEvent, s: NativeShortcut)
    requires s.valid
    ensures Matches(e, s) <==> s == Target(e)
  {
  }

  /** A shortcut whose mask has the num-lock bit can never match an event. */
  lemma NumLockShortcutNeverMatches(e: KeyEvent, s: NativeShortcut)
    requires (s.modifier & NumLockMask) != 0
    ensures !Matches(e, s)
  {
    assert (EventModifiers(e.flags) & !EventModifierBits) == 0;
  }

  /** Two events match the same shortcuts when their key codes and four modifier flags agree. */
  lemma MatchingIgnoresOtherFlags(e1: KeyEvent, e2: KeyEvent, s: NativeShortcut)
    requires EventKeyCode(e1) == EventKeyCode(e2)
    requires (e1.flags & (FlagMaskShift | FlagMaskControl | FlagMaskAlternate | FlagMaskCommand))
          == (e2.flags & (FlagMaskShift | FlagMaskControl | FlagMaskAlternate | FlagMaskCommand))
    ensures Matches(e1, s) <==> Matches(e2, s)
  {
    EventModifiersIgnoreOtherFlags(e1.flags, e2.flags);
  }

  /**
   * What one matching event does to one registry entry: a key-down on a
   * released entry presses it and activates, a key-up on a pressed entry
   * releases it, and anything else (auto-repeat downs, stray ups, other
   * event kinds) changes nothing and signals nothing.
   */
  function Respond(info: HotkeyInfo, t: EventType): (r: (HotkeyInfo, Option<Signal>))
    ensures r.0.shortcut == info.shortcut
    ensures r.1.Some? <==> r.0.isPressed != info.isPressed
    ensures r.1 == Some(Activated) <==> (t == KeyDown && !info.isPressed)
    ensures r.1 == Some(Released) <==> (t == KeyUp && info.isPressed)
  {
    if t == KeyDown && !info.isPressed then (info.(isPressed := true), Some(Activated))
    else if t == KeyUp && info.isPressed then (info.(isPressed := false), Some(Released))
    else (info, None)
  }

  /** Every registered shortcut is valid and recorded under its own key. */
  ghost predicate RegistryValid(reg: Registry)
  {
    forall s :: s in reg ==> s.valid && reg[s].shortcut == s
  }

  /** The notifications one registry entry raises for an event. */
  function EntrySignals(reg: Registry, s: NativeShortcut, t: EventType, e: KeyEvent): seq<Notification>
    requires s in reg
  {
    if (t == KeyDown || t == KeyUp) && Matches(e, s) then
      var sig := Respond(reg[s], t).1;
      if sig.Some? then [Notification(sig.value, s)] else []
    else []
  }

  /**
   * The effect of the callback on the registry for one event: every entry
   * that matches responds to the event, and the notifications are those of the
   * event's target entry, the only one that can match.
   */
  function Dispatch(reg: Registry, t: EventType, e: KeyEvent): (r: (Registry, seq<Notification>))
    requires RegistryValid(reg)
    ensures RegistryValid(r.0)
    ensures r.0.Keys == reg.Keys
    ensures forall s :: s in reg ==>
      r.0[s] == if (t == KeyDown || t == KeyUp) && Matches(e, s) then Respond(reg[s], t).0 else reg[s]
    ensures Target(e) in reg ==> r.1 == EntrySignals(reg, Target(e), t, e)
    ensures Target(e) !in reg ==> r.1 == [] && r.0 == reg
    ensures |r.1| <= 1
  {
    var target := Target(e);
    if (t == KeyDown || t == KeyUp) && target in reg then
      var (info, sig) := Respond(reg[target], t);
      (reg[target := info], if sig.Some? then [Notification(sig.value, target)] else [])
    else
      (reg, [])
  }
}

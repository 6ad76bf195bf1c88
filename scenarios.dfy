/**
 * Clients of the driver: what a caller can conclude from the driver's
 * contracts alone, for the F3 scenario, for a missing permission, and for a
 * run-loop source the OS does not create.
 */
module Scenarios {
  import opened Shortcuts
  import opened EventTap
  import opened MacDriver

  /** Register F3 (a second registration fails), then press it. */
  method PressF3()
  {
    var d := new HotkeyDriverMac(SetupEnv(true, true, true));
    assert d.eventTap && d.runLoopSource;
    var f3 := NativeShortcut(0x63, 0, true);
    var ok := d.RegisterShortcut(f3, true, SetupEnv(true, true, true));
    assert ok;
    var again := d.RegisterShortcut(f3, true, SetupEnv(true, true, true));
    assert !again && d.error == ErrAlreadyRegistered;
    HoldF3(d, f3);
  }

  /** Press registered F3, then let it auto-repeat and release it. */
  method HoldF3(d: HotkeyDriverMac, f3: NativeShortcut)
    requires d.Valid() && d.instance && d.notifications == []
    requires f3 == NativeShortcut(0x63, 0, true) && f3 in d.registeredHotkeys && !d.registeredHotkeys[f3].isPressed
    modifies d
  {
    var e := KeyEvent(0x63, 0);
    assert Target(e) == f3;
    var out := d.EventTapCallback(KeyDown, e);
    assert out == e && d.notifications == [Notification(Activated, f3)];
    RepeatF3(d, f3);
  }

  /** An auto-repeated key-down of pressed F3 raises nothing; then it is released. */
  method RepeatF3(d: HotkeyDriverMac, f3: NativeShortcut)
    requires d.Valid() && d.instance && d.notifications == [Notification(Activated, f3)]
    requires f3 == NativeShortcut(0x63, 0, true) && f3 in d.registeredHotkeys && d.registeredHotkeys[f3].isPressed
    modifies d
  {
    var e := KeyEvent(0x63, 0);
    assert Target(e) == f3;
    assert EntrySignals(d.registeredHotkeys, f3, KeyDown, e) == [];
    var out := d.EventTapCallback(KeyDown, e);
    assert d.notifications == [Notification(Activated, f3)] && d.registeredHotkeys[f3].isPressed;
    ReleaseF3(d, f3);
  }

  /** The key-up of pressed F3 releases it. */
  method ReleaseF3(d: HotkeyDriverMac, f3: NativeShortcut)
    requires d.Valid() && d.instance && d.notifications == [Notification(Activated, f3)]
    requires f3 == NativeShortcut(0x63, 0, true) && f3 in d.registeredHotkeys && d.registeredHotkeys[f3].isPressed
    modifies d
  {
    var e := KeyEvent(0x63, 0);
    assert Target(e) == f3;
    assert EntrySignals(d.registeredHotkeys, f3, KeyUp, e) == [Notification(Released, f3)];
    var out := d.EventTapCallback(KeyUp, e);
    assert d.notifications == [Notification(Activated, f3), Notification(Released, f3)];
  }

  /** Without accessibility trust registration fails and the registry stays empty. */
  method Untrusted()
  {
    var d := new HotkeyDriverMac(SetupEnv(true, false, false));
    assert !d.eventTap;
    var f3 := NativeShortcut(0x63, 0, true);
    var ok := d.RegisterShortcut(f3, false, SetupEnv(true, true, true));
    assert !ok && d.error == ErrNoPermission && d.registeredHotkeys == map[] && !d.eventTap;
  }

  /**
   * The OS creates the tap but not its run-loop source: the tap handle stays
   * set, so a later registration succeeds although the tap was never
   * attached to a run loop nor enabled.
   */
  method SourceNotCreated()
  {
    var d := new HotkeyDriverMac(SetupEnv(true, true, false));
    assert d.eventTap && !d.runLoopSource;
    assert AddSource !in d.osCalls && EnableTap !in d.osCalls;
    var f3 := NativeShortcut(0x63, 0, true);
    var ok := d.RegisterShortcut(f3, true, SetupEnv(true, true, true));
    assert ok && !d.runLoopSource;
  }
}

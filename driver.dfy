/**
 * The macOS platform driver (QHotkeyPrivateMac): the process-wide registry
 * of native shortcuts, the two event-tap handles, the registration API and
 * the event-tap callback.
 *
 * One object holds what the driver keeps in static members. Notifications to
 * the shortcut objects (activateShortcut, releaseShortcut) are appended to
 * `notifications`; the OS calls the driver makes are appended to `osCalls`,
 * and the outcome of each OS query is a parameter of the method that makes it.
 */
module MacDriver {
  import opened Shortcuts
  import opened EventTap
  import Traces

  const ErrInvalidShortcut := "Invalid shortcut"
  const ErrAlreadyRegistered := "Shortcut already registered"
  const ErrNoPermission := "Accessibility permissions not granted"
  const ErrNoEventTap := "Failed to create event tap"
  const ErrNotRegistered := "Shortcut not registered"

  /**
   * Each registered shortcut `s` was registered when the notification log
   * had length `since[s]`; the signals raised on `s` since then alternate,
   * starting with an activation, and `s` is pressed exactly when an odd
   * number of them has been raised.
   */
  ghost predicate SignalsConsistent(reg: Registry, since: map<NativeShortcut, nat>, log: seq<Notification>)
  {
    && since.Keys == reg.Keys
    && forall s :: s in reg ==>
        && since[s] <= |log|
        && Traces.AlternatingFrom(false, Traces.SignalsOf(s, log[since[s]..]))
        && (reg[s].isPressed <==> |Traces.SignalsOf(s, log[since[s]..])| % 2 == 1)
  }

  /** One callback, appending what it raises to the log, keeps the signals of every registration consistent. */
  lemma CallbackKeepsSignals(reg: Registry, since: map<NativeShortcut, nat>, log: seq<Notification>, t: EventType, e: KeyEvent)
    requires RegistryValid(reg) && SignalsConsistent(reg, since, log)
    ensures SignalsConsistent(Dispatch(reg, t, e).0, since, log + Dispatch(reg, t, e).1)
  {
    var r := Dispatch(reg, t, e);
    var log' := log + r.1;
    forall s | s in r.0
      ensures && since[s] <= |log'|
              && Traces.AlternatingFrom(false, Traces.SignalsOf(s, log'[since[s]..]))
              && (r.0[s].isPressed <==> |Traces.SignalsOf(s, log'[since[s]..])| % 2 == 1)
    {
      var before := log[since[s]..];
      assert log'[since[s]..] == before + r.1;
      Traces.SignalsOfAppend(s, before, r.1);
      Traces.DispatchOn(reg, t, e, s);
      Traces.AlternatingSnoc(reg[s].isPressed, r.0[s].isPressed, Traces.SignalsOf(s, before), Traces.SignalsOf(s, r.1));
    }
  }

  /** Registering a new shortcut, released, at the current end of the log keeps the signals consistent. */
  lemma InsertKeepsSignals(reg: Registry, since: map<NativeShortcut, nat>, log: seq<Notification>, s: NativeShortcut)
    requires SignalsConsistent(reg, since, log) && s !in reg
    ensures SignalsConsistent(reg[s := HotkeyInfo(s, false)], since[s := |log|], log)
  {
    assert log[|log|..] == [];
  }

  class HotkeyDriverMac {
    var registeredHotkeys: Registry
    var eventTap: bool
    var runLoopSource: bool
    /** Whether the static instance pointer is set (between construction and destruction). */
    var instance: bool
    var error: string
    var notifications: seq<Notification>
    var osCalls: seq<OsCall>

    /** For each registered shortcut, the length of `notifications` when it was registered. */
    ghost var since: map<NativeShortcut, nat>

    function Tap(): TapState
      reads this
    {
      TapState(eventTap, runLoopSource)
    }

    /**
     * The driver's invariant: registered shortcuts are valid and stored under
     * their own key, a run-loop source exists only with a tap, and the
     * notifications sent for each registered shortcut since its registration
     * alternate starting with an activation, the shortcut being pressed
     * exactly after an activation not yet followed by its release.
     */
    ghost predicate Valid()
      reads this
    {
      && RegistryValid(registeredHotkeys)
      && TapWf(Tap())
      && SignalsConsistent(registeredHotkeys, since, notifications)
    }

    /**
     * The driver's constructor at process start: it sets the instance,
     * queries the accessibility trust (only warning when it is missing) and
     * sets up the event tap.
     */
    constructor (env: SetupEnv)
      ensures Valid()
      ensures instance && registeredHotkeys == map[] && notifications == [] && error == ""
      ensures Tap() == Setup(TapState(false, false), env).0
      ensures osCalls == [CheckTrust] + Setup(TapState(false, false), env).1
    {
      registeredHotkeys := map[];
      eventTap := false;
      runLoopSource := false;
      error := "";
      notifications := [];
      since := map[];
      instance := true;
      osCalls := [CheckTrust];
      new;
      SetupEventTap(env);
    }

    /** The destructor: tear down the tap, then clear the instance. */
    method Destroy()
      requires Valid()
      modifies this
      ensures Valid()
      ensures !instance
      ensures Tap() == Cleanup(old(Tap())).0
      ensures osCalls == old(osCalls) + Cleanup(old(Tap())).1
      ensures registeredHotkeys == old(registeredHotkeys) && notifications == old(notifications)
      ensures error == old(error)
    {
      CleanupEventTap();
      instance := false;
    }

    /** setupEventTap: a no-op with a tap present; otherwise a GUI check, then tap, source, attach and enable. */
    method SetupEventTap(env: SetupEnv)
      requires Valid()
      modifies this
      ensures Valid()
      ensures Tap() == Setup(old(Tap()), env).0
      ensures osCalls == old(osCalls) + Setup(old(Tap()), env).1
      ensures registeredHotkeys == old(registeredHotkeys) && since == old(since)
      ensures notifications == old(notifications) && instance == old(instance) && error == old(error)
    {
      if eventTap {
        return;
      }
      if !env.guiApp {
        return;
      }
      osCalls := osCalls + [CreateTap];
      eventTap := env.tapCreated;
      if !eventTap {
        return;
      }
      osCalls := osCalls + [CreateSource];
      runLoopSource := env.sourceCreated;
      if !runLoopSource {
        return;
      }
      osCalls := osCalls + [AddSource];
      osCalls := osCalls + [EnableTap];
    }

    /** cleanupEventTap: release the source if there is one, then the tap if there is one. */
    method CleanupEventTap()
      requires Valid()
      modifies this
      ensures Valid()
      ensures Tap() == Cleanup(old(Tap())).0
      ensures osCalls == old(osCalls) + Cleanup(old(Tap())).1
      ensures registeredHotkeys == old(registeredHotkeys) && since == old(since)
      ensures notifications == old(notifications) && instance == old(instance) && error == old(error)
    {
      if runLoopSource {
        osCalls := osCalls + [RemoveSource, ReleaseSource];
        runLoopSource := false;
      }
      if eventTap {
        osCalls := osCalls + [DisableTap, ReleaseTap];
        eventTap := false;
      }
    }

    /**
     * registerShortcut. The checks run in order: validity, duplicate,
     * accessibility trust (`trusted` is the answer of the query; when it is
     * false the prompt is requested), tap availability (setting the tap up
     * if there is none). Only when all pass is the shortcut inserted,
     * released.
     */
    method RegisterShortcut(s: NativeShortcut, trusted: bool, env: SetupEnv) returns (ok: bool)
      requires Valid()
      modifies this
      ensures Valid()
      ensures notifications == old(notifications) && instance == old(instance)
      // invalid shortcut: fails, nothing else happens
      ensures !s.valid ==>
        && !ok && error == ErrInvalidShortcut
        && registeredHotkeys == old(registeredHotkeys) && Tap() == old(Tap()) && osCalls == old(osCalls)
      // already registered: fails, the existing entry (and its pressed flag) is kept
      ensures s.valid && s in old(registeredHotkeys) ==>
        && !ok && error == ErrAlreadyRegistered
        && registeredHotkeys == old(registeredHotkeys) && Tap() == old(Tap()) && osCalls == old(osCalls)
      // no trust: fails closed after prompting, no tap setup is attempted
      ensures s.valid && s !in old(registeredHotkeys) && !trusted ==>
        && !ok && error == ErrNoPermission
        && registeredHotkeys == old(registeredHotkeys) && Tap() == old(Tap())
        && osCalls == old(osCalls) + [CheckTrust, RequestTrust]
      // trusted: the tap is set up if needed; success exactly when a tap exists afterwards
      ensures s.valid && s !in old(registeredHotkeys) && trusted ==>
        && Tap() == Setup(old(Tap()), env).0
        && osCalls == old(osCalls) + [CheckTrust] + Setup(old(Tap()), env).1
        && ok == eventTap
        && (ok ==> registeredHotkeys == old(registeredHotkeys)[s := HotkeyInfo(s, false)] && error == old(error))
        && (!ok ==> registeredHotkeys == old(registeredHotkeys) && error == ErrNoEventTap)
      ensures ok ==> eventTap && s in registeredHotkeys && !registeredHotkeys[s].isPressed
    {
      if !s.valid {
        error := ErrInvalidShortcut;
        return false;
      }
      if s in registeredHotkeys {
        error := ErrAlreadyRegistered;
        return false;
      }
      osCalls := osCalls + [CheckTrust];
      if !trusted {
        error := ErrNoPermission;
        osCalls := osCalls + [RequestTrust];
        return false;
      }
      if !eventTap {
        SetupEventTap(env);
        if !eventTap {
          error := ErrNoEventTap;
          return false;
        }
      }
      InsertKeepsSignals(registeredHotkeys, since, notifications, s);
      registeredHotkeys := registeredHotkeys[s := HotkeyInfo(s, false)];
      since := since[s := |notifications|];
      return true;
    }

    /**
     * unregisterShortcut: fails when the shortcut is absent; otherwise
     * removes exactly that entry. The tap is kept, and no release is raised
     * even for a pressed shortcut.
     */
    method UnregisterShortcut(s: NativeShortcut) returns (ok: bool)
      requires Valid()
      modifies this
      ensures Valid()
      ensures ok <==> s in old(registeredHotkeys)
      ensures !ok ==> registeredHotkeys == old(registeredHotkeys) && error == ErrNotRegistered
      ensures ok ==> registeredHotkeys == old(registeredHotkeys) - {s} && error == old(error)
      ensures Tap() == old(Tap()) && osCalls == old(osCalls)
      ensures notifications == old(notifications) && instance == old(instance)
    {
      if s !in registeredHotkeys {
        error := ErrNotRegistered;
        return false;
      }
      registeredHotkeys := registeredHotkeys - {s};
      since := since - {s};
      return true;
    }

    /**
     * eventTapCallback. Without an instance it returns at once. For a key-down
     * or key-up every registry entry is scanned and each matching entry
     * responds. The event is returned unchanged.
     */
    method EventTapCallback(t: EventType, e: KeyEvent) returns (out: KeyEvent)
      requires Valid()
      modifies this
      ensures Valid()
      ensures out == e
      ensures !old(instance) ==> registeredHotkeys == old(registeredHotkeys) && notifications == old(notifications)
      ensures old(instance) ==>
        && registeredHotkeys == Dispatch(old(registeredHotkeys), t, e).0
        && notifications == old(notifications) + Dispatch(old(registeredHotkeys), t, e).1
      ensures Tap() == old(Tap()) && osCalls == old(osCalls)
      ensures instance == old(instance) && error == old(error)
    {
      out := e;
      if !instance {
        return;
      }
      if t == KeyDown || t == KeyUp {
        CallbackKeepsSignals(registeredHotkeys, since, notifications, t, e);
        ScanRegistry(t, e);
      }
    }

    /**
     * The loop of eventTapCallback over the registry, visiting the entries
     * in whatever order the hash yields them: a matching key-down on a
     * released entry presses it and activates the shortcut, a matching key-up
     * on a pressed entry releases it and releases the shortcut.
     */
    method ScanRegistry(t: EventType, e: KeyEvent)
      requires RegistryValid(registeredHotkeys)
      requires t == KeyDown || t == KeyUp
      modifies this`registeredHotkeys, this`notifications
      ensures registeredHotkeys == Dispatch(old(registeredHotkeys), t, e).0
      ensures notifications == old(notifications) + Dispatch(old(registeredHotkeys), t, e).1
    {
      ghost var reg0 := registeredHotkeys;
      var remaining := registeredHotkeys.Keys;
      while remaining != {}
        invariant remaining <= reg0.Keys
        invariant registeredHotkeys.Keys == reg0.Keys
        invariant forall s :: s in reg0 ==>
          registeredHotkeys[s] == if s !in remaining && Matches(e, s) then Respond(reg0[s], t).0 else reg0[s]
        invariant notifications == old(notifications) +
          if Target(e) in reg0 && Target(e) !in remaining then EntrySignals(reg0, Target(e), t, e) else []
        decreases remaining
      {
        var s :| s in remaining;
        if Matches(e, s) {
          MatchesIffTarget(e, s);
          var info := registeredHotkeys[s];
          if t == KeyDown && !info.isPressed {
            registeredHotkeys := registeredHotkeys[s := info.(isPressed := true)];
            notifications := notifications + [Notification(Activated, s)];
          } else if t == KeyUp && info.isPressed {
            registeredHotkeys := registeredHotkeys[s := info.(isPressed := false)];
            notifications := notifications + [Notification(Released, s)];
          }
        }
        remaining := remaining - {s};
      }
      assert registeredHotkeys == Dispatch(reg0, t, e).0;
    }
  }
}

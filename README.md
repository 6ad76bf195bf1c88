# QHotkey macOS driver, modelled in Dafny

This project models the macOS platform driver of QHotkey
(`QHotkey/qhotkey_mac.cpp`). The driver registers global keyboard shortcuts
by installing a CoreGraphics event tap. It keeps a process-wide registry of
native shortcuts, matches every intercepted key-down and key-up against that
registry, and turns the hardware event stream into one activation per press
and one release per release.

The model has these modules:

- `Modifiers` (`modifiers.dfy`): translates Qt keyboard modifiers to the
  native Carbon mask (`nativeModifiers`). It also builds the mask the callback
  computes from an event's CGEventFlags word (`matchesShortcut`). Masks and
  flag words are bit-vectors (`bv32`, `bv64`).
- `Keys` (`keys.dfy`): key translation (`nativeKeycode`). It holds the fixed
  table of well-known keys and its reverse reading. It also holds the
  keyboard-layout fallback, a triple loop written as a method with loop
  invariants. That method is proved to return the first entry, in scan order,
  that types the requested character, or to fail when no entry does.
- `Shortcuts` (`shortcuts.dfy`): `NativeShortcut`, `HotkeyInfo`, intercepted
  events, exact matching, and the per-entry press/release response.
  `Dispatch` is the effect of one callback on the registry.
- `EventTap` (`eventtap.dfy`): the two handles (`eventTap`, `runLoopSource`)
  and the pure specification of `setupEventTap` and `cleanupEventTap`. The
  OS calls made are recorded in order.
- `MacDriver` (`driver.dfy`): the driver as a class. Its fields are the four
  static members (the registry map, the two handles and the instance
  pointer) plus the inherited error string. Two more fields log what goes
  out: the notifications sent to shortcut objects, and the OS calls made. The methods update these fields
  step by step, as the source does. A ghost map records, for each registered
  shortcut, how long the notification log was when it was registered. The
  class invariant states that the notifications sent for the shortcut since
  then alternate, starting with an activation, and that `isPressed` holds
  exactly after an activation that has not yet been followed by its release.
- `Traces` (`traces.dfy`): the callback over arbitrary sequences of events.
  It shows that signals alternate, that activations are bounded by matching
  key-downs, and that unmatched events are silent. It also covers two
  concrete cases. F3 pressed, auto-repeated and released gives one
  activation and one release (`Traces.F3Scenario`). Unregistering a pressed
  shortcut raises no release, so registering it again and pressing it gives
  two activations in a row (`Traces.ReRegisterWhilePressed`).
- `Scenarios` (`scenarios.dfy`): client methods that use only the driver's
  contracts.
- `Options` (`options.dfy`): the `Option` datatype.

OS queries are inputs to the methods that make them:

- accessibility trust is `trusted`;
- the GUI-application check, tap creation and run-loop-source creation are
  `SetupEnv`;
- the current keyboard layout is `LayoutSource`.

When the run-loop source cannot be created, `eventTap` stays non-null
(lines 173-177). A later `registerShortcut` then succeeds (lines 446-452),
although the tap was never attached to a run loop or enabled.
`EventTap.SourceFailureKeepsTap` and `Scenarios.SourceNotCreated` show this.

Shortcut equality is the datatype's equality on key, modifier mask and
validity flag. Only valid shortcuts ever enter the registry, so among
registered shortcuts two are equal exactly when their key and mask are equal.
It follows that at most one entry can match an event
(`Shortcuts.MatchesIffTarget`). So the hash's iteration order, which the scan
leaves arbitrary, cannot change the result.

## Model

| member | source | states |
|---|---|---|
| `Modifiers.NativeModifiers` | QHotkey/qhotkey_mac.cpp:407-422 | shift, control, alt and meta each set exactly their own Carbon bit (shift, control, option, command), keypad sets the num-lock bit, no other bit is ever set, and `ok` is always true |
| `Modifiers.EventModifiers` | QHotkey/qhotkey_mac.cpp:246-259 | the event mask has the shift/command/option/control bit exactly when the event's flag word has the matching CGEventFlags bit, and no other bit |
| `Modifiers.EventModifiersIgnoreOtherFlags` | QHotkey/qhotkey_mac.cpp:243-259 | two flag words that agree on the four modifier flags give the same mask, so every other flag is ignored |
| `Modifiers.KeypadMaskMatchesNoEvent` | QHotkey/qhotkey_mac.cpp:418-419 | a mask translated from Qt modifiers that include the keypad modifier differs from every event's mask |
| `Modifiers.MasksAgree` | QHotkey/qhotkey_mac.cpp:407-422 | without the keypad modifier, a Qt modifier set and an event give equal masks exactly when each of the four modifiers is present in both or in neither |
| `Keys.ListedKey` | QHotkey/qhotkey_mac.cpp:269-352 | the switch's 40 cases and its default: a value names a listed key only when it is that key's Qt::Key value, and every other value gives no key |
| `Keys.ListedKeyRoundTrip` | QHotkey/qhotkey_mac.cpp:269-349 | the switch recognises each of the 40 listed keys under its own Qt::Key value |
| `Keys.VirtualKeyCode` | QHotkey/qhotkey_mac.cpp:269-349 | the fixed table of 40 well-known keys; every code is a 7-bit virtual key code |
| `Keys.TableRoundTrip` | QHotkey/qhotkey_mac.cpp:269-349 | reading a listed key's table code backwards gives the key again |
| `Keys.TableReverseRoundTrip` | QHotkey/qhotkey_mac.cpp:269-349 | a code that reads back as a listed key is that key's table code |
| `Keys.TableInjective` | QHotkey/qhotkey_mac.cpp:269-349 | no two listed keys share a native key code |
| `Keys.FirstHitUnique` | QHotkey/qhotkey_mac.cpp:372-403 | the first entry in scan order that types a character is unique, so the layout determines the fallback's answer |
| `Keys.FirstHitExcludesNoHit` | QHotkey/qhotkey_mac.cpp:372-404 | a found answer and "no entry types the character" exclude each other |
| `Keys.ScanLayout` | QHotkey/qhotkey_mac.cpp:372-404 | on success the code is the index of the first entry that types the character, scanning keyboard types (skipping those whose table index has the wrong format), then their tables, then entries; a state-index entry counts only with present, well-formed state records and an index in range; on failure the code is 0 and no entry types the character |
| `Keys.NativeKeycode` | QHotkey/qhotkey_mac.cpp:265-405 | a Qt::Key value the switch lists gives that key's table code with `ok`; any other value gives 0 without `ok` when there is no keyboard source or no layout data; otherwise it gives the layout scan's answer for the key value truncated to a UTF-16 unit |
| `Keys.Utf16Of` | QHotkey/qhotkey_mac.cpp:355 | the conversion of a Qt::Key value to a UTF-16 code unit keeps it modulo 2^16: unchanged when it fits, and always congruent to it |
| `Keys.PrintKeyScansForTab` | QHotkey/qhotkey_mac.cpp:350-355 | Key_Print is not listed, and its value truncated to a UTF-16 unit is U+0009, so the layout is scanned for the key that types a tab |
| `Shortcuts.EventKeyCode` | QHotkey/qhotkey_mac.cpp:241 | the event's key code is the field value cast to a 16-bit key code: below 2^16, unchanged when it already fits, and always congruent to the field value modulo 2^16 |
| `Shortcuts.Matches` | QHotkey/qhotkey_mac.cpp:238-263 | an event matches a shortcut exactly when the shortcut's key is the event's 16-bit key code, its mask has no bit beyond the four modifiers, and each of shift, command, option and control is in the mask exactly when its flag is set in the event |
| `Shortcuts.MatchesIffTarget` | QHotkey/qhotkey_mac.cpp:238-263 | a valid shortcut matches an event exactly when its key is the event's key code and its mask is the event's mask |
| `Shortcuts.NumLockShortcutNeverMatches` | QHotkey/qhotkey_mac.cpp:246-262 | a shortcut whose mask has the num-lock bit matches no event |
| `Shortcuts.MatchingIgnoresOtherFlags` | QHotkey/qhotkey_mac.cpp:243-262 | events with the same key code and the same four modifier flags match the same shortcuts |
| `Shortcuts.Respond` | QHotkey/qhotkey_mac.cpp:224-230 | a signal is raised exactly when the pressed flag flips; an activation exactly for a key-down on a released entry; a release exactly for a key-up on a pressed entry; the shortcut is unchanged |
| `Shortcuts.Dispatch` | QHotkey/qhotkey_mac.cpp:220-233 | the registry keeps its keys and validity; each matching entry responds to a key-down or key-up and every other entry is unchanged; at most one notification, that of the event's own shortcut; an event whose shortcut is not registered changes nothing |
| `EventTap.Setup` | QHotkey/qhotkey_mac.cpp:135-185 | a no-op when a tap exists or the host is not a GUI application; otherwise a tap exists afterwards exactly when the OS created it, and then a source exactly when the OS created one; "a source only with a tap" is preserved |
| `EventTap.Cleanup` | QHotkey/qhotkey_mac.cpp:187-200 | both handles end null; the source is detached exactly when there was one, and the tap is released exactly when there was one |
| `EventTap.SetupIdempotent` | QHotkey/qhotkey_mac.cpp:137-140 | after a setup that produced a tap, further setups change nothing and make no OS call |
| `EventTap.SetupSuccessCalls` | QHotkey/qhotkey_mac.cpp:142-184 | when nothing fails, setup creates the tap and its source, attaches the source and enables the tap, in that order, leaving both handles set |
| `EventTap.SetupFailureLeavesNull` | QHotkey/qhotkey_mac.cpp:142-168 | a failed GUI check or tap creation leaves both handles null |
| `EventTap.SourceFailureKeepsTap` | QHotkey/qhotkey_mac.cpp:172-177 | when the source cannot be created the tap handle stays set, and the tap is neither attached nor enabled |
| `EventTap.CleanupIdempotent` | QHotkey/qhotkey_mac.cpp:187-200 | a second teardown finds nothing to release and leaves both handles null |
| `EventTap.CleanupOrder` | QHotkey/qhotkey_mac.cpp:189-199 | the source is detached and released before the tap is disabled and released |
| `MacDriver.CallbackKeepsSignals` | QHotkey/qhotkey_mac.cpp:220-233 | appending what one callback raises to the notification log keeps, for every registered shortcut, the notifications since its registration alternating from an activation, with the pressed flag true exactly after an unanswered activation |
| `MacDriver.HotkeyDriverMac.constructor` | QHotkey/qhotkey_mac.cpp:59-67 | sets the instance, queries trust (without failing), and leaves the handles as the tap setup specifies |
| `MacDriver.HotkeyDriverMac.Destroy` | QHotkey/qhotkey_mac.cpp:69-73 | tears the tap down as the cleanup specifies, clears the instance, and keeps the registry |
| `MacDriver.HotkeyDriverMac.SetupEventTap` | QHotkey/qhotkey_mac.cpp:135-185 | the handles and the OS calls are those of the setup specification; nothing else changes |
| `MacDriver.HotkeyDriverMac.CleanupEventTap` | QHotkey/qhotkey_mac.cpp:187-200 | the handles and the OS calls are those of the cleanup specification; nothing else changes |
| `MacDriver.HotkeyDriverMac.RegisterShortcut` | QHotkey/qhotkey_mac.cpp:424-457 | the checks run in order (invalid, already registered, no trust, no tap), each with its own error text; each failure leaves the registry unchanged; a duplicate keeps the existing entry; missing trust requests the prompt and attempts no tap setup; success inserts exactly the shortcut, released, and requires a tap afterwards |
| `MacDriver.HotkeyDriverMac.UnregisterShortcut` | QHotkey/qhotkey_mac.cpp:459-472 | fails with "Shortcut not registered" exactly when absent; otherwise removes exactly that key; never touches the handles and raises no release |
| `MacDriver.HotkeyDriverMac.EventTapCallback` | QHotkey/qhotkey_mac.cpp:202-236 | returns the event unchanged; without an instance it changes nothing; otherwise the registry and notifications follow `Dispatch`; the driver invariant is kept, so the notifications actually sent for each shortcut since its registration alternate from an activation |
| `MacDriver.HotkeyDriverMac.ScanRegistry` | QHotkey/qhotkey_mac.cpp:222-232 | the loop over all entries, in any order, leaves the registry and notifications as `Dispatch` specifies |
| `Traces.Run` | QHotkey/qhotkey_mac.cpp:202-236 | the callback applied to each event of a trace in turn: the registry keeps its keys and validity, and there are at most as many notifications as events |
| `Traces.RunAlternates` | QHotkey/qhotkey_mac.cpp:220-233 | over any event trace a registered shortcut's signals alternate starting from its initial state, and it ends pressed exactly when an odd number of signals flipped it |
| `Traces.FreshRegistrationAlternates` | QHotkey/qhotkey_mac.cpp:224-229 | a shortcut starting released is signalled activate, release, activate, and so on, beginning with an activation |
| `Traces.ActivationsBounded` | QHotkey/qhotkey_mac.cpp:224-226 | activations of a shortcut never outnumber the matching key-downs of the trace |
| `Traces.UnmatchedEventIsSilent` | QHotkey/qhotkey_mac.cpp:222-235 | an event that matches no registered shortcut changes nothing and raises nothing |
| `Traces.F3Scenario` | QHotkey/qhotkey_mac.cpp:220-233 | F3 without modifiers: key-down activates, a repeated key-down is suppressed, key-up releases |
| `Traces.ReRegisterWhilePressed` | QHotkey/qhotkey_mac.cpp:459-472 | unregistering a pressed shortcut raises no release, so re-registering and pressing it gives two activations in a row |

## Left out

- OS and CoreFoundation calls have no visible semantics here. The trust
  queries and the tap and source calls (creation, run-loop attachment,
  enabling, detaching, disabling, releasing) are recorded in `osCalls`, and
  the outcome of each is a parameter. Creating and releasing the options
  dictionary is part of `CheckTrust` and `RequestTrust`. The input-source
  query of `nativeKeycode` (copying the keyboard input source, reading its
  layout data, releasing it) is not logged: its answer is the `LayoutSource`
  parameter of `NativeKeycode`.
- The byte layout of `UCKeyboardLayout`. Keyboard types, state records and
  key-to-character tables are abstract sequences. Each 16-bit output entry is
  already classified as a state index (with its masked index), a plain
  character, or unusable, instead of being tested against the header masks.
  Each table's length stands for the shared `keyToCharTableSize`. The source
  tests an entry against both index bits at once, so it sends every entry
  with either bit set, sequence entries and the two reserved values included,
  to the state-record lookup. Which entries the model looks up as state
  records is part of that classification.
- The Carbon, CGEventFlags and Qt constants come from headers that are not
  part of this model. The header values are written out, but the proofs use
  only that each modifier is a distinct single bit. The `kVK_*` codes are
  only used as distinct table values. Qt keys are their Qt::Key enumeration
  values; the values of the 40 listed keys are written out.
- `NativeShortcut::isValid`, its equality and hash, `activateShortcut` and
  `releaseShortcut` are defined in files that are not part of this model.
  Validity is the shortcut's flag, and the two notifications are appends to
  `notifications`.
- Qt plumbing. `checkApplicationType` is reduced to `SetupEnv.guiApp`.
  Logging is left out. `nativeEventFilter` (always false) and
  `isPlatformSupported` (a bare trust query) have no logic beyond the OS call.
- The static members outlive any one driver object. The constructor models
  the first driver of a process, starting from an empty registry and null
  handles; a second driver object in the same process is not modelled.
- The demo program `test_autodetect_gui.cpp` only starts an event loop and a
  timer.
- Threads: none. Registration and the callback run on one thread, and each
  method call is atomic.

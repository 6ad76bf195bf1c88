/**
 * The event-tap lifecycle of the macOS driver (setupEventTap and
 * cleanupEventTap), stated over the two process-wide handles. The OS is
 * abstracted: each OS call it makes is recorded, and the outcome of each
 * call that can fail is an input.
 */
module EventTap {

  /**
   * The two handles; true means non-null. `eventTap` is the tap's Mach port,
   * `runLoopSource` the run-loop source wrapping it.
   */
  datatype TapState = TapState(eventTap: bool, runLoopSource: bool)

  /** The OS calls the driver makes, in the order it makes them. */
  datatype OsCall =
    | CheckTrust        // trust query without prompt
    | RequestTrust      // trust query with the permission prompt
    | CreateTap         // session tap at the head, for key-down, key-up and flags-changed
    | CreateSource      // run-loop source for the tap
    | AddSource         // attach the source to the current run loop, common modes
    | EnableTap         // enable the tap
    | RemoveSource      // detach the source from the current run loop
    | ReleaseSource
    | DisableTap
    | ReleaseTap

  /**
   * What setting up the tap would meet: whether the host is a GUI
   * application, whether the OS creates the tap, and whether it creates the
   * run-loop source.
   */
  datatype SetupEnv = SetupEnv(guiApp: bool, tapCreated: bool, sourceCreated: bool)

  /** A run-loop source only ever exists for an existing tap. */
  predicate TapWf(st: TapState)
  {
    st.runLoopSource ==> st.eventTap
  }

  /** The handles afterwards and the OS calls made, for setupEventTap. */
  function Setup(st: TapState, env: SetupEnv): (r: (TapState, seq<OsCall>))
    ensures TapWf(st) ==> TapWf(r.0)
    ensures st.eventTap ==> r == (st, [])
    ensures !st.eventTap ==> (r.0.eventTap <==> env.guiApp && env.tapCreated)
    ensures !st.eventTap && r.0.eventTap ==> (r.0.runLoopSource <==> env.sourceCreated)
    ensures !st.eventTap && !env.guiApp ==> r == (st, [])
  {
    if st.eventTap then (st, [])
    else if !env.guiApp then (st, [])
    else if !env.tapCreated then (st.(eventTap := false), [CreateTap])
    else if !env.sourceCreated then (TapState(true, false), [CreateTap, CreateSource])
    else (TapState(true, true), [CreateTap, CreateSource, AddSource, EnableTap])
  }

  /** The handles afterwards and the OS calls made, for cleanupEventTap. */
  function Cleanup(st: TapState): (r: (TapState, seq<OsCall>))
    ensures r.0 == TapState(false, false)
    ensures (RemoveSource in r.1) <==> st.runLoopSource
    ensures (ReleaseTap in r.1) <==> st.eventTap
  {
    (TapState(false, false),
     (if st.runLoopSource then [RemoveSource, ReleaseSource] else [])
     + (if st.eventTap then [DisableTap, ReleaseTap] else []))
  }

  /** Once setup has produced a tap, further setups change nothing and call nothing. */
  lemma SetupIdempotent(st: TapState, env1: SetupEnv, env2: SetupEnv)
    requires Setup(st, env1).0.eventTap
    ensures Setup(Setup(st, env1).0, env2) == (Setup(st, env1).0, [])
  {
  }

  /** A setup that meets no failure creates, attaches and enables the tap, in that order. */
  lemma SetupSuccessCalls(st: TapState, env: SetupEnv)
    requires !st.eventTap && env.guiApp && env.tapCreated && env.sourceCreated
    ensures Setup(st, env) == (TapState(true, true), [CreateTap, CreateSource, AddSource, EnableTap])
  {
  }

  /** A setup that fails before making a source leaves both handles null. */
  lemma SetupFailureLeavesNull(st: TapState, env: SetupEnv)
    requires TapWf(st) && !st.eventTap
    requires !env.guiApp || !env.tapCreated
    ensures Setup(st, env).0 == TapState(false, false)
  {
  }

  /**
   * When the run-loop source cannot be created, the tap handle stays set:
   * the tap exists but is neither attached to the run loop nor enabled.
   */
  lemma SourceFailureKeepsTap(st: TapState, env: SetupEnv)
    requires !st.eventTap && env.guiApp && env.tapCreated && !env.sourceCreated
    ensures Setup(st, env).0 == TapState(true, false)
    ensures AddSource !in Setup(st, env).1 && EnableTap !in Setup(st, env).1
  {
  }

  /** A second teardown finds nothing to release. */
  lemma CleanupIdempotent(st: TapState)
    ensures Cleanup(Cleanup(st).0) == (Cleanup(st).0, [])
  {
  }

  /** Teardown detaches and releases the source before it disables and releases the tap. */
  lemma CleanupOrder(st: TapState)
    requires st.eventTap && st.runLoopSource
    ensures Cleanup(st).1 == [RemoveSource, ReleaseSource, DisableTap, ReleaseTap]
  {
  }
}

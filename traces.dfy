/**
 * The callback over sequences of intercepted events: while the registry's
 * membership stays the same, each shortcut's activations and releases
 * strictly alternate, and it is never activated more often than a matching
 * key-down arrives.
 */
module Traces {
  import opened Modifiers
  import opened Shortcuts

  /** One delivery to the tap callback. */
  datatype TapEvent = TapEvent(kind: EventType, event: KeyEvent)

  /** The registry and the notifications after the callback has seen every event of `trace`. */
  function Run(reg: Registry, trace: seq<TapEvent>): (r: (Registry, seq<Notification>))
    requires RegistryValid(reg)
    ensures RegistryValid(r.0) && r.0.Keys == reg.Keys
    ensures |r.1| <= |trace|
    decreases |trace|
  {
    if trace == [] then (reg, [])
    else
      var step := Dispatch(reg, trace[0].kind, trace[0].event);
      var rest := Run(step.0, trace[1..]);
      (rest.0, step.1 + rest.1)
  }

  /** The signals raised on shortcut `s`, in order. */
  function SignalsOf(s: NativeShortcut, ns: seq<Notification>): seq<Signal>
  {
    if ns == [] then []
    else (if ns[0].shortcut == s then [ns[0].signal] else []) + SignalsOf(s, ns[1..])
  }

  lemma {:induction false} SignalsOfAppend(s: NativeShortcut, a: seq<Notification>, b: seq<Notification>)
    ensures SignalsOf(s, a + b) == SignalsOf(s, a) + SignalsOf(s, b)
  {
    if a != [] {
      assert (a + b)[1..] == a[1..] + b;
      SignalsOfAppend(s, a[1..], b);
    } else {
      assert a + b == b;
    }
  }

  /**
   * The signals alternate, starting with an activation when the shortcut
   * starts released and with a release when it starts pressed.
   */
  ghost predicate AlternatingFrom(pressed: bool, sigs: seq<Signal>)
  {
    forall i :: 0 <= i < |sigs| ==> sigs[i] == if (i % 2 == 0) != pressed then Activated else Released
  }

  lemma AlternatingCons(pressed: bool, sig: Signal, rest: seq<Signal>)
    requires sig == if pressed then Released else Activated
    requires AlternatingFrom(!pressed, rest)
    ensures AlternatingFrom(pressed, [sig] + rest)
  {
    var all := [sig] + rest;
    forall i | 0 <= i < |all|
      ensures all[i] == if (i % 2 == 0) != pressed then Activated else Released
    {
      if i > 0 {
        assert all[i] == rest[i - 1];
        assert ((i - 1) % 2 == 0) <==> !(i % 2 == 0);
      }
    }
  }

  /**
   * Extends an alternating history that started released by the (at most
   * one) signal of the next step.
   */
  lemma AlternatingSnoc(p0: bool, p1: bool, h: seq<Signal>, d: seq<Signal>)
    requires AlternatingFrom(false, h) && (p0 <==> |h| % 2 == 1)
    requires (d == [] && p1 == p0) || (d == [if p0 then Released else Activated] && p1 == !p0)
    ensures AlternatingFrom(false, h + d) && (p1 <==> |h + d| % 2 == 1)
  {
    var all := h + d;
    forall i | 0 <= i < |all|
      ensures all[i] == if (i % 2 == 0) != false then Activated else Released
    {
      if i < |h| {
        assert all[i] == h[i];
      }
    }
  }

  /** The signals one event raises on `s`, and how it leaves `s`'s pressed flag. */
  lemma DispatchOn(reg: Registry, t: EventType, e: KeyEvent, s: NativeShortcut)
    requires RegistryValid(reg) && s in reg
    ensures var r := Dispatch(reg, t, e);
      || (SignalsOf(s, r.1) == [] && r.0[s].isPressed == reg[s].isPressed)
      || (SignalsOf(s, r.1) == [if reg[s].isPressed then Released else Activated]
          && r.0[s].isPressed == !reg[s].isPressed)
    ensures var r := Dispatch(reg, t, e);
      SignalsOf(s, r.1) == [Activated] ==> t == KeyDown && Matches(e, s)
  {
    MatchesIffTarget(e, s);
    var r := Dispatch(reg, t, e);
    if |r.1| == 1 {
      assert r.1[1..] == [];
    }
  }

  /**
   * Over any event trace, the signals of a registered shortcut alternate from
   * its initial state, and at the end it is pressed exactly when an odd
   * number of signals flipped its initial state.
   */
  lemma {:induction false} RunAlternates(reg: Registry, trace: seq<TapEvent>, s: NativeShortcut)
    requires RegistryValid(reg) && s in reg
    ensures AlternatingFrom(reg[s].isPressed, SignalsOf(s, Run(reg, trace).1))
    ensures Run(reg, trace).0[s].isPressed == (reg[s].isPressed != (|SignalsOf(s, Run(reg, trace).1)| % 2 == 1))
    decreases |trace|
  {
    if trace != [] {
      var step := Dispatch(reg, trace[0].kind, trace[0].event);
      var rest := Run(step.0, trace[1..]);
      assert Run(reg, trace) == (rest.0, step.1 + rest.1);
      DispatchOn(reg, trace[0].kind, trace[0].event, s);
      RunAlternates(step.0, trace[1..], s);
      SignalsOfAppend(s, step.1, rest.1);
      StepThenRest(reg[s].isPressed, step.0[s].isPressed, rest.0[s].isPressed,
        SignalsOf(s, step.1), SignalsOf(s, rest.1));
    }
  }

  /** Joins the alternation facts of one step and of the rest of a trace. */
  lemma StepThenRest(p0: bool, p1: bool, p2: bool, first: seq<Signal>, later: seq<Signal>)
    requires (first == [] && p1 == p0) || (first == [if p0 then Released else Activated] && p1 == !p0)
    requires AlternatingFrom(p1, later) && p2 == (p1 != (|later| % 2 == 1))
    ensures AlternatingFrom(p0, first + later) && p2 == (p0 != (|first + later| % 2 == 1))
  {
    if first != [] {
      AlternatingCons(p0, first[0], later);
      assert [first[0]] + later == first + later;
    } else {
      assert first + later == later;
    }
  }

  /** A shortcut registered released sees activate, release, activate, ... */
  lemma FreshRegistrationAlternates(reg: Registry, trace: seq<TapEvent>, s: NativeShortcut)
    requires RegistryValid(reg) && s in reg && !reg[s].isPressed
    ensures AlternatingFrom(false, SignalsOf(s, Run(reg, trace).1))
    ensures |SignalsOf(s, Run(reg, trace).1)| > 0 ==> SignalsOf(s, Run(reg, trace).1)[0] == Activated
  {
    RunAlternates(reg, trace, s);
  }

  function CountActivated(sigs: seq<Signal>): nat
  {
    if sigs == [] then 0 else (if sigs[0] == Activated then 1 else 0) + CountActivated(sigs[1..])
  }

  lemma {:induction false} CountActivatedAppend(a: seq<Signal>, b: seq<Signal>)
    ensures CountActivated(a + b) == CountActivated(a) + CountActivated(b)
  {
    if a != [] {
      assert (a + b)[1..] == a[1..] + b;
      CountActivatedAppend(a[1..], b);
    } else {
      assert a + b == b;
    }
  }

  /** The number of key-down events of `trace` that match `s`. */
  function MatchingKeyDowns(s: NativeShortcut, trace: seq<TapEvent>): nat
  {
    if trace == [] then 0
    else (if trace[0].kind == KeyDown && Matches(trace[0].event, s) then 1 else 0) + MatchingKeyDowns(s, trace[1..])
  }

  /** A shortcut is activated at most once per matching key-down. */
  lemma {:induction false} ActivationsBounded(reg: Registry, trace: seq<TapEvent>, s: NativeShortcut)
    requires RegistryValid(reg) && s in reg
    ensures CountActivated(SignalsOf(s, Run(reg, trace).1)) <= MatchingKeyDowns(s, trace)
    decreases |trace|
  {
    if trace != [] {
      var step := Dispatch(reg, trace[0].kind, trace[0].event);
      var rest := Run(step.0, trace[1..]);
      DispatchOn(reg, trace[0].kind, trace[0].event, s);
      ActivationsBounded(step.0, trace[1..], s);
      SignalsOfAppend(s, step.1, rest.1);
      CountActivatedAppend(SignalsOf(s, step.1), SignalsOf(s, rest.1));
      var first := SignalsOf(s, step.1);
      if first != [] {
        assert first[1..] == [];
      }
    }
  }

  /** An event that matches no registered shortcut changes nothing and raises nothing. */
  lemma UnmatchedEventIsSilent(reg: Registry, t: EventType, e: KeyEvent)
    requires RegistryValid(reg)
    requires forall s :: s in reg ==> !Matches(e, s)
    ensures Dispatch(reg, t, e) == (reg, [])
  {
    assert Matches(e, Target(e));
  }

  /**
   * F3 without modifiers: a key-down activates, a repeated key-down is
   * suppressed, and the key-up releases.
   */
  lemma F3Scenario()
    ensures var f3 := NativeShortcut(0x63, 0, true);
      var reg := map[f3 := HotkeyInfo(f3, false)];
      var e := KeyEvent(0x63, 0);
      var r := Run(reg, [TapEvent(KeyDown, e), TapEvent(KeyDown, e), TapEvent(KeyUp, e)]);
      r.1 == [Notification(Activated, f3), Notification(Released, f3)] && !r.0[f3].isPressed
  {
    var f3 := NativeShortcut(0x63, 0, true);
    var reg := map[f3 := HotkeyInfo(f3, false)];
    var e := KeyEvent(0x63, 0);
    assert EventKeyCode(e) == 0x63 && EventModifiers(e.flags) == 0;
    assert Target(e) == f3;
    var down, up := TapEvent(KeyDown, e), TapEvent(KeyUp, e);
    var trace := [down, down, up];
    var held := reg[f3 := HotkeyInfo(f3, true)];
    assert held.Keys == {f3} && reg.Keys == {f3};
    var r1 := Dispatch(reg, KeyDown, e);
    assert r1 == (held, [Notification(Activated, f3)]);
    var r2 := Dispatch(held, KeyDown, e);
    assert r2.1 == [] && r2.0[f3] == held[f3];
    SameSingleton(r2.0, held, f3);
    var r3 := Dispatch(held, KeyUp, e);
    assert r3.1 == [Notification(Released, f3)] && r3.0[f3] == reg[f3];
    SameSingleton(r3.0, reg, f3);
    assert trace[1..] == [down, up] && trace[1..][1..] == [up] && trace[1..][1..][1..] == [];
    assert [up][1..] == [] && [down, up][1..] == [up];
    assert r3.1 + [] == r3.1;
    assert Run(held, [up]) == (reg, [Notification(Released, f3)]);
    assert r2.1 + [Notification(Released, f3)] == [Notification(Released, f3)];
    assert Run(held, [down, up]) == (reg, [Notification(Released, f3)]);
  }

  lemma SameSingleton(m1: Registry, m2: Registry, k: NativeShortcut)
    requires m1.Keys == {k} && m2.Keys == {k} && m1[k] == m2[k]
    ensures m1 == m2
  {
    forall x | x in m1 ensures m1[x] == m2[x] {
      assert x == k;
    }
  }

  /**
   * Unregistering a pressed shortcut raises no release: registering it
   * again and pressing it gives a second activation with no release between.
   */
  lemma ReRegisterWhilePressed(s: NativeShortcut, e: KeyEvent)
    requires s == Target(e)
    ensures var reg := map[s := HotkeyInfo(s, false)];
      var pressed := Dispatch(reg, KeyDown, e);
      var again := Dispatch((pressed.0 - {s})[s := HotkeyInfo(s, false)], KeyDown, e);
      pressed.1 + again.1 == [Notification(Activated, s), Notification(Activated, s)]
  {
  }
}

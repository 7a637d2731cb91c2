/** The plugin's reaction to the signals of the objects it holds. Every
    handler re-runs the power decision and pushes the result to the manager,
    with no edge detection: each delivered signal is exactly one push. A run
    of signals is modelled as a log of events applied in order. */
module Events {
  import opened PowerGate

  /** One signal emission by the manager, the display or the lock, carrying
      the new value of the property that changed. */
  datatype Event =
    | EnabledChanged(enabled: bool)
    | DisplayValidChanged(valid: bool)
    | DisplayStateChanged(state: DisplayState)
    | TklockValidChanged(valid: bool)
    | TklockModeChanged(mode: TklockMode)

  /** Whether the plugin has a handler on the source of `e`: the manager
      always, the display and the lock only while the plugin holds them. */
  predicate Delivered(i: Inputs, e: Event)
  {
    match e
    case EnabledChanged(_) => true
    case DisplayValidChanged(_) => i.display.Some?
    case DisplayStateChanged(_) => i.display.Some?
    case TklockValidChanged(_) => i.tklock.Some?
    case TklockModeChanged(_) => i.tklock.Some?
  }

  /** The inputs after the source of `e` has taken its new value. */
  function Apply(i: Inputs, e: Event): (r: Inputs)
    // the setting, the lock flag and which objects are held never change
    ensures r.alwaysOn == i.alwaysOn && r.disableInLocked == i.disableInLocked
    ensures r.display.Some? == i.display.Some? && r.tklock.Some? == i.tklock.Some?
    // a signal from an object the plugin does not hold changes nothing
    ensures !Delivered(i, e) ==> r == i
    // each signal sets its own property and leaves every other one alone
    ensures r.enabled == if e.EnabledChanged? then e.enabled else i.enabled
    ensures !e.DisplayValidChanged? && !e.DisplayStateChanged? ==> r.display == i.display
    ensures !e.TklockValidChanged? && !e.TklockModeChanged? ==> r.tklock == i.tklock
    ensures e.DisplayValidChanged? && i.display.Some? ==>
              r.display == Some(DisplayView(e.valid, i.display.value.state))
    ensures e.DisplayStateChanged? && i.display.Some? ==>
              r.display == Some(DisplayView(i.display.value.valid, e.state))
    ensures e.TklockValidChanged? && i.tklock.Some? ==>
              r.tklock == Some(TklockView(e.valid, i.tklock.value.mode))
    ensures e.TklockModeChanged? && i.tklock.Some? ==>
              r.tklock == Some(TklockView(i.tklock.value.valid, e.mode))
  {
    match e
    case EnabledChanged(b) => i.(enabled := b)
    case DisplayValidChanged(v) =>
      if i.display.Some? then i.(display := Some(i.display.value.(valid := v))) else i
    case DisplayStateChanged(s) =>
      if i.display.Some? then i.(display := Some(i.display.value.(state := s))) else i
    case TklockValidChanged(v) =>
      if i.tklock.Some? then i.(tklock := Some(i.tklock.value.(valid := v))) else i
    case TklockModeChanged(m) =>
      if i.tklock.Some? then i.(tklock := Some(i.tklock.value.(mode := m))) else i
  }

  /** The push one event causes: the decision on the new inputs when the
      plugin has a handler on the event's source, nothing otherwise. */
  function StepPushes(lockTracking: bool, i: Inputs, e: Event): seq<bool>
  {
    if Delivered(i, e) then [Decide(lockTracking, Apply(i, e))] else []
  }

  datatype Outcome = Outcome(final: Inputs, pushes: seq<bool>)

  /** The inputs after a log of events and the requests pushed meanwhile. */
  function Run(lockTracking: bool, start: Inputs, es: seq<Event>): (o: Outcome)
    decreases |es|
  {
    if es == [] then Outcome(start, [])
    else
      var prev := Run(lockTracking, start, es[..|es| - 1]);
      var e := es[|es| - 1];
      Outcome(Apply(prev.final, e), prev.pushes + StepPushes(lockTracking, prev.final, e))
  }

  /** One more event extends the run by one step. */
  lemma RunSnoc(lockTracking: bool, start: Inputs, es: seq<Event>, e: Event)
    ensures var prev := Run(lockTracking, start, es);
      Run(lockTracking, start, es + [e]) ==
        Outcome(Apply(prev.final, e), prev.pushes + StepPushes(lockTracking, prev.final, e))
  {
    assert (es + [e])[..|es|] == es;
  }

  /** The state a run reaches: the inputs it produced and, after the
      requests made before start, the one request at start and then every
      push the events caused. */
  ghost predicate Reached(lockTracking: bool, start: Inputs, es: seq<Event>, before: seq<bool>,
                          now: Inputs, requests: seq<bool>)
  {
    var o := Run(lockTracking, start, es);
    now == o.final && requests == before + [Decide(lockTracking, start)] + o.pushes
  }

  /** Reaching a state and then handling one more event reaches the state of
      the longer run. */
  lemma ReachedStep(lockTracking: bool, start: Inputs, es: seq<Event>, before: seq<bool>,
                    now: Inputs, requests: seq<bool>, e: Event)
    requires Reached(lockTracking, start, es, before, now, requests)
    ensures Reached(lockTracking, start, es + [e], before, Apply(now, e),
                    requests + StepPushes(lockTracking, now, e))
  {
    RunSnoc(lockTracking, start, es, e);
  }

  /** The values carried by the manager's enabled-changed signals, in order. */
  function EnabledValues(es: seq<Event>): (vs: seq<bool>)
    decreases |es|
  {
    if es == [] then []
    else
      var e := es[|es| - 1];
      EnabledValues(es[..|es| - 1]) + if e.EnabledChanged? then [e.enabled] else []
  }

  /** No signal changes the setting, the lock flag or which objects are held,
      and no signal pushes more than once. */
  lemma {:induction false} RunKeepsSetup(lockTracking: bool, start: Inputs, es: seq<Event>)
    ensures var o := Run(lockTracking, start, es);
      o.final.alwaysOn == start.alwaysOn && o.final.disableInLocked == start.disableInLocked &&
      o.final.display.Some? == start.display.Some? && o.final.tklock.Some? == start.tklock.Some? &&
      |o.pushes| <= |es|
    decreases |es|
  {
    if es != [] {
      RunKeepsSetup(lockTracking, start, es[..|es| - 1]);
    }
  }

  /** Exactly one push per event exactly when every event comes from an
      object the plugin holds: there is no coalescing and no edge detection. */
  lemma {:induction false} RunPushesOncePerEvent(lockTracking: bool, start: Inputs, es: seq<Event>)
    ensures |Run(lockTracking, start, es).pushes| == |es| <==>
            forall k :: 0 <= k < |es| ==> Delivered(start, es[k])
    decreases |es|
  {
    if es != [] {
      var prefix := es[..|es| - 1];
      RunPushesOncePerEvent(lockTracking, start, prefix);
      RunKeepsSetup(lockTracking, start, prefix);
      var prev := Run(lockTracking, start, prefix);
      assert Delivered(prev.final, es[|es| - 1]) == Delivered(start, es[|es| - 1]);
      if forall k :: 0 <= k < |es| ==> Delivered(start, es[k]) {
        assert forall k :: 0 <= k < |prefix| ==> Delivered(start, prefix[k]) by {
          forall k | 0 <= k < |prefix| ensures Delivered(start, prefix[k]) {
            assert prefix[k] == es[k];
          }
        }
      } else if Delivered(start, es[|es| - 1]) {
        var k :| 0 <= k < |es| && !Delivered(start, es[k]);
        assert k < |prefix| && prefix[k] == es[k];
      }
    }
  }

  /** The last request pushed is always the decision on the current inputs,
      whatever happened before; a run that pushed nothing changed nothing. */
  lemma {:induction false} RunLastPushIsCurrent(lockTracking: bool, start: Inputs, es: seq<Event>)
    ensures var o := Run(lockTracking, start, es);
      |o.pushes| > 0 ==> o.pushes[|o.pushes| - 1] == Decide(lockTracking, o.final)
    ensures var o := Run(lockTracking, start, es);
      |o.pushes| == 0 ==> o.final == start
    decreases |es|
  {
    if es != [] {
      RunLastPushIsCurrent(lockTracking, start, es[..|es| - 1]);
    }
  }

  /** While the manager stays disabled no power is ever requested. */
  lemma {:induction false} RunWhileDisabled(lockTracking: bool, start: Inputs, es: seq<Event>)
    requires !start.enabled
    requires forall k :: 0 <= k < |es| ==> es[k] != EnabledChanged(true)
    ensures !Run(lockTracking, start, es).final.enabled
    ensures forall k :: 0 <= k < |Run(lockTracking, start, es).pushes| ==> !Run(lockTracking, start, es).pushes[k]
    decreases |es|
  {
    if es != [] {
      var prefix := es[..|es| - 1];
      assert forall k :: 0 <= k < |prefix| ==> prefix[k] == es[k];
      RunWhileDisabled(lockTracking, start, prefix);
    }
  }

  /** Without lock tracking and with always-on, where the plugin holds no
      display and no lock, the requests are exactly the manager's enabled
      values, one per enabled-changed signal. */
  lemma {:induction false} RunAlwaysOnFollowsEnabled(start: Inputs, es: seq<Event>)
    requires start.alwaysOn && start.display.None? && start.tklock.None?
    ensures Run(false, start, es).pushes == EnabledValues(es)
    decreases |es|
  {
    if es != [] {
      var prefix := es[..|es| - 1];
      RunAlwaysOnFollowsEnabled(start, prefix);
      RunKeepsSetup(false, start, prefix);
    }
  }

  /** Applying the same signal again changes nothing more. */
  lemma ApplyTwice(i: Inputs, e: Event)
    ensures Apply(Apply(i, e), e) == Apply(i, e)
  {
    match e
    case EnabledChanged(_) =>
    case DisplayValidChanged(_) =>
    case DisplayStateChanged(_) =>
    case TklockValidChanged(_) =>
    case TklockModeChanged(_) =>
  }

  /** The same signal twice is pushed twice, with the same value. */
  lemma RepeatedEventPushesAgain(lockTracking: bool, i: Inputs, e: Event)
    requires Delivered(i, e)
    ensures var v := Decide(lockTracking, Apply(i, e));
      Run(lockTracking, i, [e, e]).pushes == [v, v]
  {
    var j := Apply(i, e);
    ApplyTwice(i, e);
    assert [e][..0] == [];
    assert Run(lockTracking, i, [e]) == Outcome(j, [Decide(lockTracking, j)]);
    assert [e, e][..1] == [e];
    assert Delivered(j, e);
  }

  /** A display that becomes valid while off, then turns on, then off, then
      invalid: with the manager enabled and no always-on, the requests are
      false, true, false, false. */
  lemma DisplayScenario()
    ensures var start := Inputs(true, false, Some(DisplayView(false, Off)), false, None);
      var es := [DisplayValidChanged(true), DisplayStateChanged(On), DisplayStateChanged(Off), DisplayValidChanged(false)];
      Run(false, start, es).pushes == [false, true, false, false]
  {
    var start := Inputs(true, false, Some(DisplayView(false, Off)), false, None);
    var es := [DisplayValidChanged(true), DisplayStateChanged(On), DisplayStateChanged(Off), DisplayValidChanged(false)];
    RunSnoc(false, start, [], es[0]);
    RunSnoc(false, start, es[..1], es[1]);
    RunSnoc(false, start, es[..2], es[2]);
    RunSnoc(false, start, es[..3], es[3]);
    assert es[..1] == [] + [es[0]] && es[..2] == es[..1] + [es[1]];
    assert es[..3] == es[..2] + [es[2]] && es == es[..3] + [es[3]];
  }

  /** With lock tracking and always-on: a lock that becomes valid while
      locked keeps power off even though always-on is set; unlocking turns it
      on; and the silent locked mode still counts as unlocked. */
  lemma LockScenario()
    ensures var start := Inputs(true, true, None, true, Some(TklockView(false, Locked)));
      var es := [TklockValidChanged(true), TklockModeChanged(Unlocked), TklockModeChanged(SilentLocked)];
      Run(true, start, es).pushes == [false, true, true]
  {
    var start := Inputs(true, true, None, true, Some(TklockView(false, Locked)));
    var es := [TklockValidChanged(true), TklockModeChanged(Unlocked), TklockModeChanged(SilentLocked)];
    RunSnoc(true, start, [], es[0]);
    RunSnoc(true, start, es[..1], es[1]);
    RunSnoc(true, start, es[..2], es[2]);
    assert es[..1] == [] + [es[0]] && es[..2] == es[..1] + [es[1]];
    assert es == es[..2] + [es[2]];
  }
}

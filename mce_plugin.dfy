/** The mce plugin of nfcd: it holds the NFC manager, the display and (when
    built with lock tracking) the touchscreen/keypad lock, and asks the
    manager for power whenever any of them signals a change. */
module McePlugin {
  import opened PowerGate
  import opened Events
  import Nfc
  import MceDisplay
  import MceTklock

  import opened GSignal

  /** Slots of the handler-id arrays, as the source's event enums number them. */
  const ManagerEventEnabled := 0
  const ManagerEventCount := 1
  const DisplayEventValid := 0
  const DisplayEventState := 1
  const DisplayEventCount := 2
  const TklockEventValid := 0
  const TklockEventMode := 1
  const TklockEventCount := 2

  class Plugin {
    /** Whether the plugin is built with NFC_DISABLE_IN_LOCKED. */
    const lockTracking: bool
    /** The AlwaysOn setting; fixed when the plugin object is initialised. */
    const alwaysOn: bool

    var manager: Nfc.Manager?
    var display: MceDisplay.Display?
    var tklock: MceTklock.Tklock?
    var nfcDisableInLocked: bool
    const managerEventId: array<HandlerId>
    const displayEventId: array<HandlerId>
    const tklockEventId: array<HandlerId>

    // The history of the current run: the inputs right after start, the
    // manager's requests before start, and the signals delivered since.
    ghost var startInputs: Inputs
    ghost var requestsAtStart: seq<bool>
    ghost var events: seq<Event>

    ghost predicate Valid()
      reads this, {manager}, {display}, {tklock}, managerEventId, displayEventId, tklockEventId
    {
      Wired() && (manager != null ==> History())
    }

    /** The objects held, the handlers connected and the ids recorded. */
    ghost predicate Wired()
      reads this`manager, this`display, this`tklock, this`nfcDisableInLocked,
        {manager}`refs, {manager}`handlers, {manager}`nextId,
        {display}`refs, {display}`handlers, {display}`nextId,
        {tklock}`refs, {tklock}`handlers, {tklock}`nextId,
        managerEventId, displayEventId, tklockEventId
    {
      managerEventId.Length == ManagerEventCount &&
      displayEventId.Length == DisplayEventCount &&
      tklockEventId.Length == TklockEventCount &&
      displayEventId != tklockEventId &&
      (!lockTracking ==> tklock == null && !nfcDisableInLocked) &&
      (manager == null ==> Stopped()) &&
      (manager != null ==> ManagerHeld() && DisplayHeld() && TklockHeld())
    }

    /** The manager has received one request at start plus one per
        delivered signal, and the inputs are those the signals produced. */
    ghost predicate History()
      requires manager != null
      reads this, {manager}`enabled, {manager}`powerRequests,
        {display}`valid, {display}`state, {tklock}`valid, {tklock}`mode
    {
      Reached(lockTracking, startInputs, events, requestsAtStart, CurrentInputs(), manager.powerRequests)
    }

    /** Nothing is held and no handler id is recorded. */
    ghost predicate Stopped()
      reads this`manager, this`display, this`tklock, managerEventId, displayEventId, tklockEventId
    {
      manager == null && display == null && tklock == null &&
      (forall k :: 0 <= k < managerEventId.Length ==> managerEventId[k] == 0) &&
      (forall k :: 0 <= k < displayEventId.Length ==> displayEventId[k] == 0) &&
      (forall k :: 0 <= k < tklockEventId.Length ==> tklockEventId[k] == 0)
    }

    /** The manager is held with our enabled-changed handler on it. */
    ghost predicate ManagerHeld()
      reads this`manager, {manager}`refs, {manager}`handlers, {manager}`nextId, managerEventId
    {
      managerEventId.Length == ManagerEventCount &&
      manager != null && manager.Valid() && manager.refs > 0 &&
      managerEventId[ManagerEventEnabled] in manager.handlers &&
      manager.handlers[managerEventId[ManagerEventEnabled]] == Nfc.EnabledChanged
    }

    /** A display is held, with our two handlers on it, iff always-on is off. */
    ghost predicate DisplayHeld()
      reads this`display, {display}`refs, {display}`handlers, {display}`nextId, displayEventId
    {
      displayEventId.Length == DisplayEventCount &&
      (display != null <==> !alwaysOn) &&
      (display != null ==>
         display.Valid() && display.refs > 0 &&
         displayEventId[DisplayEventValid] in display.handlers &&
         display.handlers[displayEventId[DisplayEventValid]] == MceDisplay.ValidChanged &&
         displayEventId[DisplayEventState] in display.handlers &&
         display.handlers[displayEventId[DisplayEventState]] == MceDisplay.StateChanged) &&
      (display == null ==> forall k :: 0 <= k < displayEventId.Length ==> displayEventId[k] == 0)
    }

    /** A lock is held, with our two handlers on it and the lock flag set,
        iff lock tracking is built in. */
    ghost predicate TklockHeld()
      reads this`tklock, this`nfcDisableInLocked,
        {tklock}`refs, {tklock}`handlers, {tklock}`nextId, tklockEventId
    {
      tklockEventId.Length == TklockEventCount &&
      (tklock != null <==> lockTracking) &&
      (lockTracking ==> nfcDisableInLocked) &&
      (tklock != null ==>
         tklock.Valid() && tklock.refs > 0 &&
         tklockEventId[TklockEventValid] in tklock.handlers &&
         tklock.handlers[tklockEventId[TklockEventValid]] == MceTklock.ValidChanged &&
         tklockEventId[TklockEventMode] in tklock.handlers &&
         tklock.handlers[tklockEventId[TklockEventMode]] == MceTklock.ModeChanged) &&
      (tklock == null ==> forall k :: 0 <= k < tklockEventId.Length ==> tklockEventId[k] == 0)
    }

    /** What the power decision reads right now. */
    function CurrentInputs(): (i: Inputs)
      requires manager != null
      reads this`manager, this`display, this`tklock, this`nfcDisableInLocked,
        {manager}`enabled, {display}`valid, {display}`state, {tklock}`valid, {tklock}`mode
      ensures i.enabled == manager.enabled && i.alwaysOn == alwaysOn
      ensures i.display.Some? <==> display != null
      ensures i.tklock.Some? <==> tklock != null
    {
      Inputs(
        manager.enabled,
        alwaysOn,
        if display == null then None else Some(display.View()),
        nfcDisableInLocked,
        if tklock == null then None else Some(tklock.View()))
    }

    /** mce_plugin_init: `settings` is None when the settings file does not
        load, and otherwise the boolean read for AlwaysOn (false when the
        key is missing). */
    constructor (lockTracking: bool, settings: Option<bool>)
      ensures Valid() && Stopped()
      ensures fresh(managerEventId) && fresh(displayEventId) && fresh(tklockEventId)
      ensures this.lockTracking == lockTracking
      ensures alwaysOn <==> settings == Some(true)
      ensures !nfcDisableInLocked
    {
      this.lockTracking := lockTracking;
      alwaysOn := settings.Some? && settings.value;
      manager, display, tklock := null, null, null;
      nfcDisableInLocked := false;
      managerEventId := new HandlerId[ManagerEventCount](_ => 0);
      displayEventId := new HandlerId[DisplayEventCount](_ => 0);
      tklockEventId := new HandlerId[TklockEventCount](_ => 0);
    }

    /** mce_plugin_update_power: pushes the current decision to the manager. */
    method UpdatePower()
      requires manager != null
      modifies manager`powerRequests
      ensures manager.powerRequests == old(manager.powerRequests) + [Decide(lockTracking, CurrentInputs())]
    {
      manager.RequestPower(Decide(lockTracking, CurrentInputs()));
    }

    /** mce_plugin_manager_state_handler */
    method ManagerStateHandler()
      requires manager != null
      modifies manager`powerRequests
      ensures manager.powerRequests == old(manager.powerRequests) + [Decide(lockTracking, CurrentInputs())]
    {
      UpdatePower();
    }

    /** mce_plugin_display_state_handler, connected to both display signals. */
    method DisplayStateHandler()
      requires manager != null
      modifies manager`powerRequests
      ensures manager.powerRequests == old(manager.powerRequests) + [Decide(lockTracking, CurrentInputs())]
    {
      UpdatePower();
    }

    /** mce_plugin_tklock_state_handler, connected to both lock signals. */
    method TklockStateHandler()
      requires manager != null
      modifies manager`powerRequests
      ensures manager.powerRequests == old(manager.powerRequests) + [Decide(lockTracking, CurrentInputs())]
    {
      UpdatePower();
    }

    /** The display part of mce_plugin_start: a new display object with
        the plugin's valid and state handlers on it. */
    method ConnectDisplay(now: DisplayView) returns (d: MceDisplay.Display)
      requires displayEventId.Length == DisplayEventCount
      modifies displayEventId
      ensures fresh(d) && d.Valid() && d.View() == now && d.refs == 1
      ensures displayEventId[DisplayEventValid] != displayEventId[DisplayEventState]
      ensures d.handlers == map[displayEventId[DisplayEventValid] := MceDisplay.ValidChanged,
                                displayEventId[DisplayEventState] := MceDisplay.StateChanged]
    {
      d := new MceDisplay.Display(now);
      var id := d.AddValidChangedHandler();
      displayEventId[DisplayEventValid] := id;
      id := d.AddStateChangedHandler();
      displayEventId[DisplayEventState] := id;
    }

    /** The lock part of mce_plugin_start: a new lock object with the
        plugin's valid and mode handlers on it. */
    method ConnectTklock(now: TklockView) returns (t: MceTklock.Tklock)
      requires tklockEventId.Length == TklockEventCount
      modifies tklockEventId
      ensures fresh(t) && t.Valid() && t.View() == now && t.refs == 1
      ensures tklockEventId[TklockEventValid] != tklockEventId[TklockEventMode]
      ensures t.handlers == map[tklockEventId[TklockEventValid] := MceTklock.ValidChanged,
                                tklockEventId[TklockEventMode] := MceTklock.ModeChanged]
    {
      t := new MceTklock.Tklock(now);
      var id := t.AddValidChangedHandler();
      tklockEventId[TklockEventValid] := id;
      id := t.AddModeChangedHandler();
      tklockEventId[TklockEventMode] := id;
    }

    /** The subscriptions made by mce_plugin_start, before its one push. */
    method Subscribe(m: Nfc.Manager, displayNow: DisplayView, tklockNow: TklockView)
      requires Valid() && manager == null
      requires m.Valid()
      modifies this, m`refs, m`handlers, m`nextId, managerEventId, displayEventId, tklockEventId
      ensures Wired()
      // the manager is held, with exactly one new enabled-changed handler
      ensures manager == m && m.refs == old(m.refs) + 1 && m.enabled == old(m.enabled)
      ensures managerEventId[ManagerEventEnabled] !in old(m.handlers)
      ensures m.handlers == old(m.handlers)[managerEventId[ManagerEventEnabled] := Nfc.EnabledChanged]
      // a new display with both handlers, iff always-on is off
      ensures display != null <==> !alwaysOn
      ensures display != null ==>
                fresh(display) && display.View() == displayNow && display.refs == 1 &&
                displayEventId[DisplayEventValid] != displayEventId[DisplayEventState] &&
                display.handlers == map[displayEventId[DisplayEventValid] := MceDisplay.ValidChanged,
                                        displayEventId[DisplayEventState] := MceDisplay.StateChanged]
      // with lock tracking, always a new lock with both handlers
      ensures tklock != null <==> lockTracking
      ensures lockTracking ==> nfcDisableInLocked
      ensures tklock != null ==>
                fresh(tklock) && tklock.View() == tklockNow && tklock.refs == 1 &&
                tklockEventId[TklockEventValid] != tklockEventId[TklockEventMode] &&
                tklock.handlers == map[tklockEventId[TklockEventValid] := MceTklock.ValidChanged,
                                       tklockEventId[TklockEventMode] := MceTklock.ModeChanged]
      ensures nfcDisableInLocked == (old(nfcDisableInLocked) || lockTracking)
      ensures m.powerRequests == old(m.powerRequests)
    {
      AttachManager(m);
      AttachDisplay(displayNow);
      AttachTklock(tklockNow);
    }

    /** The display part of mce_plugin_start, skipped under always-on. */
    method AttachDisplay(now: DisplayView)
      requires display == null && displayEventId.Length == DisplayEventCount
      requires forall k :: 0 <= k < displayEventId.Length ==> displayEventId[k] == 0
      modifies this`display, displayEventId
      ensures DisplayHeld()
      ensures display != null ==>
                fresh(display) && display.View() == now && display.refs == 1 &&
                displayEventId[DisplayEventValid] != displayEventId[DisplayEventState] &&
                display.handlers == map[displayEventId[DisplayEventValid] := MceDisplay.ValidChanged,
                                        displayEventId[DisplayEventState] := MceDisplay.StateChanged]
    {
      if !alwaysOn {
        display := ConnectDisplay(now);
      }
    }

    /** The lock part of mce_plugin_start, built only with lock tracking. */
    method AttachTklock(now: TklockView)
      requires tklock == null && tklockEventId.Length == TklockEventCount
      requires forall k :: 0 <= k < tklockEventId.Length ==> tklockEventId[k] == 0
      requires !lockTracking ==> !nfcDisableInLocked
      modifies this`tklock, this`nfcDisableInLocked, tklockEventId
      ensures TklockHeld()
      ensures tklock != null ==>
                fresh(tklock) && tklock.View() == now && tklock.refs == 1 &&
                tklockEventId[TklockEventValid] != tklockEventId[TklockEventMode] &&
                tklock.handlers == map[tklockEventId[TklockEventValid] := MceTklock.ValidChanged,
                                       tklockEventId[TklockEventMode] := MceTklock.ModeChanged]
      ensures nfcDisableInLocked == (old(nfcDisableInLocked) || lockTracking)
    {
      if lockTracking {
        nfcDisableInLocked := true;
        tklock := ConnectTklock(now);
      }
    }

    /** The manager part of mce_plugin_start: a reference and the plugin's
        enabled-changed handler. */
    method AttachManager(m: Nfc.Manager)
      requires m.Valid() && managerEventId.Length == ManagerEventCount
      modifies this`manager, m`refs, m`handlers, m`nextId, managerEventId
      ensures manager == m && ManagerHeld()
      ensures m.refs == old(m.refs) + 1
      ensures managerEventId[ManagerEventEnabled] !in old(m.handlers)
      ensures m.handlers == old(m.handlers)[managerEventId[ManagerEventEnabled] := Nfc.EnabledChanged]
    {
      m.Ref();
      manager := m;
      var id := m.AddEnabledChangedHandler();
      managerEventId[ManagerEventEnabled] := id;
    }

    /** mce_plugin_start. `displayNow` and `tklockNow` are what the display
        and lock services report when their objects are created. */
    method Start(m: Nfc.Manager, displayNow: DisplayView, tklockNow: TklockView) returns (ok: bool)
      requires Valid() && manager == null
      requires m.Valid()
      modifies this, m, managerEventId, displayEventId, tklockEventId
      ensures Valid() && ok
      // the manager is held, with exactly one new enabled-changed handler
      ensures manager == m && m.refs == old(m.refs) + 1 && m.enabled == old(m.enabled)
      ensures managerEventId[ManagerEventEnabled] !in old(m.handlers)
      ensures m.handlers == old(m.handlers)[managerEventId[ManagerEventEnabled] := Nfc.EnabledChanged]
      // a new display with both handlers, iff always-on is off
      ensures display != null <==> !alwaysOn
      ensures display != null ==>
                fresh(display) && display.View() == displayNow && display.refs == 1 &&
                displayEventId[DisplayEventValid] != displayEventId[DisplayEventState] &&
                display.handlers == map[displayEventId[DisplayEventValid] := MceDisplay.ValidChanged,
                                        displayEventId[DisplayEventState] := MceDisplay.StateChanged]
      // with lock tracking, always a new lock with both handlers
      ensures tklock != null <==> lockTracking
      ensures lockTracking ==> nfcDisableInLocked
      ensures tklock != null ==>
                fresh(tklock) && tklock.View() == tklockNow && tklock.refs == 1 &&
                tklockEventId[TklockEventValid] != tklockEventId[TklockEventMode] &&
                tklock.handlers == map[tklockEventId[TklockEventValid] := MceTklock.ValidChanged,
                                       tklockEventId[TklockEventMode] := MceTklock.ModeChanged]
      ensures nfcDisableInLocked == (old(nfcDisableInLocked) || lockTracking)
      // and exactly one request, the decision on the new inputs
      ensures m.powerRequests == old(m.powerRequests) + [Decide(lockTracking, CurrentInputs())]
      ensures startInputs == CurrentInputs() && events == []
    {
      Subscribe(m, displayNow, tklockNow);
      requestsAtStart, startInputs, events := m.powerRequests, CurrentInputs(), [];
      UpdatePower();
      ok := true;
    }

    /** mce_plugin_stop */
    method Stop()
      requires Valid() && manager != null
      // of the objects released, only their handlers and references change
      modifies this, {manager}`handlers, {manager}`refs, {display}`handlers, {display}`refs,
        {tklock}`handlers, {tklock}`refs, managerEventId, displayEventId, tklockEventId
      ensures Valid() && Stopped()
      ensures nfcDisableInLocked == old(nfcDisableInLocked)
      // the released manager can be started on again
      ensures old(manager).Valid()
      // our manager handler is gone, the reference released, nothing pushed
      ensures old(manager).handlers == old(manager.handlers) - {old(managerEventId[ManagerEventEnabled])}
      ensures old(manager).refs == old(manager.refs) - 1
      ensures old(manager).enabled == old(manager.enabled)
      ensures old(manager).powerRequests == old(manager.powerRequests)
      // the display and the lock, where held, lose both our handlers and our reference
      ensures old(display) != null ==>
                old(display).handlers ==
                  old(display.handlers) - {old(displayEventId[DisplayEventValid]), old(displayEventId[DisplayEventState])} &&
                old(display).refs == old(display.refs) - 1
      ensures old(display) != null ==> old(display).Valid()
      ensures old(tklock) != null ==>
                old(tklock).handlers ==
                  old(tklock.handlers) - {old(tklockEventId[TklockEventValid]), old(tklockEventId[TklockEventMode])} &&
                old(tklock).refs == old(tklock.refs) - 1
      ensures old(tklock) != null ==> old(tklock).Valid()
    {
      if display != null {
        ReleaseDisplay();
      }
      if tklock != null {
        ReleaseTklock();
      }
      ReleaseManager();
    }

    /** The display part of mce_plugin_stop. */
    method ReleaseDisplay()
      requires display != null && display.Valid() && display.refs > 0
      requires displayEventId.Length == DisplayEventCount
      modifies this`display, display`handlers, display`refs, displayEventId
      ensures display == null
      ensures old(display).Valid()
      ensures old(display).handlers ==
                old(display.handlers) - {old(displayEventId[DisplayEventValid]), old(displayEventId[DisplayEventState])}
      ensures old(display).refs == old(display.refs) - 1
      ensures forall k :: 0 <= k < displayEventId.Length ==> displayEventId[k] == 0
    {
      assert (set k | 0 <= k < displayEventId.Length :: displayEventId[k]) ==
             {displayEventId[DisplayEventValid], displayEventId[DisplayEventState]};
      display.RemoveAllHandlers(displayEventId);
      display.Unref();
      display := null;
    }

    /** The lock part of mce_plugin_stop. */
    method ReleaseTklock()
      requires tklock != null && tklock.Valid() && tklock.refs > 0
      requires tklockEventId.Length == TklockEventCount
      modifies this`tklock, tklock`handlers, tklock`refs, tklockEventId
      ensures tklock == null
      ensures old(tklock).Valid()
      ensures old(tklock).handlers ==
                old(tklock.handlers) - {old(tklockEventId[TklockEventValid]), old(tklockEventId[TklockEventMode])}
      ensures old(tklock).refs == old(tklock.refs) - 1
      ensures forall k :: 0 <= k < tklockEventId.Length ==> tklockEventId[k] == 0
    {
      assert (set k | 0 <= k < tklockEventId.Length :: tklockEventId[k]) ==
             {tklockEventId[TklockEventValid], tklockEventId[TklockEventMode]};
      tklock.RemoveAllHandlers(tklockEventId);
      tklock.Unref();
      tklock := null;
    }

    /** The manager part of mce_plugin_stop. */
    method ReleaseManager()
      requires manager != null && manager.Valid() && manager.refs > 0
      requires managerEventId.Length == ManagerEventCount
      modifies this`manager, manager`handlers, manager`refs, managerEventId
      ensures manager == null
      ensures old(manager).Valid()
      ensures old(manager).handlers == old(manager.handlers) - {old(managerEventId[ManagerEventEnabled])}
      ensures old(manager).refs == old(manager.refs) - 1
      ensures forall k :: 0 <= k < managerEventId.Length ==> managerEventId[k] == 0
    {
      assert (set k | 0 <= k < managerEventId.Length :: managerEventId[k]) == {managerEventId[ManagerEventEnabled]};
      manager.RemoveAllHandlers(managerEventId);
      manager.Unref();
      manager := null;
    }

    /** The manager's enabled flag changes and it emits enabled-changed. */
    method EmitEnabledChanged(on: bool)
      requires Wired() && manager != null
      modifies manager`enabled, manager`powerRequests
      ensures Wired()
      ensures CurrentInputs() == Apply(old(CurrentInputs()), EnabledChanged(on))
      ensures manager.powerRequests == old(manager.powerRequests) + [Decide(lockTracking, CurrentInputs())]
    {
      manager.SetEnabled(on);
      ManagerStateHandler();
    }

    /** The held display changes and emits valid-changed or state-changed. */
    method EmitDisplayChanged(e: Event)
      requires Wired() && manager != null && display != null
      requires e.DisplayValidChanged? || e.DisplayStateChanged?
      modifies display`valid, display`state, manager`powerRequests
      ensures Wired()
      ensures CurrentInputs() == Apply(old(CurrentInputs()), e)
      ensures manager.powerRequests == old(manager.powerRequests) + [Decide(lockTracking, CurrentInputs())]
    {
      if e.DisplayValidChanged? {
        display.SetValid(e.valid);
      } else {
        display.SetState(e.state);
      }
      DisplayStateHandler();
    }

    /** The held lock changes and emits valid-changed or mode-changed. */
    method EmitTklockChanged(e: Event)
      requires Wired() && manager != null && tklock != null
      requires e.TklockValidChanged? || e.TklockModeChanged?
      modifies tklock`valid, tklock`mode, manager`powerRequests
      ensures Wired()
      ensures CurrentInputs() == Apply(old(CurrentInputs()), e)
      ensures manager.powerRequests == old(manager.powerRequests) + [Decide(lockTracking, CurrentInputs())]
    {
      if e.TklockValidChanged? {
        tklock.SetValid(e.valid);
      } else {
        tklock.SetMode(e.mode);
      }
      TklockStateHandler();
    }

    /** One signal emission while running: the source takes its new value
        and, where the plugin has a handler on it, the handler runs. */
    method Emit(e: Event)
      requires Wired() && manager != null
      modifies {manager}`enabled, {manager}`powerRequests, {display}`valid, {display}`state,
        {tklock}`valid, {tklock}`mode
      ensures Wired()
      ensures CurrentInputs() == Apply(old(CurrentInputs()), e)
      ensures manager.powerRequests ==
                old(manager.powerRequests) + StepPushes(lockTracking, old(CurrentInputs()), e)
    {
      if e.EnabledChanged? {
        EmitEnabledChanged(e.enabled);
      } else if e.DisplayValidChanged? || e.DisplayStateChanged? {
        if display != null {
          EmitDisplayChanged(e);
        }
      } else if tklock != null {
        EmitTklockChanged(e);
      }
    }

    /** Emit, recorded in the history of the current run. */
    method Dispatch(e: Event)
      requires Valid() && manager != null
      modifies this`events, {manager}`enabled, {manager}`powerRequests, {display}`valid, {display}`state,
        {tklock}`valid, {tklock}`mode
      ensures Valid()
      ensures manager == old(manager) && display == old(display) && tklock == old(tklock)
      ensures events == old(events) + [e]
      ensures CurrentInputs() == Apply(old(CurrentInputs()), e)
      ensures manager.powerRequests ==
                old(manager.powerRequests) + StepPushes(lockTracking, old(CurrentInputs()), e)
    {
      ghost var now, requests := CurrentInputs(), manager.powerRequests;
      ReachedStep(lockTracking, startInputs, events, requestsAtStart, now, requests, e);
      Emit(e);
      assert CurrentInputs() == Apply(now, e) && manager.powerRequests == requests + StepPushes(lockTracking, now, e);
      events := events + [e];
      assert Wired();
    }

    /** While running, the manager's latest request is the decision on the
        current inputs: every signal is followed by a push of its own. */
    lemma LatestRequestIsCurrent()
      requires Valid() && manager != null
      ensures |manager.powerRequests| > 0
      ensures manager.powerRequests[|manager.powerRequests| - 1] == Decide(lockTracking, CurrentInputs())
    {
      RunLastPushIsCurrent(lockTracking, startInputs, events);
    }
  }

  /** A start followed by a stop gives the manager back as it was: the same
      handlers and references, and the one request that start pushed. */
  method StartThenStop(p: Plugin, m: Nfc.Manager, displayNow: DisplayView, tklockNow: TklockView)
    requires p.Valid() && p.manager == null && m.Valid()
    modifies p, m, p.managerEventId, p.displayEventId, p.tklockEventId
    ensures p.Valid() && p.Stopped()
    ensures m.handlers == old(m.handlers) && m.refs == old(m.refs) && m.enabled == old(m.enabled)
    ensures m.Valid()
    // the one request is start's decision on the objects it created
    ensures m.powerRequests == old(m.powerRequests) +
              [Decide(p.lockTracking, Inputs(old(m.enabled), p.alwaysOn,
                                             if p.alwaysOn then None else Some(displayNow),
                                             old(p.nfcDisableInLocked) || p.lockTracking,
                                             if p.lockTracking then Some(tklockNow) else None))]
  {
    var ok := p.Start(m, displayNow, tklockNow);
    ghost var id := p.managerEventId[ManagerEventEnabled];
    p.Stop();
    assert m.handlers == old(m.handlers)[id := Nfc.EnabledChanged] - {id};
  }

  /** A new plugin started, stopped and started again on the same manager:
      it ends up running, and each start pushed one request, the last one
      being the decision on the inputs it now reads. */
  method RestartOnSameManager(m: Nfc.Manager, lockTracking: bool, settings: Option<bool>,
                              displayNow: DisplayView, tklockNow: TklockView) returns (p: Plugin)
    requires m.Valid()
    modifies m
    ensures p.Valid() && p.manager == m && m.Valid()
    ensures |m.powerRequests| == |old(m.powerRequests)| + 2
    ensures m.powerRequests[..|old(m.powerRequests)|] == old(m.powerRequests)
    ensures m.powerRequests[|m.powerRequests| - 1] == Decide(p.lockTracking, p.CurrentInputs())
  {
    p := new Plugin(lockTracking, settings);
    StartThenStop(p, m, displayNow, tklockNow);
    var ok := p.Start(m, displayNow, tklockNow);
  }
}

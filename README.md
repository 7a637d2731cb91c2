# nfcd mce plugin — power-gate controller

The mce plugin of nfcd decides whether the NFC manager should be powered. It
watches three things: the manager's `enabled` flag, the display state
reported by mce (through libmce-glib's `MceDisplay`) and, when built with
`NFC_DISABLE_IN_LOCKED`, the touchscreen/keypad lock (`MceTklock`). Whenever
any of them signals a change, the plugin recomputes one boolean and passes
it to `nfc_manager_request_power`. There is no edge detection: every signal
leads to exactly one request, even when the value has not changed.

The model has these modules:

- `PowerGate` (`power_gate.dfy`) is the pure decision. `DisplayOn` and
  `UnlockedOn` are the two macros. `Decide` is the expression passed to the
  manager by `mce_plugin_update_power`. `lockTracking` stands for the
  `NFC_DISABLE_IN_LOCKED` build switch, so both builds are verified.
- `Events` (`events.dfy`) is the reaction to signals, on values. An `Event`
  is one signal emission. `Apply` gives the inputs after it. `Run` gives the
  inputs and the pushed requests after a log of events. The lemmas state
  what the handlers promise over any sequence of signals.
- `Nfc`, `MceDisplay` and `MceTklock` are abstract models of the external
  objects. Each has the fields the plugin reads, a reference count, and a
  map from handler ids to the signal each handler is connected to. The
  manager also records every power request it receives.
- `McePlugin` (`mce_plugin.dfy`) is the `McePlugin` struct as a class. It
  holds the nullable `manager`, `display` and `tklock`, the
  `nfc_disable_in_locked` flag, and the three handler-id arrays. `Valid()`
  is its invariant:
  - when stopped, nothing is held and no handler id is recorded;
  - when running, the manager is held with our enabled-changed handler on
    it, the display is held iff `always_on` is false, and the lock is held
    iff lock tracking is built in;
  - the manager's request log is the requests made before start, then one
    request from start, then the `Events.Run` pushes of every signal
    delivered since.

  `Start`, `Stop` and `Dispatch` (one signal emission followed by its
  handler) keep this invariant; the handlers run only inside `Dispatch`,
  through `Emit`.

What the code does, and what the model follows:

- With lock tracking, `always_on` does not bypass the lock. The request is
  `enabled && (always_on || display_on) && (nfc_disable_in_locked && unlocked_on)`.
- The lock is subscribed whatever `always_on` says.
- `always_on` is read once, at object initialisation. It is a `const` of the
  class here, so nothing after the constructor can change it.
- There is no live settings store, no `RequireUnlock` key and no way to
  turn lock tracking on or off at run time: the build switch alone decides.
- Any tklock mode other than `LOCKED` counts as unlocked. That includes the
  silent, dimmed and delayed locked modes (`PowerGate.UnlockedOn`,
  `Events.LockScenario`).
- `nfc_disable_in_locked` is set to TRUE by start and is not reset by stop.

## Model

| member | source | states |
|---|---|---|
| PowerGate.DisplayOn | src/mce_plugin.c:86-87 | an absent or invalid display is never on; a valid one is on exactly when its state is dimmed or on (not OFF) |
| PowerGate.UnlockedOn | src/mce_plugin.c:91-92 | an absent or invalid lock is never unlocked; a valid one counts as unlocked in every mode but LOCKED |
| PowerGate.Decide | src/mce_plugin.c:105-110 | the request implies manager enabled, and always-on or display on; with lock tracking it also implies nfc_disable_in_locked and unlocked (always-on does not bypass the lock); together these conditions imply the request; without lock tracking, always-on makes the request equal enabled |
| PowerGate.DecideIgnoresLockWithoutTracking | src/mce_plugin.c:105-110 | without NFC_DISABLE_IN_LOCKED the lock flag and the lock object play no part in the request |
| Events.Apply | src/mce_plugin.c:154-178 | a signal sets only the property it reports; signals from an object the plugin does not hold change nothing; always-on, nfc_disable_in_locked and which objects are held never change |
| Events.ApplyTwice | src/mce_plugin.c:113-139 | the same signal a second time changes no input further |
| Events.RunKeepsSetup | src/mce_plugin.c:113-139 | no sequence of signals changes always-on, nfc_disable_in_locked or which objects are held, and no signal pushes more than once |
| Events.RunPushesOncePerEvent | src/mce_plugin.c:113-139 | the number of pushes equals the number of signals exactly when every signal comes from an object the plugin holds |
| Events.RunLastPushIsCurrent | src/mce_plugin.c:105-139 | after any sequence of signals the last request pushed is the decision on the current inputs; a sequence that pushed nothing left the inputs as they were |
| Events.RunWhileDisabled | src/mce_plugin.c:105-120 | while the manager stays disabled every request pushed is false |
| Events.RunAlwaysOnFollowsEnabled | src/mce_plugin.c:105-120 | without lock tracking, with always-on and no display held, the requests are exactly the values of the manager's enabled-changed signals, in order |
| Events.ReachedStep | src/mce_plugin.c:113-139 | a state reached by a run of signals, followed by one more signal and its handler, is the state reached by the longer run |
| Events.RepeatedEventPushesAgain | src/mce_plugin.c:113-139 | a signal repeated with the same value is pushed again, with the same request |
| Events.DisplayScenario | src/mce_plugin.c:86-110 | display becoming valid while off, on, off, invalid, with the manager enabled: requests false, true, false, false |
| Events.LockScenario | src/mce_plugin.c:91-110 | with lock tracking and always-on, a valid LOCKED lock gives false, UNLOCKED gives true, SILENT_LOCKED still gives true |
| Nfc.Manager.Ref | src/mce_plugin.c:153 | one more reference is held on the manager |
| Nfc.Manager.AddEnabledChangedHandler | src/mce_plugin.c:154-156 | a new non-zero handler id, not registered before, is connected to enabled-changed and nothing else changes |
| Nfc.Manager.RemoveAllHandlers | src/mce_plugin.c:204 | exactly the ids in the array are disconnected and their slots zeroed |
| Nfc.Manager.Unref | src/mce_plugin.c:205 | one reference on the manager is released |
| Nfc.Manager.RequestPower | src/mce_plugin.c:105 | the request is appended to the manager's request log |
| Nfc.Manager.SetEnabled | src/mce_plugin.c:113-120 | the manager's enabled flag takes the new value before enabled-changed is emitted |
| MceDisplay.Display.constructor | src/mce_plugin.c:160 | a new display reporting the given validity and state, one reference, no handlers |
| MceDisplay.Display.AddValidChangedHandler | src/mce_plugin.c:161-163 | a new non-zero handler id is connected to valid-changed |
| MceDisplay.Display.AddStateChangedHandler | src/mce_plugin.c:164-166 | a new non-zero handler id is connected to state-changed |
| MceDisplay.Display.RemoveAllHandlers | src/mce_plugin.c:193 | exactly the ids in the array are disconnected and their slots zeroed |
| MceDisplay.Display.Unref | src/mce_plugin.c:194 | one reference on the display is released |
| MceDisplay.Display.SetValid | src/mce_plugin.c:122-129 | the display's valid flag takes the new value before valid-changed is emitted |
| MceDisplay.Display.SetState | src/mce_plugin.c:122-129 | the display's state takes the new value before state-changed is emitted |
| MceTklock.Tklock.constructor | src/mce_plugin.c:172 | a new lock reporting the given validity and mode, one reference, no handlers |
| MceTklock.Tklock.AddValidChangedHandler | src/mce_plugin.c:173-175 | a new non-zero handler id is connected to valid-changed |
| MceTklock.Tklock.AddModeChangedHandler | src/mce_plugin.c:176-178 | a new non-zero handler id is connected to mode-changed |
| MceTklock.Tklock.RemoveAllHandlers | src/mce_plugin.c:199 | exactly the ids in the array are disconnected and their slots zeroed |
| MceTklock.Tklock.Unref | src/mce_plugin.c:200 | one reference on the lock is released |
| MceTklock.Tklock.SetValid | src/mce_plugin.c:131-139 | the lock's valid flag takes the new value before valid-changed is emitted |
| MceTklock.Tklock.SetMode | src/mce_plugin.c:131-139 | the lock's mode takes the new value before mode-changed is emitted |
| McePlugin.Plugin.constructor | src/mce_plugin.c:209-221 | a stopped plugin holding nothing, with handler-id arrays of its own (embedded in the C struct); always_on is true exactly when the settings file loads and its AlwaysOn reads true; nfc_disable_in_locked starts FALSE |
| McePlugin.Plugin.CurrentInputs | src/mce_plugin.c:105-108 | the inputs read by the decision: the manager's enabled flag, always_on, nfc_disable_in_locked, and the held display and lock (absent where the pointer is NULL) |
| McePlugin.Plugin.UpdatePower | src/mce_plugin.c:100-111 | exactly one request, the decision on the current inputs, is appended to the manager's log |
| McePlugin.Plugin.ManagerStateHandler | src/mce_plugin.c:113-120 | pushes exactly one request, the current decision |
| McePlugin.Plugin.DisplayStateHandler | src/mce_plugin.c:122-129 | pushes exactly one request, the current decision |
| McePlugin.Plugin.TklockStateHandler | src/mce_plugin.c:131-139 | pushes exactly one request, the current decision |
| McePlugin.Plugin.ConnectDisplay | src/mce_plugin.c:159-167 | a fresh display with exactly two distinct handlers, valid-changed and state-changed, whose ids are recorded in their slots |
| McePlugin.Plugin.ConnectTklock | src/mce_plugin.c:168-179 | a fresh lock with exactly two distinct handlers, valid-changed and mode-changed, whose ids are recorded in their slots |
| McePlugin.Plugin.AttachManager | src/mce_plugin.c:153-156 | the manager is held with one more reference and exactly one new enabled-changed handler, whose id is recorded in its slot |
| McePlugin.Plugin.AttachDisplay | src/mce_plugin.c:158-167 | a fresh display with its two handlers is held exactly when always-on is off; otherwise the display slots stay zero |
| McePlugin.Plugin.AttachTklock | src/mce_plugin.c:168-179 | with lock tracking, nfc_disable_in_locked becomes TRUE and a fresh lock with its two handlers is held; without it nothing changes |
| McePlugin.Plugin.Subscribe | src/mce_plugin.c:152-179 | the subscriptions of start: manager held with one new enabled-changed handler; display iff not always-on; lock and nfc_disable_in_locked iff lock tracking; nothing pushed yet |
| McePlugin.Plugin.Start | src/mce_plugin.c:143-182 | requires no manager held; afterwards the manager is held with one more reference and exactly one new enabled-changed handler; a new display with both handlers iff always-on is off; with lock tracking a new lock with both handlers and nfc_disable_in_locked TRUE; exactly one request pushed, the decision on the new inputs; returns true |
| McePlugin.Plugin.Stop | src/mce_plugin.c:184-207 | nothing is held afterwards; the plugin's handlers are removed from the manager, display and lock, and one reference released on each; no request pushed; nfc_disable_in_locked unchanged; the released manager, display and lock are still valid, and only their handlers and references change (the display's validity and state and the lock's validity and mode stay as they were), so the manager can be started on again |
| McePlugin.Plugin.ReleaseDisplay | src/mce_plugin.c:192-196 | both display handlers are removed, one display reference released, the slots zeroed and the pointer cleared |
| McePlugin.Plugin.ReleaseTklock | src/mce_plugin.c:198-202 | both lock handlers are removed, one lock reference released, the slots zeroed and the pointer cleared |
| McePlugin.Plugin.ReleaseManager | src/mce_plugin.c:204-206 | the enabled-changed handler is removed, one manager reference released, the slot zeroed and the pointer cleared |
| McePlugin.Plugin.EmitEnabledChanged | src/mce_plugin.c:113-120 | the manager's new enabled value is the only input that changes, and exactly one request follows |
| McePlugin.Plugin.EmitDisplayChanged | src/mce_plugin.c:122-129 | the display's new valid flag or state is the only input that changes, and exactly one request follows |
| McePlugin.Plugin.EmitTklockChanged | src/mce_plugin.c:131-139 | the lock's new valid flag or mode is the only input that changes, and exactly one request follows |
| McePlugin.Plugin.Emit | src/mce_plugin.c:113-139 | one signal: the inputs become Events.Apply of the old ones, and one request is pushed iff the plugin holds the signal's source |
| McePlugin.Plugin.Dispatch | src/mce_plugin.c:113-139 | Emit, with the invariant kept: the inputs and the manager's log are still those `Events.Reached` gives for the signals so far, that is the requests before start, then one start request, then the `Events.Run` pushes |
| McePlugin.Plugin.LatestRequestIsCurrent | src/mce_plugin.c:113-139 | while running, the manager's latest request is the decision on the current inputs |
| McePlugin.StartThenStop | src/mce_plugin.c:143-207 | start followed by stop leaves the manager valid, with its handlers, references and enabled flag as they were, and its request log extended by exactly one request: start's decision on the manager's enabled flag, always_on, the display created from `displayNow` (when always_on is off), nfc_disable_in_locked and the lock created from `tklockNow` (with lock tracking) |
| McePlugin.RestartOnSameManager | src/mce_plugin.c:143-221 | a new plugin started, stopped and started again on the same manager is running; the earlier requests are kept, two are added, and the last is the decision on the current inputs |

## Left out

- GLib/GObject type machinery is not modelled: `G_DEFINE_TYPE`, the `THIS` casts, `mce_plugin_class_init`, `mce_plugin_create` and the `NFC_PLUGIN_DEFINE2` registration (src/mce_plugin.c:82-84, 223-248). This is framework plumbing.
- Reading `/var/lib/nfcd/settings` with `GKeyFile` is file I/O in a foreign library. The constructor takes its outcome as a parameter: None when the file does not load, otherwise the boolean `g_key_file_get_boolean` returned.
- Logging (`GVERBOSE`, `GDEBUG`, the log module table) is left out.
- The internals of `nfc_manager_*`, `mce_display_*` and `mce_tklock_*` are not part of this model: D-Bus state tracking, sharing of the display and lock instances between users, and how handler ids are allocated. Their objects are abstract. Handler ids are non-zero and never reused. Remove-all-handlers disconnects the ids in the array and zeroes the slots. A newly created display or lock reports the values passed to `Start`.
- The members of `MceDisplayState` and `MceTklockMode` other than OFF and LOCKED follow the libmce-glib headers. Those headers are not part of this model. The plugin only tests for OFF and LOCKED.
- McePlugin.Plugin.Stop: requires a started plugin. Whether stop on a never-started plugin is safe depends on how `nfc_manager_remove_all_handlers` and `nfc_manager_unref` treat NULL, which is not visible here.
- Whether the external objects emit a signal when a value has not changed is up to those libraries. `Event` stands for one emission, and the model shows that the plugin pushes for each one.
- Each external source is single-threaded and calls back synchronously. No concurrency is modelled.

/** The power decision of the mce plugin: when the display counts as on,
    when the touchscreen/keypad lock counts as unlocked, and how these
    combine with the manager's enabled flag and the always-on setting into
    the one boolean that the plugin requests from the NFC manager. */
module PowerGate {

  datatype Option<T> = None | Some(value: T)

  /** MceDisplayState of libmce-glib. The plugin only tells OFF apart. */
  datatype DisplayState = Off | Dim | On

  /** MceTklockMode of libmce-glib. The plugin only tells LOCKED apart. */
  datatype TklockMode =
    | Locked
    | SilentLocked
    | LockedDim
    | LockedDelay
    | SilentLockedDim
    | Unlocked
    | SilentUnlocked

  /** What the plugin reads from an MceDisplay object. */
  datatype DisplayView = DisplayView(valid: bool, state: DisplayState)

  /** What the plugin reads from an MceTklock object. */
  datatype TklockView = TklockView(valid: bool, mode: TklockMode)

  /** Everything the power decision reads from the plugin and the objects it
      holds. `display` and `tklock` are None where the plugin holds no object
      (its pointer is NULL). */
  datatype Inputs = Inputs(
    enabled: bool,
    alwaysOn: bool,
    display: Option<DisplayView>,
    disableInLocked: bool,
    tklock: Option<TklockView>)

  /** The display-on test: an absent or invalid display is never on, and a
      valid one is on exactly when it is dimmed or fully on. */
  function DisplayOn(d: Option<DisplayView>): (r: bool)
    ensures r ==> d.Some? && d.value.valid
    ensures r <==> d.Some? && d.value.valid && d.value.state in {Dim, On}
  {
    d.Some? && d.value.valid && d.value.state != Off
  }

  /** The unlocked test: an absent or invalid lock is never unlocked, and a
      valid one counts as unlocked in every mode except LOCKED -- the silent,
      dimmed and delayed locked modes included. */
  function UnlockedOn(t: Option<TklockView>): (r: bool)
    ensures r ==> t.Some? && t.value.valid
    ensures r <==> t.Some? && t.value.valid &&
                   t.value.mode in {SilentLocked, LockedDim, LockedDelay, SilentLockedDim, Unlocked, SilentUnlocked}
  {
    t.Some? && t.value.valid && t.value.mode != Locked
  }

  /** The power request pushed by every update. `lockTracking` says whether
      the plugin is built with lock tracking (NFC_DISABLE_IN_LOCKED). */
  function Decide(lockTracking: bool, i: Inputs): (r: bool)
    // a disabled manager is never asked for power
    ensures r ==> i.enabled
    // without always-on, power needs the display on
    ensures r ==> i.alwaysOn || DisplayOn(i.display)
    // with lock tracking the lock is a hard gate: always-on does not bypass it
    ensures lockTracking && r ==> i.disableInLocked && UnlockedOn(i.tklock)
    // and these conditions together are enough
    ensures (i.enabled && (i.alwaysOn || DisplayOn(i.display)) &&
             (lockTracking ==> i.disableInLocked && UnlockedOn(i.tklock))) ==> r
    // without lock tracking, always-on makes the request follow the manager alone
    ensures !lockTracking && i.alwaysOn ==> (r <==> i.enabled)
  {
    i.enabled && (i.alwaysOn || DisplayOn(i.display)) &&
    (if lockTracking then i.disableInLocked && UnlockedOn(i.tklock) else true)
  }

  /** Without lock tracking the lock inputs play no part in the decision. */
  lemma DecideIgnoresLockWithoutTracking(i: Inputs, disable: bool, t: Option<TklockView>)
    ensures Decide(false, i) == Decide(false, i.(disableInLocked := disable, tklock := t))
  {
  }
}

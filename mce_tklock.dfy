/** The part of libmce-glib's MceTklock that the plugin uses: the valid
    flag and the touchscreen/keypad lock mode, each with its change signal, bulk handler
    removal and reference counting. */
module MceTklock {
  import opened PowerGate

  import opened GSignal

  /** The two lock signals the plugin connects to. */
  datatype TklockSignal = ValidChanged | ModeChanged

  class Tklock {
    var valid: bool
    var mode: TklockMode
    var refs: nat
    var handlers: map<HandlerId, TklockSignal>
    var nextId: HandlerId

    ghost predicate Valid()
      reads this`handlers, this`nextId
    {
      0 < nextId && forall id :: id in handlers ==> 0 < id < nextId
    }

    /** What the power decision reads from this lock. */
    function View(): (v: TklockView)
      reads this`valid, this`mode
    {
      TklockView(valid, mode)
    }

    /** mce_tklock_new: `now` is what the lock service reports at the
        time the object is created. */
    constructor (now: TklockView)
      ensures Valid()
      ensures View() == now && refs == 1 && handlers == map[]
    {
      valid, mode := now.valid, now.mode;
      refs := 1;
      handlers := map[];
      nextId := 1;
    }

    /** mce_tklock_unref */
    method Unref()
      requires refs > 0
      modifies this`refs
      ensures refs == old(refs) - 1
    {
      refs := refs - 1;
    }

    /** mce_tklock_add_valid_changed_handler */
    method AddValidChangedHandler() returns (id: HandlerId)
      requires Valid()
      modifies this`handlers, this`nextId
      ensures Valid()
      ensures 0 < id && id !in old(handlers)
      ensures handlers == old(handlers)[id := ValidChanged]
    {
      id := nextId;
      handlers := handlers[id := ValidChanged];
      nextId := nextId + 1;
    }

    /** mce_tklock_add_mode_changed_handler */
    method AddModeChangedHandler() returns (id: HandlerId)
      requires Valid()
      modifies this`handlers, this`nextId
      ensures Valid()
      ensures 0 < id && id !in old(handlers)
      ensures handlers == old(handlers)[id := ModeChanged]
    {
      id := nextId;
      handlers := handlers[id := ModeChanged];
      nextId := nextId + 1;
    }

    /** mce_tklock_remove_all_handlers: disconnects every id in the array
        and zeroes its slot. */
    method RemoveAllHandlers(ids: array<HandlerId>)
      requires Valid()
      modifies this`handlers, ids
      ensures Valid()
      ensures handlers == old(handlers) - set k | 0 <= k < ids.Length :: old(ids[k])
      ensures forall k :: 0 <= k < ids.Length ==> ids[k] == 0
    {
      handlers := handlers - set k | 0 <= k < ids.Length :: ids[k];
      forall k | 0 <= k < ids.Length {
        ids[k] := 0;
      }
    }

    /** The lock service reporting a new valid flag. */
    method SetValid(v: bool)
      modifies this`valid
      ensures valid == v
    {
      valid := v;
    }

    /** The lock service reporting a new mode. */
    method SetMode(m: TklockMode)
      modifies this`mode
      ensures mode == m
    {
      mode := m;
    }
  }
}

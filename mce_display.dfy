/** The part of libmce-glib's MceDisplay that the plugin uses: the valid
    flag and the display state, each with its change signal, bulk handler
    removal and reference counting. */
module MceDisplay {
  import opened PowerGate

  import opened GSignal

  /** The two display signals the plugin connects to. */
  datatype DisplaySignal = ValidChanged | StateChanged

  class Display {
    var valid: bool
    var state: DisplayState
    var refs: nat
    var handlers: map<HandlerId, DisplaySignal>
    var nextId: HandlerId

    ghost predicate Valid()
      reads this`handlers, this`nextId
    {
      0 < nextId && forall id :: id in handlers ==> 0 < id < nextId
    }

    /** What the power decision reads from this display. */
    function View(): (v: DisplayView)
      reads this`valid, this`state
    {
      DisplayView(valid, state)
    }

    /** mce_display_new: `now` is what the display service reports at the
        time the object is created. */
    constructor (now: DisplayView)
      ensures Valid()
      ensures View() == now && refs == 1 && handlers == map[]
    {
      valid, state := now.valid, now.state;
      refs := 1;
      handlers := map[];
      nextId := 1;
    }

    /** mce_display_unref */
    method Unref()
      requires refs > 0
      modifies this`refs
      ensures refs == old(refs) - 1
    {
      refs := refs - 1;
    }

    /** mce_display_add_valid_changed_handler */
    method AddValidChangedHandler() returns (id: HandlerId)
      requires Valid()
      modifies this`handlers, this`nextId
      ensures Valid()
      ensures 0 < id && id !in old(handlers)
      ensures handlers == old(handlers)[id := ValidChanged]
    {
      id := nextId;
      handlers := handlers[id := ValidChanged];
      nextId := nextId + 1;
    }

    /** mce_display_add_state_changed_handler */
    method AddStateChangedHandler() returns (id: HandlerId)
      requires Valid()
      modifies this`handlers, this`nextId
      ensures Valid()
      ensures 0 < id && id !in old(handlers)
      ensures handlers == old(handlers)[id := StateChanged]
    {
      id := nextId;
      handlers := handlers[id := StateChanged];
      nextId := nextId + 1;
    }

    /** mce_display_remove_all_handlers: disconnects every id in the array
        and zeroes its slot. */
    method RemoveAllHandlers(ids: array<HandlerId>)
      requires Valid()
      modifies this`handlers, ids
      ensures Valid()
      ensures handlers == old(handlers) - set k | 0 <= k < ids.Length :: old(ids[k])
      ensures forall k :: 0 <= k < ids.Length ==> ids[k] == 0
    {
      handlers := handlers - set k | 0 <= k < ids.Length :: ids[k];
      forall k | 0 <= k < ids.Length {
        ids[k] := 0;
      }
    }

    /** The display service reporting a new valid flag. */
    method SetValid(v: bool)
      modifies this`valid
      ensures valid == v
    {
      valid := v;
    }

    /** The display service reporting a new state. */
    method SetState(s: DisplayState)
      modifies this`state
      ensures state == s
    {
      state := s;
    }
  }
}

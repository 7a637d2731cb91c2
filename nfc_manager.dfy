/** The part of nfcd's NfcManager that the plugin uses: the enabled flag
    with its change signal, the power request entry point and reference
    counting. Handler ids are allocated as GLib does: never zero, never
    reused while the object lives. */
module Nfc {

  import opened GSignal

  /** The one manager signal the plugin connects to. */
  datatype ManagerSignal = EnabledChanged

  class Manager {
    var enabled: bool
    var refs: nat
    var handlers: map<HandlerId, ManagerSignal>
    var nextId: HandlerId
    /** Every value passed to nfc_manager_request_power, oldest first. */
    var powerRequests: seq<bool>

    ghost predicate Valid()
      reads this`handlers, this`nextId
    {
      0 < nextId && forall id :: id in handlers ==> 0 < id < nextId
    }

    constructor (enabled: bool)
      ensures Valid()
      ensures this.enabled == enabled && refs == 1 && handlers == map[] && powerRequests == []
    {
      this.enabled := enabled;
      refs := 1;
      handlers := map[];
      nextId := 1;
      powerRequests := [];
    }

    /** nfc_manager_ref */
    method Ref()
      modifies this`refs
      ensures refs == old(refs) + 1
    {
      refs := refs + 1;
    }

    /** nfc_manager_unref */
    method Unref()
      requires refs > 0
      modifies this`refs
      ensures refs == old(refs) - 1
    {
      refs := refs - 1;
    }

    /** nfc_manager_add_enabled_changed_handler */
    method AddEnabledChangedHandler() returns (id: HandlerId)
      requires Valid()
      modifies this`handlers, this`nextId
      ensures Valid()
      ensures 0 < id && id !in old(handlers)
      ensures handlers == old(handlers)[id := EnabledChanged]
    {
      id := nextId;
      handlers := handlers[id := EnabledChanged];
      nextId := nextId + 1;
    }

    /** nfc_manager_remove_all_handlers: disconnects every id in the array
        and zeroes its slot. */
    method RemoveAllHandlers(ids: array<HandlerId>)
      requires Valid()
      modifies this`handlers, ids
      ensures Valid()
      ensures handlers == old(handlers) - set k | 0 <= k < ids.Length :: old(ids[k])
      ensures forall k :: 0 <= k < ids.Length ==> ids[k] == 0
    {
      handlers := handlers - set k | 0 <= k < ids.Length :: ids[k];
      forall k | 0 <= k < ids.Length {
        ids[k] := 0;
      }
    }

    /** nfc_manager_request_power */
    method RequestPower(on: bool)
      modifies this`powerRequests
      ensures powerRequests == old(powerRequests) + [on]
    {
      powerRequests := powerRequests + [on];
    }

    /** The manager's enabled flag taking a new value (it then emits its
        enabled-changed signal). */
    method SetEnabled(on: bool)
      modifies this`enabled
      ensures enabled == on
    {
      enabled := on;
    }
  }
}

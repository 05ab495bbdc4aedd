/**
 * `BLEDevice`: one connection to a BLE peripheral.  It owns the cached service
 * catalog and the subscription tables, resolves UUIDs to handles, turns
 * notifications and indications on and off, and fans notifications out to the
 * registered callbacks.  The transport's `char_write_handle` is modelled by an
 * append to the write log `writes`; `discover()` by the catalog argument
 * `discovered`, which is what the backend would return if asked.
 */
module Device {
  import opened Wrappers
  import opened Catalog
  import opened Resolver
  import opened Subscriptions

  class BLEDevice {
    const address: string
    var services: seq<Service>
    var callbacks: map<int, set<CallbackId>>
    var subscribed: map<int, seq<bv8>>
    var writes: seq<Write>
    /** How many times `discover()` has been called. */
    ghost var discoveries: nat

    ghost predicate Valid()
      reads this`callbacks, this`subscribed
    {
      WellFormed(Table(callbacks, subscribed))
    }

    constructor (address: string)
      ensures Valid()
      ensures this.address == address
      ensures services == [] && callbacks == map[] && subscribed == map[]
      ensures writes == [] && discoveries == 0
    {
      this.address := address;
      services := [];
      callbacks := map[];
      subscribed := map[];
      writes := [];
      discoveries := 0;
    }

    /** The backend's raw write, recorded in the write log. */
    method CharWriteHandle(handle: int, value: seq<bv8>, waitForResponse: bool)
      modifies this`writes
      ensures writes == old(writes) + [Write(handle, value, waitForResponse)]
    {
      writes := writes + [Write(handle, value, waitForResponse)];
    }

    /**
     * `get_handle`: search the cache, replace the cache with a discovery on a
     * miss, search again, and raise when the characteristic is still missing.
     */
    method GetHandle(charUuid: Uuid, srvcUuid: Option<Uuid>, discovered: seq<Service>) returns (r: Result<int, BleError>)
      modifies this`services, this`discoveries
      ensures var res := Resolve(old(services), discovered, charUuid, srvcUuid);
              && r == res.result
              && services == res.catalog
              && discoveries == old(discoveries) + (if res.refreshed then 1 else 0)
    {
      var characteristic := FindChar(services, charUuid, srvcUuid);
      if characteristic.None? {
        services := discovered;
        discoveries := discoveries + 1;
      }
      characteristic := FindChar(services, charUuid, srvcUuid);
      if characteristic.None? {
        return Err(CharacteristicNotFound(charUuid, srvcUuid));
      }
      return Ok(characteristic.value.handle);
    }

    /** `char_write`: resolve the UUID, then write the value to its handle. */
    method CharWrite(charUuid: Uuid, value: seq<bv8>, srvcUuid: Option<Uuid>, waitForResponse: bool, discovered: seq<Service>)
      returns (r: Result<(), BleError>)
      modifies this`services, this`discoveries, this`writes
      ensures var res := Resolve(old(services), discovered, charUuid, srvcUuid);
              && services == res.catalog
              && discoveries == old(discoveries) + (if res.refreshed then 1 else 0)
              && match res.result
                 case Ok(handle) => r == Ok(()) && writes == old(writes) + [Write(handle, value, waitForResponse)]
                 case Err(e) => r == Err(e) && writes == old(writes)
    {
      var handle := GetHandle(charUuid, srvcUuid, discovered);
      if handle.Err? {
        return Err(handle.error);
      }
      CharWriteHandle(handle.value, value, waitForResponse);
      r := Ok(());
    }

    /** `_notification_handles`: the value handle and the configuration handle right after it. */
    method NotificationHandles(charUuid: Uuid, srvcUuid: Option<Uuid>, discovered: seq<Service>)
      returns (r: Result<(int, int), BleError>)
      modifies this`services, this`discoveries
      ensures var res := Resolve(old(services), discovered, charUuid, srvcUuid);
              && services == res.catalog
              && discoveries == old(discoveries) + (if res.refreshed then 1 else 0)
              && (r.Ok? <==> res.result.Ok?)
              && (r.Ok? ==> r.value.0 == res.result.value && r.value.1 == r.value.0 + 1)
              && (r.Err? ==> r.error == res.result.error)
    {
      var valueHandle := GetHandle(charUuid, srvcUuid, discovered);
      if valueHandle.Err? {
        return Err(valueHandle.error);
      }
      var characteristicConfigHandle := ConfigHandle(valueHandle.value);
      r := Ok((valueHandle.value, characteristicConfigHandle));
    }

    /**
     * `subscribe`: register the callback, and write the configuration value
     * only when it differs from the one recorded for the value handle.
     */
    method Subscribe(charUuid: Uuid, srvcUuid: Option<Uuid>, callback: Option<CallbackId>, indication: bool, discovered: seq<Service>)
      returns (r: Result<(), BleError>)
      requires Valid()
      modifies this`services, this`discoveries, this`callbacks, this`subscribed, this`writes
      ensures Valid()
      ensures var res := Resolve(old(services), discovered, charUuid, srvcUuid);
              && services == res.catalog
              && discoveries == old(discoveries) + (if res.refreshed then 1 else 0)
              && match res.result
                 case Ok(valueHandle) =>
                   var t := Subscriptions.Subscribe(old(Table(callbacks, subscribed)), valueHandle, callback, indication);
                   && r == Ok(())
                   && Table(callbacks, subscribed) == t.table
                   && writes == old(writes) + Issued(t.write)
                 case Err(e) =>
                   && r == Err(e)
                   && callbacks == old(callbacks) && subscribed == old(subscribed) && writes == old(writes)
    {
      var handles := NotificationHandles(charUuid, srvcUuid, discovered);
      if handles.Err? {
        return Err(handles.error);
      }
      var (valueHandle, characteristicConfigHandle) := handles.value;
      var properties := ConfigValue(indication);
      ghost var before := Table(callbacks, subscribed);
      if callback.Some? {
        callbacks := callbacks[valueHandle := Registered(callbacks, valueHandle) + {callback.value}];
      }
      if Get(subscribed, valueHandle) != Some(properties) {
        CharWriteHandle(characteristicConfigHandle, properties, false);
        subscribed := subscribed[valueHandle := properties];
      }
      SubscribePreservesWellFormed(before, valueHandle, callback, indication);
      r := Ok(());
    }

    /**
     * `unsubscribe`: drop the callbacks of the value handle, and write the
     * disable value only when a subscription record existed.  Like the
     * source, it resolves the UUID without a service UUID.
     */
    method Unsubscribe(charUuid: Uuid, discovered: seq<Service>) returns (r: Result<(), BleError>)
      requires Valid()
      modifies this`services, this`discoveries, this`callbacks, this`subscribed, this`writes
      ensures Valid()
      ensures var res := Resolve(old(services), discovered, charUuid, None);
              && services == res.catalog
              && discoveries == old(discoveries) + (if res.refreshed then 1 else 0)
              && match res.result
                 case Ok(valueHandle) =>
                   var t := Subscriptions.Unsubscribe(old(Table(callbacks, subscribed)), valueHandle);
                   && r == Ok(())
                   && Table(callbacks, subscribed) == t.table
                   && writes == old(writes) + Issued(t.write)
                 case Err(e) =>
                   && r == Err(e)
                   && callbacks == old(callbacks) && subscribed == old(subscribed) && writes == old(writes)
    {
      var handles := NotificationHandles(charUuid, None, discovered);
      if handles.Err? {
        return Err(handles.error);
      }
      var (valueHandle, characteristicConfigHandle) := handles.value;
      var properties := DisableValue;
      ghost var before := Table(callbacks, subscribed);
      if valueHandle in callbacks {
        callbacks := callbacks - {valueHandle};
      }
      if valueHandle in subscribed {
        subscribed := subscribed - {valueHandle};
        CharWriteHandle(characteristicConfigHandle, properties, false);
      }
      UnsubscribePreservesWellFormed(before, valueHandle);
      r := Ok(());
    }

    /**
     * `receive_notification`: call every callback registered for the handle
     * once with the handle and the value; a handle without callbacks is
     * ignored.  The calls are returned in the order they were made.
     */
    method ReceiveNotification(handle: int, value: seq<bv8>) returns (calls: seq<Invocation>)
      ensures |calls| == |Registered(callbacks, handle)|
      ensures forall cb :: multiset(calls)[Invocation(cb, handle, value)]
                           == if cb in Registered(callbacks, handle) then 1 else 0
      ensures forall c :: c in calls ==> c.handle == handle && c.value == value
    {
      calls := [];
      if handle in callbacks {
        var pending := callbacks[handle];
        while pending != {}
          invariant pending <= callbacks[handle]
          invariant |calls| + |pending| == |callbacks[handle]|
          invariant forall cb :: multiset(calls)[Invocation(cb, handle, value)]
                                 == if cb in callbacks[handle] - pending then 1 else 0
          invariant forall c :: c in calls ==> c.handle == handle && c.value == value
          decreases pending
        {
          var callback :| callback in pending;
          calls := calls + [Invocation(callback, handle, value)];
          pending := pending - {callback};
        }
      }
    }
  }
}

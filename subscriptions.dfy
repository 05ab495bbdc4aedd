/**
 * Subscription bookkeeping of `BLEDevice`: the callbacks registered per value
 * handle (`_callbacks`), the configuration value last written per value handle
 * (`_subscribed_handlers`), and the configuration writes that subscribing and
 * unsubscribing issue.
 */
module Subscriptions {
  import opened Wrappers

  /** An opaque reference to a caller's callback function. */
  type CallbackId = nat

  /** One `char_write_handle(handle, value, wait_for_response)` call. */
  datatype Write = Write(handle: int, value: seq<bv8>, waitForResponse: bool)

  /** The two dictionaries that subscribe and unsubscribe update. */
  datatype Table = Table(callbacks: map<int, set<CallbackId>>, subscribed: map<int, seq<bv8>>)

  /** The table after one operation, and the configuration write it issued, if any. */
  datatype Transition = Transition(table: Table, write: Option<Write>)

  /** One call `callback(handle, value)` made by the notification fan-out. */
  datatype Invocation = Invocation(callback: CallbackId, handle: int, value: seq<bv8>)

  const NotificationValue: seq<bv8> := [0x01, 0x00]
  const IndicationValue: seq<bv8> := [0x02, 0x00]
  const DisableValue: seq<bv8> := [0x00, 0x00]

  /** The two-byte configuration value read as a little-endian 16-bit number. */
  function LittleEndian16(v: seq<bv8>): nat
    requires |v| == 2
  {
    v[0] as nat + 256 * v[1] as nat
  }

  /**
   * The configuration descriptor is taken to follow the value handle directly
   * (`_notification_handles`).
   */
  function ConfigHandle(valueHandle: int): int
  {
    valueHandle + 1
  }

  /** The configuration value subscribe writes: properties 0x0002 for indications, 0x0001 otherwise. */
  function ConfigValue(indication: bool): (v: seq<bv8>)
    ensures |v| == 2 && v[1] == 0x00
    ensures LittleEndian16(v) == if indication then 0x0002 else 0x0001
    ensures v != DisableValue
  {
    if indication then IndicationValue else NotificationValue
  }

  /** The callbacks registered for a handle; none when the handle has no entry. */
  function Registered(callbacks: map<int, set<CallbackId>>, handle: int): set<CallbackId>
  {
    if handle in callbacks then callbacks[handle] else {}
  }

  /** The writes an optional write contributes to the write log. */
  function Issued(write: Option<Write>): seq<Write>
  {
    if write.Some? then [write.value] else []
  }

  /**
   * The shape the two dictionaries keep: every handle with callbacks has a
   * subscription record, callback sets are never empty, and every record holds
   * a notification or indication value.
   */
  ghost predicate WellFormed(t: Table)
  {
    && t.callbacks.Keys <= t.subscribed.Keys
    && (forall h :: h in t.callbacks ==> t.callbacks[h] != {})
    && (forall h :: h in t.subscribed ==> t.subscribed[h] == NotificationValue || t.subscribed[h] == IndicationValue)
  }

  /** The state change of `subscribe` once the value handle is known. */
  function Subscribe(t: Table, valueHandle: int, callback: Option<CallbackId>, indication: bool): (r: Transition)
    ensures r.write.Some? <==> Get(t.subscribed, valueHandle) != Some(ConfigValue(indication))
    ensures r.write.Some? ==> r.write.value == Write(valueHandle + 1, ConfigValue(indication), false)
    ensures r.table.subscribed == t.subscribed[valueHandle := ConfigValue(indication)]
    ensures Registered(r.table.callbacks, valueHandle)
         == Registered(t.callbacks, valueHandle) + (if callback.Some? then {callback.value} else {})
    ensures r.table.callbacks - {valueHandle} == t.callbacks - {valueHandle}
  {
    var callbacks := if callback.Some?
                     then t.callbacks[valueHandle := Registered(t.callbacks, valueHandle) + {callback.value}]
                     else t.callbacks;
    var properties := ConfigValue(indication);
    if Get(t.subscribed, valueHandle) != Some(properties) then
      Transition(Table(callbacks, t.subscribed[valueHandle := properties]),
                 Some(Write(ConfigHandle(valueHandle), properties, false)))
    else
      Transition(Table(callbacks, t.subscribed), None)
  }

  /** The state change of `unsubscribe` once the value handle is known. */
  function Unsubscribe(t: Table, valueHandle: int): (r: Transition)
    ensures r.table.callbacks == t.callbacks - {valueHandle}
    ensures r.table.subscribed == t.subscribed - {valueHandle}
    ensures r.write.Some? <==> valueHandle in t.subscribed
    ensures r.write.Some? ==> r.write.value == Write(valueHandle + 1, DisableValue, false)
  {
    var callbacks := if valueHandle in t.callbacks then t.callbacks - {valueHandle} else t.callbacks;
    if valueHandle in t.subscribed then
      Transition(Table(callbacks, t.subscribed - {valueHandle}),
                 Some(Write(ConfigHandle(valueHandle), DisableValue, false)))
    else
      Transition(Table(callbacks, t.subscribed), None)
  }

  /** Subscribing keeps the dictionaries well formed. */
  lemma SubscribePreservesWellFormed(t: Table, valueHandle: int, callback: Option<CallbackId>, indication: bool)
    requires WellFormed(t)
    ensures WellFormed(Subscribe(t, valueHandle, callback, indication).table)
  {
    var r := Subscribe(t, valueHandle, callback, indication);
    forall h | h in r.table.callbacks
      ensures h in r.table.subscribed && r.table.callbacks[h] != {}
    {
      if h == valueHandle {
        assert Registered(r.table.callbacks, h) == r.table.callbacks[h];
        if callback.None? {
          assert h in t.callbacks;
        }
      } else {
        assert h in t.callbacks - {valueHandle};
      }
    }
  }

  /** Unsubscribing keeps the dictionaries well formed. */
  lemma UnsubscribePreservesWellFormed(t: Table, valueHandle: int)
    requires WellFormed(t)
    ensures WellFormed(Unsubscribe(t, valueHandle).table)
  {
  }

  /** A second identical subscribe changes nothing and writes nothing. */
  lemma SubscribeIdempotent(t: Table, valueHandle: int, callback: Option<CallbackId>, indication: bool)
    ensures var once := Subscribe(t, valueHandle, callback, indication);
            Subscribe(once.table, valueHandle, callback, indication) == Transition(once.table, None)
  {
    var once := Subscribe(t, valueHandle, callback, indication);
    var twice := Subscribe(once.table, valueHandle, callback, indication);
    assert twice.table.callbacks == once.table.callbacks by {
      if callback.Some? {
        assert valueHandle in once.table.callbacks by {
          assert callback.value in Registered(once.table.callbacks, valueHandle);
        }
        assert valueHandle in twice.table.callbacks by {
          assert callback.value in Registered(twice.table.callbacks, valueHandle);
        }
        assert twice.table.callbacks[valueHandle] == once.table.callbacks[valueHandle];
        assert twice.table.callbacks - {valueHandle} == once.table.callbacks - {valueHandle};
      }
    }
  }

  /** `n` identical subscribes in a row: the table after them and the writes they issued. */
  function SubscribeRepeatedly(t: Table, valueHandle: int, callback: Option<CallbackId>, indication: bool, n: nat): (Table, seq<Write>)
    decreases n
  {
    if n == 0 then (t, [])
    else
      var step := Subscribe(t, valueHandle, callback, indication);
      var rest := SubscribeRepeatedly(step.table, valueHandle, callback, indication, n - 1);
      (rest.0, Issued(step.write) + rest.1)
  }

  /** However often an identical subscribe is repeated, only the first may write. */
  lemma {:induction false} RepeatedSubscribeWritesOnce(t: Table, valueHandle: int, callback: Option<CallbackId>, indication: bool, n: nat)
    requires n > 0
    decreases n
    ensures var first := Subscribe(t, valueHandle, callback, indication);
            SubscribeRepeatedly(t, valueHandle, callback, indication, n) == (first.table, Issued(first.write))
  {
    var first := Subscribe(t, valueHandle, callback, indication);
    if n > 1 {
      SubscribeIdempotent(t, valueHandle, callback, indication);
      RepeatedSubscribeWritesOnce(first.table, valueHandle, callback, indication, n - 1);
    }
    assert Issued(first.write) + [] == Issued(first.write);
  }

  /** A second unsubscribe changes nothing and writes nothing. */
  lemma UnsubscribeIdempotent(t: Table, valueHandle: int)
    ensures var once := Unsubscribe(t, valueHandle);
            Unsubscribe(once.table, valueHandle) == Transition(once.table, None)
  {
  }

  /**
   * Unsubscribing after a subscribe always writes the disable value to the
   * configuration handle and leaves no callback for the handle.
   */
  lemma UnsubscribeAfterSubscribe(t: Table, valueHandle: int, callback: Option<CallbackId>, indication: bool)
    ensures var after := Unsubscribe(Subscribe(t, valueHandle, callback, indication).table, valueHandle);
            && after.write == Some(Write(valueHandle + 1, DisableValue, false))
            && Registered(after.table.callbacks, valueHandle) == {}
            && after.table.callbacks == t.callbacks - {valueHandle}
            && after.table.subscribed == t.subscribed - {valueHandle}
  {
  }

  /** In a well-formed table a handle without a subscription record has no callbacks to notify. */
  lemma UnsubscribedHandleIsSilent(t: Table, handle: int)
    requires WellFormed(t)
    requires handle !in t.subscribed
    ensures Registered(t.callbacks, handle) == {}
  {
  }
}

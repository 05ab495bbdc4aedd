# pygatt `BLEDevice` session model

This project models the device-side session of pygatt's `BLEDevice` class (`pygatt/device.py`)
in Dafny and proves properties of it. A `BLEDevice` is one connection to a Bluetooth Low Energy
peripheral. It does three things:

- **Handle resolution** (`__find_char`, `get_handle`). The device caches a catalog of services,
  and each service holds characteristics with attribute handles. A characteristic UUID,
  optionally scoped to a service UUID, resolves to the handle of the first matching
  characteristic in iteration order. On a cache miss the whole catalog is replaced once by the
  result of `discover()`, and the search runs again. If there is still no match, `BLEError` is
  raised.
- **Subscription bookkeeping** (`_notification_handles`, `subscribe`, `unsubscribe`).
  - The configuration handle is the value handle plus one.
  - `subscribe` registers the optional callback. It writes `[0x01, 0x00]` (notification) or
    `[0x02, 0x00]` (indication) only when that value differs from the one recorded for the
    value handle.
  - `unsubscribe` drops the callbacks. It writes `[0x00, 0x00]` and deletes the record only
    when a record exists.
- **Notification fan-out** (`receive_notification`). Every callback registered for the handle
  is called once with the handle and the value. Handles without callbacks are ignored.

Layout:

- `wrappers.dfy`: `Option`, `Result`, and `Get` (Python's `dict.get`).
- `catalog.dfy`: UUIDs, characteristics and services; the nested search of `__find_char` as
  pure functions. It is specified against an independent definition of "the first match in
  iteration order" (`MatchAt`, `FirstMatchAt`).
- `resolver.dfy`: `get_handle` as the pure function `Resolve`. It returns the result, the
  catalog held afterwards, and whether discovery ran. Lemmas cover the hit, refresh and miss
  cases and the stability of the refreshed cache.
- `subscriptions.dfy`: the two dictionaries `_callbacks` and `_subscribed_handlers` as a
  `Table`, plus the pure state changes of `subscribe` and `unsubscribe`. It proves:
  - both changes preserve the well-formedness invariant;
  - subscribe is idempotent, and any number of identical subscribes writes at most once;
  - unsubscribe is idempotent;
  - unsubscribing after a subscribe writes the disable value.
- `device.dfy`: the class `BLEDevice`.
  - Its fields are `services`, `callbacks`, `subscribed` and the write log `writes`. A ghost
    counter `discoveries` counts the calls to `discover()`.
  - Its methods follow the Python methods statement by statement.
  - Each method's `ensures` ties the new state to `Resolve`, `Subscribe` or `Unsubscribe` of
    the old state.
  - `Valid()` is the class invariant: every handle with callbacks has a subscription record,
    callback sets are non-empty, and records hold only the notification or indication value.
- `scenario.dfy`: a client that uses only the class contracts. The Heart Rate Measurement
  characteristic sits at handle 10 of the Heart Rate service.
  - The first lookup discovers the catalog and returns 10.
  - Subscribing twice writes `[0x01, 0x00]` to handle 11 once.
  - A notification reaches the callback once.
  - Unsubscribing writes `[0x00, 0x00]` to handle 11, after which notifications reach nobody.
  - A second unsubscribe writes nothing.
  - `SubscribeTwice.SubscribeTwiceWritesOnce` states the same for any device and any catalog:
    two identical subscribes add at most one write.

Behaviour of the code the model keeps:

- `unsubscribe` takes no service UUID (pygatt/device.py:169, 174). It resolves the
  characteristic UUID unscoped, so it acts on the first match in any service.
- `get_handle` turns strings into UUIDs with `UUID()` (pygatt/device.py:210-214), which raises
  `ValueError` on a malformed or short string such as `"2a37"`. The model takes UUIDs already
  normalised, so the scenario uses full 128-bit forms built on the Bluetooth base UUID.
- The docstring of `get_handle` says it returns `None` when nothing is found
  (pygatt/device.py:208), but the code raises `BLEError` (pygatt/device.py:226-230). The model
  follows the code.
- `_callbacks` and `_subscribed_handlers` are two separate dictionaries
  (pygatt/device.py:33-34). The link between them is the invariant `WellFormed`.

## Model

| member | source | states |
|---|---|---|
| `Catalog.FirstInService` | pygatt/device.py:196-198 | the inner loop returns the index of the first characteristic with the UUID, none earlier matches, and None only when no characteristic from that point on matches |
| `Catalog.Locate` | pygatt/device.py:194-199 | the outer loop returns a position that matches (service in scope, characteristic UUID equal), and no matching position precedes it; None only when no service in scope holds the UUID |
| `Catalog.FindChar` | pygatt/device.py:193-199 | `__find_char` returns a characteristic iff the catalog has a match in scope, and what it returns is the characteristic at the first match in iteration order |
| `Catalog.FirstMatchUnique` | pygatt/device.py:194-198 | the nested loop's first match is a single position, so the search is deterministic |
| `Catalog.FindCharIsFirstMatch` | pygatt/device.py:193-199 | whenever (i, k) is the first match, `__find_char` returns exactly characteristic k of service i |
| `Catalog.ScopedMatchIsUnscopedMatch` | pygatt/device.py:195 | a characteristic found within a named service is also found when no service is named |
| `Resolver.Resolve` | pygatt/device.py:201-235 | `discover()` runs iff the cached catalog has no match; the catalog afterwards is the discovered one exactly then; the call succeeds iff the catalog afterwards has a match, returning the handle of its first match; otherwise it raises the not-found error naming the UUID pair |
| `Resolver.ResolveHit` | pygatt/device.py:217-235 | a pair present in the cache resolves to its first match's handle without calling `discover()` or replacing the catalog |
| `Resolver.ResolveAfterRefresh` | pygatt/device.py:219-235 | a pair missing from the cache but present after discovery resolves to the discovered handle after exactly one refresh, and the discovered catalog is kept |
| `Resolver.ResolveMiss` | pygatt/device.py:224-230 | a pair missing before and after discovery raises the not-found error after exactly one refresh |
| `Resolver.ResolveIsStable` | pygatt/device.py:219-224 | the catalog kept by a successful lookup answers the same pair again from the cache, with the same handle and no discovery |
| `Subscriptions.ConfigValue` | pygatt/device.py:149-152 | the configuration value is two bytes whose little-endian value is 0x0002 for indications and 0x0001 for notifications, and never the disable value |
| `Subscriptions.Subscribe` | pygatt/device.py:154-167 | a write of the configuration value to value handle + 1 happens iff the recorded value is absent or different; afterwards the record is that value; the callback, if any, joins the handle's set; other handles' callbacks are unchanged |
| `Subscriptions.Unsubscribe` | pygatt/device.py:179-191 | the handle's callbacks and record are removed and nothing else changes; one write of `[0x00, 0x00]` to value handle + 1 happens iff a record existed |
| `Subscriptions.SubscribePreservesWellFormed` | pygatt/device.py:154-165 | after subscribe, every handle with callbacks still has a record, callback sets are non-empty, and records hold only the notification or indication value |
| `Subscriptions.UnsubscribePreservesWellFormed` | pygatt/device.py:179-188 | unsubscribe keeps the same invariant |
| `Subscriptions.SubscribeIdempotent` | pygatt/device.py:158-167 | a second identical subscribe leaves the tables as they are and writes nothing |
| `Subscriptions.RepeatedSubscribeWritesOnce` | pygatt/device.py:154-167 | any number of identical subscribes ends in the state of the first, with at most the first one's write |
| `Subscriptions.UnsubscribeIdempotent` | pygatt/device.py:180-191 | a second unsubscribe changes nothing and writes nothing |
| `Subscriptions.UnsubscribeAfterSubscribe` | pygatt/device.py:154-188 | unsubscribe after subscribe always writes `[0x00, 0x00]` to value handle + 1, leaves the handle without callbacks, and restores every other handle's callbacks and records |
| `Subscriptions.UnsubscribedHandleIsSilent` | pygatt/device.py:245-248 | in a well-formed table, a handle without a subscription record has no callbacks, so its notifications are dropped |
| `Device.BLEDevice.constructor` | pygatt/device.py:25-35 | a new session has an empty catalog, no callbacks, no records and no writes, and satisfies the class invariant |
| `Device.BLEDevice.CharWriteHandle` | pygatt/device.py:95-108 | a raw write appends exactly one entry (handle, value, wait flag) to the write log |
| `Device.BLEDevice.GetHandle` | pygatt/device.py:201-235 | returns `Resolve`'s result, holds `Resolve`'s catalog afterwards, and counts one discovery exactly when `Resolve` refreshed |
| `Device.BLEDevice.CharWrite` | pygatt/device.py:80-93 | resolves the UUID as `get_handle` does; on success writes the value to the resolved handle once; on failure writes nothing and returns the error |
| `Device.BLEDevice.NotificationHandles` | pygatt/device.py:118-129 | returns the resolved value handle and a configuration handle equal to it plus one, or the resolution error |
| `Device.BLEDevice.Subscribe` | pygatt/device.py:131-167 | keeps the class invariant; after a successful resolution the tables and write log change exactly as `Subscriptions.Subscribe` says; after a failed one they are untouched and the error is returned |
| `Device.BLEDevice.Unsubscribe` | pygatt/device.py:169-191 | resolves without a service UUID; keeps the class invariant; the tables and write log change exactly as `Subscriptions.Unsubscribe` says, or not at all on a resolution error |
| `Device.BLEDevice.ReceiveNotification` | pygatt/device.py:237-248 | every callback registered for the handle is invoked exactly once with (handle, value); nothing else is invoked; an unregistered handle invokes nothing; no session state changes |
| `SubscribeTwice.SubscribeTwiceWritesOnce` | pygatt/device.py:154-167 | on any device, when the first of two identical subscribes resolves, the second succeeds, calls no discovery (the total count grows by one exactly when the first call missed the cache) and adds no write; the first call only appends to the old write log, at most one write; in every case the two calls together only append to the old write log, at most one write; the class invariant is kept |

## Left out

- The `threading.Lock` and its `with` blocks. The model treats each whole call as one atomic
  step, which the lock does not guarantee: it covers only pygatt/device.py:155-167, 180-191 and
  246-248. The interleavings this loses:
  - `get_handle` (pygatt/device.py:201-235) takes no lock, so two concurrent callers can both
    miss and both call `discover()`, and each replaces the catalog.
  - `char_write`, `subscribe` and `unsubscribe` resolve the handle before taking the lock
    (pygatt/device.py:92, 145-147, 173-175). Another call can therefore run between a call's
    resolution and its locked update or write, for example by replacing the catalog that
    handle came from.
- Logging and `hexlify`. They are diagnostic output only.
- `bond`, `get_rssi`, `char_read`, `char_read_handle` and `disconnect`. In this class they
  only raise `NotImplementedError`; backends implement them.
- `char_write_handle` is modelled only as an append to the write log `writes`. Transport
  errors it may raise in a backend are not modelled.
- Device.BLEDevice.Valid: the class invariant holds only under the assumption that
  `char_write_handle` never raises. `subscribe` adds the callback (pygatt/device.py:156) before
  the write (pygatt/device.py:159). A write that raises skips the record at
  pygatt/device.py:165 and leaves a callback whose handle has no subscription record. That is
  exactly the state `callbacks.Keys <= subscribed.Keys` excludes.
- `discover()` is defined by backends outside this model. It is the argument `discovered`,
  the catalog the backend would return. Discovery failures are not modelled.
- UUID parsing with `uuid.UUID` and the `basestring` shim. UUIDs are already-normalised
  128-bit values, so the `ValueError` raised for malformed strings is not modelled.
- Comparing a UUID with a service or characteristic object relies on `__eq__`, defined
  outside this model. It is modelled as equality with the object's `uuid` field.
- The dictionary keys of the catalog (the UUID strings) are not modelled. The search never
  reads them; the catalog is a sequence in iteration order.
- What callbacks do is not modelled. They are opaque identifiers, and an invocation is a
  recorded `(callback, handle, value)`.
- Device.BLEDevice.ReceiveNotification: the returned invocations come in one arbitrary order,
  since Python set order is unspecified. The contract fixes the multiset of calls, not their
  order. A callback that raises is not modelled; in the source it would end the fan-out early.
- Handles are unbounded integers, as in Python. The 16-bit range of ATT handles is not
  enforced, so value handle + 1 is never wrapped.

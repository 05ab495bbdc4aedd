/**
 * A client of `BLEDevice` driven only by its contracts: the Heart Rate service
 * with its Heart Rate Measurement characteristic at handle 10, resolved,
 * subscribed twice, unsubscribed, then notified.
 */
module HeartRate {
  import opened Wrappers
  import opened Catalog
  import opened Resolver
  import opened Subscriptions
  import opened Device

  /** 0000180d-0000-1000-8000-00805f9b34fb */
  const HeartRateService: Uuid := 0x0000180d_0000_1000_8000_00805f9b34fb
  /** 00002a37-0000-1000-8000-00805f9b34fb */
  const HeartRateMeasurement: Uuid := 0x00002a37_0000_1000_8000_00805f9b34fb

  const Peripheral: seq<Service> :=
    [Service(HeartRateService, [Characteristic(HeartRateMeasurement, 10)])]

  method HeartRateSession(cb: CallbackId)
  {
    assert FirstMatchAt(Peripheral, HeartRateMeasurement, Some(HeartRateService), 0, 0);
    assert FirstMatchAt(Peripheral, HeartRateMeasurement, None, 0, 0);
    ResolveHit(Peripheral, Peripheral, HeartRateMeasurement, Some(HeartRateService), 0, 0);
    ResolveHit(Peripheral, Peripheral, HeartRateMeasurement, None, 0, 0);

    var device := new BLEDevice("00:11:22:33:44:55");
    // The cache starts empty, so the first lookup discovers the catalog.
    assert !Resolvable([], HeartRateMeasurement, Some(HeartRateService));
    var handle := device.GetHandle(HeartRateMeasurement, Some(HeartRateService), Peripheral);
    assert handle == Ok(10);
    assert device.services == Peripheral && device.discoveries == 1;

    var r := device.Subscribe(HeartRateMeasurement, Some(HeartRateService), Some(cb), false, Peripheral);
    assert r == Ok(());
    assert device.writes == [Write(11, [0x01, 0x00], false)];
    assert device.discoveries == 1;

    r := device.Subscribe(HeartRateMeasurement, Some(HeartRateService), Some(cb), false, Peripheral);
    assert device.writes == [Write(11, [0x01, 0x00], false)];

    var calls := device.ReceiveNotification(10, [0x42]);
    assert Registered(device.callbacks, 10) == {cb};
    assert calls == [Invocation(cb, 10, [0x42])];

    r := device.Unsubscribe(HeartRateMeasurement, Peripheral);
    assert device.writes == [Write(11, [0x01, 0x00], false), Write(11, [0x00, 0x00], false)];
    assert Registered(device.callbacks, 10) == {};

    calls := device.ReceiveNotification(10, [0x43]);
    assert calls == [];

    // A second unsubscribe finds no record and writes nothing.
    r := device.Unsubscribe(HeartRateMeasurement, Peripheral);
    assert r == Ok(());
    assert |device.writes| == 2;
  }
}

/** Any device, any catalog: two identical subscribes put at most one write on the wire. */
module SubscribeTwice {
  import opened Wrappers
  import opened Catalog
  import opened Resolver
  import opened Subscriptions
  import opened Device

  /**
   * Subscribe twice with the same arguments.  When the first call resolves,
   * the second one resolves from the cache to the same handle, calls no
   * discovery and adds nothing to the write log; the first adds at most one write.
   */
  method SubscribeTwiceWritesOnce(device: BLEDevice, charUuid: Uuid, srvcUuid: Option<Uuid>, callback: Option<CallbackId>,
                                  indication: bool, discovered: seq<Service>, later: seq<Service>)
    returns (first: Result<(), BleError>, second: Result<(), BleError>, writesAfterFirst: seq<Write>)
    requires device.Valid()
    modifies device
    ensures device.Valid()
    ensures first.Ok? ==> second == Ok(()) && device.writes == writesAfterFirst
    ensures old(device.writes) <= writesAfterFirst
    ensures |writesAfterFirst| <= |old(device.writes)| + 1
    ensures old(device.writes) <= device.writes && |device.writes| <= |old(device.writes)| + 1
    ensures first.Ok? ==> device.discoveries
                          == old(device.discoveries) + (if Resolvable(old(device.services), charUuid, srvcUuid) then 0 else 1)
  {
    ghost var services0 := device.services;
    ghost var discoveries0 := device.discoveries;
    first := device.Subscribe(charUuid, srvcUuid, callback, indication, discovered);
    writesAfterFirst := device.writes;
    ghost var services1 := device.services;
    ghost var discoveries1 := device.discoveries;
    ghost var table1 := Table(device.callbacks, device.subscribed);
    second := device.Subscribe(charUuid, srvcUuid, callback, indication, later);
    if first.Ok? {
      var res := Resolve(services0, discovered, charUuid, srvcUuid);
      ResolveIsStable(services0, discovered, later, charUuid, srvcUuid);
      assert Resolve(services1, later, charUuid, srvcUuid) == Resolution(res.result, services1, false);
      SubscribeIdempotent(Table(old(device.callbacks), old(device.subscribed)), res.result.value, callback, indication);
      assert device.discoveries == discoveries1;
    }
  }
}

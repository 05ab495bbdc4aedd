/**
 * `BLEDevice.get_handle`: resolve a characteristic UUID, optionally scoped to a
 * service UUID, against the cached catalog, refreshing the catalog from
 * discovery once on a miss.
 */
module Resolver {
  import opened Wrappers
  import opened Catalog

  /** `BLEError("No characteristic found matching ...")`, carrying the UUID pair it names. */
  datatype BleError = CharacteristicNotFound(charUuid: Uuid, srvcUuid: Option<Uuid>)

  /**
   * The outcome of one resolution: the handle or the error, the catalog the
   * device holds afterwards, and whether discovery was called.
   */
  datatype Resolution = Resolution(result: Result<int, BleError>, catalog: seq<Service>, refreshed: bool)

  /**
   * One call of `get_handle` on the catalog `services`, where `discovered` is
   * what `discover()` would return if it were called.
   */
  function Resolve(services: seq<Service>, discovered: seq<Service>, charUuid: Uuid, srvcUuid: Option<Uuid>): (r: Resolution)
    ensures r.refreshed <==> !Resolvable(services, charUuid, srvcUuid)
    ensures r.catalog == if r.refreshed then discovered else services
    ensures r.result.Ok? <==> Resolvable(r.catalog, charUuid, srvcUuid)
    ensures r.result.Ok? ==> exists i, k :: FirstMatchAt(r.catalog, charUuid, srvcUuid, i, k)
                                          && r.result.value == r.catalog[i].characteristics[k].handle
    ensures r.result.Err? ==> r.result.error == CharacteristicNotFound(charUuid, srvcUuid)
  {
    var first := FindChar(services, charUuid, srvcUuid);
    var catalog := if first.None? then discovered else services;
    var second := FindChar(catalog, charUuid, srvcUuid);
    var result := if second.None? then Err(CharacteristicNotFound(charUuid, srvcUuid))
                  else Ok(second.value.handle);
    Resolution(result, catalog, first.None?)
  }

  /** A pair already in the catalog resolves to its first match's handle, with no discovery. */
  lemma ResolveHit(services: seq<Service>, discovered: seq<Service>, charUuid: Uuid, srvcUuid: Option<Uuid>, i: int, k: int)
    requires FirstMatchAt(services, charUuid, srvcUuid, i, k)
    ensures Resolve(services, discovered, charUuid, srvcUuid)
         == Resolution(Ok(services[i].characteristics[k].handle), services, false)
  {
    FindCharIsFirstMatch(services, charUuid, srvcUuid, i, k);
  }

  /** A pair missing from the catalog but present after discovery resolves after exactly one refresh. */
  lemma ResolveAfterRefresh(services: seq<Service>, discovered: seq<Service>, charUuid: Uuid, srvcUuid: Option<Uuid>, i: int, k: int)
    requires !Resolvable(services, charUuid, srvcUuid)
    requires FirstMatchAt(discovered, charUuid, srvcUuid, i, k)
    ensures Resolve(services, discovered, charUuid, srvcUuid)
         == Resolution(Ok(discovered[i].characteristics[k].handle), discovered, true)
  {
    FindCharIsFirstMatch(discovered, charUuid, srvcUuid, i, k);
  }

  /** A pair missing before and after discovery fails, after exactly one refresh. */
  lemma ResolveMiss(services: seq<Service>, discovered: seq<Service>, charUuid: Uuid, srvcUuid: Option<Uuid>)
    requires !Resolvable(services, charUuid, srvcUuid)
    requires !Resolvable(discovered, charUuid, srvcUuid)
    ensures Resolve(services, discovered, charUuid, srvcUuid)
         == Resolution(Err(CharacteristicNotFound(charUuid, srvcUuid)), discovered, true)
  {
  }

  /**
   * The catalog left behind by a successful resolution serves the same pair
   * again from the cache: same handle, no discovery, whatever discovery would return.
   */
  lemma ResolveIsStable(services: seq<Service>, discovered: seq<Service>, later: seq<Service>, charUuid: Uuid, srvcUuid: Option<Uuid>)
    requires Resolve(services, discovered, charUuid, srvcUuid).result.Ok?
    ensures var r := Resolve(services, discovered, charUuid, srvcUuid);
            Resolve(r.catalog, later, charUuid, srvcUuid) == Resolution(r.result, r.catalog, false)
  {
    var r := Resolve(services, discovered, charUuid, srvcUuid);
    var i, k :| FirstMatchAt(r.catalog, charUuid, srvcUuid, i, k)
                && r.result.value == r.catalog[i].characteristics[k].handle;
    ResolveHit(r.catalog, later, charUuid, srvcUuid, i, k);
  }
}

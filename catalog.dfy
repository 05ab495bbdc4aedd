/**
 * The cached catalog of a BLE device: services, each holding characteristics,
 * each characteristic reachable through an attribute handle.  The catalog is a
 * sequence so that "the first match in iteration order" of the Python
 * dictionaries keeps its meaning.
 */
module Catalog {
  import opened Wrappers

  /** A 128-bit UUID, already normalised: two UUIDs are equal iff their values are. */
  newtype Uuid = x: int | 0 <= x < 0x1_0000_0000_0000_0000_0000_0000_0000_0000

  datatype Characteristic = Characteristic(uuid: Uuid, handle: int)

  datatype Service = Service(uuid: Uuid, characteristics: seq<Characteristic>)

  /** A service is searched when no service UUID is given, or when it is that service. */
  predicate InScope(s: Service, srvcUuid: Option<Uuid>)
  {
    srvcUuid.None? || srvcUuid.value == s.uuid
  }

  /** Characteristic `k` of service `i` answers the query. */
  ghost predicate MatchAt(services: seq<Service>, charUuid: Uuid, srvcUuid: Option<Uuid>, i: int, k: int)
  {
    && 0 <= i < |services|
    && InScope(services[i], srvcUuid)
    && 0 <= k < |services[i].characteristics|
    && services[i].characteristics[k].uuid == charUuid
  }

  /** Some characteristic of the catalog answers the query. */
  ghost predicate Resolvable(services: seq<Service>, charUuid: Uuid, srvcUuid: Option<Uuid>)
  {
    exists i, k :: MatchAt(services, charUuid, srvcUuid, i, k)
  }

  /** Position (i, k) is visited before (i', k') by the nested loop over services and characteristics. */
  predicate Precedes(i: int, k: int, i': int, k': int)
  {
    i < i' || (i == i' && k < k')
  }

  /** (i, k) is the match the nested loop meets first. */
  ghost predicate FirstMatchAt(services: seq<Service>, charUuid: Uuid, srvcUuid: Option<Uuid>, i: int, k: int)
  {
    && MatchAt(services, charUuid, srvcUuid, i, k)
    && forall i', k' :: MatchAt(services, charUuid, srvcUuid, i', k') ==> !Precedes(i', k', i, k)
  }

  /** The inner loop of the search: the first characteristic at or after `k` with the UUID. */
  function FirstInService(chars: seq<Characteristic>, charUuid: Uuid, k: nat): (r: Option<nat>)
    requires k <= |chars|
    decreases |chars| - k
    ensures r.Some? ==> k <= r.value < |chars| && chars[r.value].uuid == charUuid
    ensures r.Some? ==> forall j :: k <= j < r.value ==> chars[j].uuid != charUuid
    ensures r.None? ==> forall j :: k <= j < |chars| ==> chars[j].uuid != charUuid
  {
    if k == |chars| then None
    else if chars[k].uuid == charUuid then Some(k)
    else FirstInService(chars, charUuid, k + 1)
  }

  /** The outer loop of the search, from service `i` on: the position of the first match. */
  function Locate(services: seq<Service>, charUuid: Uuid, srvcUuid: Option<Uuid>, i: nat): (r: Option<(nat, nat)>)
    requires i <= |services|
    decreases |services| - i
    ensures r.Some? ==> i <= r.value.0 && MatchAt(services, charUuid, srvcUuid, r.value.0, r.value.1)
    ensures r.Some? ==> forall i', k' :: i <= i' && MatchAt(services, charUuid, srvcUuid, i', k') ==>
                          !Precedes(i', k', r.value.0, r.value.1)
    ensures r.None? ==> forall i', k' :: i <= i' ==> !MatchAt(services, charUuid, srvcUuid, i', k')
  {
    if i == |services| then None
    else
      var found := if InScope(services[i], srvcUuid)
                   then FirstInService(services[i].characteristics, charUuid, 0)
                   else None;
      if found.Some? then Some((i, found.value))
      else Locate(services, charUuid, srvcUuid, i + 1)
  }

  /**
   * `BLEDevice.__find_char`: the first characteristic with the UUID, searching
   * only the services in scope, or None when the catalog holds none.
   */
  function FindChar(services: seq<Service>, charUuid: Uuid, srvcUuid: Option<Uuid>): (r: Option<Characteristic>)
    ensures r.Some? <==> Resolvable(services, charUuid, srvcUuid)
    ensures r.Some? ==> exists i, k :: FirstMatchAt(services, charUuid, srvcUuid, i, k)
                                     && r.value == services[i].characteristics[k]
  {
    match Locate(services, charUuid, srvcUuid, 0)
    case None => None
    case Some((i, k)) =>
      assert FirstMatchAt(services, charUuid, srvcUuid, i, k);
      Some(services[i].characteristics[k])
  }

  /** The nested loop meets exactly one match first. */
  lemma FirstMatchUnique(services: seq<Service>, charUuid: Uuid, srvcUuid: Option<Uuid>, i: int, k: int, i': int, k': int)
    requires FirstMatchAt(services, charUuid, srvcUuid, i, k)
    requires FirstMatchAt(services, charUuid, srvcUuid, i', k')
    ensures i == i' && k == k'
  {
    assert !Precedes(i', k', i, k);
    assert !Precedes(i, k, i', k');
  }

  /** The search returns the characteristic at the first match, whichever it is. */
  lemma FindCharIsFirstMatch(services: seq<Service>, charUuid: Uuid, srvcUuid: Option<Uuid>, i: int, k: int)
    requires FirstMatchAt(services, charUuid, srvcUuid, i, k)
    ensures FindChar(services, charUuid, srvcUuid) == Some(services[i].characteristics[k])
  {
    var r := FindChar(services, charUuid, srvcUuid);
    var i', k' :| FirstMatchAt(services, charUuid, srvcUuid, i', k') && r.value == services[i'].characteristics[k'];
    FirstMatchUnique(services, charUuid, srvcUuid, i, k, i', k');
  }

  /** A characteristic found within a named service is also found when no service is named. */
  lemma ScopedMatchIsUnscopedMatch(services: seq<Service>, charUuid: Uuid, srvcUuid: Uuid)
    requires Resolvable(services, charUuid, Some(srvcUuid))
    ensures Resolvable(services, charUuid, None)
  {
    var i, k :| MatchAt(services, charUuid, Some(srvcUuid), i, k);
    assert MatchAt(services, charUuid, None, i, k);
  }
}

/** The device registry: renderer records keyed by UDN, each with an absolute expiry
    time. Wall-clock time is the integer parameter `now` (seconds). */
module Registry {
  import opened Wrappers

  datatype Device = Device(
    udn: string,
    name: string,
    urlBase: string,
    ctrlUrl: string,
    localUrl: string,    // the local address the renderer reached this host on
    expired: int)        // absolute expiry time

  type Devices = map<string, Device>

  /** Used when the SSDP response has no parsable `CACHE-CONTROL: max-age=<n>`. */
  const DefaultMaxAge: int := 100

  /** Every record is filed under its own UDN (discovery keys the map by the record's UDN). */
  predicate Consistent(m: Devices) {
    forall k :: k in m ==> m[k].udn == k
  }

  /** True when the record has expired at `now` in the sense ListDevices evicts
      (`Expired.Before(now)`). */
  predicate ExpiredAt(d: Device, now: int) {
    d.expired < now
  }

  /** The record discovery builds from a descriptor: `maxAge` is the parsed max-age
      (None when absent or unparsable), and the record expires that many seconds after `now`. */
  function NewDevice(udn: string, name: string, urlBase: string, ctrlUrl: string,
                     localUrl: string, maxAge: Option<int>, now: int): (d: Device)
    ensures d.expired - now == (if maxAge.Some? then maxAge.value else DefaultMaxAge)
    ensures d.udn == udn && d.name == name && d.urlBase == urlBase
    ensures d.ctrlUrl == ctrlUrl && d.localUrl == localUrl
  {
    var age := if maxAge.Some? then maxAge.value else DefaultMaxAge;
    Device(udn, name, urlBase, ctrlUrl, localUrl, now + age)
  }

  /** Files a rediscovered record. A new UDN is inserted; an existing record is replaced
      only while its stored expiry is still after `now`; an existing record that has
      already reached its expiry is kept as it is. No other key is touched. */
  function Upsert(m: Devices, d: Device, now: int): (m': Devices)
    ensures m'.Keys == m.Keys + {d.udn}
    ensures forall k :: k in m && k != d.udn ==> m'[k] == m[k]
    ensures d.udn !in m ==> m'[d.udn] == d
    ensures d.udn in m && m[d.udn].expired > now ==> m'[d.udn] == d
    ensures d.udn in m && m[d.udn].expired <= now ==> m'[d.udn] == m[d.udn]
  {
    if d.udn in m then
      if m[d.udn].expired > now then m[d.udn := d] else m
    else m[d.udn := d]
  }

  /** A run of rediscoveries at the same instant. */
  function UpsertAll(m: Devices, ds: seq<Device>, now: int): Devices
    decreases |ds|
  {
    if |ds| == 0 then m else UpsertAll(Upsert(m, ds[0], now), ds[1..], now)
  }

  lemma UpsertKeepsConsistent(m: Devices, d: Device, now: int)
    requires Consistent(m)
    ensures Consistent(Upsert(m, d, now))
  {
  }

  /** Once a record's expiry has been reached, no rediscovery at that time refreshes it:
      only eviction by ListDevices lets the UDN be filed again. */
  lemma {:induction false} ReachedExpiryIsSticky(m: Devices, ds: seq<Device>, now: int, k: string)
    requires k in m && m[k].expired <= now
    ensures k in UpsertAll(m, ds, now) && UpsertAll(m, ds, now)[k] == m[k]
    decreases |ds|
  {
    if |ds| > 0 {
      var m1 := Upsert(m, ds[0], now);
      assert k in m1 && m1[k] == m[k];
      ReachedExpiryIsSticky(m1, ds[1..], now, k);
    }
  }

  /** The map left behind by ListDevices: every record not expired at `now`. */
  function Evict(m: Devices, now: int): (m': Devices)
    ensures forall k :: k in m' ==> !ExpiredAt(m'[k], now)
    ensures forall k :: k in m' <==> k in m && !ExpiredAt(m[k], now)
    ensures forall k :: k in m' ==> m'[k] == m[k]
  {
    map k | k in m && !ExpiredAt(m[k], now) :: m[k]
  }

  /** The life of a newly discovered record filed at time t with max-age a: a
      rediscovery strictly before t + a replaces it, one from t + a on leaves it as it is,
      and listing keeps it up to t + a and evicts it after. */
  lemma DiscoveredRecordLifetime(m: Devices, udn: string, name: string, urlBase: string, ctrlUrl: string,
                                 localUrl: string, maxAge: Option<int>, t: int, d: Device, t2: int, t3: int)
    requires udn !in m && d.udn == udn
    ensures var first := NewDevice(udn, name, urlBase, ctrlUrl, localUrl, maxAge, t);
            var age := if maxAge.Some? then maxAge.value else DefaultMaxAge;
            && Upsert(Upsert(m, first, t), d, t2)[udn] == (if t2 < t + age then d else first)
            && (udn in Evict(Upsert(m, first, t), t3) <==> t3 <= t + age)
  {
  }

  /** Lists the registry in arbitrary (map) order, deleting expired records as it goes.
      The list holds one entry for every record present before the call, the expired
      ones included; the map afterwards holds only records not expired at `now`. */
  method ListDevices(m: Devices, now: int) returns (list: seq<Device>, m': Devices)
    ensures m' == Evict(m, now)
    ensures |list| == |m|
    ensures forall k :: k in m ==> m[k] in list
    ensures forall i :: 0 <= i < |list| ==> list[i] in m.Values
    ensures Consistent(m) ==> forall i, j :: 0 <= i < j < |list| ==> list[i].udn != list[j].udn
  {
    list := [];
    m' := m;
    var remaining := m.Keys;
    ghost var visited: seq<string> := [];
    while remaining != {}
      invariant Listing(m, now, list, m', remaining, visited)
      decreases remaining
    {
      var k :| k in remaining;
      ListingStep(m, now, list, m', remaining, visited, k);
      if ExpiredAt(m[k], now) {
        m' := m' - {k};
      }
      list := list + [m[k]];
      visited := visited + [k];
      remaining := remaining - {k};
    }
    ListingDone(m, now, list, m', visited);
    ListCovers(m, list, visited);
    if Consistent(m) {
      ListDistinct(m, list, visited);
    }
  }

  /** The state of the ListDevices loop once the keys outside `remaining` have been
      visited, in the order `visited`: each visited record is listed once, in order, and
      deleted from the map when expired; the unvisited ones are still in the map. */
  ghost predicate Listing(m: Devices, now: int, list: seq<Device>, m': Devices,
                          remaining: set<string>, visited: seq<string>) {
    && remaining <= m.Keys
    && |list| + |remaining| == |m|
    && Listed(m - remaining, list, visited)
    && (forall i, j :: 0 <= i < j < |visited| ==> visited[i] != visited[j])
    && m' == map k | k in m && (k in remaining || !ExpiredAt(m[k], now)) :: m[k]
  }

  lemma ListingStep(m: Devices, now: int, list: seq<Device>, m': Devices,
                    remaining: set<string>, visited: seq<string>, k: string)
    requires Listing(m, now, list, m', remaining, visited) && k in remaining
    ensures Listing(m, now, list + [m[k]], if ExpiredAt(m[k], now) then m' - {k} else m',
                    remaining - {k}, visited + [k])
  {
  }

  lemma ListingDone(m: Devices, now: int, list: seq<Device>, m': Devices, visited: seq<string>)
    requires Listing(m, now, list, m', {}, visited)
    ensures m' == Evict(m, now) && |list| == |m|
    ensures Listed(m, list, visited)
    ensures forall i, j :: 0 <= i < j < |visited| ==> visited[i] != visited[j]
    ensures forall i :: 0 <= i < |list| ==> list[i] in m.Values
  {
  }

  /** The list pairs each visited key with its record, and every key has been visited. */
  ghost predicate Listed(m: Devices, list: seq<Device>, visited: seq<string>) {
    && |visited| == |list|
    && (forall i :: 0 <= i < |list| ==> visited[i] in m && list[i] == m[visited[i]])
    && (forall k :: k in m ==> k in visited)
  }

  lemma ListCovers(m: Devices, list: seq<Device>, visited: seq<string>)
    requires Listed(m, list, visited)
    ensures forall k :: k in m ==> m[k] in list
  {
  }

  lemma ListDistinct(m: Devices, list: seq<Device>, visited: seq<string>)
    requires Consistent(m) && Listed(m, list, visited)
    requires forall i, j :: 0 <= i < j < |visited| ==> visited[i] != visited[j]
    ensures forall i, j :: 0 <= i < j < |list| ==> list[i].udn != list[j].udn
  {
  }

  /** The name lookup of SelectDeviceByName: the UDN field of some record with that
      friendly name (whichever the map yields first), or "" when there is none. */
  method FindUdnByName(m: Devices, name: string) returns (udn: string)
    ensures (exists k :: k in m && m[k].name == name) ==>
              exists k :: k in m && m[k].name == name && m[k].udn == udn
    ensures (forall k :: k in m ==> m[k].name != name) ==> udn == ""
  {
    udn := "";
    var remaining := m.Keys;
    while remaining != {}
      invariant remaining <= m.Keys
      invariant forall k :: k in m && k !in remaining ==> m[k].name != name
      decreases remaining
    {
      var k :| k in remaining;
      if m[k].name == name {
        udn := m[k].udn;
        return;
      }
      remaining := remaining - {k};
    }
  }
}

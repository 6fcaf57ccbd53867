/** The cache-in-front-of-the-platform logic all three wrapper classes share: `getService` and
    `getCharacteristic` as functions of the connection flag, the server's services, the two caches
    and the UUIDs asked for, and the way `readValue` turns a DataView into the requested type.
    The classes in WebBluetooth, WebBluetoothScript and WebBluetoothDevice are proved to behave
    as these functions say; the lemmas here state what that behaviour promises. */
module GattCache {

  import opened Wrappers
  import opened Transform
  import opened Gatt

  /** Why a lookup throws (the rejected promise). */
  datatype Failure =
    | NotConnected                      // `Error('Device not connected')`
    | TypeError                         // a property read on `null` or `undefined`
    | ServiceNotFound(service: Uuid)    // `getPrimaryService` rejected
    | CharacteristicNotFound(characteristic: Uuid)  // `service.getCharacteristic` rejected

  /** The two Maps a wrapper keeps: services by service UUID, characteristics by characteristic UUID. */
  datatype Caches = Caches(services: map<Uuid, Service>, characteristics: map<Uuid, RemoteCharacteristic>)

  const Empty := Caches(map[], map[])

  /** The outcome of one call, the caches after it, and how many platform lookups it made. */
  datatype Step<T> = Step(result: Result<T, Failure>, caches: Caches, serviceLookups: nat, characteristicLookups: nat)

  /** `getService(u)`: throw when not connected; otherwise answer from the cache, or ask the
      server (None when the wrapper holds no server: a TypeError), store what it returns under
      `u`, and rethrow a rejection without caching anything. */
  function GetService(connected: bool, server: Option<map<Uuid, Service>>, caches: Caches, u: Uuid): Step<Service> {
    if !connected then Step(Failure(NotConnected), caches, 0, 0)
    else if u in caches.services then Step(Success(caches.services[u]), caches, 0, 0)
    else match server
      case None => Step(Failure(TypeError), caches, 0, 0)
      case Some(primary) =>
        if u in primary then Step(Success(primary[u]), caches.(services := caches.services[u := primary[u]]), 1, 0)
        else Step(Failure(ServiceNotFound(u)), caches, 1, 0)
  }

  /** `getCharacteristic(s, c)`: throw when not connected; otherwise answer from the
      characteristic cache, which is keyed by `c` alone, or go through `getService(s)` and ask
      that service, storing what it returns under `c`. */
  function GetCharacteristic(connected: bool, server: Option<map<Uuid, Service>>, caches: Caches, s: Uuid, c: Uuid): Step<RemoteCharacteristic> {
    if !connected then Step(Failure(NotConnected), caches, 0, 0)
    else if c in caches.characteristics then Step(Success(caches.characteristics[c]), caches, 0, 0)
    else
      var st := GetService(connected, server, caches, s);
      match st.result
      case Failure(e) => Step(Failure(e), st.caches, st.serviceLookups, 0)
      case Success(service) =>
        if c in service.characteristics then
          var ch := service.characteristics[c];
          Step(Success(ch), st.caches.(characteristics := st.caches.characteristics[c := ch]), st.serviceLookups, 1)
        else Step(Failure(CharacteristicNotFound(c)), st.caches, st.serviceLookups, 1)
  }

  /** Every cached entry is what the server itself offers: a cached service is the server's
      service of that UUID, a cached characteristic belongs to one of the server's services
      under that UUID. */
  ghost predicate Coherent(caches: Caches, primary: map<Uuid, Service>) {
    && (forall u | u in caches.services :: u in primary && caches.services[u] == primary[u])
    && (forall c | c in caches.characteristics :: Offered(primary, c, caches.characteristics[c]))
  }

  /** `ch` is the characteristic `c` of some service of the server. */
  ghost predicate Offered(primary: map<Uuid, Service>, c: Uuid, ch: RemoteCharacteristic) {
    exists u | u in primary :: c in primary[u].characteristics && primary[u].characteristics[c] == ch
  }

  /** A characteristic the server offers is one of the server's characteristics. */
  lemma OfferedIsCharacteristicOf(primary: map<Uuid, Service>, c: Uuid, ch: RemoteCharacteristic)
    requires Offered(primary, c, ch)
    ensures ch in CharacteristicsOf(primary)
  {
    var u :| u in primary && c in primary[u].characteristics && primary[u].characteristics[c] == ch;
    assert primary[u] in primary.Values;
    assert ch in primary[u].characteristics.Values;
  }

  /** Lookups throw "Device not connected" whenever the wrapper is not connected, before either
      cache or the platform is touched. */
  lemma NotConnectedThrows(server: Option<map<Uuid, Service>>, caches: Caches, s: Uuid, c: Uuid)
    ensures GetService(false, server, caches, s) == Step(Failure(NotConnected), caches, 0, 0)
    ensures GetCharacteristic(false, server, caches, s, c) == Step(Failure(NotConnected), caches, 0, 0)
  {
  }

  /** A cached service is returned as it is, with no lookup and no change to the caches. */
  lemma ServiceCacheHit(server: Option<map<Uuid, Service>>, caches: Caches, u: Uuid)
    requires u in caches.services
    ensures GetService(true, server, caches, u) == Step(Success(caches.services[u]), caches, 0, 0)
  {
  }

  /** A service miss stores what the server returned under exactly `u`; a failure leaves both
      caches as they were (no negative entry). */
  lemma ServiceMissStores(server: Option<map<Uuid, Service>>, caches: Caches, u: Uuid)
    requires u !in caches.services
    ensures var st := GetService(true, server, caches, u);
      && (st.result.Success? ==> st.caches == caches.(services := caches.services[u := st.result.value]))
      && (st.result.Failure? ==> st.caches == caches)
      && st.serviceLookups == (if server.Some? then 1 else 0)
  {
  }

  /** Two `getService(u)` calls in a row: once the first has succeeded the second returns the
      same service with no lookup, so together they make one lookup at most; a failure is not
      remembered, so the second call repeats the lookup and fails the same way. */
  lemma {:induction false} ServiceTwice(server: Option<map<Uuid, Service>>, caches: Caches, u: Uuid)
    ensures var first := GetService(true, server, caches, u);
      var second := GetService(true, server, first.caches, u);
      && (first.result.Success? ==> second == Step(first.result, first.caches, 0, 0))
      && (first.result.Success? ==> first.serviceLookups + second.serviceLookups <= 1)
      && (first.result.Failure? ==> second == first)
  {
    var first := GetService(true, server, caches, u);
    if first.result.Success? {
      assert u in first.caches.services;
    }
  }

  /** A characteristic hit returns the cached characteristic whatever service UUID is passed. */
  lemma CharacteristicKeyedByUuidOnly(server: Option<map<Uuid, Service>>, caches: Caches, s1: Uuid, s2: Uuid, c: Uuid)
    requires c in caches.characteristics
    ensures GetCharacteristic(true, server, caches, s1, c) == GetCharacteristic(true, server, caches, s2, c)
    ensures GetCharacteristic(true, server, caches, s1, c) == Step(Success(caches.characteristics[c]), caches, 0, 0)
  {
  }

  /** A characteristic miss goes through `getService`: afterwards the owning service is cached
      as well, even when the characteristic lookup itself failed. */
  lemma {:induction false} CharacteristicMissCachesService(primary: map<Uuid, Service>, caches: Caches, s: Uuid, c: Uuid)
    requires c !in caches.characteristics
    requires s in primary
    ensures var st := GetCharacteristic(true, Some(primary), caches, s, c);
      && s in st.caches.services && st.caches.services[s] == (if s in caches.services then caches.services[s] else primary[s])
      && (st.result.Success? <==> c in st.caches.services[s].characteristics)
      && (st.result.Success? ==> st.caches.characteristics == caches.characteristics[c := st.result.value])
      && (st.result.Failure? ==> st.caches.characteristics == caches.characteristics)
  {
    var sv := GetService(true, Some(primary), caches, s);
    assert sv.result.Success? && s in sv.caches.services && sv.caches.services[s] == sv.result.value;
  }

  /** A characteristic failure leaves the characteristic cache as it was. */
  lemma CharacteristicFailureKeepsCache(connected: bool, server: Option<map<Uuid, Service>>, caches: Caches, s: Uuid, c: Uuid)
    ensures var st := GetCharacteristic(connected, server, caches, s, c);
      st.result.Failure? ==> st.caches.characteristics == caches.characteristics
  {
  }

  /** Two `getCharacteristic(s, c)` calls in a row: once the first has succeeded the second
      returns the same characteristic with no lookup at all; after a failure the second fails
      the same way, with no more lookups than the first made. */
  lemma {:induction false} CharacteristicTwice(server: Option<map<Uuid, Service>>, caches: Caches, s: Uuid, c: Uuid)
    ensures var first := GetCharacteristic(true, server, caches, s, c);
      var second := GetCharacteristic(true, server, first.caches, s, c);
      && (first.result.Success? ==> second == Step(first.result, first.caches, 0, 0))
      && (first.result.Success? ==> first.serviceLookups + second.serviceLookups <= 1)
      && (first.result.Success? ==> first.characteristicLookups + second.characteristicLookups <= 1)
      && (first.result.Failure? ==> second.result == first.result && second.caches == first.caches)
      && second.serviceLookups <= first.serviceLookups
      && second.characteristicLookups <= first.characteristicLookups
  {
    var first := GetCharacteristic(true, server, caches, s, c);
    if c !in caches.characteristics {
      var sv := GetService(true, server, caches, s);
      if sv.result.Success? {
        assert s in sv.caches.services;
        assert s in first.caches.services;
      } else {
        assert first.caches == caches;
      }
    }
  }

  /** `later` holds every entry of `earlier`, unchanged: what lies between them removed nothing
      and replaced nothing. */
  predicate Extends(later: Caches, earlier: Caches) {
    && (forall u | u in earlier.services :: u in later.services && later.services[u] == earlier.services[u])
    && (forall c | c in earlier.characteristics :: c in later.characteristics && later.characteristics[c] == earlier.characteristics[c])
  }

  /** `getService` never drops or overwrites a cache entry; it adds one at most. */
  lemma ServiceKeepsEntries(connected: bool, server: Option<map<Uuid, Service>>, caches: Caches, u: Uuid)
    ensures Extends(GetService(connected, server, caches, u).caches, caches)
  {
  }

  /** `getCharacteristic` never drops or overwrites a cache entry either. */
  lemma {:induction false} CharacteristicKeepsEntries(connected: bool, server: Option<map<Uuid, Service>>, caches: Caches, s: Uuid, c: Uuid)
    ensures Extends(GetCharacteristic(connected, server, caches, s, c).caches, caches)
  {
    ServiceKeepsEntries(connected, server, caches, s);
  }

  /** Growth composes: a run of lookups with no reset in between extends the caches it began with. */
  lemma ExtendsTransitive(a: Caches, b: Caches, c: Caches)
    requires Extends(b, a) && Extends(c, b)
    ensures Extends(c, a)
  {
  }

  /** A service cached at some point is still a lookup-free hit after any lookups that are not
      resets: `getService(u)` makes one lookup at most until the next reset. */
  lemma ServiceHitPersists(server: Option<map<Uuid, Service>>, earlier: Caches, later: Caches, u: Uuid)
    requires u in earlier.services && Extends(later, earlier)
    ensures GetService(true, server, later, u) == Step(Success(earlier.services[u]), later, 0, 0)
  {
  }

  /** The same for characteristics, whatever service UUID the later call passes. */
  lemma CharacteristicHitPersists(server: Option<map<Uuid, Service>>, earlier: Caches, later: Caches, s: Uuid, c: Uuid)
    requires c in earlier.characteristics && Extends(later, earlier)
    ensures GetCharacteristic(true, server, later, s, c) == Step(Success(earlier.characteristics[c]), later, 0, 0)
  {
  }

  /** `getService` keeps the caches coherent with the server, and what it returns is the
      server's own service of that UUID, whether or not it came from the cache. */
  lemma GetServiceCoherent(primary: map<Uuid, Service>, caches: Caches, u: Uuid)
    requires Coherent(caches, primary)
    ensures var st := GetService(true, Some(primary), caches, u);
      && Coherent(st.caches, primary)
      && (st.result.Success? <==> u in primary)
      && (st.result.Success? ==> st.result.value == primary[u])
  {
  }

  /** Storing a characteristic the server offers keeps the caches coherent. */
  lemma CoherentStore(primary: map<Uuid, Service>, caches: Caches, c: Uuid, ch: RemoteCharacteristic)
    requires Coherent(caches, primary) && Offered(primary, c, ch)
    ensures Coherent(caches.(characteristics := caches.characteristics[c := ch]), primary)
  {
    var stored := caches.characteristics[c := ch];
    forall k | k in stored
      ensures Offered(primary, k, stored[k])
    {
      if k != c {
        assert stored[k] == caches.characteristics[k];
      }
    }
  }

  /** `getCharacteristic` keeps the caches coherent with the server, and what it returns is a
      characteristic some service of the server offers under `c`. */
  lemma {:induction false} GetCharacteristicCoherent(primary: map<Uuid, Service>, caches: Caches, s: Uuid, c: Uuid)
    requires Coherent(caches, primary)
    ensures var st := GetCharacteristic(true, Some(primary), caches, s, c);
      && Coherent(st.caches, primary)
      && (st.result.Success? ==> Offered(primary, c, st.result.value))
  {
    var st := GetCharacteristic(true, Some(primary), caches, s, c);
    if c !in caches.characteristics {
      GetServiceCoherent(primary, caches, s);
      var sv := GetService(true, Some(primary), caches, s);
      if sv.result.Success? && c in sv.result.value.characteristics {
        var ch := sv.result.value.characteristics[c];
        assert s in primary && primary[s].characteristics[c] == ch;
        assert Offered(primary, c, ch);
        CoherentStore(primary, sv.caches, c, ch);
      }
    }
  }

  /** Without a cache hit, a lookup finds the characteristic exactly when the named service
      offers it; with a hit, the named service does not matter. Two services offering the same
      characteristic UUID therefore share one cache entry: after the first is asked, asking
      the second returns the first one's characteristic. */
  lemma {:induction false} SharedCharacteristicUuid(primary: map<Uuid, Service>, s1: Uuid, s2: Uuid, c: Uuid)
    requires s1 in primary && s2 in primary
    requires c in primary[s1].characteristics && c in primary[s2].characteristics
    ensures var first := GetCharacteristic(true, Some(primary), Empty, s1, c);
      var second := GetCharacteristic(true, Some(primary), first.caches, s2, c);
      && first.result == Success(primary[s1].characteristics[c])
      && second.result == Success(primary[s1].characteristics[c])
  {
    var first := GetCharacteristic(true, Some(primary), Empty, s1, c);
    assert c in first.caches.characteristics;
  }

  /** The type `readValue` is asked to return. `OtherType` is any other value passed there. */
  datatype ReturnType = DataViewType | StringType | Uint8ArrayType | OtherType

  /** What a `readValue` promise resolves to. */
  datatype ReadOutcome = Undefined | View(view: DataView) | Text(text: Utf8Text) | Bytes(bytes: Uint8Array)

  /** The conversion at the end of `readValue`: a DataView is returned as it is unless String
      (decoded text of the view's window) or Uint8Array (a byte view on the same window) was
      asked for. */
  function ReadAs(dv: DataView, rt: ReturnType): (r: ReadOutcome)
    ensures r.View? <==> rt == DataViewType || rt == OtherType
    ensures r.View? ==> r.view == dv
    ensures r.Text? ==> r.text.decoded == Window(dv)
    ensures r.Bytes? ==> r.bytes.buffer == dv.buffer && Window(r.bytes) == Window(dv)
    ensures r != Undefined
  {
    match rt
    case StringType => Text(DataViewToString(dv))
    case Uint8ArrayType => Bytes(DataViewToUint8Array(dv))
    case _ => View(dv)
  }

  /** What `readValue` resolves to once it holds a characteristic: undefined, without reading,
      when the characteristic does not support read; undefined when the read rejects (the error
      is caught); otherwise the value read, converted to the requested type. */
  function ReadResult(properties: Properties, failing: bool, value: seq<byte>, rt: ReturnType): (r: ReadOutcome)
    ensures r != Undefined <==> properties.read && !failing
    ensures r != Undefined ==> r == ReadAs(WholeView(value), rt)
  {
    if properties.read && !failing then ReadAs(WholeView(value), rt) else Undefined
  }
}

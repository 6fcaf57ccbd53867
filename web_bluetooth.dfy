/** The class of src/WebBluetooth.js: one connection at a time, with a service cache and a
    characteristic cache in front of the platform. */
module WebBluetooth {

  import opened Wrappers
  import opened Transform
  import opened Gatt
  import opened GattCache

  /** The overloaded first argument of `readValue` and `writeValue`: a characteristic object, or
      a service UUID followed by the characteristic UUID. */
  datatype Target = Direct(ch: RemoteCharacteristic) | ByUuid(service: Uuid, characteristicUuid: Uuid)

  /** `_getCharacteristicFromUnkownParam`: a characteristic object is used as it is; otherwise the
      characteristic is looked up through the caches. */
  function Resolve(target: Target, connected: bool, server: Option<map<Uuid, Service>>, caches: Caches): Step<RemoteCharacteristic>
  {
    match target
    case Direct(ch) => Step(Success(ch), caches, 0, 0)
    case ByUuid(s, c) => GattCache.GetCharacteristic(connected, server, caches, s, c)
  }

  class WebBluetooth {
    var deviceObj: BluetoothDevice?
    var gattServer: GattServer?
    var services: map<Uuid, Service>
    var characteristics: map<Uuid, RemoteCharacteristic>
    var connectionOptions: Option<RequestOptions>

    function Cached(): Caches
      reads this
    {
      Caches(services, characteristics)
    }

    function Server(): Option<map<Uuid, Service>>
      reads this
    {
      if gattServer == null then None else Some(gattServer.primary)
    }

    /** `isConnected`: a server is held and it reports itself connected. */
    predicate IsConnected()
      reads this, gattServer
    {
      gattServer != null && gattServer.connected
    }

    /** Without a server both caches are empty; with one, the server belongs to the device and
        every cached entry is something that server offers. */
    ghost predicate Valid()
      reads this
    {
      && (gattServer == null ==> Cached() == Empty)
      && (gattServer != null ==> deviceObj != null && deviceObj.gatt == gattServer && Coherent(Cached(), gattServer.primary))
    }

    /** The characteristics `readValue` and `writeValue` may touch. */
    ghost function Touchable(target: Target): set<object>
      reads this
    {
      (if gattServer == null then {} else CharacteristicsOf(gattServer.primary))
      + (if target.Direct? then {target.ch} else {})
    }

    constructor ()
      ensures deviceObj == null && gattServer == null && Cached() == Empty && connectionOptions == None
      ensures Valid() && !IsConnected()
    {
      deviceObj := null;
      gattServer := null;
      services := map[];
      characteristics := map[];
      connectionOptions := None;
    }

    /** `_resetDeviceEnvironment`: forget the device, the server and both caches. */
    method ResetDeviceEnvironment()
      modifies this
      ensures deviceObj == null && gattServer == null && Cached() == Empty
      ensures connectionOptions == old(connectionOptions)
      ensures Valid() && !IsConnected()
    {
      deviceObj := null;
      gattServer := null;
      services := map[];
      characteristics := map[];
    }

    /** `connect(options)`. Without options, or with a value that is not an object, it throws a
        TypeError after the reset; `chosen` is what `requestDevice` resolved to, null when it
        rejected. The prefetch step (`_getRequestedServices`) reads `options.filters.services`
        from the filters array, which is always undefined, so it asks for nothing. */
    method Connect(arg: ConnectArg, chosen: BluetoothDevice?) returns (r: Result<bool, Failure>)
      modifies this, if chosen == null then {} else {chosen.gatt}
      ensures Valid() && Cached() == Empty
      ensures !arg.Options? ==> r == Failure(TypeError) && deviceObj == null && gattServer == null
      ensures !arg.Options? ==> connectionOptions == old(connectionOptions)
      ensures arg.Options? ==> r.Success? && connectionOptions == Some(EffectiveOptions(arg.options)) && deviceObj == chosen
      ensures arg.Options? ==> (r.value <==> chosen != null && (old(chosen.gatt.connected) || chosen.gatt.reachable))
      ensures r == Success(true) ==> gattServer == chosen.gatt && IsConnected()
      ensures r != Success(true) ==> gattServer == null && !IsConnected()
      ensures chosen != null ==> chosen.gatt.serviceLookups == old(chosen.gatt.serviceLookups)
    {
      ResetDeviceEnvironment();
      if !arg.Options? {
        return Failure(TypeError);
      }
      var effective := EffectiveOptions(arg.options);
      connectionOptions := Some(effective);
      deviceObj := chosen;
      if chosen == null {
        return Success(false);
      }
      var ok := chosen.gatt.Connect();
      if !ok {
        return Success(false);
      }
      gattServer := chosen.gatt;
      return Success(true);
    }

    /** `disconnect()`: when connected, disconnect the server and reset; otherwise only warn. */
    method Disconnect()
      requires Valid()
      modifies this, gattServer
      ensures Valid() && !IsConnected()
      ensures connectionOptions == old(connectionOptions)
      ensures old(IsConnected()) ==> deviceObj == null && gattServer == null && Cached() == Empty && !old(gattServer).connected
      ensures !old(IsConnected()) ==> deviceObj == old(deviceObj) && gattServer == old(gattServer) && Cached() == old(Cached())
      ensures old(gattServer) != null ==>
        && old(gattServer).device == old(gattServer.device)
        && old(gattServer).serviceLookups == old(gattServer.serviceLookups)
        && old(gattServer).characteristicLookups == old(gattServer.characteristicLookups)
      ensures !old(IsConnected()) && gattServer != null ==> unchanged(gattServer)
    {
      if IsConnected() {
        gattServer.Disconnect();
        ResetDeviceEnvironment();
      }
    }

    /** `getService(u)`, proved to behave as the cache function of the same name. */
    method GetService(u: Uuid) returns (r: Result<Service, Failure>)
      requires Valid()
      modifies this, gattServer
      ensures Valid()
      ensures deviceObj == old(deviceObj) && gattServer == old(gattServer) && connectionOptions == old(connectionOptions)
      ensures var st := GattCache.GetService(old(IsConnected()), old(Server()), old(Cached()), u);
        && r == st.result && Cached() == st.caches
        && (gattServer != null ==> gattServer.serviceLookups == old(gattServer.serviceLookups) + st.serviceLookups)
      ensures gattServer != null ==> gattServer.connected == old(gattServer.connected) && gattServer.device == old(gattServer.device)
      ensures gattServer != null ==> gattServer.characteristicLookups == old(gattServer.characteristicLookups)
    {
      if !IsConnected() {
        return Failure(NotConnected);
      }
      if u in services {
        return Success(services[u]);
      }
      var found := gattServer.GetPrimaryService(u);
      match found
      case None =>
        r := Failure(ServiceNotFound(u));
      case Some(service) =>
        services := services[u := service];
        r := Success(service);
    }

    /** `getCharacteristic(s, c)`, proved to behave as the cache function of the same name. */
    method GetCharacteristic(s: Uuid, c: Uuid) returns (r: Result<RemoteCharacteristic, Failure>)
      requires Valid()
      modifies this, gattServer
      ensures Valid()
      ensures deviceObj == old(deviceObj) && gattServer == old(gattServer) && connectionOptions == old(connectionOptions)
      ensures var st := GattCache.GetCharacteristic(old(IsConnected()), old(Server()), old(Cached()), s, c);
        && r == st.result && Cached() == st.caches
        && (gattServer != null ==> gattServer.serviceLookups == old(gattServer.serviceLookups) + st.serviceLookups)
        && (gattServer != null ==> gattServer.characteristicLookups == old(gattServer.characteristicLookups) + st.characteristicLookups)
      ensures r.Success? ==> gattServer != null && r.value in CharacteristicsOf(gattServer.primary)
      ensures gattServer != null ==> gattServer.connected == old(gattServer.connected) && gattServer.device == old(gattServer.device)
    {
      if !IsConnected() {
        r := Failure(NotConnected);
      } else if c in characteristics {
        r := Success(characteristics[c]);
        OfferedIsCharacteristicOf(gattServer.primary, c, characteristics[c]);
      } else {
        GetServiceCoherent(gattServer.primary, Cached(), s);
        var service := GetService(s);
        if service.Failure? {
          r := Failure(service.error);
        } else {
          var found := gattServer.GetCharacteristic(service.value, c);
          match found
          case None =>
            r := Failure(CharacteristicNotFound(c));
          case Some(ch) =>
            assert Offered(gattServer.primary, c, ch) by {
              assert s in gattServer.primary && gattServer.primary[s] == service.value;
            }
            CoherentStore(gattServer.primary, Cached(), c, ch);
            OfferedIsCharacteristicOf(gattServer.primary, c, ch);
            characteristics := characteristics[c := ch];
            r := Success(ch);
        }
      }
    }

    /** `readValue(target, returnType)`. A failed lookup propagates (it happens outside the
        `try`); once the characteristic is known, every error is caught and the result is
        undefined. */
    method ReadValue(target: Target, rt: ReturnType) returns (r: Result<ReadOutcome, Failure>)
      requires Valid()
      modifies this, gattServer, Touchable(target)
      ensures Valid()
      ensures var st := Resolve(target, old(IsConnected()), old(Server()), old(Cached()));
        st.result.Success? ==> st.result.value in old(Touchable(target))
      ensures var st := Resolve(target, old(IsConnected()), old(Server()), old(Cached()));
        && Cached() == st.caches
        && (st.result.Failure? ==> r == Failure(st.result.error))
        && (st.result.Success? ==> var ch := st.result.value;
              && r == Success(ReadResult(ch.properties, ch.failing, old(ch.value), rt))
              && ch.readCount == old(ch.readCount) + (if ch.properties.read then 1 else 0)
              && ch.value == old(ch.value))
      ensures deviceObj == old(deviceObj) && gattServer == old(gattServer) && connectionOptions == old(connectionOptions)
      ensures var st := Resolve(target, old(IsConnected()), old(Server()), old(Cached()));
        gattServer != null ==>
          && gattServer.connected == old(gattServer.connected) && gattServer.device == old(gattServer.device)
          && gattServer.serviceLookups == old(gattServer.serviceLookups) + st.serviceLookups
          && gattServer.characteristicLookups == old(gattServer.characteristicLookups) + st.characteristicLookups
      ensures var st := Resolve(target, old(IsConnected()), old(Server()), old(Cached()));
        st.result.Success? ==> st.result.value.writeCount == old(st.result.value.writeCount)
      ensures var st := Resolve(target, old(IsConnected()), old(Server()), old(Cached()));
        forall x: object | x in old(Touchable(target)) && !(st.result.Success? && x == st.result.value) :: unchanged(x)
    {
      var ch: RemoteCharacteristic;
      match target {
        case Direct(given) =>
          ch := given;
        case ByUuid(s, c) =>
          var found := GetCharacteristic(s, c);
          if found.Failure? {
            return Failure(found.error);
          }
          ch := found.value;
      }
      if ch.properties.read {
        var dv := ch.ReadValue();
        match dv
        case None =>
          r := Success(Undefined);
        case Some(view) =>
          r := Success(ReadAs(view, rt));
      } else {
        r := Success(Undefined);
      }
    }

    /** `writeValue(target, value)`: a failed lookup propagates; a rejected write is caught, and
        the call resolves to undefined either way. */
    method WriteValue(target: Target, value: seq<byte>) returns (r: Result<(), Failure>)
      requires Valid()
      modifies this, gattServer, Touchable(target)
      ensures Valid()
      ensures var st := Resolve(target, old(IsConnected()), old(Server()), old(Cached()));
        st.result.Success? ==> st.result.value in old(Touchable(target))
      ensures var st := Resolve(target, old(IsConnected()), old(Server()), old(Cached()));
        && Cached() == st.caches
        && (st.result.Failure? ==> r == Failure(st.result.error))
        && (st.result.Success? ==> var ch := st.result.value;
              && r == Success(())
              && ch.writeCount == old(ch.writeCount) + 1
              && ch.value == (if ch.properties.write && !ch.failing then value else old(ch.value)))
      ensures deviceObj == old(deviceObj) && gattServer == old(gattServer) && connectionOptions == old(connectionOptions)
      ensures var st := Resolve(target, old(IsConnected()), old(Server()), old(Cached()));
        gattServer != null ==>
          && gattServer.connected == old(gattServer.connected) && gattServer.device == old(gattServer.device)
          && gattServer.serviceLookups == old(gattServer.serviceLookups) + st.serviceLookups
          && gattServer.characteristicLookups == old(gattServer.characteristicLookups) + st.characteristicLookups
      ensures var st := Resolve(target, old(IsConnected()), old(Server()), old(Cached()));
        st.result.Success? ==> st.result.value.readCount == old(st.result.value.readCount)
      ensures var st := Resolve(target, old(IsConnected()), old(Server()), old(Cached()));
        forall x: object | x in old(Touchable(target)) && !(st.result.Success? && x == st.result.value) :: unchanged(x)
    {
      var ch: RemoteCharacteristic;
      match target {
        case Direct(given) =>
          ch := given;
        case ByUuid(s, c) =>
          var found := GetCharacteristic(s, c);
          if found.Failure? {
            return Failure(found.error);
          }
          ch := found.value;
      }
      var _ := ch.WriteValue(value);
      r := Success(());
    }
  }
}

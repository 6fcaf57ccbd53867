/** src/WebBluetoothDevice.js: a wrapper around one already connected GATT server. It has no
    `connect`; once disconnected it stays disconnected. */
module WebBluetoothDevice {

  import opened Wrappers
  import opened Transform
  import opened Gatt
  import opened GattCache
  import WebBluetooth

  class WebBluetoothDevice {
    var webBluetooth: WebBluetooth.WebBluetooth?
    var btDevice: BluetoothDevice?
    var gattServer: GattServer?
    var services: map<Uuid, Service>
    var characteristics: map<Uuid, RemoteCharacteristic>
    const connectionOptions: Option<RequestOptions>

    function Cached(): Caches
      reads this
    {
      Caches(services, characteristics)
    }

    function Server(): Option<map<Uuid, Service>>
      reads this
    {
      if gattServer == null then None else Some(gattServer.primary)
    }

    /** `isConnected`: a server is held and it reports itself connected. */
    predicate IsConnected()
      reads this, gattServer
    {
      gattServer != null && gattServer.connected
    }

    /** Without a server both caches are empty; with one, every cached entry is something that
        server offers. */
    ghost predicate Valid()
      reads this
    {
      && (gattServer == null ==> Cached() == Empty)
      && (gattServer != null ==> Coherent(Cached(), gattServer.primary))
    }

    ghost function Touchable(): set<object>
      reads this
    {
      if gattServer == null then {} else CharacteristicsOf(gattServer.primary)
    }

    /** `new WebBluetoothDevice(gattServer, connectionOptions, webBluetooth)`: reset, then keep the
        server, the device the server belongs to, the options and the back-reference, with both
        caches empty (`_getRequestedServices` does nothing). */
    constructor (server: GattServer, options: Option<RequestOptions>, owner: WebBluetooth.WebBluetooth)
      ensures gattServer == server && btDevice == server.device && webBluetooth == owner
      ensures connectionOptions == options && Cached() == Empty && Valid()
      ensures IsConnected() == server.connected
    {
      webBluetooth := owner;
      gattServer := server;
      btDevice := server.device;
      connectionOptions := options;
      services := map[];
      characteristics := map[];
    }

    /** `_resetDeviceEnvironment`: drop the back-reference, the device, the server and both caches. */
    method ResetDeviceEnvironment()
      modifies this
      ensures webBluetooth == null && btDevice == null && gattServer == null && Cached() == Empty
      ensures Valid() && !IsConnected()
    {
      webBluetooth := null;
      btDevice := null;
      gattServer := null;
      services := map[];
      characteristics := map[];
    }

    /** `disconnect()`: when connected, disconnect the server and reset, after which no method
        can connect again; otherwise only warn. */
    method Disconnect()
      requires Valid()
      modifies this, gattServer
      ensures Valid() && !IsConnected()
      ensures old(IsConnected()) ==> webBluetooth == null && btDevice == null && gattServer == null && Cached() == Empty
      ensures old(IsConnected()) ==> !old(gattServer).connected
      ensures !old(IsConnected()) ==> webBluetooth == old(webBluetooth) && btDevice == old(btDevice)
      ensures !old(IsConnected()) ==> gattServer == old(gattServer) && Cached() == old(Cached())
      ensures old(gattServer) != null ==>
        && old(gattServer).device == old(gattServer.device)
        && old(gattServer).serviceLookups == old(gattServer.serviceLookups)
        && old(gattServer).characteristicLookups == old(gattServer.characteristicLookups)
      ensures !old(IsConnected()) && gattServer != null ==> unchanged(gattServer)
    {
      if IsConnected() {
        gattServer.Disconnect();
        ResetDeviceEnvironment();
      }
    }

    /** `getService(u)`, proved to behave as the cache function of the same name. */
    method GetService(u: Uuid) returns (r: Result<Service, Failure>)
      requires Valid()
      modifies this, gattServer
      ensures Valid()
      ensures webBluetooth == old(webBluetooth) && btDevice == old(btDevice) && gattServer == old(gattServer)
      ensures var st := GattCache.GetService(old(IsConnected()), old(Server()), old(Cached()), u);
        && r == st.result && Cached() == st.caches
        && (gattServer != null ==> gattServer.serviceLookups == old(gattServer.serviceLookups) + st.serviceLookups)
      ensures gattServer != null ==> gattServer.connected == old(gattServer.connected) && gattServer.device == old(gattServer.device)
      ensures gattServer != null ==> gattServer.characteristicLookups == old(gattServer.characteristicLookups)
    {
      if !IsConnected() {
        return Failure(NotConnected);
      }
      if u in services {
        return Success(services[u]);
      }
      var found := gattServer.GetPrimaryService(u);
      match found
      case None =>
        r := Failure(ServiceNotFound(u));
      case Some(service) =>
        services := services[u := service];
        r := Success(service);
    }

    /** `getCharacteristic(s, c)`, proved to behave as the cache function of the same name. */
    method GetCharacteristic(s: Uuid, c: Uuid) returns (r: Result<RemoteCharacteristic, Failure>)
      requires Valid()
      modifies this, gattServer
      ensures Valid()
      ensures webBluetooth == old(webBluetooth) && btDevice == old(btDevice) && gattServer == old(gattServer)
      ensures var st := GattCache.GetCharacteristic(old(IsConnected()), old(Server()), old(Cached()), s, c);
        && r == st.result && Cached() == st.caches
        && (gattServer != null ==> gattServer.serviceLookups == old(gattServer.serviceLookups) + st.serviceLookups)
        && (gattServer != null ==> gattServer.characteristicLookups == old(gattServer.characteristicLookups) + st.characteristicLookups)
      ensures r.Success? ==> gattServer != null && r.value in CharacteristicsOf(gattServer.primary)
      ensures gattServer != null ==> gattServer.connected == old(gattServer.connected) && gattServer.device == old(gattServer.device)
    {
      if !IsConnected() {
        r := Failure(NotConnected);
      } else if c in characteristics {
        r := Success(characteristics[c]);
        OfferedIsCharacteristicOf(gattServer.primary, c, characteristics[c]);
      } else {
        GetServiceCoherent(gattServer.primary, Cached(), s);
        var service := GetService(s);
        if service.Failure? {
          r := Failure(service.error);
        } else {
          var found := gattServer.GetCharacteristic(service.value, c);
          match found
          case None =>
            r := Failure(CharacteristicNotFound(c));
          case Some(ch) =>
            assert Offered(gattServer.primary, c, ch) by {
              assert s in gattServer.primary && gattServer.primary[s] == service.value;
            }
            CoherentStore(gattServer.primary, Cached(), c, ch);
            OfferedIsCharacteristicOf(gattServer.primary, c, ch);
            characteristics := characteristics[c := ch];
            r := Success(ch);
        }
      }
    }

    /** `readValue(s, c, returnType)`: every failure resolves to undefined. The String branch
        calls a `util` this file never imports, so after the read it throws a ReferenceError,
        which the same `catch` turns into undefined. */
    method ReadValue(s: Uuid, c: Uuid, rt: ReturnType) returns (r: ReadOutcome)
      requires Valid()
      modifies this, gattServer, Touchable()
      ensures Valid()
      ensures webBluetooth == old(webBluetooth) && btDevice == old(btDevice) && gattServer == old(gattServer)
      ensures var st := GattCache.GetCharacteristic(old(IsConnected()), old(Server()), old(Cached()), s, c);
        st.result.Success? ==> st.result.value in old(Touchable())
      ensures var st := GattCache.GetCharacteristic(old(IsConnected()), old(Server()), old(Cached()), s, c);
        && Cached() == st.caches
        && (st.result.Failure? ==> r == Undefined)
        && (st.result.Success? ==> var ch := st.result.value;
              && r == (if rt == StringType then Undefined else ReadResult(ch.properties, ch.failing, old(ch.value), rt))
              && ch.readCount == old(ch.readCount) + (if ch.properties.read then 1 else 0)
              && ch.value == old(ch.value))
      ensures var st := GattCache.GetCharacteristic(old(IsConnected()), old(Server()), old(Cached()), s, c);
        gattServer != null ==>
          && gattServer.connected == old(gattServer.connected) && gattServer.device == old(gattServer.device)
          && gattServer.serviceLookups == old(gattServer.serviceLookups) + st.serviceLookups
          && gattServer.characteristicLookups == old(gattServer.characteristicLookups) + st.characteristicLookups
      ensures var st := GattCache.GetCharacteristic(old(IsConnected()), old(Server()), old(Cached()), s, c);
        st.result.Success? ==> st.result.value.writeCount == old(st.result.value.writeCount)
      ensures var st := GattCache.GetCharacteristic(old(IsConnected()), old(Server()), old(Cached()), s, c);
        forall x: object | x in old(Touchable()) && !(st.result.Success? && x == st.result.value) :: unchanged(x)
    {
      var found := GetCharacteristic(s, c);
      if found.Failure? {
        return Undefined;
      }
      var ch := found.value;
      if ch.properties.read {
        var dv := ch.ReadValue();
        match dv
        case None =>
          r := Undefined;
        case Some(view) =>
          r := if rt == StringType then Undefined else ReadAs(view, rt);
      } else {
        r := Undefined;
      }
    }

    /** `writeValue(s, c, value)`: every failure is caught; the call always resolves to undefined. */
    method WriteValue(s: Uuid, c: Uuid, value: seq<byte>)
      requires Valid()
      modifies this, gattServer, Touchable()
      ensures Valid()
      ensures webBluetooth == old(webBluetooth) && btDevice == old(btDevice) && gattServer == old(gattServer)
      ensures var st := GattCache.GetCharacteristic(old(IsConnected()), old(Server()), old(Cached()), s, c);
        st.result.Success? ==> st.result.value in old(Touchable())
      ensures var st := GattCache.GetCharacteristic(old(IsConnected()), old(Server()), old(Cached()), s, c);
        && Cached() == st.caches
        && (st.result.Success? ==> var ch := st.result.value;
              && ch.writeCount == old(ch.writeCount) + 1
              && ch.value == (if ch.properties.write && !ch.failing then value else old(ch.value)))
      ensures var st := GattCache.GetCharacteristic(old(IsConnected()), old(Server()), old(Cached()), s, c);
        gattServer != null ==>
          && gattServer.connected == old(gattServer.connected) && gattServer.device == old(gattServer.device)
          && gattServer.serviceLookups == old(gattServer.serviceLookups) + st.serviceLookups
          && gattServer.characteristicLookups == old(gattServer.characteristicLookups) + st.characteristicLookups
      ensures var st := GattCache.GetCharacteristic(old(IsConnected()), old(Server()), old(Cached()), s, c);
        st.result.Success? ==> st.result.value.readCount == old(st.result.value.readCount)
      ensures var st := GattCache.GetCharacteristic(old(IsConnected()), old(Server()), old(Cached()), s, c);
        forall x: object | x in old(Touchable()) && !(st.result.Success? && x == st.result.value) :: unchanged(x)
    {
      var found := GetCharacteristic(s, c);
      if found.Success? {
        var _ := found.value.WriteValue(value);
      }
    }
  }
}

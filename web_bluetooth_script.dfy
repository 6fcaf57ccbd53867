/** src/webbluetooth.js: the byte-window helpers of its utility object and its `WebBluetooth`
    class, which reads the connection state from the device rather than from the server and
    catches every error in `readValue` and `writeValue`. */
module WebBluetoothScript {

  import opened Wrappers
  import opened Transform
  import opened Gatt
  import opened GattCache

  /** `dataViewToTextOld`: one character per byte of the view, the character code being the
      byte's value. */
  method DataViewToTextOld(dv: DataView) returns (str: string)
    ensures |str| == dv.byteLength
    ensures forall i | 0 <= i < |str| :: str[i] as int == Window(dv)[i]
  {
    str := "";
    var i := 0;
    while i < dv.byteLength
      invariant 0 <= i <= dv.byteLength && |str| == i
      invariant forall k | 0 <= k < i :: str[k] as int == Window(dv)[k]
    {
      var b := GetUint8(dv, i);
      str := str + [b.value as char];
      i := i + 1;
    }
  }

  /** The options `connect` uses when called without any. */
  const DefaultOptions := RequestOptions(None, None, true)

  class WebBluetooth {
    var device: BluetoothDevice?
    var gattServer: GattServer?
    var services: map<Uuid, Service>
    var characteristics: map<Uuid, RemoteCharacteristic>
    var connectionOptions: Option<RequestOptions>

    function Cached(): Caches
      reads this
    {
      Caches(services, characteristics)
    }

    function Server(): Option<map<Uuid, Service>>
      reads this
    {
      if gattServer == null then None else Some(gattServer.primary)
    }

    /** The device's server, whose state `isConnected` reads. */
    function DeviceServer(): set<object>
      reads this
    {
      if device == null then {} else {device.gatt}
    }

    /** `isConnected`: a device is held and its server reports itself connected. */
    predicate IsConnected()
      reads this, DeviceServer()
    {
      device != null && device.gatt.connected
    }

    /** Without a server both caches are empty; a server held is the device's own and every
        cached entry is something it offers. */
    ghost predicate Valid()
      reads this
    {
      && (gattServer == null ==> Cached() == Empty)
      && (gattServer != null ==> device != null && device.gatt == gattServer && Coherent(Cached(), gattServer.primary))
    }

    ghost function Touchable(): set<object>
      reads this
    {
      if gattServer == null then {} else CharacteristicsOf(gattServer.primary)
    }

    constructor ()
      ensures device == null && gattServer == null && Cached() == Empty && connectionOptions == None
      ensures Valid() && !IsConnected()
    {
      connectionOptions := None;
      device := null;
      gattServer := null;
      services := map[];
      characteristics := map[];
    }

    /** `_resetAll`: forget the device, the server and both caches. */
    method ResetAll()
      modifies this
      ensures device == null && gattServer == null && Cached() == Empty
      ensures connectionOptions == old(connectionOptions)
      ensures Valid() && !IsConnected()
    {
      device := null;
      gattServer := null;
      services := map[];
      characteristics := map[];
    }

    /** `connect(options = {acceptAllDevices: true})`; `chosen` is what `requestDevice` resolved
        to, null when it rejected. A failure to choose or to connect is caught and reported as
        false; a value that is not an object throws a TypeError after the reset, before the `try`. */
    method Connect(arg: ConnectArg, chosen: BluetoothDevice?) returns (r: Result<bool, Failure>)
      modifies this, if chosen == null then {} else {chosen.gatt}
      ensures Valid() && Cached() == Empty
      ensures arg.NotAnObject? ==> r == Failure(TypeError) && device == null && gattServer == null
      ensures arg.NotAnObject? ==> connectionOptions == old(connectionOptions)
      ensures !arg.NotAnObject? ==> r.Success? && device == chosen
      ensures !arg.NotAnObject? ==> connectionOptions == Some(EffectiveOptions(if arg.Absent? then DefaultOptions else arg.options))
      ensures !arg.NotAnObject? ==> (r.value <==> chosen != null && (old(chosen.gatt.connected) || chosen.gatt.reachable))
      ensures r == Success(true) ==> gattServer == chosen.gatt && IsConnected()
      ensures r != Success(true) ==> gattServer == null && !IsConnected()
      ensures chosen != null ==> chosen.gatt.serviceLookups == old(chosen.gatt.serviceLookups)
    {
      ResetAll();
      if arg.NotAnObject? {
        return Failure(TypeError);
      }
      var given := if arg.Absent? then DefaultOptions else arg.options;
      connectionOptions := Some(EffectiveOptions(given));
      device := chosen;
      if chosen == null {
        return Success(false);
      }
      var ok := chosen.gatt.Connect();
      if ok {
        gattServer := chosen.gatt;
      }
      r := Success(ok);
    }

    /** `disconnect()`: when connected, disconnect the device's server and reset; otherwise only warn. */
    method Disconnect()
      requires Valid()
      modifies this, DeviceServer()
      ensures Valid() && !IsConnected()
      ensures connectionOptions == old(connectionOptions)
      ensures old(IsConnected()) ==> device == null && gattServer == null && Cached() == Empty && !old(device).gatt.connected
      ensures !old(IsConnected()) ==> device == old(device) && gattServer == old(gattServer) && Cached() == old(Cached())
      ensures old(device) != null ==>
        && old(device).gatt.device == old(device.gatt.device)
        && old(device).gatt.serviceLookups == old(device.gatt.serviceLookups)
        && old(device).gatt.characteristicLookups == old(device.gatt.characteristicLookups)
      ensures !old(IsConnected()) && device != null ==> unchanged(device.gatt)
    {
      if IsConnected() {
        device.gatt.Disconnect();
        ResetAll();
      }
    }

    /** `getService(u)`, proved to behave as the cache function of the same name; a connected
        device whose server was never stored gives a TypeError. */
    method GetService(u: Uuid) returns (r: Result<Service, Failure>)
      requires Valid()
      modifies this, gattServer
      ensures Valid()
      ensures device == old(device) && gattServer == old(gattServer) && connectionOptions == old(connectionOptions)
      ensures var st := GattCache.GetService(old(IsConnected()), old(Server()), old(Cached()), u);
        && r == st.result && Cached() == st.caches
        && (gattServer != null ==> gattServer.serviceLookups == old(gattServer.serviceLookups) + st.serviceLookups)
      ensures gattServer != null ==> gattServer.connected == old(gattServer.connected) && gattServer.device == old(gattServer.device)
      ensures gattServer != null ==> gattServer.characteristicLookups == old(gattServer.characteristicLookups)
    {
      if !IsConnected() {
        return Failure(NotConnected);
      }
      if u in services {
        return Success(services[u]);
      }
      if gattServer == null {
        return Failure(TypeError);
      }
      var found := gattServer.GetPrimaryService(u);
      match found
      case None =>
        r := Failure(ServiceNotFound(u));
      case Some(service) =>
        services := services[u := service];
        r := Success(service);
    }

    /** `getCharacteristic(s, c)`, proved to behave as the cache function of the same name. */
    method GetCharacteristic(s: Uuid, c: Uuid) returns (r: Result<RemoteCharacteristic, Failure>)
      requires Valid()
      modifies this, gattServer
      ensures Valid()
      ensures device == old(device) && gattServer == old(gattServer) && connectionOptions == old(connectionOptions)
      ensures var st := GattCache.GetCharacteristic(old(IsConnected()), old(Server()), old(Cached()), s, c);
        && r == st.result && Cached() == st.caches
        && (gattServer != null ==> gattServer.serviceLookups == old(gattServer.serviceLookups) + st.serviceLookups)
        && (gattServer != null ==> gattServer.characteristicLookups == old(gattServer.characteristicLookups) + st.characteristicLookups)
      ensures r.Success? ==> gattServer != null && r.value in CharacteristicsOf(gattServer.primary)
      ensures gattServer != null ==> gattServer.connected == old(gattServer.connected) && gattServer.device == old(gattServer.device)
    {
      if !IsConnected() {
        r := Failure(NotConnected);
      } else if c in characteristics {
        r := Success(characteristics[c]);
        OfferedIsCharacteristicOf(gattServer.primary, c, characteristics[c]);
      } else if gattServer == null {
        r := Failure(TypeError);
      } else {
        GetServiceCoherent(gattServer.primary, Cached(), s);
        var service := GetService(s);
        if service.Failure? {
          r := Failure(service.error);
        } else {
          var found := gattServer.GetCharacteristic(service.value, c);
          match found
          case None =>
            r := Failure(CharacteristicNotFound(c));
          case Some(ch) =>
            assert Offered(gattServer.primary, c, ch) by {
              assert s in gattServer.primary && gattServer.primary[s] == service.value;
            }
            CoherentStore(gattServer.primary, Cached(), c, ch);
            OfferedIsCharacteristicOf(gattServer.primary, c, ch);
            characteristics := characteristics[c := ch];
            r := Success(ch);
        }
      }
    }

    /** `readValue(s, c, returnType)`: the lookup sits inside the `try` as well, so every failure,
        not-connected included, resolves to undefined. */
    method ReadValue(s: Uuid, c: Uuid, rt: ReturnType) returns (r: ReadOutcome)
      requires Valid()
      modifies this, gattServer, Touchable()
      ensures Valid()
      ensures device == old(device) && gattServer == old(gattServer) && connectionOptions == old(connectionOptions)
      ensures var st := GattCache.GetCharacteristic(old(IsConnected()), old(Server()), old(Cached()), s, c);
        st.result.Success? ==> st.result.value in old(Touchable())
      ensures var st := GattCache.GetCharacteristic(old(IsConnected()), old(Server()), old(Cached()), s, c);
        && Cached() == st.caches
        && (st.result.Failure? ==> r == Undefined)
        && (st.result.Success? ==> var ch := st.result.value;
              && r == ReadResult(ch.properties, ch.failing, old(ch.value), rt)
              && ch.readCount == old(ch.readCount) + (if ch.properties.read then 1 else 0)
              && ch.value == old(ch.value))
      ensures var st := GattCache.GetCharacteristic(old(IsConnected()), old(Server()), old(Cached()), s, c);
        gattServer != null ==>
          && gattServer.connected == old(gattServer.connected) && gattServer.device == old(gattServer.device)
          && gattServer.serviceLookups == old(gattServer.serviceLookups) + st.serviceLookups
          && gattServer.characteristicLookups == old(gattServer.characteristicLookups) + st.characteristicLookups
      ensures var st := GattCache.GetCharacteristic(old(IsConnected()), old(Server()), old(Cached()), s, c);
        st.result.Success? ==> st.result.value.writeCount == old(st.result.value.writeCount)
      ensures var st := GattCache.GetCharacteristic(old(IsConnected()), old(Server()), old(Cached()), s, c);
        forall x: object | x in old(Touchable()) && !(st.result.Success? && x == st.result.value) :: unchanged(x)
    {
      var found := GetCharacteristic(s, c);
      if found.Failure? {
        return Undefined;
      }
      var ch := found.value;
      if ch.properties.read {
        var dv := ch.ReadValue();
        match dv
        case None =>
          r := Undefined;
        case Some(view) =>
          r := ReadAs(view, rt);
      } else {
        r := Undefined;
      }
    }

    /** `writeValue(s, c, value)`: every failure, not-connected included, is caught; the call
        always resolves to undefined, so nothing is returned. */
    method WriteValue(s: Uuid, c: Uuid, value: seq<byte>)
      requires Valid()
      modifies this, gattServer, Touchable()
      ensures Valid()
      ensures device == old(device) && gattServer == old(gattServer) && connectionOptions == old(connectionOptions)
      ensures var st := GattCache.GetCharacteristic(old(IsConnected()), old(Server()), old(Cached()), s, c);
        st.result.Success? ==> st.result.value in old(Touchable())
      ensures var st := GattCache.GetCharacteristic(old(IsConnected()), old(Server()), old(Cached()), s, c);
        && Cached() == st.caches
        && (st.result.Success? ==> var ch := st.result.value;
              && ch.writeCount == old(ch.writeCount) + 1
              && ch.value == (if ch.properties.write && !ch.failing then value else old(ch.value)))
      ensures var st := GattCache.GetCharacteristic(old(IsConnected()), old(Server()), old(Cached()), s, c);
        gattServer != null ==>
          && gattServer.connected == old(gattServer.connected) && gattServer.device == old(gattServer.device)
          && gattServer.serviceLookups == old(gattServer.serviceLookups) + st.serviceLookups
          && gattServer.characteristicLookups == old(gattServer.characteristicLookups) + st.characteristicLookups
      ensures var st := GattCache.GetCharacteristic(old(IsConnected()), old(Server()), old(Cached()), s, c);
        st.result.Success? ==> st.result.value.readCount == old(st.result.value.readCount)
      ensures var st := GattCache.GetCharacteristic(old(IsConnected()), old(Server()), old(Cached()), s, c);
        forall x: object | x in old(Touchable()) && !(st.result.Success? && x == st.result.value) :: unchanged(x)
    {
      var found := GetCharacteristic(s, c);
      if found.Success? {
        var _ := found.value.WriteValue(value);
      }
    }
  }
}

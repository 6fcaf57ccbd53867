/** The part of the Web Bluetooth platform the wrappers call into, reduced to an oracle: a device,
    its GATT server, the primary services the server offers and their characteristics. What the
    platform answers is fixed by the objects' constant fields; ghost counters record how often
    the wrappers asked. */
module Gatt {

  import opened Wrappers
  import opened Transform

  /** A UUID as the wrappers pass it on: a number (16- or 32-bit alias) or a string
      (a 128-bit UUID or a name such as `heart_rate`). */
  datatype Uuid = Num(n: nat) | Name(s: string)

  /** `characteristic.properties`, the operations a characteristic supports. */
  datatype Properties = Properties(read: bool, write: bool, notify: bool)

  /** A remote characteristic (`BluetoothRemoteGATTCharacteristic`). `failing` stands for a
      transport that rejects every operation on it; `value` is what the peripheral holds. */
  class RemoteCharacteristic {
    const properties: Properties
    const failing: bool
    var value: seq<byte>
    ghost var readCount: nat
    ghost var writeCount: nat

    constructor (properties: Properties, failing: bool, value: seq<byte>)
      ensures this.properties == properties && this.failing == failing && this.value == value
      ensures readCount == 0 && writeCount == 0
    {
      this.properties := properties;
      this.failing := failing;
      this.value := value;
      readCount := 0;
      writeCount := 0;
    }

    /** `readValue()`: a fresh DataView over the current value, or a rejection (None). */
    method ReadValue() returns (r: Option<DataView>)
      modifies this
      ensures readCount == old(readCount) + 1 && writeCount == old(writeCount) && value == old(value)
      ensures r == if properties.read && !failing then Some(WholeView(value)) else None
    {
      readCount := readCount + 1;
      if properties.read && !failing {
        r := Some(WholeView(value));
      } else {
        r := None;
      }
    }

    /** `writeValue(bytes)`: the peripheral stores the bytes, or the promise rejects (false). */
    method WriteValue(bytes: seq<byte>) returns (ok: bool)
      modifies this
      ensures writeCount == old(writeCount) + 1 && readCount == old(readCount)
      ensures ok == (properties.write && !failing)
      ensures value == if ok then bytes else old(value)
    {
      writeCount := writeCount + 1;
      ok := properties.write && !failing;
      if ok {
        value := bytes;
      }
    }
  }

  /** A primary service (`BluetoothRemoteGATTService`): its characteristics by UUID. */
  datatype Service = Service(uuid: Uuid, characteristics: map<Uuid, RemoteCharacteristic>)

  /** Every characteristic the services of a server can hand out. */
  ghost function CharacteristicsOf(primary: map<Uuid, Service>): set<RemoteCharacteristic> {
    set s <- primary.Values, c <- s.characteristics.Values :: c
  }

  /** A GATT server (`BluetoothRemoteGATTServer`). `reachable` says whether `connect()` can
      succeed; `primary` is what `getPrimaryService` finds. */
  class GattServer {
    var device: BluetoothDevice?
    var connected: bool
    const reachable: bool
    const primary: map<Uuid, Service>
    ghost var serviceLookups: nat
    ghost var characteristicLookups: nat

    constructor (reachable: bool, primary: map<Uuid, Service>)
      ensures device == null && !connected && this.reachable == reachable && this.primary == primary
      ensures serviceLookups == 0 && characteristicLookups == 0
    {
      device := null;
      connected := false;
      this.reachable := reachable;
      this.primary := primary;
      serviceLookups := 0;
      characteristicLookups := 0;
    }

    /** `connect()`: resolves (true) once the server is connected. */
    method Connect() returns (ok: bool)
      modifies this
      ensures connected == (old(connected) || reachable) && ok == connected
      ensures device == old(device)
      ensures serviceLookups == old(serviceLookups) && characteristicLookups == old(characteristicLookups)
    {
      connected := connected || reachable;
      ok := connected;
    }

    /** `disconnect()`. */
    method Disconnect()
      modifies this
      ensures !connected && device == old(device)
      ensures serviceLookups == old(serviceLookups) && characteristicLookups == old(characteristicLookups)
    {
      connected := false;
    }

    /** `getPrimaryService(u)`: the service, or a rejection (None) when it is not offered or the
        server is not connected. */
    method GetPrimaryService(u: Uuid) returns (r: Option<Service>)
      modifies this
      ensures r == if connected && u in primary then Some(primary[u]) else None
      ensures serviceLookups == old(serviceLookups) + 1 && characteristicLookups == old(characteristicLookups)
      ensures connected == old(connected) && device == old(device)
    {
      serviceLookups := serviceLookups + 1;
      r := if connected && u in primary then Some(primary[u]) else None;
    }

    /** `service.getCharacteristic(c)` on a service of this server; the lookup is counted here. */
    method GetCharacteristic(service: Service, c: Uuid) returns (r: Option<RemoteCharacteristic>)
      modifies this
      ensures r == if c in service.characteristics then Some(service.characteristics[c]) else None
      ensures characteristicLookups == old(characteristicLookups) + 1 && serviceLookups == old(serviceLookups)
      ensures connected == old(connected) && device == old(device)
    {
      characteristicLookups := characteristicLookups + 1;
      r := if c in service.characteristics then Some(service.characteristics[c]) else None;
    }
  }

  /** A `BluetoothDevice` and the GATT server it carries; the server points back at it. */
  class BluetoothDevice {
    const name: string
    const gatt: GattServer

    constructor (name: string, reachable: bool, primary: map<Uuid, Service>)
      ensures this.name == name && fresh(gatt) && gatt.device == this
      ensures !gatt.connected && gatt.reachable == reachable && gatt.primary == primary
      ensures gatt.serviceLookups == 0 && gatt.characteristicLookups == 0
    {
      this.name := name;
      gatt := new GattServer(reachable, primary);
      new;
      gatt.device := this;
    }
  }

  /** One entry of `filters` in `requestDevice` options. */
  datatype Filter = Filter(services: Option<seq<Uuid>>, name: Option<string>, namePrefix: Option<string>)

  /** The options object given to `requestDevice`; an absent `acceptAllDevices` is false. */
  datatype RequestOptions = RequestOptions(filters: Option<seq<Filter>>, optionalServices: Option<seq<Uuid>>, acceptAllDevices: bool)

  /** The argument of a `connect` call: none, an options object, or a value that is not an
      object (a UUID number or string, null). Both classes run in strict mode, so on the last
      kind reading `filters` or setting `acceptAllDevices` throws a TypeError. */
  datatype ConnectArg = Absent | Options(options: RequestOptions) | NotAnObject

  /** What both `connect` methods pass to `requestDevice`: without `filters`, `acceptAllDevices`
      is switched on; everything else is kept. */
  function EffectiveOptions(o: RequestOptions): (e: RequestOptions)
    ensures e.filters == o.filters && e.optionalServices == o.optionalServices
    ensures e.acceptAllDevices <==> o.acceptAllDevices || o.filters.None?
  {
    if o.filters.None? then o.(acceptAllDevices := true) else o
  }
}

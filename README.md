# webbluetooth.js in Dafny

A model of the sequential core of webbluetooth.js. The library is a browser wrapper around the
Web Bluetooth API, plus two small interface scripts and a light-bulb driver. The model covers
three parts.

- **The connection wrappers.** There are three revisions of one class: `src/WebBluetooth.js`,
  `src/webbluetooth.js` and `src/WebBluetoothDevice.js`.
  - Each is a Dafny `class` with the source's fields: the device, the GATT server and the two
    Maps, a service cache and a characteristic cache.
  - Each method is proved to behave as a shared specification function in `GattCache`.
    - `getService` and `getCharacteristic` throw when not connected. Otherwise they answer from
      the cache, or ask the platform and store what it returns.
    - `readValue` and `writeValue` catch errors as their revision does.
  - Lemmas about those functions state the caching promises:
    - one lookup at most for two calls in a row;
    - no negative caching;
    - a characteristic cache keyed by characteristic UUID alone;
    - the owning service cached on a characteristic miss;
    - caches that only ever hold what the server offers.
  - The platform (`BluetoothDevice`, its GATT server, services and characteristics) is an oracle
    in `Gatt`:
    - constant fields fix its answers;
    - ghost counters record how many lookups the wrappers made;
    - a `failing` flag stands for a rejected read or write.
- **The string handling of the interface scripts.** This covers `src/playground/js/interface.js`,
  its older copy `src/demo/js/interface.js` and `demo/js/interface.js`.
  - UUID normalisation, comma-list splitting, hexadecimal and decimal parsing of write values,
    two-digit hex formatting and the connection options built from four input fields.
  - `JsText` writes out the JavaScript built-ins these scripts rely on:
    - `parseInt` with and without a radix;
    - `split` and `join`;
    - the `\s` class;
    - `replace` of the first match;
    - `indexOf`;
    - ASCII `toLowerCase`;
    - `toString(16)`;
    - ToUint8.
  - The two copies are compared: where they agree, and the inputs on which they do not.
- **The byte codecs.**
  - `decodeLedData` of `src/playground/js/interface-util.js`.
  - The MagicBlue command frames of `src/magicblue.js`.
  - The DataView window helpers of `src/util/util.transform.js` and `src/webbluetooth.js`.

The model follows the code as written, including behaviour that looks unintended.

- `getUuidFromString` in the demo copy passes a 16-bit UUID through `getValueFromHexString`.
  That function puts a lower-case `0x` in front of any string without one. So `0XFFE9` is read
  as `0x0XFFE9`, which is 0, while the playground reads it as 65513.
- The demo copy's `getUUIDArrayFromString` calls `replace(' ', '')`, which removes only the first
  space. In `a, b, c` the third piece keeps its space.
- The service prefetch of `src/WebBluetooth.js` (`_getRequestedServices`) reads
  `options.filters.services` from the filters array, which is always undefined. The prefetch
  therefore asks for nothing, and `connect` leaves both caches empty.
- `WebBluetooth.js` `connect` called without options throws a TypeError after the reset, because
  it reads `options.filters` before its `try`. In both revisions a value that is not an object
  also throws there, since strict code may not set `acceptAllDevices` on it. The UUID passed by
  src/magicblue.js:21 and demo/js/interface.js:54 is such a value.
- The MagicBlue driver calls `writeValue(0xffe9, frame)` with two arguments. Both wrapper
  revisions take `(serviceUuid, characteristicUuid, value)`, so they look up 0xffe9 as a service
  and the frame as a characteristic UUID, and the value is undefined. No frame reaches the
  control characteristic: src/webbluetooth.js catches the failed lookup, and
  src/WebBluetooth.js lets it reject.
- The playground's handlers test `btnAssociations.valueType === 'hex'`, but `getBtnAssociations`
  never sets `valueType`. So writes always parse with radix 10 and reads never show hex, whichever
  radio button is checked; hex is checked by default. On a hex row the value `ff` writes the
  byte 0 (`PlaygroundInterface.HexFieldWritesDecimal`).

## Model

| member | source | states |
|---|---|---|
| Transform.WholeView | src/WebBluetooth.js:139 | the DataView `characteristic.readValue()` resolves to sees exactly the characteristic's current bytes |
| Transform.GetUint8 | src/webbluetooth.js:21-23 | `getUint8(i)` succeeds exactly below `byteLength` and returns byte `i` of the window |
| Transform.GetUint16 | src/playground/js/interface-util.js:100 | `getUint16` succeeds exactly when two bytes are left in the view; the value is byte `i` plus 256 times byte `i + 1` little-endian, the reverse big-endian, and fits 16 bits |
| Transform.DataViewToUint8Array | src/util/util.transform.js:21-23 | the Uint8Array takes the view's buffer, offset and length, so element `i` is `buffer[byteOffset + i]` and the length is `byteLength` |
| Transform.DataViewToString | src/util/util.transform.js:10-14 | what is decoded is the window of the DataView, through the Uint8Array view |
| Transform.DataViewToStringOnlyWindow | src/util/util.transform.js:10-14 | two views with the same window decode alike, whatever else their buffers hold |
| Transform.Uint8ArraySameBytes | src/util/util.transform.js:21-23 | the Uint8Array carries the same bytes as the view |
| WebBluetoothScript.DataViewToTextOld | src/webbluetooth.js:11-26 | the loop builds a string of `byteLength` characters whose i-th code is byte i of the view |
| Gatt.RemoteCharacteristic.ReadValue | src/WebBluetooth.js:139 | the platform read: the current value when readable and not failing, a rejection otherwise; counts the read |
| Gatt.RemoteCharacteristic.WriteValue | src/WebBluetooth.js:112 | the platform write: stores the bytes when writable and not failing, rejects otherwise; counts the write |
| Gatt.GattServer.Connect | src/WebBluetooth.js:52 | `gatt.connect()` succeeds exactly when the server is or can become connected |
| Gatt.GattServer.Disconnect | src/WebBluetooth.js:86 | `gatt.disconnect()` leaves the server disconnected |
| Gatt.GattServer.GetPrimaryService | src/WebBluetooth.js:175 | the service of that UUID when connected and offered, a rejection otherwise; one lookup counted |
| Gatt.GattServer.GetCharacteristic | src/WebBluetooth.js:204 | the characteristic of that UUID in the service, a rejection otherwise; one lookup counted |
| Gatt.EffectiveOptions | src/WebBluetooth.js:45-48 | `acceptAllDevices` is switched on exactly when `filters` is absent (or it was already on); filters and optional services are kept |
| GattCache.OfferedIsCharacteristicOf | src/WebBluetooth.js:204-206 | a characteristic some service offers is one of the server's characteristics |
| GattCache.NotConnectedThrows | src/WebBluetooth.js:165-168 | not connected: both lookups throw "Device not connected" with no lookup and no cache change |
| GattCache.ServiceCacheHit | src/WebBluetooth.js:171-172 | a cached service is returned without asking the server and without changing the caches |
| GattCache.ServiceMissStores | src/WebBluetooth.js:174-181 | a service miss stores the result under exactly the UUID asked; a failure leaves both caches unchanged |
| GattCache.ServiceTwice | src/WebBluetooth.js:171-183 | two `getService(u)` calls make one lookup at most once the first succeeds; a failure is not remembered and repeats |
| GattCache.CharacteristicKeyedByUuidOnly | src/WebBluetooth.js:199-200 | a cached characteristic is returned whatever service UUID is passed, with no lookup |
| GattCache.CharacteristicMissCachesService | src/WebBluetooth.js:203-206 | a characteristic miss leaves the owning service cached, and stores the characteristic exactly when the service offers it |
| GattCache.CharacteristicFailureKeepsCache | src/WebBluetooth.js:207-210 | a failed `getCharacteristic` leaves the characteristic cache as it was |
| GattCache.ServiceKeepsEntries | src/WebBluetooth.js:171-183 | `getService` never removes or replaces a cache entry |
| GattCache.CharacteristicKeepsEntries | src/WebBluetooth.js:193-213 | `getCharacteristic` never removes or replaces a cache entry |
| GattCache.ExtendsTransitive | src/WebBluetooth.js:171-213 | a run of lookups with no reset between them keeps every entry the caches began with |
| GattCache.ServiceHitPersists | src/WebBluetooth.js:171-172 | a service once cached is a lookup-free hit after any lookups in between, so until a reset `getService(u)` makes one lookup at most |
| GattCache.CharacteristicHitPersists | src/WebBluetooth.js:193-195 | a characteristic once cached is a lookup-free hit after any lookups in between, whatever service UUID is passed |
| GattCache.CharacteristicTwice | src/WebBluetooth.js:193-213 | a second `getCharacteristic` after a success is a cache hit with no lookup; after a failure it fails the same way with no more lookups |
| GattCache.GetServiceCoherent | src/WebBluetooth.js:165-184 | `getService` keeps every cached entry equal to what the server offers and returns the server's own service |
| GattCache.CoherentStore | src/WebBluetooth.js:206 | storing a characteristic the server offers keeps the caches coherent |
| GattCache.GetCharacteristicCoherent | src/WebBluetooth.js:193-213 | `getCharacteristic` keeps the caches coherent and returns a characteristic the server offers under that UUID |
| GattCache.SharedCharacteristicUuid | src/WebBluetooth.js:199-206 | two services offering the same characteristic UUID share one cache entry: the second lookup returns the first service's characteristic |
| GattCache.ReadAs | src/WebBluetooth.js:141-149 | DataView (and any other type) gives the view unchanged, String the decoded window, Uint8Array a byte view on the same window |
| GattCache.ReadResult | src/WebBluetooth.js:137-156 | undefined exactly when the characteristic is not readable or the read rejects; otherwise the read value converted |
| WebBluetooth.WebBluetooth.constructor | src/WebBluetooth.js:9-14 | a new wrapper holds no device or server, has empty caches and is not connected |
| WebBluetooth.WebBluetooth.ResetDeviceEnvironment | src/WebBluetooth.js:303-308 | the reset forgets the device, the server and both caches |
| WebBluetooth.WebBluetooth.Connect | src/WebBluetooth.js:43-64 | resets first; without options, or with a value that is not an object, throws a TypeError; otherwise stores the effective options and returns true exactly when a device was chosen and its server connected, false otherwise; no service lookup is made |
| WebBluetooth.WebBluetooth.Disconnect | src/WebBluetooth.js:84-91 | when connected, disconnects the server and resets everything; otherwise changes nothing, the server included; in both cases the server keeps its device and lookup counters |
| WebBluetooth.WebBluetooth.GetService | src/WebBluetooth.js:165-184 | behaves as `GattCache.GetService`: result, caches and lookup count |
| WebBluetooth.WebBluetooth.GetCharacteristic | src/WebBluetooth.js:193-213 | behaves as `GattCache.GetCharacteristic`, and a returned characteristic belongs to the server |
| WebBluetooth.WebBluetooth.ReadValue | src/WebBluetooth.js:132-157 | a failed lookup (`_getCharacteristicFromUnkownParam`) propagates; otherwise the result is `ReadResult`, with one platform read only when readable; the server stays connected as it was, its lookup counters grow only by the lookup made, and every other characteristic is unchanged |
| WebBluetooth.WebBluetooth.WriteValue | src/WebBluetooth.js:108-116 | a failed lookup propagates; otherwise one platform write is made and the call resolves to undefined whether it succeeded or not; the server stays connected as it was, its lookup counters grow only by the lookup made, and every other characteristic is unchanged |
| WebBluetoothScript.WebBluetooth.constructor | src/webbluetooth.js:57-62 | a new wrapper holds nothing and is not connected |
| WebBluetoothScript.WebBluetooth.ResetAll | src/webbluetooth.js:242-247 | `_resetAll` forgets the device, the server and both caches |
| WebBluetoothScript.WebBluetooth.Connect | src/webbluetooth.js:77-93 | resets first; a value that is not an object (the UUID that src/magicblue.js:21 passes) throws a TypeError before the `try` and keeps the old options; otherwise options default to `acceptAllDevices` and it returns true exactly when a device was chosen and its server connected |
| WebBluetoothScript.WebBluetooth.Disconnect | src/webbluetooth.js:100-107 | when the device reports connected, disconnects and resets; otherwise changes nothing, the device's server included; in both cases that server keeps its device and lookup counters |
| WebBluetoothScript.WebBluetooth.GetService | src/webbluetooth.js:185-204 | behaves as `GattCache.GetService`; connected through the device with no server stored gives a TypeError |
| WebBluetoothScript.WebBluetooth.GetCharacteristic | src/webbluetooth.js:213-233 | behaves as `GattCache.GetCharacteristic` |
| WebBluetoothScript.WebBluetooth.ReadValue | src/webbluetooth.js:149-174 | every failure, not-connected included, resolves to undefined; otherwise `ReadResult`; the server stays connected as it was, its lookup counters grow only by the lookup made, and every other characteristic is unchanged |
| WebBluetoothScript.WebBluetooth.WriteValue | src/webbluetooth.js:135-142 | every failure is caught; a found characteristic gets one write; the server stays connected as it was, its lookup counters grow only by the lookup made, and every other characteristic is unchanged |
| WebBluetoothDevice.WebBluetoothDevice.constructor | src/WebBluetoothDevice.js:10-20 | keeps the server, the device it belongs to, the options and the back-reference, with empty caches |
| WebBluetoothDevice.WebBluetoothDevice.ResetDeviceEnvironment | src/WebBluetoothDevice.js:183-189 | drops the back-reference, device, server and caches, after which it is not connected |
| WebBluetoothDevice.WebBluetoothDevice.Disconnect | src/WebBluetoothDevice.js:27-34 | when connected, disconnects and resets for good; otherwise changes nothing, the server included; in both cases the server keeps its device and lookup counters |
| WebBluetoothDevice.WebBluetoothDevice.GetService | src/WebBluetoothDevice.js:126-145 | behaves as `GattCache.GetService` |
| WebBluetoothDevice.WebBluetoothDevice.GetCharacteristic | src/WebBluetoothDevice.js:154-174 | behaves as `GattCache.GetCharacteristic` |
| WebBluetoothDevice.WebBluetoothDevice.ReadValue | src/WebBluetoothDevice.js:89-111 | every failure resolves to undefined, the String type included; otherwise `ReadResult`; the server stays connected as it was, its lookup counters grow only by the lookup made, and every other characteristic is unchanged |
| WebBluetoothDevice.WebBluetoothDevice.WriteValue | src/WebBluetoothDevice.js:72-79 | every failure is caught; a found characteristic gets one write; the server stays connected as it was, its lookup counters grow only by the lookup made, and every other characteristic is unchanged |
| MagicBlue.Byte | src/magicblue.js:62 | a number in 0-255 is stored unchanged in the Uint8Array |
| MagicBlue.SwitchOn | src/magicblue.js:38-41 | the three-byte frame the driver passes to `writeValue`, paired with the constant `0xffe9` it passes beside it |
| MagicBlue.SwitchOff | src/magicblue.js:48-51 | the three-byte frame the driver passes to `writeValue`, paired with the constant `0xffe9` it passes beside it |
| MagicBlue.SetRgb | src/magicblue.js:61-64 | the seven-byte frame the driver passes to `writeValue`, paired with the constant `0xffe9` it passes beside it |
| MagicBlue.SetWhite | src/magicblue.js:72-75 | the seven-byte frame the driver passes to `writeValue`, paired with the constant `0xffe9` it passes beside it |
| MagicBlue.SetMode | src/magicblue.js:84-88 | the four-byte frame the driver passes to `writeValue`, paired with the constant `0xffe9` it passes beside it |
| MagicBlue.OnOffDifferOnlyAtIndexOne | src/magicblue.js:38-51 | both frames have header 0xcc and trailer 0x33; they differ only at index 1, 0x23 for on and 0x24 for off |
| MagicBlue.RgbChannels | src/magicblue.js:61-64 | header `0x56`, channels at 1-3 (modulo 256, unchanged in 0-255), trailer `bb f0 aa` |
| MagicBlue.WhiteLevel | src/magicblue.js:72-75 | colour bytes zero and the level at index 4 |
| MagicBlue.WhiteAndRgbDifferAtIndexFive | src/magicblue.js:61-75 | white and RGB frames share first and last bytes and differ at index 5 (`0x0f` against `0xf0`) |
| MagicBlue.ModeSpeed | src/magicblue.js:84-88 | `bb mode 5*speed 44`, exact for speeds 0-51 seconds |
| InterfaceUtil.GetBtnAssociations | src/playground/js/interface-util.js:23-39 | the returned object holds the typed strings, the value field twice, and no `valueType` |
| InterfaceUtil.DecodeFailsIffShort | src/playground/js/interface-util.js:75-115 | the decoder throws exactly when the view is shorter than its mode needs (1, 4, 5 or 3 bytes) |
| InterfaceUtil.DecodeFields | src/playground/js/interface-util.js:77-109 | mode is byte 0; each mode's fields come from the following bytes; the delay is little-endian |
| InterfaceUtil.UnknownModeUndefined | src/playground/js/interface-util.js:79-111 | any mode above 3 gives an undefined status |
| InterfaceUtil.DecodeReadsFirstFiveBytes | src/playground/js/interface-util.js:77-109 | nothing past index 4 is read |
| InterfaceUtil.ThingyExample | src/playground/js/device-presets/thingy-presets.js:33-34 | `02 02 4a d0 07` decodes to breathe mode, colour 2, intensity 0x4a, delay 2000 |
| UuidSyntax.ShortDigits | src/playground/js/interface.js:96 | the digits of a short UUID are 4 or 8 hex digits, with or without its prefix |
| UuidSyntax.ShortUuidValue | src/playground/js/interface.js:96-98 | `parseInt(s, 16)` of a short UUID reads all its digits, prefix or not, and fits 32 bits (16 for four digits) |
| UuidSyntax.OkAtLower | src/playground/js/interface.js:90 | lower-casing keeps each position of the 128-bit pattern satisfied or not |
| UuidSyntax.LongUuidLower | src/playground/js/interface.js:90-92 | a string holds a 128-bit UUID exactly when its lower-cased form does |
| UuidSyntax.ShortIsNotLong | src/playground/js/interface.js:90-96 | the two patterns never both match |
| UuidSyntax.LongExample | src/playground/js/interface.js:90 | `4dc591b0-857c-41de-b5f1-15abda665b0c` matches the 128-bit pattern |
| PlaygroundInterface.GetHexStringFromValue | src/playground/js/interface.js:67-73 | lower-case hex digits spelling the number, at least two, exactly two below 256 |
| PlaygroundInterface.HexStringRoundTrip | src/playground/js/interface.js:67-73 | parsing the hex string of a byte with radix 16 gives the byte back |
| PlaygroundInterface.GetUUIDFromString | src/playground/js/interface.js:88-104 | 128-bit: lower-cased, warning exactly when it held an upper-case letter; short: its hex value, below 2^32, no warning; anything else kept as a name |
| PlaygroundInterface.LongUuidNormalisedOnce | src/playground/js/interface.js:90-95 | a normalised 128-bit UUID normalises to itself with no warning |
| PlaygroundInterface.ShortUuidExamples | src/playground/js/interface.js:96-103 | `0xffe9` and `ffe9` give 65513; `heart_rate` is kept |
| PlaygroundInterface.UpperLongUuid | src/playground/js/interface.js:90-95 | a 128-bit UUID with an upper-case letter is lower-cased with a warning |
| PlaygroundInterface.RemoveWhiteSpaceKeepsCommas | src/playground/js/interface.js:151 | removing whitespace keeps every comma |
| PlaygroundInterface.UuidListLength | src/playground/js/interface.js:150-159 | a list with n commas gives n + 1 UUIDs |
| PlaygroundInterface.GetUUIDArrayFromString | src/playground/js/interface.js:150-160 | the pieces, normalised and pushed in order, are the UUID list: n + 1 of them for n commas |
| PlaygroundInterface.GetConnectionOptions | src/playground/js/interface.js:167-198 | `filters` exactly when some filter field is non-empty, one entry per field in the order services, name, name prefix; `optionalServices` exactly when its field is non-empty |
| PlaygroundInterface.WritePayload | src/playground/js/interface.js:278-285 | the bytes are the space-separated tokens of the value field, parsed with radix 16 when the associations say `'hex'` and 10 otherwise, through ToUint8 |
| PlaygroundInterface.HandlersNeverHex | src/playground/js/interface.js:251-283 | on the associations `getBtnAssociations` returns, neither handler takes its hex branch: the write radix is 10 |
| PlaygroundInterface.OneToken | src/playground/js/interface.js:278-285 | a value without a space writes one byte, the parse of the whole field |
| PlaygroundInterface.HexTokenReadAsDecimal | src/playground/js/interface.js:283-284 | as written, hex digits starting with a letter write 0; with radix 16 they write the value they spell |
| PlaygroundInterface.HexFieldWritesDecimal | src/playground/js/interface.js:283-284 | as written, `ff` writes 0; with radix 16 it writes 255 |
| PlaygroundInterface.ParseTokens | src/playground/js/interface.js:278-285 | one byte per space-separated token |
| PlaygroundInterface.HexDumpRoundTrip | src/playground/js/interface.js:250-257 | the round trip a hex row is meant to give: bytes spelled in hex and parsed back with radix 16 are the same bytes |
| PlaygroundInterface.EmptyValueWritesZero | src/playground/js/interface.js:278-285 | an empty value field writes a single zero byte |
| DemoInterface.EmptyReadsZero | src/demo/js/interface.js:54-62 | an empty string reads as `parseInt(0)`, which is 0 |
| DemoInterface.HexDigitsValue | src/demo/js/interface.js:54-62 | hex digits read as hex with or without a lower-case `0x` in front |
| DemoInterface.NoHexX | src/demo/js/interface.js:57 | a hex digit is never `x`, so digits alone never contain `0x` |
| DemoInterface.UpperPrefixReadsZero | src/demo/js/interface.js:56-61 | `0X` followed by hex digits reads as 0 |
| DemoInterface.GetUuidFromString | src/demo/js/interface.js:76-92 | the 128-bit branch is the playground's; a short UUID becomes a number with no warning; anything else is kept |
| DemoInterface.ShortValue | src/demo/js/interface.js:84-86 | a short UUID reads as its hex digits, except that an upper-case `0X` reads as 0 |
| DemoInterface.AgreesWithPlayground | src/demo/js/interface.js:76-92 | both copies normalise alike exactly except on a short UUID with `0X` and non-zero digits |
| DemoInterface.UpperPrefixUuid | src/demo/js/interface.js:84-86 | `0X` with four hex digits is 0 here and its hex value in the playground |
| DemoInterface.Ffe9Value | src/magicblue.js:7 | the digits `FFE9` are four hex digits spelling 65513, the MagicBlue control characteristic UUID |
| DemoInterface.GetUUIDArrayFromString | src/demo/js/interface.js:137-147 | the pieces, normalised and pushed in order after only the first space is removed, are this copy's UUID list, n + 1 of them for n commas |
| DemoInterface.FirstSpaceOnly | src/demo/js/interface.js:138-146 | `a, b, c` gives `a`, `b` and ` c`, the last kept as a name with its space |
| DemoInterface.PlaygroundDropsEverySpace | src/playground/js/interface.js:150-159 | the same list in the playground gives `a`, `b`, `c` |
| DemoInterface.FirstSpaceRemoved | src/demo/js/interface.js:138 | only the space after the first comma is removed |
| DemoInterface.AllSpacesRemoved | src/playground/js/interface.js:151 | every space of `a, b, c` is removed |
| DemoInterface.SplitThree | src/demo/js/interface.js:139 | `x,y,z` splits into its three pieces |
| DemoInterface.PlainName | src/demo/js/interface.js:88-90 | a string shorter than four characters is kept as a name by both copies |
| DemoInterface.GetConnectionOptions | src/demo/js/interface.js:154-185 | the playground's filter order and presence rules, with this copy's list splitting |
| DemoInterface.WritePayload | src/demo/js/interface.js:269-274 | each token's `getValueFromHexString` is pushed in order, then converted by ToUint8 |
| DemoInterface.ParseTokens | src/demo/js/interface.js:269-274 | one byte per space-separated token |
| DemoInterface.HexDumpRoundTrip | src/demo/js/interface.js:269-274 | bytes spelled in hex as the playground's hex branch means to show them are written back unchanged by this copy |
| DemoPage.PrefixedHex | demo/js/interface.js:35-43 | the string handed to `parseInt`: `0` for an empty field, unchanged when it contains `0x`, otherwise `0x` in front of it |
| DemoPage.AgreesWithDemoInterface | demo/js/interface.js:35-43 | `valueFromHexString` agrees with `getValueFromHexString` of src/demo/js/interface.js on every input |
| DemoPage.EmptyIsZero | demo/js/interface.js:36 | an empty field reads as 0 |
| DemoPage.HexDigits | demo/js/interface.js:37-42 | hex digits read as hex with or without `0x` |
| DemoPage.Ffe5Example | demo/js/interface.js:35-43 | `ffe5` reads as 65509 |
| DemoPage.FfeValue | src/magicblue.js:6 | the digits `ffe5` spell 65509, the MagicBlue service UUID |
| JsText.TrimStart | src/demo/js/interface.js:61 | `parseInt` skips a whitespace prefix: the result is a suffix starting with a non-whitespace character |
| JsText.TrimStartRemovesWhiteSpace | src/demo/js/interface.js:61 | what is skipped is all whitespace |
| JsText.RemoveWhiteSpace | src/playground/js/interface.js:151 | `replace(/\s/g, '')` leaves no whitespace and keeps a whitespace-free string unchanged |
| JsText.RemoveWhiteSpaceAppend | src/playground/js/interface.js:151 | whitespace removal works piece by piece |
| JsText.RemoveFirst | src/demo/js/interface.js:138 | `replace(' ', '')` removes one character when there is one, nothing otherwise |
| JsText.RemoveFirstSkips | src/demo/js/interface.js:138 | only the first occurrence is removed; later ones stay |
| JsText.ToLower | src/playground/js/interface.js:92 | ASCII lower-casing, position by position |
| JsText.ToLowerChangesIffUpper | src/playground/js/interface.js:93 | lower-casing changes a string exactly when it holds an upper-case letter |
| JsText.ToLowerIdempotent | src/playground/js/interface.js:92 | lower-casing twice is lower-casing once |
| JsText.ContainsIffMatches | src/demo/js/interface.js:57 | `indexOf(t) !== -1` exactly when `t` occurs at some position |
| JsText.NoXNo0x | src/demo/js/interface.js:57 | a string without `x` does not contain `0x` |
| JsText.StartsWith0x | src/demo/js/interface.js:57-58 | a string starting with `0x` contains it |
| JsText.Split | src/playground/js/interface.js:152 | `split` gives one more piece than there are separators |
| JsText.SplitPiecesFree | src/playground/js/interface.js:152 | no piece holds the separator |
| JsText.JoinSplit | src/playground/js/interface.js:152 | joining the pieces of a split gives the string back |
| JsText.SplitAfterFreePrefix | src/playground/js/interface.js:152 | splitting a string that starts with a separator-free piece |
| JsText.SplitJoin | src/playground/js/interface.js:257 | splitting a join of separator-free pieces gives the pieces back |
| JsText.DigitPrefix | src/playground/js/interface.js:284 | `parseInt` reads the longest run of digits of the radix |
| JsText.ParseIntDigits | src/playground/js/interface.js:284 | a run of digits of the radix parses to the number it spells |
| JsText.ParseIntNoDigit | src/playground/js/interface.js:284 | with a radix other than 16, a string whose first character is no digit of the radix, whitespace or a sign is NaN |
| JsText.ParseIntDecimal | src/demo/js/interface.js:61 | without a radix, decimal digits parse as decimal |
| JsText.ParseIntPrefixedHex | src/demo/js/interface.js:61 | `0x` or `0X` and hex digits parse as hex, with the radix absent or 16 |
| JsText.DigitsValueBound | src/playground/js/interface.js:96-98 | k hex digits spell a number below 16^k |
| JsText.HexDigit | src/playground/js/interface.js:68 | the lower-case hex digit of a value below 16 |
| JsText.ToHex | src/playground/js/interface.js:68 | `toString(16)`: lower-case digits spelling the number, one digit exactly below 16, at most two below 256 |
| JsText.PushEach | src/playground/js/interface.js:153-157 | the `forEach` that pushes `f` of each element: as many results as elements, the k-th being `f` of the k-th |
| JsText.ToUint8 | src/playground/js/interface.js:285 | NaN becomes 0 and an integer is taken modulo 256, so one in 0-255 is kept |

## Left out

- The platform itself is an oracle that answers from fixed data. This covers `requestDevice`,
  the GATT transport and `startNotifications`. Device choice is a parameter of `connect`, and
  UTF-8 decoding (`TextDecoder`) is recorded as the decoded bytes.
- `async` calls are atomic. Concurrent calls and their interleavings are not modelled, and
  neither are the event listeners, including the `oncharacteristicvaluechanged` handler that
  `readValue` installs in src/webbluetooth.js.
- Logging and warnings (`console`, `_error`, `_getOperationsString`) are not modelled, except
  the lower-case warning of the UUID normalisation.
- Object identity of services and characteristics is limited to what the caches need. The model
  does not track one characteristic reached through two wrappers.
- `_addDevice` and `disconnectAll` in src/WebBluetooth.js are not modelled. They are marked for
  removal and touch a device list nothing else reads.
- `_getRequestedServices` in src/WebBluetooth.js has no member: as written it asks for nothing,
  so `WebBluetooth.WebBluetooth.Connect` leaves the caches empty. In src/WebBluetoothDevice.js
  it is inlined into the constructor in the same way.
- The getters `id`, `name`, `gatt` and `device` are not modelled. They return a field.
- `window.device` in src/webbluetooth.js `connect` is not modelled, because it is a browser
  global.
- src/util/util.js is not part of this model. `util.transform` is taken to be
  src/util/util.transform.js.
- `toLowerCase` is modelled for ASCII only; other letters are left unchanged.
- `setMode` is modelled for a whole number of seconds only. Other speeds need floating point.
- The MagicBlue `connect`, `disconnect` and the call to `writeValue` with two arguments are not
  modelled. The model gives the command frames, each paired with the `0xffe9` constant the
  driver passes beside it. A frame given as a characteristic UUID is outside the model's `Uuid`
  type, so the failing lookup described above is stated in prose only.
- Both `connect` revisions set `acceptAllDevices` on the caller's own options object and keep a
  reference to it. `Gatt.EffectiveOptions` returns an updated copy; the in-place change seen by
  the caller is not modelled.
- The DOM work of the interface scripts is not modelled: reading fields, building forms, button
  state, status text, the read handlers' text output, and `isConnected` of the demo page.
  `PlaygroundInterface.HexDump` is only the hex spelling of the read handler's hex branch,
  which as written is never taken. The
  four input fields of `getConnectionOptions` are parameters.
- The demo scripts and their `Math.random` colours are not modelled.
- The 0XFFE9 case of the demo copy is stated generically, for any four hex digits after `0X`
  (`DemoInterface.UpperPrefixUuid`), with `DemoInterface.Ffe9Value` for the digits `FFE9`.
  The model does not name the full string "0XFFE9" in a lemma of its own.
- A `parseInt` value outside 0-255 is modelled modulo 256, as `new Uint8Array` converts it. The
  model does not represent a parse of more than 2^53.
- WebBluetooth.WebBluetooth.ReadValue and WebBluetooth.WebBluetooth.WriteValue: a characteristic
  does not know its server, so its read and write answer from `failing` alone. With a `Direct`
  target whose server has disconnected the model still reads or writes it. The platform would
  reject, and src/WebBluetooth.js:136-155 would resolve to undefined. A lookup by UUID checks the
  connection first, so it is not affected.
- Transform.DataViewToUint8Array: buffers are values, so the model does not capture that the
  view and the Uint8Array share one buffer; a later change through one is not seen in the other.
- DemoInterface.GetUuidFromString: its contract says only that a short UUID becomes a number. The
  value is stated by `DemoInterface.ShortValue`.
- PlaygroundInterface.HexDumpRoundTrip: states the hex round trip the radio buttons intend. As
  written the read handler never shows hex and the write handler parses with radix 10
  (`PlaygroundInterface.HandlersNeverHex`).
- DemoInterface.HexDumpRoundTrip: its input is the hex spelling the playground means to show,
  which as written its read handler never produces.
- PlaygroundInterface.ParseTokens: its contract gives only the length. Token by token contents are
  stated by `PlaygroundInterface.WritePayload`, `PlaygroundInterface.HexDumpRoundTrip` and
  `PlaygroundInterface.EmptyValueWritesZero`.

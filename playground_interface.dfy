/** The string handling of src/playground/js/interface.js: turning what the user typed into
    UUIDs, connection options and bytes to write, and the hex spelling its read handler means
    to show. */
module PlaygroundInterface {

  import opened Wrappers
  import opened Transform
  import opened Gatt
  import opened JsText
  import opened UuidSyntax
  import opened InterfaceUtil

  /** `getHexStringFromValue(num)`: `num.toString(16)`, with a `0` in front when that is a single
      digit. */
  function GetHexStringFromValue(n: nat): (str: string)
    ensures 2 <= |str| && AllDigits(str, 16) && !HasUpper(str)
    ensures n < 256 ==> |str| == 2
    ensures DigitsValue(str, 16) == n
  {
    var s := ToHex(n);
    if |s| == 1 then
      var str := "0" + s;
      assert str[..1] == "0" && str[..1][..0] == [];
      str
    else s
  }

  /** Reading a byte's hex string back with radix 16, as the write handler does, gives the byte. */
  lemma HexStringRoundTrip(n: nat)
    requires n < 256
    ensures ParseInt(GetHexStringFromValue(n), 16) == Some(n)
  {
    var s := GetHexStringFromValue(n);
    assert IsDigit(s[1], 16);
    ParseIntDigits(s, 16);
  }

  /** A normalised UUID and whether normalising it printed the lower-case warning. */
  datatype Normalized = Normalized(uuid: Uuid, warned: bool)

  /** `getUUIDFromString(str)`: a string holding a 128-bit UUID anywhere is lower-cased, with a
      warning when that changed it; a whole 16- or 32-bit UUID becomes `parseInt(str, 16)`;
      anything else, such as `heart_rate`, is kept as it is. */
  function GetUUIDFromString(s: string): (r: Normalized)
    ensures HasLongUuid(s) ==> r.uuid == Name(ToLower(s)) && (r.warned <==> HasUpper(s))
    ensures !HasLongUuid(s) && IsShortUuid(s) ==>
      (!r.warned && r.uuid == Num(DigitsValue(ShortDigits(s), 16)) && r.uuid.n < 0x1_0000_0000)
    ensures !HasLongUuid(s) && !IsShortUuid(s) ==> r == Normalized(Name(s), false)
  {
    if HasLongUuid(s) then
      ToLowerChangesIffUpper(s);
      Normalized(Name(ToLower(s)), ToLower(s) != s)
    else if IsShortUuid(s) then
      ShortUuidValue(s);
      Normalized(Num(ParseInt(s, 16).value), false)
    else Normalized(Name(s), false)
  }

  /** Normalising is idempotent: a normalised 128-bit UUID string is a fixed point and draws no
      second warning. */
  lemma {:induction false} LongUuidNormalisedOnce(s: string)
    requires HasLongUuid(s)
    ensures GetUUIDFromString(ToLower(s)) == Normalized(Name(ToLower(s)), false)
  {
    LongUuidLower(s);
    ToLowerIdempotent(s);
  }

  /** `"0xffe9"` and `"ffe9"` both give 65513; `heart_rate` is kept as a name. */
  lemma ShortUuidExamples()
    ensures GetUUIDFromString("0xffe9") == Normalized(Num(65513), false)
    ensures GetUUIDFromString("ffe9") == Normalized(Num(65513), false)
    ensures GetUUIDFromString("heart_rate") == Normalized(Name("heart_rate"), false)
  {
    assert IsShortUuid("0xffe9") && ShortDigits("0xffe9") == "ffe9";
    assert IsShortUuid("ffe9");
    assert DigitsValue("ffe9", 16) == 65513 by {
      assert "ffe9"[..3] == "ffe" && "ffe"[..2] == "ff" && "ff"[..1] == "f" && "f"[..0] == [];
    }
    assert !IsShortUuid("heart_rate");
  }

  /** A string that is exactly a 128-bit UUID with an upper-case letter in it, such as
      `4DC591B0-857C-41DE-B5F1-15ABDA665B0C`, is lower-cased with a warning. */
  lemma UpperLongUuid(s: string)
    requires Shape(s) && HasUpper(s)
    ensures GetUUIDFromString(s) == Normalized(Name(ToLower(s)), true)
  {
    assert s[0..36] == s;
    assert At(s, 0);
  }

  /** The UUIDs `getUUIDArrayFromString` makes of a comma-separated list: all whitespace
      removed, split on commas, each piece normalised. */
  function UuidList(str: string): seq<Uuid> {
    var parts := Split(RemoveWhiteSpace(str), ',');
    seq(|parts|, i requires 0 <= i < |parts| => GetUUIDFromString(parts[i]).uuid)
  }

  /** Removing whitespace keeps every comma. */
  lemma {:induction false} RemoveWhiteSpaceKeepsCommas(s: string)
    ensures Count(RemoveWhiteSpace(s), ',') == Count(s, ',')
  {
    if s != [] {
      RemoveWhiteSpaceKeepsCommas(s[1..]);
      var head := if IsWhiteSpace(s[0]) then [] else [s[0]];
      CountAppend(head, RemoveWhiteSpace(s[1..]), ',');
    }
  }

  lemma {:induction false} CountAppend(a: string, b: string, c: char)
    ensures Count(a + b, c) == Count(a, c) + Count(b, c)
  {
    if a != [] {
      CountAppend(a[1..], b, c);
      assert (a + b)[1..] == a[1..] + b;
    } else {
      assert a + b == b;
    }
  }

  /** A list of n commas gives n + 1 UUIDs. */
  lemma UuidListLength(str: string)
    ensures |UuidList(str)| == Count(str, ',') + 1
  {
    RemoveWhiteSpaceKeepsCommas(str);
  }

  /** `getUUIDArrayFromString(uuidStr)`: the pieces pushed one by one, in order. */
  method GetUUIDArrayFromString(uuidStr: string) returns (uuids: seq<Uuid>)
    ensures uuids == UuidList(uuidStr)
    ensures |uuids| == Count(uuidStr, ',') + 1
  {
    var parts := Split(RemoveWhiteSpace(uuidStr), ',');
    uuids := PushEach(parts, (s: string) => GetUUIDFromString(s).uuid);
    assert |UuidList(uuidStr)| == |parts|;
    UuidListLength(uuidStr);
  }

  /** `options.filters = options.filters || []; options.filters.push(f)`. */
  function Push(filters: Option<seq<Filter>>, f: Filter): Option<seq<Filter>> {
    Some((if filters.Some? then filters.value else []) + [f])
  }

  /** `getConnectionOptions()` over the four input fields: one filter per non-empty field, in
      the order services, name, name prefix, `filters` only when there is one, and
      `optionalServices` only when its field is non-empty. */
  method GetConnectionOptions(servicesStr: string, filterName: string, filterNamePrefix: string, optionalServicesStr: string)
    returns (options: RequestOptions)
    ensures options.filters.Some? <==> servicesStr != "" || filterName != "" || filterNamePrefix != ""
    ensures options.filters.Some? ==> (options.filters.value ==
      (if servicesStr != "" then [Filter(Some(UuidList(servicesStr)), None, None)] else [])
      + (if filterName != "" then [Filter(None, Some(filterName), None)] else [])
      + (if filterNamePrefix != "" then [Filter(None, None, Some(filterNamePrefix))] else []))
    ensures options.optionalServices == if optionalServicesStr != "" then Some(UuidList(optionalServicesStr)) else None
    ensures !options.acceptAllDevices
  {
    options := RequestOptions(None, None, false);
    if servicesStr != "" {
      var uuids := GetUUIDArrayFromString(servicesStr);
      options := options.(filters := Push(options.filters, Filter(Some(uuids), None, None)));
    }
    if filterName != "" {
      options := options.(filters := Push(options.filters, Filter(None, Some(filterName), None)));
    }
    if filterNamePrefix != "" {
      options := options.(filters := Push(options.filters, Filter(None, None, Some(filterNamePrefix))));
    }
    if optionalServicesStr != "" {
      var uuids := GetUUIDArrayFromString(optionalServicesStr);
      options := options.(optionalServices := Some(uuids));
    }
  }

  /** The bytes the write handler makes of the value field: split on single spaces, each
      token parsed with the radix, then converted to a byte. */
  function ParseTokens(valueStr: string, radix: int): (bytes: seq<byte>)
    ensures |bytes| == Count(valueStr, ' ') + 1
  {
    var tokens := Split(valueStr, ' ');
    seq(|tokens|, i requires 0 <= i < |tokens| => ToUint8(ParseInt(tokens[i], radix)))
  }

  /** Whether the associations say hex: `btnAssociations.valueType === 'hex'`, the test both
      handlers make. */
  predicate SaysHex(a: BtnAssociations) {
    a.valueType == Some("hex")
  }

  /** The radix `writeHandler` parses with: 16 when the associations say hex, 10 otherwise. */
  function WriteRadix(a: BtnAssociations): int {
    if SaysHex(a) then 16 else 10
  }

  /** The token parse of `writeHandler`: the tokens of the value field copied one by one, then
      mapped through `parseInt` with the radix the associations pick, then made into a Uint8Array. */
  method WritePayload(a: BtnAssociations) returns (bytes: seq<byte>)
    ensures bytes == ParseTokens(a.valueStr, WriteRadix(a))
  {
    var valueStr := a.valueStr;
    var strArray := Split(valueStr, ' ');
    var valuesArray: seq<string> := [];
    var i := 0;
    while i < |strArray|
      invariant 0 <= i <= |strArray| && valuesArray == strArray[..i]
    {
      valuesArray := valuesArray + [strArray[i]];
      i := i + 1;
    }
    assert valuesArray == strArray;
    var radix := if SaysHex(a) then 16 else 10;
    var values := seq(|valuesArray|, k requires 0 <= k < |valuesArray| => ParseInt(valuesArray[k], radix));
    bytes := seq(|values|, k requires 0 <= k < |values| => ToUint8(values[k]));
    assert |ParseTokens(valueStr, radix)| == |bytes|;
  }

  /** As written, both handlers take their decimal branch whatever the row's radio buttons say:
      the associations never carry a `valueType`, so writes parse with radix 10 and reads are
      not shown in hex. */
  lemma HandlersNeverHex(charUUIDStr: string, serviceUUIDStr: string, valueStr: string)
    ensures var a := GetBtnAssociations(charUUIDStr, serviceUUIDStr, valueStr);
      !SaysHex(a) && WriteRadix(a) == 10
      && ParseTokens(a.valueStr, WriteRadix(a)) == ParseTokens(valueStr, 10)
  {
  }

  /** A value field without a space is one token. */
  lemma OneToken(t: string, radix: int)
    requires ' ' !in t
    ensures ParseTokens(t, radix) == [ToUint8(ParseInt(t, radix))]
  {
    SplitJoin([t], ' ');
    assert Join([t], ' ') == t;
  }

  /** What that costs on a hex row: a value made of hex digits that starts with a letter writes
      the byte 0 as written, where a radix-16 parse gives the value it spells. */
  lemma HexTokenReadAsDecimal(t: string)
    requires t != [] && AllDigits(t, 16) && !IsDigit(t[0], 10)
    ensures ParseTokens(t, 10) == [0]
    ensures ParseTokens(t, 16) == [ToUint8(Some(DigitsValue(t, 16)))]
  {
    assert ' ' !in t by {
      forall i | 0 <= i < |t| ensures t[i] != ' ' {
        assert IsDigit(t[i], 16);
      }
    }
    OneToken(t, 10);
    OneToken(t, 16);
    DigitNotWhiteSpace(t[0], 16);
    ParseIntNoDigit(t, 10);
    assert t[0] != '0';
    ParseIntDigits(t, 16);
  }

  /** The field `ff` writes 0 as written and 255 with the radix a hex row means. */
  lemma HexFieldWritesDecimal()
    ensures ParseTokens("ff", 10) == [0]
    ensures ParseTokens("ff", 16) == [255]
  {
    var d := "ff";
    assert AllDigits(d, 16);
    assert d[..1] == "f" && "f"[..0] == [];
    assert DigitsValue("f", 16) == 15;
    assert DigitsValue(d, 16) == 255;
    HexTokenReadAsDecimal(d);
  }

  /** The hex spelling the read handler means for a hex row: each byte as two hex digits, joined
      by spaces. As written the handler never takes that branch (`HandlersNeverHex`). */
  function HexDump(bytes: seq<byte>): string {
    Join(seq(|bytes|, i requires 0 <= i < |bytes| => GetHexStringFromValue(bytes[i])), ' ')
  }

  /** The hex round trip the radio buttons are meant to give: bytes spelled in hex and parsed
      back with radix 16 are the same bytes. */
  lemma HexDumpRoundTrip(bytes: seq<byte>)
    requires bytes != []
    ensures ParseTokens(HexDump(bytes), 16) == bytes
  {
    var strs := seq(|bytes|, i requires 0 <= i < |bytes| => GetHexStringFromValue(bytes[i]));
    forall i | 0 <= i < |strs|
      ensures ' ' !in strs[i]
    {
      assert AllDigits(strs[i], 16);
    }
    SplitJoin(strs, ' ');
    forall i | 0 <= i < |bytes|
      ensures ParseTokens(HexDump(bytes), 16)[i] == bytes[i]
    {
      HexStringRoundTrip(bytes[i]);
    }
  }

  /** An empty value field writes one zero byte: `"".split(' ')` is `[""]`, whose parse is NaN. */
  lemma EmptyValueWritesZero(radix: int)
    ensures ParseTokens("", radix) == [0]
  {
    assert Split("", ' ') == [""];
  }
}

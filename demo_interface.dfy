/** The string handling of src/demo/js/interface.js, an earlier copy of the playground
    interface whose hex parsing goes through `getValueFromHexString` and whose list splitting
    removes only the first space. */
module DemoInterface {

  import opened Wrappers
  import opened Transform
  import opened Gatt
  import opened JsText
  import opened UuidSyntax
  import Playground = PlaygroundInterface
  import MagicBlue

  /** `getValueFromHexString(hexString)`: an empty string becomes the number 0 (`hexString || 0`),
      which `parseInt` reads as 0 (`EmptyReadsZero`); a string without the lower-case `0x`
      anywhere gets it in front, and the result goes to `parseInt` without a radix. None is NaN. */
  function GetValueFromHexString(hexString: string): Option<int> {
    if hexString == "" then Some(0)
    else ParseInt(if Contains(hexString, "0x") then hexString else "0x" + hexString, 0)
  }

  /** An empty field reads as `parseInt(0)`, that is as `parseInt("0")`, which is 0. */
  lemma EmptyReadsZero()
    ensures GetValueFromHexString("") == ParseInt("0", 0) == Some(0)
  {
    var z := "0";
    assert AllDigits(z, 10);
    ParseIntDecimal(z);
    assert DigitsValue(z, 10) == 0;
  }

  /** Hex digits read the same with or without a lower-case `0x` in front. */
  lemma {:induction false} HexDigitsValue(d: string)
    requires d != [] && AllDigits(d, 16)
    ensures GetValueFromHexString(d) == Some(DigitsValue(d, 16))
    ensures GetValueFromHexString("0x" + d) == Some(DigitsValue(d, 16))
  {
    NoHexX(d);
    NoXNo0x(d);
    ParseIntPrefixedHex(d, 'x', 0);
    assert "0x" + d == ['0', 'x'] + d;
    StartsWith0x("0x" + d);
  }

  /** A hex digit is never the letter `x`. */
  lemma NoHexX(d: string)
    requires AllDigits(d, 16)
    ensures 'x' !in d && 'X' !in d
  {
    forall i | 0 <= i < |d|
      ensures d[i] != 'x' && d[i] != 'X'
    {
      assert IsDigit(d[i], 16);
    }
  }

  /** With an upper-case `0X` the lower-case `0x` is still added, so `parseInt` sees `0x0X…`,
      reads the single digit `0` and stops at the `X`. */
  lemma {:induction false} UpperPrefixReadsZero(d: string)
    requires AllDigits(d, 16)
    ensures GetValueFromHexString("0X" + d) == Some(0)
  {
    var s := "0X" + d;
    NoHexX(d);
    assert 'x' !in s by {
      assert forall i | 2 <= i < |s| :: s[i] == d[i - 2];
    }
    NoXNo0x(s);
    var t := "0x" + s;
    assert t[0] == '0';
    TrimStartKeeps(t);
    assert t[2..] == s;
    assert DigitPrefix(s, 16) == "0" by {
      assert !IsDigit(s[1], 16);
      assert DigitPrefix(s[1..], 16) == [];
    }
    assert DigitsValue("0", 16) == 0 by {
      assert "0"[..0] == [];
    }
  }

  /** `getUuidFromString(str)`: the playground's classification, but a 16- or 32-bit UUID is
      read by `getValueFromHexString`. */
  function GetUuidFromString(s: string): (r: Playground.Normalized)
    ensures HasLongUuid(s) ==> r == Playground.GetUUIDFromString(s)
    ensures !HasLongUuid(s) && IsShortUuid(s) ==> !r.warned && r.uuid.Num?
    ensures !HasLongUuid(s) && !IsShortUuid(s) ==> r == Playground.Normalized(Name(s), false)
  {
    if HasLongUuid(s) then
      ToLowerChangesIffUpper(s);
      Playground.Normalized(Name(ToLower(s)), ToLower(s) != s)
    else if IsShortUuid(s) then
      ShortValue(s);
      Playground.Normalized(Num(GetValueFromHexString(s).value), false)
    else Playground.Normalized(Name(s), false)
  }

  /** A short UUID is read as its hex digits, except that an upper-case `0X` prefix reads as 0. */
  lemma ShortValue(s: string)
    requires IsShortUuid(s)
    ensures GetValueFromHexString(s) == Some(if s[1] == 'X' then 0 else DigitsValue(ShortDigits(s), 16))
  {
    var d := ShortDigits(s);
    if |s| == 6 || |s| == 10 {
      if s[1] == 'X' {
        assert s == "0X" + d;
        UpperPrefixReadsZero(d);
      } else {
        assert s == "0x" + d;
        HexDigitsValue(d);
      }
    } else {
      assert IsDigit(s[1], 16);
      HexDigitsValue(d);
    }
  }

  /** The two copies of the UUID normalisation agree on every input but one with an upper-case
      `0X` prefix, which the playground reads as hex and this copy reads as 0. */
  lemma {:induction false} AgreesWithPlayground(s: string)
    ensures GetUuidFromString(s) == Playground.GetUUIDFromString(s) <==>
      !(!HasLongUuid(s) && IsShortUuid(s) && s[1] == 'X' && DigitsValue(ShortDigits(s), 16) != 0)
  {
    if HasLongUuid(s) {
    } else if IsShortUuid(s) {
      ShortValue(s);
      var d := DigitsValue(ShortDigits(s), 16);
      assert Playground.GetUUIDFromString(s) == Playground.Normalized(Num(d), false);
      assert GetUuidFromString(s) == Playground.Normalized(Num(if s[1] == 'X' then 0 else d), false);
    } else {
    }
  }

  /** A 16-bit UUID written with an upper-case `0X` passes the case-insensitive test, yet reads
      as 0 here and as its hex value in the playground. */
  lemma UpperPrefixUuid(d: string)
    requires |d| == 4 && AllDigits(d, 16)
    ensures GetUuidFromString("0X" + d).uuid == Num(0)
    ensures Playground.GetUUIDFromString("0X" + d).uuid == Num(DigitsValue(d, 16))
  {
    var s := "0X" + d;
    assert s[2..] == d;
    assert IsShortUuid(s) && ShortDigits(s) == d;
    ShortValue(s);
  }

  /** The digits `FFE9` spell 65513: with `d` = `FFE9`, `UpperPrefixUuid` says that `0XFFE9`, the
      Magic Blue control characteristic, is 0 here and 65513 in the playground. */
  lemma Ffe9Value()
    ensures |"FFE9"| == 4 && AllDigits("FFE9", 16) && DigitsValue("FFE9", 16) == 65513
    ensures DigitsValue("FFE9", 16) == MagicBlue.CONTROL_CHARACTERISTIC_UUID
  {
    var d := "FFE9";
    assert AllDigits(d, 16);
    assert d[..3] == "FFE" && "FFE"[..2] == "FF" && "FF"[..1] == "F" && "F"[..0] == [];
  }

  /** The UUIDs this copy makes of a list: only the first space removed, split on commas, each
      piece normalised. */
  function UuidList(str: string): seq<Uuid> {
    var parts := Split(RemoveFirst(str, ' '), ',');
    seq(|parts|, i requires 0 <= i < |parts| => GetUuidFromString(parts[i]).uuid)
  }

  /** `getUUIDArrayFromString(uuidStr)`: only the first space removed, split on commas, the
      pieces normalised and pushed in order. */
  method GetUUIDArrayFromString(uuidStr: string) returns (uuids: seq<Uuid>)
    ensures uuids == UuidList(uuidStr)
    ensures |uuids| == Count(RemoveFirst(uuidStr, ' '), ',') + 1
  {
    var parts := Split(RemoveFirst(uuidStr, ' '), ',');
    uuids := PushEach(parts, (s: string) => GetUuidFromString(s).uuid);
    assert |UuidList(uuidStr)| == |parts|;
  }

  /** A piece of a list that is too short to be a UUID and holds no whitespace and no comma. */
  predicate Plain(s: string) {
    |s| < 3 && forall i | 0 <= i < |s| :: !IsWhiteSpace(s[i]) && s[i] != ','
  }

  /** A list `a, b, c` keeps its second space: the pieces are `a`, `b` and ` c`, and ` c` is
      kept as a name with its space. */
  lemma FirstSpaceOnly(a: string, b: string, c: string)
    requires Plain(a) && Plain(b) && Plain(c)
    ensures UuidList(a + ", " + b + ", " + c) == [Name(a), Name(b), Name(" " + c)]
  {
    FirstSpaceRemoved(a, b, c);
    assert ',' !in " " + c by {
      assert forall i | 1 <= i < |" " + c| :: (" " + c)[i] == c[i - 1];
    }
    SplitThree(a + "," + b + "," + (" " + c), a, b, " " + c);
    PlainName(a);
    PlainName(b);
    PlainName(" " + c);
  }

  /** The same list in the playground, which removes every whitespace character, gives `a`,
      `b`, `c`. */
  lemma PlaygroundDropsEverySpace(a: string, b: string, c: string)
    requires Plain(a) && Plain(b) && Plain(c)
    ensures Playground.UuidList(a + ", " + b + ", " + c) == [Name(a), Name(b), Name(c)]
  {
    AllSpacesRemoved(a, b, c);
    SplitThree(a + "," + b + "," + c, a, b, c);
    PlainName(a);
    PlainName(b);
    PlainName(c);
  }

  /** Only the space after `a,` goes. */
  lemma FirstSpaceRemoved(a: string, b: string, c: string)
    requires Plain(a)
    ensures RemoveFirst(a + ", " + b + ", " + c, ' ') == a + "," + b + "," + (" " + c)
  {
    var x, y := a + ",", b + ", " + c;
    assert ' ' !in x by {
      assert forall i | 0 <= i < |a| :: x[i] == a[i];
    }
    assert a + ", " + b + ", " + c == x + [' '] + y;
    RemoveFirstSkips(x, y, ' ');
    assert x + y == a + "," + b + "," + (" " + c);
  }

  /** `x, ` followed by anything loses its space and keeps its comma. */
  lemma CommaSpace(a: string, rest: string)
    requires Plain(a)
    ensures RemoveWhiteSpace(a + ", " + rest) == a + "," + RemoveWhiteSpace(rest)
  {
    assert RemoveWhiteSpace(" ") == [] && RemoveWhiteSpace(",") == ",";
    assert a + ", " + rest == a + ("," + (" " + rest));
    RemoveWhiteSpaceAppend(" ", rest);
    RemoveWhiteSpaceAppend(",", " " + rest);
    RemoveWhiteSpaceAppend(a, "," + (" " + rest));
  }

  lemma TailRemoved(b: string, c: string)
    requires Plain(b) && Plain(c)
    ensures RemoveWhiteSpace(b + ", " + c) == b + "," + c
  {
    assert RemoveWhiteSpace(c) == c;
    CommaSpace(b, c);
  }

  /** Every space of `a, b, c` goes. */
  lemma AllSpacesRemoved(a: string, b: string, c: string)
    requires Plain(a) && Plain(b) && Plain(c)
    ensures RemoveWhiteSpace(a + ", " + b + ", " + c) == a + "," + b + "," + c
  {
    TailRemoved(b, c);
    CommaSpace(a, b + ", " + c);
    Regroup(a, b, c);
  }

  /** The list `a, b, c` read as `a, ` followed by the rest, before and after the spaces go. */
  lemma Regroup(a: string, b: string, c: string)
    ensures a + ", " + b + ", " + c == a + ", " + (b + ", " + c)
    ensures a + "," + (b + "," + c) == a + "," + b + "," + c
  {
  }

  /** Splitting `x,y,z` on commas when none of the pieces holds one. */
  lemma SplitThree(s: string, x: string, y: string, z: string)
    requires s == x + "," + y + "," + z
    requires ',' !in x && ',' !in y && ',' !in z
    ensures Split(s, ',') == [x, y, z]
  {
    var t2 := [','] + z;
    var t1 := [','] + (y + t2);
    assert s == x + t1;
    SplitAfterFreePrefix(z, "", ',');
    assert z + "" == z && Split(z, ',') == [z];
    assert t2[1..] == z;
    assert Split(t2, ',') == ["", z];
    SplitAfterFreePrefix(y, t2, ',');
    assert y + "" == y && Split(y + t2, ',') == [y, z];
    assert t1[1..] == y + t2;
    assert Split(t1, ',') == ["", y, z];
    SplitAfterFreePrefix(x, t1, ',');
    assert x + "" == x;
  }

  /** A short string that is neither kind of UUID is kept as a name, by both copies. */
  lemma PlainName(s: string)
    requires |s| < 4
    ensures GetUuidFromString(s).uuid == Name(s)
    ensures Playground.GetUUIDFromString(s).uuid == Name(s)
  {
  }

  /** `getConnectionOptions()` over the four input fields, with this copy's list splitting and
      the same filter order and presence rules as the playground. */
  method GetConnectionOptions(servicesStr: string, filterName: string, filterNamePrefix: string, optionalServicesStr: string)
    returns (options: RequestOptions)
    ensures options.filters.Some? <==> servicesStr != "" || filterName != "" || filterNamePrefix != ""
    ensures options.filters.Some? ==> (options.filters.value ==
      (if servicesStr != "" then [Filter(Some(UuidList(servicesStr)), None, None)] else [])
      + (if filterName != "" then [Filter(None, Some(filterName), None)] else [])
      + (if filterNamePrefix != "" then [Filter(None, None, Some(filterNamePrefix))] else []))
    ensures options.optionalServices == if optionalServicesStr != "" then Some(UuidList(optionalServicesStr)) else None
    ensures !options.acceptAllDevices
  {
    options := RequestOptions(None, None, false);
    if servicesStr != "" {
      var uuids := GetUUIDArrayFromString(servicesStr);
      options := options.(filters := Playground.Push(options.filters, Filter(Some(uuids), None, None)));
    }
    if filterName != "" {
      options := options.(filters := Playground.Push(options.filters, Filter(None, Some(filterName), None)));
    }
    if filterNamePrefix != "" {
      options := options.(filters := Playground.Push(options.filters, Filter(None, None, Some(filterNamePrefix))));
    }
    if optionalServicesStr != "" {
      var uuids := GetUUIDArrayFromString(optionalServicesStr);
      options := options.(optionalServices := Some(uuids));
    }
  }

  /** The bytes this copy's write handler makes of the value field: split on single spaces,
      each token read as hex by `getValueFromHexString`, then converted to a byte. */
  function ParseTokens(valueStr: string): (bytes: seq<byte>)
    ensures |bytes| == Count(valueStr, ' ') + 1
  {
    var tokens := Split(valueStr, ' ');
    seq(|tokens|, i requires 0 <= i < |tokens| => ToUint8(GetValueFromHexString(tokens[i])))
  }

  /** The token parse of `writeHandler`: split on single spaces, each token's value pushed as it
      is read, then made into a Uint8Array. */
  method WritePayload(valueStr: string) returns (bytes: seq<byte>)
    ensures bytes == ParseTokens(valueStr)
  {
    var strArray := Split(valueStr, ' ');
    var values := PushEach(strArray, GetValueFromHexString);
    bytes := seq(|values|, k requires 0 <= k < |values| => ToUint8(values[k]));
  }

  /** Bytes shown in hex by the playground's read handler are written back unchanged by this
      copy's write handler too. */
  lemma HexDumpRoundTrip(bytes: seq<byte>)
    requires bytes != []
    ensures ParseTokens(Playground.HexDump(bytes)) == bytes
  {
    var strs := seq(|bytes|, i requires 0 <= i < |bytes| => Playground.GetHexStringFromValue(bytes[i]));
    forall i | 0 <= i < |strs|
      ensures ' ' !in strs[i]
    {
      assert AllDigits(strs[i], 16);
    }
    SplitJoin(strs, ' ');
    forall i | 0 <= i < |bytes|
      ensures ParseTokens(Playground.HexDump(bytes))[i] == bytes[i]
    {
      HexDigitsValue(strs[i]);
    }
  }
}

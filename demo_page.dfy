/** The hex parsing of demo/js/interface.js, the page script of the published demo, whose
    connect handler reads the filter service field with `valueFromHexString`. */
module DemoPage {

  import opened Wrappers
  import opened JsText
  import DemoInterface
  import MagicBlue

  /** The string `valueFromHexString` hands to `parseInt`: an empty field has become the number
      0 (`hexString || 0`), which `parseInt` reads as the string `"0"`; a string without a
      lower-case `0x` anywhere has had `0x` put in front; any other string is unchanged. */
  function PrefixedHex(hexString: string): (h: string)
    ensures h != [] && (Contains(h, "0x") || h == "0")
    ensures hexString != [] ==> |hexString| <= |h| && h[|h| - |hexString|..] == hexString
    ensures Contains(hexString, "0x") ==> h == hexString
    ensures hexString == [] ==> h == "0"
    ensures hexString != [] && !Contains(hexString, "0x") ==> h == "0x" + hexString
  {
    if hexString == "" then "0"
    else if Contains(hexString, "0x") then hexString
    else
      StartsWith0x("0x" + hexString);
      "0x" + hexString
  }

  /** `valueFromHexString(hexString)`: `parseInt` without a radix of the prepared string. None is
      NaN. */
  function ValueFromHexString(hexString: string): Option<int> {
    ParseInt(PrefixedHex(hexString), 0)
  }

  /** The page script and src/demo/js/interface.js parse every string alike. */
  lemma AgreesWithDemoInterface(hexString: string)
    ensures ValueFromHexString(hexString) == DemoInterface.GetValueFromHexString(hexString)
  {
    if hexString == "" {
      DemoInterface.EmptyReadsZero();
    }
  }

  /** An empty field reads as 0. */
  lemma EmptyIsZero()
    ensures ValueFromHexString("") == Some(0)
  {
    DemoInterface.EmptyReadsZero();
  }

  /** Hex digits are read as hex, with or without a lower-case `0x` in front. */
  lemma HexDigits(d: string)
    requires d != [] && AllDigits(d, 16)
    ensures ValueFromHexString(d) == Some(DigitsValue(d, 16))
    ensures ValueFromHexString("0x" + d) == Some(DigitsValue(d, 16))
  {
    AgreesWithDemoInterface(d);
    AgreesWithDemoInterface("0x" + d);
    DemoInterface.HexDigitsValue(d);
  }

  /** The Magic Blue service typed as `ffe5` is 65509. */
  lemma Ffe5Example()
    ensures ValueFromHexString("ffe5") == Some(65509)
  {
    FfeValue();
    HexDigits("ffe5");
  }

  /** The digits `ffe5` spell 65509, the MagicBlue service UUID. */
  lemma FfeValue()
    ensures AllDigits("ffe5", 16) && DigitsValue("ffe5", 16) == 65509
    ensures DigitsValue("ffe5", 16) == MagicBlue.SERVICE_UUID
  {
    var d := "ffe5";
    assert AllDigits(d, 16);
    assert d[..3] == "ffe" && "ffe"[..2] == "ff" && "ff"[..1] == "f" && "f"[..0] == [];
  }
}

/** `decodeLedData` of src/playground/js/interface-util.js: the status record of the LED
    characteristic of a Nordic Thingy, chosen by the mode byte at index 0. */
module InterfaceUtil {

  import opened Wrappers
  import opened Transform

  /** What `getBtnAssociations` gives the button handlers, less the input element itself: the
      strings typed in the characteristic and service rows and the value field (read twice, as
      `charValueStr` and `valueStr`). `valueType` is a property the handlers read from it; None
      is undefined. */
  datatype BtnAssociations = BtnAssociations(
    charUUIDStr: string, charValueStr: string, serviceUUIDStr: string, valueStr: string,
    valueType: Option<string>)

  /** `getBtnAssociations(btn)` on a row whose fields hold the given strings. The object it
      returns has no `valueType`, whichever hex or decimal radio button is checked. */
  function GetBtnAssociations(charUUIDStr: string, serviceUUIDStr: string, valueStr: string): (a: BtnAssociations)
    ensures a.valueType.None?
    ensures a.charValueStr == a.valueStr == valueStr
    ensures a.charUUIDStr == charUUIDStr && a.serviceUUIDStr == serviceUUIDStr
  {
    BtnAssociations(charUUIDStr, valueStr, serviceUUIDStr, valueStr, None)
  }

  /** The status object, one variant per mode the decoder knows. */
  datatype LedStatus =
    | Off(mode: byte)                                                 // mode 0
    | Constant(mode: byte, r: byte, g: byte, b: byte)                 // mode 1
    | Breathe(mode: byte, color: byte, intensity: byte, delay: nat)   // mode 2
    | OneShot(mode: byte, color: byte, intensity: byte)               // mode 3

  /** The RangeError a DataView throws when read past its end; the decoder rethrows it. */
  datatype RangeError = RangeError

  /** `decodeLedData(data)`: Success(None) is an undefined status (an unknown mode). */
  function DecodeLedData(data: DataView): (r: Result<Option<LedStatus>, RangeError>)
  {
    match GetUint8(data, 0)
    case None => Failure(RangeError)
    case Some(mode) =>
      if mode == 0 then Success(Some(Off(mode)))
      else if mode == 1 then
        match (GetUint8(data, 1), GetUint8(data, 2), GetUint8(data, 3))
        case (Some(r), Some(g), Some(b)) => Success(Some(Constant(mode, r, g, b)))
        case _ => Failure(RangeError)
      else if mode == 2 then
        match (GetUint8(data, 1), GetUint8(data, 2), GetUint16(data, 3, true))
        case (Some(color), Some(intensity), Some(delay)) => Success(Some(Breathe(mode, color, intensity, delay)))
        case _ => Failure(RangeError)
      else if mode == 3 then
        match (GetUint8(data, 1), GetUint8(data, 2))
        case (Some(color), Some(intensity)) => Success(Some(OneShot(mode, color, intensity)))
        case _ => Failure(RangeError)
      else Success(None)
  }

  /** How many bytes a status of mode `mode` takes: the mode byte and its fields. */
  function NeededLength(mode: byte): nat {
    if mode == 1 then 4 else if mode == 2 then 5 else if mode == 3 then 3 else 1
  }

  /** The decoder throws exactly when the view is empty or shorter than its mode needs. */
  lemma DecodeFailsIffShort(data: DataView)
    ensures DecodeLedData(data).Failure? <==>
      data.byteLength == 0 || data.byteLength < NeededLength(Window(data)[0])
  {
  }

  /** Every status it returns carries byte 0 as its mode, and the fields of that mode from the
      bytes after it; the delay of mode 2 is little-endian. */
  lemma DecodeFields(data: DataView)
    requires DecodeLedData(data).Success? && DecodeLedData(data).value.Some?
    ensures var st, w := DecodeLedData(data).value.value, Window(data);
      && st.mode == w[0]
      && (st.Off? <==> w[0] == 0)
      && (st.Constant? <==> w[0] == 1)
      && (st.Breathe? <==> w[0] == 2)
      && (st.OneShot? <==> w[0] == 3)
      && (st.Constant? ==> st.r == w[1] && st.g == w[2] && st.b == w[3])
      && (st.Breathe? ==> st.color == w[1] && st.intensity == w[2] && st.delay == w[3] as int + 256 * (w[4] as int))
      && (st.OneShot? ==> st.color == w[1] && st.intensity == w[2])
  {
  }

  /** Any mode other than 0-3 gives an undefined status, whatever follows it. */
  lemma UnknownModeUndefined(data: DataView)
    requires data.byteLength >= 1 && Window(data)[0] > 3
    ensures DecodeLedData(data) == Success(None)
  {
  }

  function Min(a: nat, b: nat): nat {
    if a < b then a else b
  }

  /** Nothing past index 4 is read: two views that agree on their first five bytes (or are
      equally short and equal) decode alike, whatever else their buffers hold. */
  lemma DecodeReadsFirstFiveBytes(a: DataView, b: DataView)
    requires Window(a)[..Min(5, |Window(a)|)] == Window(b)[..Min(5, |Window(b)|)]
    ensures DecodeLedData(a) == DecodeLedData(b)
  {
    var wa, wb := Window(a), Window(b);
    assert |wa| < 5 ==> |wb| == |wa|;
    assert |wb| < 5 ==> |wa| == |wb|;
    forall i | 0 <= i < Min(5, |wa|)
      ensures wa[i] == wb[i]
    {
      assert wa[..Min(5, |wa|)][i] == wb[..Min(5, |wb|)][i];
    }
  }

  /** The preset example value `02 02 4a d0 07`: mode 2, colour 2, intensity 0x4a and a delay of
      0x07d0 = 2000 ms. */
  lemma ThingyExample()
    ensures DecodeLedData(WholeView([0x02, 0x02, 0x4a, 0xd0, 0x07])) == Success(Some(Breathe(2, 2, 0x4a, 2000)))
  {
  }
}

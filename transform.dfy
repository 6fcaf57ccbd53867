/** Byte buffers and the two views the wrapper hands out on them (`DataView` and
    `Uint8Array`), and the transform helpers of src/util/util.transform.js. */
module Transform {

  import opened Wrappers

  /** An unsigned 8-bit value, as stored in an ArrayBuffer. */
  type byte = x: int | 0 <= x < 256

  /** A window `byteOffset .. byteOffset + byteLength` on `buffer`. */
  datatype ViewRep = ViewRep(buffer: seq<byte>, byteOffset: nat, byteLength: nat)

  /** A DataView: its constructor refuses a window that leaves the buffer, so every view is in range. */
  type DataView = v: ViewRep | v.byteOffset + v.byteLength <= |v.buffer| witness ViewRep([], 0, 0)

  /** A Uint8Array over a buffer, with the same in-range window. */
  type Uint8Array = v: ViewRep | v.byteOffset + v.byteLength <= |v.buffer| witness ViewRep([], 0, 0)

  /** The bytes a view can see. */
  function Window(v: ViewRep): seq<byte>
    requires v.byteOffset + v.byteLength <= |v.buffer|
  {
    v.buffer[v.byteOffset .. v.byteOffset + v.byteLength]
  }

  /** A view over the whole of a freshly allocated buffer holding `bytes`. */
  function WholeView(bytes: seq<byte>): (v: DataView)
    ensures Window(v) == bytes
  {
    ViewRep(bytes, 0, |bytes|)
  }

  /** `dataView.getUint8(i)`: None stands for the RangeError thrown past the end of the view. */
  function GetUint8(dv: DataView, i: nat): (r: Option<byte>)
    ensures r.Some? <==> i < dv.byteLength
    ensures r.Some? ==> r.value == Window(dv)[i]
  {
    if i < dv.byteLength then Some(dv.buffer[dv.byteOffset + i]) else None
  }

  /** `dataView.getUint16(i, littleEndian)`. */
  function GetUint16(dv: DataView, i: nat, littleEndian: bool): (r: Option<nat>)
    ensures r.Some? <==> i + 2 <= dv.byteLength
    ensures r.Some? ==> r.value < 0x1_0000
    ensures r.Some? ==> var lo: int, hi: int := Window(dv)[i], Window(dv)[i + 1];
      r.value == if littleEndian then lo + 256 * hi else 256 * lo + hi
  {
    if i + 2 <= dv.byteLength then
      var lo: int, hi: int := dv.buffer[dv.byteOffset + i], dv.buffer[dv.byteOffset + i + 1];
      Some(if littleEndian then lo + 256 * hi else 256 * lo + hi)
    else None
  }

  /** `dataViewToUint8Array`: a Uint8Array over the view's own buffer, with the view's offset
      and length, so it sees exactly the view's window and nothing else. */
  function DataViewToUint8Array(dv: DataView): (r: Uint8Array)
    ensures r.buffer == dv.buffer && r.byteOffset == dv.byteOffset
    ensures r.byteLength == dv.byteLength
    ensures |Window(r)| == dv.byteLength
    ensures forall i | 0 <= i < dv.byteLength :: Window(r)[i] == dv.buffer[dv.byteOffset + i]
  {
    ViewRep(dv.buffer, dv.byteOffset, dv.byteLength)
  }

  /** The text `new TextDecoder('utf-8').decode(bytes)` produces. UTF-8 decoding itself is not
      modelled: the value records which bytes were decoded. */
  datatype Utf8Text = Utf8Text(decoded: seq<byte>)

  /** `dataViewToString`: decode the bytes of the view's window. */
  function DataViewToString(dv: DataView): (t: Utf8Text)
    ensures t.decoded == Window(DataViewToUint8Array(dv))
  {
    Utf8Text(Window(DataViewToUint8Array(dv)))
  }

  /** Two views that see the same bytes decode to the same text, whatever lies outside their windows. */
  lemma DataViewToStringOnlyWindow(a: DataView, b: DataView)
    requires Window(a) == Window(b)
    ensures DataViewToString(a) == DataViewToString(b)
  {
  }

  /** A view and the Uint8Array made from it carry the same bytes. */
  lemma Uint8ArraySameBytes(dv: DataView)
    ensures Window(DataViewToUint8Array(dv)) == Window(dv)
  {
  }
}

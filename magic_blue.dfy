/** The command frames of src/magicblue.js for a MagicBlue light bulb. Each builder makes the
    byte array the driver hands to `writeValue` beside the control characteristic UUID; the
    numbers given to it go through the Uint8Array conversion, so they are taken modulo 256. */
module MagicBlue {

  import opened Wrappers
  import opened Transform
  import opened Gatt
  import opened JsText

  const SERVICE_UUID: nat := 0xffe5
  const CONTROL_CHARACTERISTIC_UUID: nat := 0xffe9

  /** The two arguments the driver passes to `writeValue`: a UUID constant and a frame. */
  datatype Command = Command(characteristic: Uuid, value: seq<byte>)

  /** `new Uint8Array([n])[0]` for an integer `n`. */
  function Byte(n: int): (b: byte)
    ensures 0 <= n < 256 ==> b == n
  {
    ToUint8(Some(n))
  }

  /** `switchOn()`. */
  function SwitchOn(): (c: Command)
    ensures c.characteristic == Num(CONTROL_CHARACTERISTIC_UUID) && |c.value| == 3
  {
    Command(Num(CONTROL_CHARACTERISTIC_UUID), [0xcc, 0x23, 0x33])
  }

  /** `switchOff()`. */
  function SwitchOff(): (c: Command)
    ensures c.characteristic == Num(CONTROL_CHARACTERISTIC_UUID) && |c.value| == 3
  {
    Command(Num(CONTROL_CHARACTERISTIC_UUID), [0xcc, 0x24, 0x33])
  }

  /** `setRGB(r, g, b)`. */
  function SetRgb(r: int, g: int, b: int): (c: Command)
    ensures c.characteristic == Num(CONTROL_CHARACTERISTIC_UUID) && |c.value| == 7
  {
    Command(Num(CONTROL_CHARACTERISTIC_UUID), [0x56, Byte(r), Byte(g), Byte(b), 0xbb, 0xf0, 0xaa])
  }

  /** `setWhite(level)`. */
  function SetWhite(level: int): (c: Command)
    ensures c.characteristic == Num(CONTROL_CHARACTERISTIC_UUID) && |c.value| == 7
  {
    Command(Num(CONTROL_CHARACTERISTIC_UUID), [0x56, 0x00, 0x00, 0x00, Byte(level), 0x0f, 0xaa])
  }

  /** `setMode(modeId, speed)` for a whole number of seconds: `1000 * speed / 200` speed units of
      200 ms each. */
  function SetMode(modeId: int, speed: int): (c: Command)
    ensures c.characteristic == Num(CONTROL_CHARACTERISTIC_UUID) && |c.value| == 4
  {
    Command(Num(CONTROL_CHARACTERISTIC_UUID), [0xbb, Byte(modeId), Byte(1000 * speed / 200), 0x44])
  }

  /** On and off frames share the header 0xcc and the trailer 0x33 and differ only at index 1,
      0x23 for on against 0x24 for off. */
  lemma OnOffDifferOnlyAtIndexOne()
    ensures var on, off := SwitchOn().value, SwitchOff().value;
      && on[0] == off[0] == 0xcc && on[2] == off[2] == 0x33
      && on[1] == 0x23 && off[1] == 0x24
    ensures forall i | 0 <= i < 3 :: SwitchOn().value[i] != SwitchOff().value[i] <==> i == 1
  {
  }

  /** For channel values in the documented range 0-255 the RGB frame carries them unchanged at
      indices 1-3 between a fixed header and trailer; outside the range they wrap modulo 256. */
  lemma RgbChannels(r: int, g: int, b: int)
    ensures var v := SetRgb(r, g, b).value;
      && v[0] == 0x56 && v[4..] == [0xbb, 0xf0, 0xaa]
      && v[1] == r % 256 && v[2] == g % 256 && v[3] == b % 256
      && (0 <= r < 256 && 0 <= g < 256 && 0 <= b < 256 ==> v[1..4] == [r, g, b])
  {
  }

  /** The white frame has zero colour channels and the level at index 4. */
  lemma WhiteLevel(level: int)
    ensures var v := SetWhite(level).value;
      v[1..4] == [0, 0, 0] && (0 <= level < 256 ==> v[4] == level)
  {
  }

  /** White and RGB frames share their first and last bytes and are told apart at index 5
      (0x0f against 0xf0). */
  lemma WhiteAndRgbDifferAtIndexFive(r: int, g: int, b: int, level: int)
    ensures var w, c := SetWhite(level).value, SetRgb(r, g, b).value;
      w[0] == c[0] && w[6] == c[6] && w[5] == 0x0f && c[5] == 0xf0 && w[5] != c[5]
  {
  }

  /** Five speed units per second: `setMode` stores `5 * speed`, exactly for 0-51 seconds. */
  lemma ModeSpeed(modeId: int, speed: int)
    ensures var v := SetMode(modeId, speed).value;
      v[0] == 0xbb && v[3] == 0x44 && v[2] == (5 * speed) % 256
      && (0 <= speed <= 51 ==> v[2] == 5 * speed)
      && (0 <= modeId < 256 ==> v[1] == modeId)
  {
    assert 1000 * speed / 200 == 5 * speed;
  }
}

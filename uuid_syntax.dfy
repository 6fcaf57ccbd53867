/** The two regular expressions both interface scripts use to classify a UUID typed by the user:
    a 128-bit UUID somewhere in the string, or a whole string that is a 16- or 32-bit UUID. */
module UuidSyntax {

  import opened Wrappers
  import opened JsText

  /** `[0-9a-z]` under the `i` flag: an ASCII digit or letter of either case. */
  predicate IsAlnum(c: char) {
    DigitValue(c) < 36
  }

  /** Position `k` of the 36-character pattern `[0-9a-z]{8}-(?:[0-9a-z]{4}-){3}[0-9a-z]{12}`:
      dashes at 8, 13, 18 and 23, letters or digits everywhere else. */
  predicate OkAt(k: nat, c: char) {
    if k == 8 || k == 13 || k == 18 || k == 23 then c == '-' else IsAlnum(c)
  }

  /** `w` matches the 8-4-4-4-12 pattern exactly. */
  predicate Shape(w: string) {
    |w| == 36 && forall k | 0 <= k < 36 :: OkAt(k, w[k])
  }

  /** The pattern matches at index `i` of `s`. */
  predicate At(s: string, i: nat)
    requires i + 36 <= |s|
  {
    Shape(s[i..i + 36])
  }

  /** `s.match(/[0-9a-z]{8}-(?:[0-9a-z]{4}-){3}[0-9a-z]{12}/i)` succeeds: the pattern is not
      anchored, so it may match anywhere. */
  predicate HasLongUuid(s: string) {
    exists i: nat | i + 36 <= |s| :: At(s, i)
  }

  /** `s.match(/^(0x)?([0-9a-f]{4}){1,2}$/i)` succeeds: the whole string is an optional `0x`
      (either case of the `x`, the `i` flag applies to it too) followed by 4 or 8 hex digits of
      either case. */
  predicate IsShortUuid(s: string) {
    || ((|s| == 4 || |s| == 8) && AllDigits(s, 16))
    || ((|s| == 6 || |s| == 10) && s[0] == '0' && (s[1] == 'x' || s[1] == 'X') && AllDigits(s[2..], 16))
  }

  /** The hex digits of a short UUID, without its prefix. */
  function ShortDigits(s: string): (d: string)
    requires IsShortUuid(s)
    ensures (|d| == 4 || |d| == 8) && AllDigits(d, 16)
    ensures d == s || d == s[2..]
  {
    if |s| == 6 || |s| == 10 then s[2..] else s
  }

  /** `parseInt(s, 16)` of a short UUID reads all its hex digits, prefix or not, and the value fits
      in 32 bits (16 bits when there are four digits). */
  lemma ShortUuidValue(s: string)
    requires IsShortUuid(s)
    ensures ParseInt(s, 16) == Some(DigitsValue(ShortDigits(s), 16))
    ensures DigitsValue(ShortDigits(s), 16) < 0x1_0000_0000
    ensures |ShortDigits(s)| == 4 ==> DigitsValue(ShortDigits(s), 16) < 0x1_0000
  {
    var d := ShortDigits(s);
    if |s| == 6 || |s| == 10 {
      assert s == ['0', s[1]] + d;
      ParseIntPrefixedHex(d, s[1], 16);
    } else {
      assert IsDigit(s[1], 16);
      ParseIntDigits(s, 16);
    }
    DigitsValueBound(d);
    assert Power16(4) == 0x1_0000;
    assert Power16(8) == 0x1_0000_0000;
  }

  /** Lower-casing keeps each position of the pattern satisfied or not. */
  lemma OkAtLower(k: nat, c: char)
    ensures OkAt(k, ToLowerChar(c)) <==> OkAt(k, c)
  {
  }

  /** A string holds a 128-bit UUID exactly when its lower-cased form does, at the same places. */
  lemma {:induction false} LongUuidLower(s: string)
    ensures HasLongUuid(ToLower(s)) <==> HasLongUuid(s)
  {
    var l := ToLower(s);
    forall i: nat | i + 36 <= |s|
      ensures At(l, i) <==> At(s, i)
    {
      var lw, sw := l[i..i + 36], s[i..i + 36];
      forall k | 0 <= k < 36
        ensures OkAt(k, lw[k]) <==> OkAt(k, sw[k])
      {
        assert lw[k] == ToLowerChar(sw[k]);
        OkAtLower(k, sw[k]);
      }
    }
    if HasLongUuid(s) {
      var i: nat :| i + 36 <= |s| && At(s, i);
      assert At(l, i);
    }
    if HasLongUuid(l) {
      var i: nat :| i + 36 <= |l| && At(l, i);
      assert At(s, i);
    }
  }

  /** The two classes are disjoint: a short UUID is at most 10 characters long. */
  lemma ShortIsNotLong(s: string)
    requires IsShortUuid(s)
    ensures !HasLongUuid(s)
  {
  }

  /** A dashed, lower-case example of the 128-bit form. */
  lemma LongExample()
    ensures HasLongUuid("4dc591b0-857c-41de-b5f1-15abda665b0c")
  {
    var w := "4dc591b0-857c-41de-b5f1-15abda665b0c";
    assert Shape(w);
    assert w[0..36] == w;
    assert At(w, 0);
  }
}

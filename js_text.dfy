/** The JavaScript string and number built-ins that the interface scripts rely on, written out
    over `string`: whitespace (`\s` and the trim inside `parseInt`), ASCII lower-casing,
    `split`/`join` on one character, `replace` of the first match, `indexOf`, `parseInt`,
    `Number.prototype.toString(16)` and the ToUint8 conversion `new Uint8Array(values)` applies. */
module JsText {

  import opened Wrappers
  import opened Transform

  /** WhiteSpace or LineTerminator (ECMAScript sections 12.2 and 12.3): the code points the regular
      expression class `\s` matches and the ones `parseInt` skips at the start of its input. */
  predicate IsWhiteSpace(c: char) {
    || c == '\t' || c == '\n' || c == '\U{000B}' || c == '\U{000C}' || c == '\r' || c == ' '
    || c == '\U{00A0}' || c == '\U{1680}' || ('\U{2000}' <= c <= '\U{200A}')
    || c == '\U{2028}' || c == '\U{2029}' || c == '\U{202F}' || c == '\U{205F}'
    || c == '\U{3000}' || c == '\U{FEFF}'
  }

  /** The string without its leading whitespace. */
  function TrimStart(s: string): (r: string)
    ensures |r| <= |s| && r == s[|s| - |r|..]
    ensures r == [] || !IsWhiteSpace(r[0])
  {
    if s != [] && IsWhiteSpace(s[0]) then TrimStart(s[1..]) else s
  }

  /** What `TrimStart` removes is whitespace, all of it. */
  lemma TrimStartRemovesWhiteSpace(s: string)
    ensures forall i | 0 <= i < |s| - |TrimStart(s)| :: IsWhiteSpace(s[i])
  {
    forall i | 0 <= i < |s| - |TrimStart(s)|
      ensures IsWhiteSpace(s[i])
    {
      TrimStartRemovesAt(s, i);
    }
  }

  /** The code point at index `i` of the removed prefix is whitespace. */
  lemma {:induction false} TrimStartRemovesAt(s: string, i: nat)
    requires i < |s| - |TrimStart(s)|
    ensures IsWhiteSpace(s[i])
  {
    if i > 0 {
      var t := s[1..];
      assert TrimStart(s) == TrimStart(t);
      TrimStartRemovesAt(t, i - 1);
      assert s[i] == t[i - 1];
    }
  }

  /** `s.replace(/\s/g, '')`: every whitespace code point removed, the rest kept in order. */
  function RemoveWhiteSpace(s: string): (r: string)
    ensures forall i | 0 <= i < |r| :: !IsWhiteSpace(r[i])
    ensures (forall i | 0 <= i < |s| :: !IsWhiteSpace(s[i])) ==> r == s
  {
    if s == [] then [] else (if IsWhiteSpace(s[0]) then [] else [s[0]]) + RemoveWhiteSpace(s[1..])
  }

  /** `s.replace(c, '')` with a one-character string pattern: only the first occurrence goes. */
  function RemoveFirst(s: string, c: char): (r: string)
    ensures c !in s ==> r == s
    ensures |r| == if c in s then |s| - 1 else |s|
  {
    if s == [] then [] else if s[0] == c then s[1..] else [s[0]] + RemoveFirst(s[1..], c)
  }

  /** Removing the first `c` from a string whose first `c` follows `x` leaves `x` and what came
      after, later occurrences included. */
  lemma {:induction false} RemoveFirstSkips(x: string, y: string, c: char)
    requires c !in x
    ensures RemoveFirst(x + [c] + y, c) == x + y
  {
    var s := x + [c] + y;
    if x == [] {
      assert s[0] == c && s[1..] == y;
    } else {
      var t := x[1..];
      assert s[0] == x[0] != c;
      assert s[1..] == t + [c] + y;
      calc {
        RemoveFirst(s, c);
        [x[0]] + RemoveFirst(t + [c] + y, c);
        { RemoveFirstSkips(t, y, c); }
        [x[0]] + (t + y);
        { assert x == [x[0]] + t; }
        x + y;
      }
    }
  }

  /** Whitespace removal works piece by piece. */
  lemma {:induction false} RemoveWhiteSpaceAppend(x: string, y: string)
    ensures RemoveWhiteSpace(x + y) == RemoveWhiteSpace(x) + RemoveWhiteSpace(y)
  {
    if x == [] {
      assert x + y == y;
    } else {
      var h := if IsWhiteSpace(x[0]) then [] else [x[0]];
      assert (x + y)[0] == x[0] && (x + y)[1..] == x[1..] + y;
      calc {
        RemoveWhiteSpace(x + y);
        h + RemoveWhiteSpace(x[1..] + y);
        { RemoveWhiteSpaceAppend(x[1..], y); }
        h + (RemoveWhiteSpace(x[1..]) + RemoveWhiteSpace(y));
        (h + RemoveWhiteSpace(x[1..])) + RemoveWhiteSpace(y);
        RemoveWhiteSpace(x) + RemoveWhiteSpace(y);
      }
    }
  }

  /** `toLowerCase` on one code unit, restricted to the ASCII letters. */
  function ToLowerChar(c: char): char {
    if 'A' <= c <= 'Z' then (c as int + 32) as char else c
  }

  /** `s.toLowerCase()` for ASCII letters. */
  function ToLower(s: string): (r: string)
    ensures |r| == |s|
    ensures forall i | 0 <= i < |s| :: r[i] == ToLowerChar(s[i])
  {
    seq(|s|, i requires 0 <= i < |s| => ToLowerChar(s[i]))
  }

  predicate HasUpper(s: string) {
    exists i | 0 <= i < |s| :: 'A' <= s[i] <= 'Z'
  }

  /** Lower-casing changes a string exactly when it holds an upper-case letter. */
  lemma ToLowerChangesIffUpper(s: string)
    ensures ToLower(s) != s <==> HasUpper(s)
  {
    if HasUpper(s) {
      var i :| 0 <= i < |s| && 'A' <= s[i] <= 'Z';
      assert ToLower(s)[i] != s[i];
    } else {
      assert forall i | 0 <= i < |s| :: ToLower(s)[i] == s[i];
    }
  }

  /** Lower-casing twice is lower-casing once, and the result holds no upper-case letter. */
  lemma ToLowerIdempotent(s: string)
    ensures ToLower(ToLower(s)) == ToLower(s)
    ensures !HasUpper(ToLower(s))
  {
  }

  /** `s[i..]` starts with `t`. */
  predicate MatchesAt(s: string, t: string, i: nat)
    requires i + |t| <= |s|
  {
    s[i..i + |t|] == t
  }

  /** `s.indexOf(t) !== -1`, searched from the front: `s` starts with `t`, or its tail contains `t`. */
  predicate Contains(s: string, t: string)
    decreases |s|
  {
    t <= s || (s != [] && Contains(s[1..], t))
  }

  /** `Contains` holds exactly when `t` occurs at some position of `s`. */
  lemma {:induction false} ContainsIffMatches(s: string, t: string)
    ensures Contains(s, t) <==> exists i: nat | i + |t| <= |s| :: MatchesAt(s, t, i)
    decreases |s|
  {
    if t <= s {
      assert MatchesAt(s, t, 0);
    } else if s != [] {
      ContainsIffMatches(s[1..], t);
      if Contains(s[1..], t) {
        var i: nat :| i + |t| <= |s| - 1 && MatchesAt(s[1..], t, i);
        assert s[i + 1..i + 1 + |t|] == s[1..][i..i + |t|];
        assert MatchesAt(s, t, i + 1);
      }
      if exists i: nat | i + |t| <= |s| :: MatchesAt(s, t, i) {
        var i: nat :| i + |t| <= |s| && MatchesAt(s, t, i);
        assert i != 0;
        assert s[1..][i - 1..i - 1 + |t|] == s[i..i + |t|];
        assert MatchesAt(s[1..], t, i - 1);
      }
    } else {
      assert |t| > 0;
    }
  }

  /** A string without the letter `x` does not contain `0x`. */
  lemma {:induction false} NoXNo0x(s: string)
    requires 'x' !in s
    ensures !Contains(s, "0x")
    decreases |s|
  {
    if |s| >= 2 {
      assert s[1] != 'x';
    }
    if s != [] {
      assert forall c | c in s[1..] :: c in s;
      NoXNo0x(s[1..]);
    }
  }

  /** A string that begins with `0x` contains it. */
  lemma StartsWith0x(s: string)
    requires |s| >= 2 && s[0] == '0' && s[1] == 'x'
    ensures Contains(s, "0x")
  {
    assert "0x" <= s;
  }

  /** The number of occurrences of `c` in `s`. */
  function Count(s: string, c: char): nat {
    if s == [] then 0 else (if s[0] == c then 1 else 0) + Count(s[1..], c)
  }

  /** `s.split(sep)` with a one-character separator: the pieces between separators, in order;
      the empty string gives one empty piece. */
  function Split(s: string, sep: char): (parts: seq<string>)
    ensures |parts| == Count(s, sep) + 1
  {
    if s == [] then [""]
    else
      var rest := Split(s[1..], sep);
      if s[0] == sep then [""] + rest
      else [[s[0]] + rest[0]] + rest[1..]
  }
  /** No piece of a split holds the separator. */
  lemma {:induction false} SplitPiecesFree(s: string, sep: char)
    ensures forall i | 0 <= i < |Split(s, sep)| :: sep !in Split(s, sep)[i]
  {
    if s != [] {
      SplitPiecesFree(s[1..], sep);
      var rest := Split(s[1..], sep);
      if s[0] != sep {
        assert sep !in [s[0]] + rest[0];
      }
    }
  }


  /** `xs.forEach(x => ys.push(f(x)))` on an empty `ys`: `f` of every element, in order. */
  method PushEach<T, U>(xs: seq<T>, f: T -> U) returns (ys: seq<U>)
    ensures |ys| == |xs|
    ensures forall k | 0 <= k < |xs| :: ys[k] == f(xs[k])
  {
    ys := [];
    var i := 0;
    while i < |xs|
      invariant 0 <= i <= |xs| && |ys| == i
      invariant forall k | 0 <= k < i :: ys[k] == f(xs[k])
    {
      ys := ys + [f(xs[i])];
      i := i + 1;
    }
  }

  /** `parts.join(sep)`. */
  function Join(parts: seq<string>, sep: char): string {
    if parts == [] then "" else if |parts| == 1 then parts[0] else parts[0] + [sep] + Join(parts[1..], sep)
  }

  /** Joining the pieces of a split gives back the string: the split keeps every character and the order. */
  lemma {:induction false} JoinSplit(s: string, sep: char)
    ensures Join(Split(s, sep), sep) == s
  {
    if s != [] {
      var rest := Split(s[1..], sep);
      JoinSplit(s[1..], sep);
      if s[0] == sep {
        assert Split(s, sep) == [""] + rest;
      } else {
        var parts := Split(s, sep);
        assert parts == [[s[0]] + rest[0]] + rest[1..];
        if |rest| == 1 {
          assert Join(rest, sep) == rest[0];
        } else {
          assert Join(rest, sep) == rest[0] + [sep] + Join(rest[1..], sep);
          assert parts[1..] == rest[1..];
        }
      }
    }
  }

  /** Splitting a string that begins with a separator-free piece. */
  lemma {:induction false} SplitAfterFreePrefix(p: string, r: string, sep: char)
    requires sep !in p
    ensures Split(p + r, sep) == [p + Split(r, sep)[0]] + Split(r, sep)[1..]
  {
    if p != [] {
      SplitAfterFreePrefix(p[1..], r, sep);
      var rs := Split(r, sep);
      assert (p + r)[1..] == p[1..] + r;
      var rest := Split(p[1..] + r, sep);
      assert rest[1..] == rs[1..];
      assert [p[0]] + rest[0] == p + rs[0];
    } else {
      var rest := Split(r, sep);
      assert p + r == r && p + rest[0] == rest[0];
      assert rest == [rest[0]] + rest[1..];
    }
  }

  /** Splitting a join of separator-free pieces gives back the pieces. */
  lemma {:induction false} SplitJoin(parts: seq<string>, sep: char)
    requires |parts| >= 1
    requires forall i | 0 <= i < |parts| :: sep !in parts[i]
    ensures Split(Join(parts, sep), sep) == parts
  {
    if |parts| == 1 {
      SplitAfterFreePrefix(parts[0], "", sep);
      assert Split("", sep) == [""];
      assert parts[0] + "" == parts[0];
      assert parts == [parts[0]];
    } else {
      var tail := Join(parts[1..], sep);
      SplitJoin(parts[1..], sep);
      assert Join(parts, sep) == parts[0] + ([sep] + tail);
      SplitAfterFreePrefix(parts[0], [sep] + tail, sep);
      assert ([sep] + tail)[1..] == tail;
      var st := Split([sep] + tail, sep);
      assert st == [""] + Split(tail, sep);
      assert st[0] == "" && st[1..] == parts[1..];
      assert parts[0] + st[0] == parts[0];
      assert parts == [parts[0]] + parts[1..];
    }
  }

  /** The value of an ASCII digit or letter as a digit (letters count from 10, either case);
      36 for anything else, which no radix accepts. */
  function DigitValue(c: char): nat {
    if '0' <= c <= '9' then c as int - '0' as int
    else if 'a' <= c <= 'z' then c as int - 'a' as int + 10
    else if 'A' <= c <= 'Z' then c as int - 'A' as int + 10
    else 36
  }

  predicate IsDigit(c: char, radix: nat) {
    DigitValue(c) < radix
  }

  predicate AllDigits(s: string, radix: nat) {
    forall i | 0 <= i < |s| :: IsDigit(s[i], radix)
  }

  /** The longest prefix of `s` made of digits of `radix`. */
  function DigitPrefix(s: string, radix: nat): (r: string)
    ensures r <= s && AllDigits(r, radix)
    ensures |r| < |s| ==> !IsDigit(s[|r|], radix)
  {
    if s == [] || !IsDigit(s[0], radix) then [] else [s[0]] + DigitPrefix(s[1..], radix)
  }

  /** The number the digits spell, most significant first. */
  function DigitsValue(s: string, radix: nat): nat
    requires AllDigits(s, radix)
  {
    if s == [] then 0 else DigitsValue(s[..|s| - 1], radix) * radix + DigitValue(s[|s| - 1])
  }

  /** `parseInt(s, radix)`, radix 0 standing for an absent radix (ECMAScript section 19.2.5):
      skip leading whitespace, take one sign, then read the digits that follow. None is NaN;
      `-0` is 0. */
  function ParseInt(s: string, radix: int): (r: Option<int>)
  {
    var t := TrimStart(s);
    if radix != 0 && (radix < 2 || radix > 36) then None
    else if |t| > 0 && t[0] == '-' then
      match ParseUnsigned(t[1..], radix)
      case None => None
      case Some(n) => Some(-(n as int))
    else if |t| > 0 && t[0] == '+' then ParseUnsigned(t[1..], radix)
    else ParseUnsigned(t, radix)
  }

  /** The unsigned part of `parseInt`: strip a `0x`/`0X` prefix when the radix is absent or 16,
      then read the longest run of digits (radix 10 when absent); no digit at all is NaN. */
  function ParseUnsigned(u: string, radix: int): (r: Option<nat>)
    requires radix == 0 || 2 <= radix <= 36
  {
    var prefixed := (radix == 0 || radix == 16) && |u| >= 2 && u[0] == '0' && (u[1] == 'x' || u[1] == 'X');
    var base := if prefixed then 16 else if radix == 0 then 10 else radix;
    var digits := DigitPrefix(if prefixed then u[2..] else u, base);
    if digits == [] then None else Some(DigitsValue(digits, base))
  }

  /** A run of digits of the radix parses to the number it spells. */
  lemma ParseIntDigits(s: string, radix: int)
    requires 2 <= radix <= 36 && s != [] && AllDigits(s, radix)
    requires radix == 16 ==> !(|s| >= 2 && s[0] == '0' && (s[1] == 'x' || s[1] == 'X'))
    ensures ParseInt(s, radix) == Some(DigitsValue(s, radix))
  {
    DigitNotWhiteSpace(s[0], radix);
    TrimStartKeeps(s);
    ParseUnsignedDigits(s, radix);
  }

  /** Without a radix, a run of decimal digits parses as a decimal number. */
  lemma ParseIntDecimal(s: string)
    requires s != [] && AllDigits(s, 10)
    ensures ParseInt(s, 0) == Some(DigitsValue(s, 10))
  {
    DigitNotWhiteSpace(s[0], 10);
    TrimStartKeeps(s);
    DigitPrefixOfDigits(s, 10);
    assert !(|s| >= 2 && s[0] == '0' && (s[1] == 'x' || s[1] == 'X')) by {
      if |s| >= 2 {
        assert IsDigit(s[1], 10);
      }
    }
  }

  /** A string that starts with no digit of the radix, nor with whitespace or a sign, is NaN. */
  lemma ParseIntNoDigit(s: string, radix: int)
    requires 2 <= radix <= 36 && radix != 16
    requires s != [] && !IsWhiteSpace(s[0]) && s[0] != '-' && s[0] != '+' && !IsDigit(s[0], radix)
    ensures ParseInt(s, radix) == None
  {
    TrimStartKeeps(s);
  }

  lemma DigitNotWhiteSpace(c: char, radix: nat)
    requires radix <= 36 && IsDigit(c, radix)
    ensures !IsWhiteSpace(c) && c != '-' && c != '+'
  {
  }

  lemma TrimStartKeeps(s: string)
    requires s != [] && !IsWhiteSpace(s[0])
    ensures TrimStart(s) == s
  {
  }

  lemma ParseUnsignedDigits(s: string, radix: int)
    requires 2 <= radix <= 36 && s != [] && AllDigits(s, radix)
    requires radix == 16 ==> !(|s| >= 2 && s[0] == '0' && (s[1] == 'x' || s[1] == 'X'))
    ensures ParseUnsigned(s, radix) == Some(DigitsValue(s, radix))
  {
    DigitPrefixOfDigits(s, radix);
  }

  /** A `0x` or `0X` prefix followed by hex digits parses as hexadecimal, with the radix absent or 16. */
  lemma ParseIntPrefixedHex(d: string, x: char, radix: int)
    requires d != [] && AllDigits(d, 16)
    requires x == 'x' || x == 'X'
    requires radix == 0 || radix == 16
    ensures ParseInt(['0', x] + d, radix) == Some(DigitsValue(d, 16))
  {
    var s := ['0', x] + d;
    assert TrimStart(s) == s;
    assert s[2..] == d;
    DigitPrefixOfDigits(d, 16);
    assert ParseUnsigned(s, radix) == Some(DigitsValue(d, 16));
  }

  lemma {:induction false} DigitPrefixOfDigits(s: string, radix: nat)
    requires AllDigits(s, radix)
    ensures DigitPrefix(s, radix) == s
  {
    if s != [] {
      assert IsDigit(s[0], radix);
      DigitPrefixOfDigits(s[1..], radix);
    }
  }

  /** `k` digits of radix 16 spell a number below `16^k`. */
  lemma {:induction false} DigitsValueBound(s: string)
    requires AllDigits(s, 16)
    ensures DigitsValue(s, 16) < Power16(|s|)
  {
    if s != [] {
      DigitsValueBound(s[..|s| - 1]);
      assert IsDigit(s[|s| - 1], 16);
    }
  }

  function Power16(k: nat): nat {
    if k == 0 then 1 else 16 * Power16(k - 1)
  }

  /** The lower-case hexadecimal digit of `d`. */
  function HexDigit(d: nat): (c: char)
    requires d < 16
    ensures IsDigit(c, 16) && DigitValue(c) == d && !('A' <= c <= 'Z')
  {
    "0123456789abcdef"[d]
  }

  /** `n.toString(16)` for a non-negative integer: lower-case digits without leading zeros. */
  function ToHex(n: nat): (r: string)
    ensures 1 <= |r| && AllDigits(r, 16) && !HasUpper(r)
    ensures DigitsValue(r, 16) == n
    ensures |r| == 1 <==> n < 16
    ensures n < 256 ==> |r| <= 2
  {
    if n < 16 then [HexDigit(n)]
    else
      var r := ToHex(n / 16) + [HexDigit(n % 16)];
      assert r[..|r| - 1] == ToHex(n / 16);
      r
  }

  /** ToUint8 (ECMAScript section 7.1.11) on what `parseInt` returned: NaN becomes 0, an integer
      is taken modulo 2^8. */
  function ToUint8(v: Option<int>): (b: byte)
    ensures v.Some? && 0 <= v.value < 256 ==> b == v.value
    ensures v.None? ==> b == 0
    ensures v.Some? ==> b == v.value % 256
  {
    match v
    case None => 0
    case Some(n) => n % 256
  }
}

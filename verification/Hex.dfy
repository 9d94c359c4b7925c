/** Hexadecimal text as Python writes and reads it. */
module Hex {
  import opened Wrappers
  import opened Bits

  const DIGITS: string := "0123456789ABCDEF"

  function Digit(v: nat): (c: char)
    requires v < 16
    ensures DigitValue(c) == Some(v) && Upper(c) == c
    ensures c != '$' && c != '#' && c != '\r' && ' ' < c < '\U{80}'
  {
    DIGITS[v]
  }

  function DigitValue(c: char): (v: Option<nat>)
    ensures v.Some? ==> v.value < 16
  {
    if '0' <= c <= '9' then Some((c as int) - ('0' as int))
    else if 'A' <= c <= 'F' then Some((c as int) - ('A' as int) + 10)
    else if 'a' <= c <= 'f' then Some((c as int) - ('a' as int) + 10)
    else None
  }

  function Upper(c: char): char {
    if 'a' <= c <= 'z' then ((c as int) - 32) as char else c
  }

  function UpperText(s: string): (u: string)
    ensures |u| == |s| && forall i :: 0 <= i < |s| ==> u[i] == Upper(s[i])
  {
    seq(|s|, i requires 0 <= i < |s| => Upper(s[i]))
  }

  /** A hex digit written by `Digit`: printable, upper case, no frame marker. */
  ghost predicate Plain(s: string) {
    forall c :: c in s ==> DigitValue(c).Some? && Upper(c) == c && c != '$' && c != '#' && c != '\r' && ' ' < c < '\U{80}'
  }

  /** `f"{value:0{digits}X}"`: at least `digits` digits, more when the value needs them. */
  function IntToHex(value: nat, digits: nat): (s: string)
    ensures Plain(s) && |s| >= 1
    decreases value, digits
  {
    if value < 16 && digits <= 1 then [Digit(value)]
    else IntToHex(value / 16, if digits > 0 then digits - 1 else 0) + [Digit(value % 16)]
  }

  /** `int(text, 16)` on text made of hex digits; anything else is a `ValueError`. */
  function ParseInt(s: string): Option<nat>
    decreases |s|
  {
    if s == "" then None
    else
      match DigitValue(s[|s| - 1])
      case None => None
      case Some(d) =>
        if |s| == 1 then Some(d)
        else
          match ParseInt(s[..|s| - 1])
          case None => None
          case Some(v) => Some(16 * v + d)
  }

  lemma ParseIntLast(s: string, last: nat)
    requires ParseInt(s).Some? && last < 16
    ensures ParseInt(s + [Digit(last)]) == Some(16 * ParseInt(s).value + last)
  {
    hide DigitValue, Digit;
    var longer := s + [Digit(last)];
    assert longer[..|longer| - 1] == s && s != "";
  }

  lemma ParseIntOne(value: nat)
    requires value < 16
    ensures ParseInt([Digit(value)]) == Some(value)
  {
    hide DigitValue, Digit;
  }

  lemma {:induction false} ParseIntToHex(value: nat, digits: nat)
    ensures ParseInt(IntToHex(value, digits)) == Some(value)
    decreases value, digits
  {
    hide DigitValue, Digit, ParseInt;
    if !(value < 16 && digits <= 1) {
      var d := if digits > 0 then digits - 1 else 0;
      ParseIntToHex(value / 16, d);
      ParseIntLast(IntToHex(value / 16, d), value % 16);
    } else {
      ParseIntOne(value);
    }
  }

  /** Two digits hold a byte, and four a CRC-16. */
  lemma HexWidth(value: nat)
    ensures value < 0x100 ==> |IntToHex(value, 2)| == 2
    ensures 0x100 <= value < 0x1000 ==> |IntToHex(value, 2)| == 3
    ensures value >= 0x100 ==> |IntToHex(value, 2)| >= 3
    ensures value < 0x10000 ==> |IntToHex(value, 4)| == 4
  {
    assert value < 0x100 ==> |IntToHex(value / 16, 1)| == 1;
    assert 0x100 <= value ==> |IntToHex(value / 16 / 16, 0)| >= 1;
    if value < 0x10000 {
      assert |IntToHex(value / 16 / 16 / 16, 1)| == 1;
      assert |IntToHex(value / 16 / 16, 2)| == 2;
      assert |IntToHex(value / 16, 3)| == 3;
    }
  }

  /** `bytes.hex().upper()` */
  function ToHex(data: seq<Byte>): (s: string)
    ensures |s| == 2 * |data| && Plain(s)
  {
    if data == [] then "" else [Digit(data[0] / 16), Digit(data[0] % 16)] + ToHex(data[1..])
  }

  /** `bytes.fromhex`, without its tolerance for blanks between bytes. */
  function FromHex(s: string): (data: Option<seq<Byte>>)
    ensures data.Some? ==> |s| == 2 * |data.value|
    decreases |s|
  {
    if s == "" then Some([])
    else if |s| == 1 then None
    else
      match (DigitValue(s[0]), DigitValue(s[1]), FromHex(s[2..]))
      case (Some(h), Some(l), Some(rest)) => Some([16 * h + l] + rest)
      case _ => None
  }

  lemma FromHexPair(b: Byte, rest: string)
    requires FromHex(rest).Some?
    ensures FromHex([Digit(b / 16), Digit(b % 16)] + rest) == Some([b] + FromHex(rest).value)
  {
    hide DigitValue, Digit;
    var s := [Digit(b / 16), Digit(b % 16)] + rest;
    assert s[2..] == rest;
  }

  lemma {:induction false} FromToHex(data: seq<Byte>)
    ensures FromHex(ToHex(data)) == Some(data)
    decreases |data|
  {
    if data != [] {
      hide FromHex;
      FromToHex(data[1..]);
      FromHexPair(data[0], ToHex(data[1..]));
      assert data == [data[0]] + data[1..];
    }
  }

  lemma {:induction false} FromHexDigits(s: string)
    requires FromHex(s).Some?
    ensures forall c :: c in s ==> DigitValue(c).Some?
    decreases |s|
  {
    if s != "" {
      FromHexDigits(s[2..]);
      assert s == [s[0], s[1]] + s[2..];
    }
  }

  lemma {:induction false} ToHexConcat(a: seq<Byte>, b: seq<Byte>)
    ensures ToHex(a + b) == ToHex(a) + ToHex(b)
    decreases |a|
  {
    if a == [] {
      assert a + b == b;
    } else {
      assert (a + b)[1..] == a[1..] + b;
      ToHexConcat(a[1..], b);
    }
  }

  /** The digits are those of Python: decimal ones first, letters in either case when read, capitals
      when written. */
  lemma DigitsAre(v: nat, c: char)
    requires v < 16
    ensures Digit(v) == if v < 10 then (v + '0' as int) as char else (v - 10 + 'A' as int) as char
    ensures DigitValue(c) == Some(v) <==> c == Digit(v) || (v >= 10 && c as int == v - 10 + 'a' as int)
    ensures DigitValue(c) == Some(v) ==> Upper(c) == Digit(v)
  {
    if v < 10 {
      assert v == 0 || v == 1 || v == 2 || v == 3 || v == 4 || v == 5 || v == 6 || v == 7 || v == 8 || v == 9;
    } else {
      assert v == 10 || v == 11 || v == 12 || v == 13 || v == 14 || v == 15;
    }
  }

  /** The first digit of a byte is the high one, in text read and in text written. */
  lemma HighDigitFirst(v: Byte)
    ensures ParseInt([Digit(v / 16), Digit(v % 16)]) == Some(v as int)
    ensures FromHex([Digit(v / 16), Digit(v % 16)]) == Some([v])
    ensures IntToHex(v, 2) == [Digit(v / 16), Digit(v % 16)] && ToHex([v]) == [Digit(v / 16), Digit(v % 16)]
  {
    hide FromHex, ParseInt;
    NumberText(v);
    ByteText(v);
    FromToHex([v]);
    ParseIntToHex(v, 2);
  }

  lemma NumberText(v: Byte)
    ensures IntToHex(v, 2) == [Digit(v / 16), Digit(v % 16)]
  {
    hide Digit;
    assert IntToHex(v / 16, 1) == [Digit(v / 16)];
  }

  lemma ByteText(v: Byte)
    ensures ToHex([v]) == [Digit(v / 16), Digit(v % 16)]
  {
    hide Digit;
    assert [v][1..] == [] && ToHex([]) == "";
  }
}

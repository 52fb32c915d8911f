/** Base64url with padding (section 5 of RFC 4648), as Go's base64.URLEncoding reads and writes it. */
module Base64 {
  import opened Basics

  type Byte = x: int | 0 <= x < 256
  type Sextet = x: int | 0 <= x < 64

  function Digit(v: Sextet): (c: char)
    ensures Value(c) == Some(v) && c != '=' && c != '\r' && c != '\n' && c != ';' && c > ' '
  {
    if v < 26 then 'A' + v as char
    else if v < 52 then 'a' + (v - 26) as char
    else if v < 62 then '0' + (v - 52) as char
    else if v == 62 then '-'
    else '_'
  }

  function Value(c: char): Option<Sextet>
  {
    if 'A' <= c <= 'Z' then Some(c as int - 'A' as int)
    else if 'a' <= c <= 'z' then Some(c as int - 'a' as int + 26)
    else if '0' <= c <= '9' then Some(c as int - '0' as int + 52)
    else if c == '-' then Some(62)
    else if c == '_' then Some(63)
    else None
  }

  /** The URL-safe alphabet, digit by digit. */
  const Alphabet := "ABCDEFGHIJKLMNOPQRSTUVWXYZ" + "abcdefghijklmnopqrstuvwxyz" + "0123456789-_"

  lemma DigitsAreTheAlphabet(v: Sextet)
    ensures |Alphabet| == 64 && Digit(v) == Alphabet[v]
  {
    var upper, lower := "ABCDEFGHIJKLMNOPQRSTUVWXYZ", "abcdefghijklmnopqrstuvwxyz";
    assert forall i | 0 <= i < 26 :: upper[i] == 'A' + i as char;
    assert forall i | 0 <= i < 26 :: lower[i] == 'a' + i as char;
  }

  /** Nothing but the alphabet is read as a digit. */
  lemma OnlyTheAlphabet(c: char)
    ensures Value(c).Some? <==> c in Alphabet
  {
    if Value(c).Some? {
      DigitsAreTheAlphabet(Value(c).value);
    }
    if c in Alphabet {
      var v :| 0 <= v < |Alphabet| && Alphabet[v] == c;
      DigitsAreTheAlphabet(v);
    }
  }

  /** Three bytes as four digits; missing bytes are zero and their digits are padding. */
  function Encode(bytes: seq<Byte>): string
    decreases |bytes|
  {
    if bytes == [] then ""
    else if |bytes| == 1 then
      [Digit(S0(bytes[0])), Digit(S1(bytes[0], 0)), '=', '=']
    else if |bytes| == 2 then
      [Digit(S0(bytes[0])), Digit(S1(bytes[0], bytes[1])), Digit(S2(bytes[1], 0)), '=']
    else
      [Digit(S0(bytes[0])), Digit(S1(bytes[0], bytes[1])), Digit(S2(bytes[1], bytes[2])), Digit(S3(bytes[2]))]
      + Encode(bytes[3..])
  }

  function S0(x: Byte): Sextet { x / 4 }
  function S1(x: Byte, y: Byte): Sextet { x % 4 * 16 + y / 16 }
  function S2(y: Byte, z: Byte): Sextet { y % 16 * 4 + z / 64 }
  function S3(z: Byte): Sextet { z % 64 }

  /** The decoder skips line breaks wherever they are. */
  function WithoutBreaks(s: string): string
    decreases |s|
  {
    if s == "" then ""
    else if s[0] == '\r' || s[0] == '\n' then WithoutBreaks(s[1..])
    else [s[0]] + WithoutBreaks(s[1..])
  }

  function Decode(s: string): Option<seq<Byte>>
  {
    DecodeDigits(WithoutBreaks(s))
  }

  /** Quantum by quantum; leftover bits of a padded quantum are ignored, and nothing may follow it. */
  function DecodeDigits(s: string): Option<seq<Byte>>
    decreases |s|
  {
    if s == "" then Some([])
    else if |s| < 4 then None
    else
      var a, b, c, d := Value(s[0]), Value(s[1]), Value(s[2]), Value(s[3]);
      if a.None? || b.None? then None
      else if s[2] == '=' then
        if s[3] == '=' && |s| == 4 then Some([First(a.value, b.value)]) else None
      else if c.None? then None
      else if s[3] == '=' then
        if |s| == 4 then Some([First(a.value, b.value), Second(b.value, c.value)]) else None
      else if d.None? then None
      else
        match DecodeDigits(s[4..])
        case None => None
        case Some(rest) => Some([First(a.value, b.value), Second(b.value, c.value), Third(c.value, d.value)] + rest)
  }

  function First(a: Sextet, b: Sextet): Byte { a * 4 + b / 16 }
  function Second(b: Sextet, c: Sextet): Byte { b % 16 * 16 + c / 4 }
  function Third(c: Sextet, d: Sextet): Byte { c % 4 * 64 + d }

  lemma Quantum(x: Byte, y: Byte, z: Byte)
    ensures First(S0(x), S1(x, y)) == x && Second(S1(x, y), S2(y, z)) == y && Third(S2(y, z), S3(z)) == z
  {
  }

  /** The four digits of a quantum are the base-64 digits of its three bytes, read as one number. */
  lemma QuantumIsANumber(x: Byte, y: Byte, z: Byte)
    ensures ((S0(x) * 64 + S1(x, y)) * 64 + S2(y, z)) * 64 + S3(z) == (x * 256 + y) * 256 + z
  {
  }

  /** Every character that can come out of Encode. */
  predicate Plain(c: char)
  {
    c == '=' || Value(c).Some?
  }

  lemma {:induction false} EncodePlain(bytes: seq<Byte>)
    ensures forall i | 0 <= i < |Encode(bytes)| :: Plain(Encode(bytes)[i])
    ensures |Encode(bytes)| == (|bytes| + 2) / 3 * 4
    decreases |bytes|
  {
    hide S0, S1, S2, S3, Digit, Value;
    if |bytes| > 2 { EncodePlain(bytes[3..]); }
  }

  lemma {:induction false} PlainHasNoBreaks(s: string)
    requires forall i | 0 <= i < |s| :: Plain(s[i])
    ensures WithoutBreaks(s) == s
  {
    if s != "" { PlainHasNoBreaks(s[1..]); }
  }

  lemma {:induction false} DigitsRoundTrip(bytes: seq<Byte>)
    ensures DecodeDigits(Encode(bytes)) == Some(bytes)
    decreases |bytes|
  {
    hide First, Second, Third, S0, S1, S2, S3, Digit, Value;
    var s := Encode(bytes);
    if |bytes| == 1 {
      Quantum(bytes[0], 0, 0);
      assert bytes == [bytes[0]];
    } else if |bytes| == 2 {
      Quantum(bytes[0], bytes[1], 0);
      assert bytes == [bytes[0], bytes[1]];
    } else if |bytes| > 2 {
      DigitsRoundTrip(bytes[3..]);
      Quantum(bytes[0], bytes[1], bytes[2]);
      assert s[4..] == Encode(bytes[3..]);
      assert bytes == [bytes[0], bytes[1], bytes[2]] + bytes[3..];
    }
  }

  lemma RoundTrip(bytes: seq<Byte>)
    ensures Decode(Encode(bytes)) == Some(bytes)
  {
    EncodePlain(bytes);
    PlainHasNoBreaks(Encode(bytes));
    DigitsRoundTrip(bytes);
  }

  lemma {:induction false} BreaksGo(a: string, c: char, b: string)
    requires c == '\r' || c == '\n'
    ensures WithoutBreaks(a + [c] + b) == WithoutBreaks(a + b)
    decreases |a|
  {
    if a == "" {
      assert a + b == b && (a + [c] + b)[1..] == b;
    } else {
      assert (a + [c] + b)[1..] == a[1..] + [c] + b && (a + b)[1..] == a[1..] + b;
      BreaksGo(a[1..], c, b);
    }
  }

  /** A line break anywhere makes no difference. */
  lemma BreaksDoNotMatter(a: string, c: char, b: string)
    requires c == '\r' || c == '\n'
    ensures Decode(a + [c] + b) == Decode(a + b)
  {
    BreaksGo(a, c, b);
  }

  /** Digits in fours, of which only the last may end in one or two signs of padding. */
  predicate WellPadded(s: string)
  {
    && |s| % 4 == 0
    && forall i | 0 <= i < |s| ::
         Value(s[i]).Some? || (s[i] == '=' && i >= |s| - 2 && (i == |s| - 2 ==> s[|s| - 1] == '='))
  }

  /** Exactly the well-padded texts are decoded. */
  lemma {:induction false} DecodesIff(s: string)
    ensures DecodeDigits(s).Some? <==> WellPadded(s)
    decreases |s|
  {
    hide First, Second, Third, Value;
    NoValue();
    if |s| >= 4 {
      var rest := s[4..];
      DecodesIff(rest);
      assert forall i | 0 <= i < |rest| :: rest[i] == s[i + 4];
      assert rest != [] ==> (WellPadded(s) <==>
        WellPadded(rest) && forall i | 0 <= i < 4 :: Value(s[i]).Some?);
    }
  }

  lemma NoValue()
    ensures Value('=').None?
  {
  }

  /** Decoding is not strict: the last digit before padding can be any of four. */
  lemma FourTextsOneTail(x: Byte, y: Byte, k: int)
    requires 0 <= k < 4
    ensures S2(y, 0) + k < 64
    ensures DecodeDigits([Digit(S0(x)), Digit(S1(x, y)), Digit(S2(y, 0) + k), '=']) == Some([x, y])
  {
    hide Digit, Value;
    assert First(S0(x), S1(x, y)) == x && Second(S1(x, y), S2(y, 0) + k) == y;
  }
}

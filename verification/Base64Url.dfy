/** Unpadded base64url (RFC 4648, section 5), with the lenient decoder of the runtime. */
module Base64Url {
  import opened Options

  type Byte = n: nat | n < 256
  type Sextet = n: nat | n < 64

  function Digit(n: Sextet): char {
    if n < 26 then ('A' as int + n) as char
    else if n < 52 then ('a' as int + (n - 26)) as char
    else if n < 62 then ('0' as int + (n - 52)) as char
    else if n == 62 then '-'
    else '_'
  }

  /** Both alphabets are understood; any other character has no value. */
  function Value(c: char): Option<Sextet> {
    if 'A' <= c <= 'Z' then Some(c as int - 'A' as int)
    else if 'a' <= c <= 'z' then Some(c as int - 'a' as int + 26)
    else if '0' <= c <= '9' then Some(c as int - '0' as int + 52)
    else if c == '-' || c == '+' then Some(62)
    else if c == '_' || c == '/' then Some(63)
    else None
  }

  function Sextet0(x: Byte): Sextet { x / 4 }
  function Sextet1(x: Byte, y: Byte): Sextet { x % 4 * 16 + y / 16 }
  function Sextet2(y: Byte, z: Byte): Sextet { y % 16 * 4 + z / 64 }
  function Sextet3(z: Byte): Sextet { z % 64 }

  function Encode(bytes: seq<Byte>): string
    decreases |bytes|
  {
    if bytes == [] then ""
    else if |bytes| == 1 then [Digit(Sextet0(bytes[0])), Digit(Sextet1(bytes[0], 0))]
    else if |bytes| == 2 then
      [Digit(Sextet0(bytes[0])), Digit(Sextet1(bytes[0], bytes[1])), Digit(Sextet2(bytes[1], 0))]
    else
      [Digit(Sextet0(bytes[0])), Digit(Sextet1(bytes[0], bytes[1])),
       Digit(Sextet2(bytes[1], bytes[2])), Digit(Sextet3(bytes[2]))]
      + Encode(bytes[3..])
  }

  /** The values of a text's digits; everything else is skipped. */
  function Sextets(text: string): seq<Sextet>
    decreases |text|
  {
    if text == "" then []
    else
      var v := Value(text[0]);
      (if v.Some? then [v.value] else []) + Sextets(text[1..])
  }

  function Byte0(a: Sextet, b: Sextet): Byte { a * 4 + b / 16 }
  function Byte1(b: Sextet, c: Sextet): Byte { b % 16 * 16 + c / 4 }
  function Byte2(c: Sextet, d: Sextet): Byte { c % 4 * 64 + d }

  function FromSextets(s: seq<Sextet>): seq<Byte>
    decreases |s|
  {
    if |s| < 2 then []
    else if |s| == 2 then [Byte0(s[0], s[1])]
    else if |s| == 3 then [Byte0(s[0], s[1]), Byte1(s[1], s[2])]
    else [Byte0(s[0], s[1]), Byte1(s[1], s[2]), Byte2(s[2], s[3])] + FromSextets(s[4..])
  }

  function Decode(text: string): seq<Byte> {
    FromSextets(Sextets(text))
  }

  lemma DigitValue(n: Sextet)
    ensures Value(Digit(n)) == Some(n)
  {
  }

  lemma DigitSextets(n: Sextet, rest: string)
    ensures Sextets([Digit(n)] + rest) == [n] + Sextets(rest)
  {
    DigitValue(n);
    assert ([Digit(n)] + rest)[1..] == rest;
  }

  lemma TwoDigits(a: Sextet, b: Sextet, rest: string)
    ensures Sextets([Digit(a), Digit(b)] + rest) == [a, b] + Sextets(rest)
  {
    DigitSextets(b, rest);
    DigitSextets(a, [Digit(b)] + rest);
    assert [Digit(a), Digit(b)] + rest == [Digit(a)] + ([Digit(b)] + rest);
  }

  lemma GroupRoundTrip(x: Byte, y: Byte, z: Byte)
    ensures Byte0(Sextet0(x), Sextet1(x, y)) == x
    ensures Byte1(Sextet1(x, y), Sextet2(y, z)) == y
    ensures Byte2(Sextet2(y, z), Sextet3(z)) == z
  {
  }

  lemma FourDigits(a: Sextet, b: Sextet, c: Sextet, d: Sextet, rest: string)
    ensures Sextets([Digit(a), Digit(b), Digit(c), Digit(d)] + rest) == [a, b, c, d] + Sextets(rest)
  {
    TwoDigits(c, d, rest);
    TwoDigits(a, b, [Digit(c), Digit(d)] + rest);
    assert [Digit(a), Digit(b), Digit(c), Digit(d)] + rest == [Digit(a), Digit(b)] + ([Digit(c), Digit(d)] + rest);
  }

  lemma JustTwoDigits(a: Sextet, b: Sextet)
    ensures Sextets([Digit(a), Digit(b)]) == [a, b]
  {
    TwoDigits(a, b, "");
    assert [Digit(a), Digit(b)] + "" == [Digit(a), Digit(b)];
  }

  lemma LastByte(x: Byte)
    ensures Byte0(Sextet0(x), Sextet1(x, 0)) == x
  {
    GroupRoundTrip(x, 0, 0);
  }

  lemma OneByteText(bytes: seq<Byte>, a: Sextet, b: Sextet)
    requires |bytes| == 1 && a == Sextet0(bytes[0]) && b == Sextet1(bytes[0], 0)
    ensures Encode(bytes) == [Digit(a), Digit(b)] && FromSextets([a, b]) == [Byte0(a, b)]
  {
  }

  lemma OneByteRoundTrip(bytes: seq<Byte>)
    requires |bytes| == 1
    ensures Decode(Encode(bytes)) == bytes
  {
    var a, b := Sextet0(bytes[0]), Sextet1(bytes[0], 0);
    OneByteText(bytes, a, b);
    JustTwoDigits(a, b);
    LastByte(bytes[0]);
  }

  lemma TwoByteRoundTrip(x: Byte, y: Byte)
    ensures Decode(Encode([x, y])) == [x, y]
  {
    var a, b, c := Sextet0(x), Sextet1(x, y), Sextet2(y, 0);
    GroupRoundTrip(x, y, 0);
    DigitSextets(c, "");
    TwoDigits(a, b, [Digit(c)] + "");
    assert Encode([x, y]) == [Digit(a), Digit(b)] + ([Digit(c)] + "");
    assert Sextets(Encode([x, y])) == [a, b, c];
  }

  /** Decoding undoes encoding for every byte string. */
  lemma {:induction false} DecodeEncode(bytes: seq<Byte>)
    ensures Decode(Encode(bytes)) == bytes
    decreases |bytes|
  {
    if bytes == [] {
    } else if |bytes| == 1 {
      OneByteRoundTrip(bytes);
    } else if |bytes| == 2 {
      TwoByteRoundTrip(bytes[0], bytes[1]);
      assert bytes == [bytes[0], bytes[1]];
    } else {
      var x, y, z := bytes[0], bytes[1], bytes[2];
      var group := [Sextet0(x), Sextet1(x, y), Sextet2(y, z), Sextet3(z)];
      var rest := Sextets(Encode(bytes[3..]));
      FourDigits(group[0], group[1], group[2], group[3], Encode(bytes[3..]));
      GroupRoundTrip(x, y, z);
      DecodeEncode(bytes[3..]);
      assert (group + rest)[4..] == rest;
      assert FromSextets(group + rest) == [x, y, z] + FromSextets(rest);
    }
  }

  /** The characters that carry a value: those of both alphabets, and no others. */
  lemma ValueMeans(c: char)
    ensures Value(c).Some? <==>
            'A' <= c <= 'Z' || 'a' <= c <= 'z' || '0' <= c <= '9' || c in {'-', '_', '+', '/'}
    ensures Value('+') == Value('-') && Value('/') == Value('_')
  {
  }

  /** Texts of one, two and three bytes (section 10 of RFC 4648), and the two characters of the alphabet for URLs. */
  lemma EncodeVectors()
    ensures Encode([102]) == "Zg" && Encode([102, 111]) == "Zm8" && Encode([102, 111, 111]) == "Zm9v"
    ensures Encode([102, 111, 111, 98, 97, 114]) == "Zm9vYmFy"
    ensures Encode([251, 255]) == "-_8"
  {
  }
}

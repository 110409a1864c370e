/** Base64 (section 4 of RFC 4648) as Node's `Buffer` writes and reads it: the writer pads, and the
    reader skips every character that is not of the alphabet, and takes `-` and `_` as well. */
module Base64 {

  type Byte = b: int | 0 <= b < 256
  type Sextet = x: int | 0 <= x < 64

  function ToChar(x: Sextet): char {
    if x < 26 then (65 + x) as char
    else if x < 52 then (97 + x - 26) as char
    else if x < 62 then (48 + x - 52) as char
    else if x == 62 then '+' else '/'
  }

  /** The value of a character; -1 outside the alphabet. */
  function FromChar(c: char): (x: int)
    ensures -1 <= x < 64
  {
    if 'A' <= c <= 'Z' then c as int - 65
    else if 'a' <= c <= 'z' then c as int - 97 + 26
    else if '0' <= c <= '9' then c as int - 48 + 52
    else if c == '+' || c == '-' then 62
    else if c == '/' || c == '_' then 63
    else -1
  }

  const UPPER: string := "ABCDEFGHIJKLMNOPQRSTUVWXYZ"
  const LOWER: string := "abcdefghijklmnopqrstuvwxyz"
  const DIGITS: string := "0123456789"
  const ALPHABET: string := UPPER + LOWER + DIGITS + "+/"

  lemma UpperInOrder(k: nat)
    ensures |UPPER| == 26 && (k < 26 ==> UPPER[k] as int == 65 + k)
  {
  }

  lemma LowerInOrder(k: nat)
    ensures |LOWER| == 26 && (k < 26 ==> LOWER[k] as int == 97 + k)
  {
  }

  lemma DigitsInOrder(k: nat)
    ensures |DIGITS| == 10 && (k < 10 ==> DIGITS[k] as int == 48 + k)
  {
  }

  /** The writer uses the alphabet in order. */
  lemma WritesAlphabet(x: Sextet)
    ensures |ALPHABET| == 64 && ToChar(x) == ALPHABET[x]
  {
    UpperInOrder(x);
    LowerInOrder(if x >= 26 then x - 26 else 0);
    DigitsInOrder(if x >= 52 then x - 52 else 0);
    hide UPPER, LOWER, DIGITS;
  }

  /** The reader knows the alphabet, `-` for 62 and `_` for 63, and nothing else. */
  lemma ReadsAlphabet(c: char)
    ensures c in ALPHABET ==> FromChar(c) >= 0 && ALPHABET[FromChar(c)] == c
    ensures FromChar('-') == 62 && FromChar('_') == 63
    ensures c !in ALPHABET && c != '-' && c != '_' ==> FromChar(c) == -1
  {
    if FromChar(c) >= 0 { WritesAlphabet(FromChar(c)); }
    if c in ALPHABET {
      var x :| 0 <= x < 64 && ALPHABET[x] == c;
      WritesAlphabet(x);
      CharRoundTrip(x);
    }
  }

  function Encode(bytes: seq<Byte>): string {
    if |bytes| == 0 then ""
    else if |bytes| == 1 then
      [ToChar(bytes[0] / 4), ToChar(bytes[0] % 4 * 16), '=', '=']
    else if |bytes| == 2 then
      [ToChar(bytes[0] / 4), ToChar(bytes[0] % 4 * 16 + bytes[1] / 16), ToChar(bytes[1] % 16 * 4), '=']
    else
      [ToChar(bytes[0] / 4), ToChar(bytes[0] % 4 * 16 + bytes[1] / 16),
       ToChar(bytes[1] % 16 * 4 + bytes[2] / 64), ToChar(bytes[2] % 64)]
      + Encode(bytes[3..])
  }

  /** The sextets of a text. */
  function Sextets(s: string): seq<Sextet> {
    if s == "" then []
    else if FromChar(s[0]) >= 0 then [FromChar(s[0])] + Sextets(s[1..])
    else Sextets(s[1..])
  }

  /** Four sextets are three bytes; two or three left over are one or two; one left over is dropped. */
  function Join(x: seq<Sextet>): seq<Byte> {
    if |x| < 2 then []
    else if |x| == 2 then [Byte0(x[0], x[1])]
    else if |x| == 3 then [Byte0(x[0], x[1]), Byte1(x[1], x[2])]
    else [Byte0(x[0], x[1]), Byte1(x[1], x[2]), Byte2(x[2], x[3])] + Join(x[4..])
  }

  function Byte0(a: int, b: int): Byte
    requires 0 <= a < 64 && 0 <= b < 64
  {
    a * 4 + b / 16
  }

  function Byte1(b: int, c: int): Byte
    requires 0 <= b < 64 && 0 <= c < 64
  {
    b % 16 * 16 + c / 4
  }

  function Byte2(c: int, d: int): Byte
    requires 0 <= c < 64 && 0 <= d < 64
  {
    c % 4 * 64 + d
  }

  function Decode(s: string): seq<Byte> { Join(Sextets(s)) }

  lemma CharRoundTrip(x: Sextet)
    ensures FromChar(ToChar(x)) == x
  {
  }

  /** The bytes split into sextets, as the writer lays them out. */
  function Split(bytes: seq<Byte>): seq<Sextet> {
    if |bytes| == 0 then []
    else if |bytes| == 1 then [bytes[0] / 4, bytes[0] % 4 * 16]
    else if |bytes| == 2 then [bytes[0] / 4, bytes[0] % 4 * 16 + bytes[1] / 16, bytes[1] % 16 * 4]
    else
      [bytes[0] / 4, bytes[0] % 4 * 16 + bytes[1] / 16, bytes[1] % 16 * 4 + bytes[2] / 64, bytes[2] % 64]
      + Split(bytes[3..])
  }

  lemma JoinFour(a: Sextet, b: Sextet, c: Sextet, d: Sextet, rest: seq<Sextet>)
    ensures Join([a, b, c, d] + rest) == [Byte0(a, b), Byte1(b, c), Byte2(c, d)] + Join(rest)
  {
    hide Byte0, Byte1, Byte2;
    assert ([a, b, c, d] + rest)[4..] == rest;
  }

  /** Three bytes cut into sextets are put together again. */
  lemma BytesOfSextets(x: Byte, y: Byte, z: Byte)
    ensures Byte0(x / 4, x % 4 * 16 + y / 16) == x
    ensures Byte1(x % 4 * 16 + y / 16, y % 16 * 4 + z / 64) == y
    ensures Byte2(y % 16 * 4 + z / 64, z % 64) == z
  {
  }

  lemma {:induction false} JoinSplit(bytes: seq<Byte>)
    ensures Join(Split(bytes)) == bytes
  {
    var n := |bytes|;
    if n == 1 {
      BytesOfSextets(bytes[0], 0, 0);
    } else if n == 2 {
      BytesOfSextets(bytes[0], bytes[1], 0);
    } else if n >= 3 {
      var x, y, z := bytes[0], bytes[1], bytes[2];
      JoinSplit(bytes[3..]);
      BytesOfSextets(x, y, z);
      hide Byte0, Byte1, Byte2, Join;
      JoinFour(x / 4, x % 4 * 16 + y / 16, y % 16 * 4 + z / 64, z % 64, Split(bytes[3..]));
      assert bytes == [x, y, z] + bytes[3..];
    }
  }

  /** Four characters for every three bytes begun: those of the sextets, and one `=` for each byte that
      the last group is short of. */
  lemma {:induction false} EncodeShape(bytes: seq<Byte>)
    ensures |Encode(bytes)| == (|bytes| + 2) / 3 * 4
    ensures |Split(bytes)| == (8 * |bytes| + 5) / 6
    ensures forall i | 0 <= i < |Encode(bytes)| ::
      Encode(bytes)[i] == if i < |Split(bytes)| then ToChar(Split(bytes)[i]) else '='
  {
    hide ToChar;
    if |bytes| >= 3 {
      EncodeShape(bytes[3..]);
    }
  }

  /** Six bits a character make whole bytes; bits that do not fill one are dropped. */
  lemma {:induction false} JoinLength(x: seq<Sextet>)
    ensures |Join(x)| == 6 * |x| / 8
  {
    if |x| >= 4 { JoinLength(x[4..]); }
  }

  lemma SextetsOfChar(x: Sextet, rest: string)
    ensures Sextets([ToChar(x)] + rest) == [x] + Sextets(rest)
  {
    CharRoundTrip(x);
    assert ([ToChar(x)] + rest)[1..] == rest;
  }

  lemma SextetsOfPad(rest: string)
    ensures Sextets(['='] + rest) == Sextets(rest)
  {
    assert (['='] + rest)[1..] == rest;
  }

  lemma SextetsOfTwo(a: Sextet, b: Sextet, rest: string)
    ensures Sextets([ToChar(a), ToChar(b)] + rest) == [a, b] + Sextets(rest)
  {
    hide ToChar, Sextets;
    SextetsOfChar(b, rest);
    SextetsOfChar(a, [ToChar(b)] + rest);
    assert [ToChar(a)] + ([ToChar(b)] + rest) == [ToChar(a), ToChar(b)] + rest;
  }

  lemma SextetsOfFour(a: Sextet, b: Sextet, c: Sextet, d: Sextet, rest: string)
    ensures Sextets([ToChar(a), ToChar(b), ToChar(c), ToChar(d)] + rest) == [a, b, c, d] + Sextets(rest)
  {
    hide ToChar, Sextets;
    SextetsOfTwo(c, d, rest);
    SextetsOfTwo(a, b, [ToChar(c), ToChar(d)] + rest);
    assert [ToChar(a), ToChar(b)] + ([ToChar(c), ToChar(d)] + rest)
        == [ToChar(a), ToChar(b), ToChar(c), ToChar(d)] + rest;
  }

  lemma SextetsOfPads()
    ensures Sextets("") == [] && Sextets("=") == [] && Sextets("==") == []
  {
    SextetsOfPad("");
    SextetsOfPad("=");
    assert ['='] + "=" == "==" && ['='] + "" == "=";
  }

  lemma {:induction false} SextetsOfEncode(bytes: seq<Byte>)
    ensures Sextets(Encode(bytes)) == Split(bytes)
  {
    hide ToChar, Sextets;
    var n := |bytes|;
    SextetsOfPads();
    if n == 1 {
      SextetsOfTwo(bytes[0] / 4, bytes[0] % 4 * 16, "==");
      assert Encode(bytes) == [ToChar(bytes[0] / 4), ToChar(bytes[0] % 4 * 16)] + "==";
    } else if n == 2 {
      var c: Sextet := bytes[1] % 16 * 4;
      SextetsOfChar(c, "=");
      SextetsOfTwo(bytes[0] / 4, bytes[0] % 4 * 16 + bytes[1] / 16, [ToChar(c)] + "=");
      assert Encode(bytes)
        == [ToChar(bytes[0] / 4), ToChar(bytes[0] % 4 * 16 + bytes[1] / 16)] + ([ToChar(c)] + "=");
    } else if n >= 3 {
      SextetsOfEncode(bytes[3..]);
      SextetsOfFour(bytes[0] / 4, bytes[0] % 4 * 16 + bytes[1] / 16, bytes[1] % 16 * 4 + bytes[2] / 64, bytes[2] % 64,
                    Encode(bytes[3..]));
    }
  }

  /** Reading what was written gives the bytes back, whatever their number modulo three. */
  lemma RoundTrip(bytes: seq<Byte>)
    ensures Decode(Encode(bytes)) == bytes
  {
    SextetsOfEncode(bytes);
    JoinSplit(bytes);
  }
}

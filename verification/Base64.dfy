/** Base64 with the standard alphabet and padding, section 4 of RFC 4648. */
module Base64 {
  import opened Wrappers

  type byte = x: int | 0 <= x < 256

  type Bytes = seq<byte>

  // A value of six bits.
  type Six = x: int | 0 <= x < 64

  // The character of a value of six bits.
  function Symbol(v: Six): (c: char)
    ensures c != '=' && c != '$'
  {
    if v < 26 then 'A' + v as char
    else if v < 52 then 'a' + (v - 26) as char
    else if v < 62 then '0' + (v - 52) as char
    else if v == 62 then '+'
    else '/'
  }

  function ValueOf(c: char): Option<Six> {
    if 'A' <= c <= 'Z' then Some(c as int - 'A' as int)
    else if 'a' <= c <= 'z' then Some(c as int - 'a' as int + 26)
    else if '0' <= c <= '9' then Some(c as int - '0' as int + 52)
    else if c == '+' then Some(62)
    else if c == '/' then Some(63)
    else None
  }

  lemma SymbolValue(v: Six)
    ensures ValueOf(Symbol(v)) == Some(v)
  {
  }

  // Three bytes as four values of six bits.
  function Bits0(a: byte): Six {
    a / 4
  }

  function Bits1(a: byte, b: byte): Six {
    a % 4 * 16 + b / 16
  }

  function Bits2(b: byte, c: byte): Six {
    b % 16 * 4 + c / 64
  }

  function Bits3(c: byte): Six {
    c % 64
  }

  function Encode(b: Bytes): string {
    if b == [] then ""
    else if |b| == 1 then [Symbol(Bits0(b[0])), Symbol(Bits1(b[0], 0)), '=', '=']
    else if |b| == 2 then [Symbol(Bits0(b[0])), Symbol(Bits1(b[0], b[1])), Symbol(Bits2(b[1], 0)), '=']
    else [Symbol(Bits0(b[0])), Symbol(Bits1(b[0], b[1])), Symbol(Bits2(b[1], b[2])), Symbol(Bits3(b[2]))] + Encode(b[3..])
  }

  function FirstByte(x: Six, y: Six): byte {
    x * 4 + y / 16
  }

  function SecondByte(y: Six, z: Six): byte {
    y % 16 * 16 + z / 4
  }

  function ThirdByte(z: Six, w: Six): byte {
    z % 4 * 64 + w
  }

  // The bytes of a string of whole groups; only the last group may be padded.
  function Decode(s: string): Option<Bytes> {
    if s == [] then Some([])
    else if |s| < 4 then None
    else
      var x, y, z, w := ValueOf(s[0]), ValueOf(s[1]), ValueOf(s[2]), ValueOf(s[3]);
      if x.None? || y.None? then None
      else if s[2..] == "==" then Some([FirstByte(x.value, y.value)])
      else if z.None? then None
      else if s[3..] == "=" then Some([FirstByte(x.value, y.value), SecondByte(y.value, z.value)])
      else if w.None? then None
      else
        match Decode(s[4..])
        case None => None
        case Some(rest) => Some([FirstByte(x.value, y.value), SecondByte(y.value, z.value), ThirdByte(z.value, w.value)] + rest)
  }

  lemma ThreeBytes(a: byte, b: byte, c: byte)
    ensures FirstByte(Bits0(a), Bits1(a, b)) == a
    ensures SecondByte(Bits1(a, b), Bits2(b, c)) == b
    ensures ThirdByte(Bits2(b, c), Bits3(c)) == c
  {
  }

  lemma TwoPads(s: string, x: Six, y: Six)
    requires |s| == 4 && s[2..] == "=="
    requires ValueOf(s[0]) == Some(x) && ValueOf(s[1]) == Some(y)
    ensures Decode(s) == Some([FirstByte(x, y)])
  {
    hide ValueOf, FirstByte, SecondByte, ThirdByte;
  }

  lemma DecodeOne(a: byte)
    ensures Decode([Symbol(Bits0(a)), Symbol(Bits1(a, 0)), '=', '=']) == Some([a])
  {
    hide Symbol, ValueOf, FirstByte, SecondByte, ThirdByte, Bits0, Bits1, Bits2, Bits3, Decode;
    ThreeBytes(a, 0, 0);
    SymbolValue(Bits0(a));
    SymbolValue(Bits1(a, 0));
    var s := [Symbol(Bits0(a)), Symbol(Bits1(a, 0)), '=', '='];
    assert s[2..] == "==";
    TwoPads(s, Bits0(a), Bits1(a, 0));
  }

  lemma DecodeTwo(a: byte, b: byte)
    ensures Decode([Symbol(Bits0(a)), Symbol(Bits1(a, b)), Symbol(Bits2(b, 0)), '=']) == Some([a, b])
  {
    hide Symbol, ValueOf, FirstByte, SecondByte, ThirdByte, Bits0, Bits1, Bits2;
    ThreeBytes(a, b, 0);
    SymbolValue(Bits0(a));
    SymbolValue(Bits1(a, b));
    SymbolValue(Bits2(b, 0));
    var s := [Symbol(Bits0(a)), Symbol(Bits1(a, b)), Symbol(Bits2(b, 0)), '='];
    assert s[2..][0] == s[2] && s[3..] == "=";
  }

  lemma DecodeThree(a: byte, b: byte, c: byte, s: string, rest: Bytes)
    requires Decode(s) == Some(rest)
    ensures Decode([Symbol(Bits0(a)), Symbol(Bits1(a, b)), Symbol(Bits2(b, c)), Symbol(Bits3(c))] + s) == Some([a, b, c] + rest)
  {
    hide Symbol, ValueOf, FirstByte, SecondByte, ThirdByte, Bits0, Bits1, Bits2, Bits3;
    ThreeBytes(a, b, c);
    SymbolValue(Bits0(a));
    SymbolValue(Bits1(a, b));
    SymbolValue(Bits2(b, c));
    SymbolValue(Bits3(c));
    var t := [Symbol(Bits0(a)), Symbol(Bits1(a, b)), Symbol(Bits2(b, c)), Symbol(Bits3(c))] + s;
    assert t[2..][0] == t[2] && t[3..][0] == t[3] && t[4..] == s;
  }

  // Decoding undoes encoding.
  lemma {:induction false} DecodeEncode(b: Bytes)
    ensures Decode(Encode(b)) == Some(b)
  {
    hide Symbol, Bits0, Bits1, Bits2, Bits3, Decode;
    if b == [] {
      DecodeNothing();
    } else if |b| == 1 {
      DecodeOne(b[0]);
      assert b == [b[0]];
    } else if |b| == 2 {
      DecodeTwo(b[0], b[1]);
      assert b == [b[0], b[1]];
    } else {
      DecodeEncode(b[3..]);
      DecodeThree(b[0], b[1], b[2], Encode(b[3..]), b[3..]);
      assert b == [b[0], b[1], b[2]] + b[3..];
    }
  }

  lemma DecodeNothing()
    ensures Decode("") == Some([])
  {
  }

  // ----- what the encoding looks like

  // Three bytes and four values are the same number of 24 bits.
  lemma SameBits(a: byte, b: byte, c: byte)
    ensures (a * 256 + b) * 256 + c == ((Bits0(a) * 64 + Bits1(a, b)) * 64 + Bits2(b, c)) * 64 + Bits3(c)
  {
  }

  // The alphabet by character code: capitals from 65, small letters from 97, digits from 48, then
  // plus (43) and slash (47).
  lemma SymbolCode(v: Six)
    ensures Symbol(v) as int - v == if v < 26 then 65 else if v < 52 then 71 else if v < 62 then -4 else if v < 63 then -19 else -16
  {
  }

  // Four characters for every three bytes, begun or complete, and none of them separates fields.
  lemma {:induction false} EncodedShape(b: Bytes)
    ensures |Encode(b)| == (|b| + 2) / 3 * 4
    ensures '$' !in Encode(b)
  {
    hide Symbol, Bits0, Bits1, Bits2, Bits3;
    if |b| >= 3 { EncodedShape(b[3..]); }
  }

  // Section 10 of RFC 4648: f, fo and foo.
  lemma TestVectors()
    ensures Encode([102]) == "Zg==" && Encode([102, 111]) == "Zm8=" && Encode([102, 111, 111]) == "Zm9v"
  {
    var foo: Bytes := [102, 111, 111];
    assert foo[3..] == [];
    assert Encode(foo) == ['Z', 'm', '9', 'v'] + Encode(foo[3..]);
  }
}

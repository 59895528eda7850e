/**
  Strict UTF-8 (the well-formed byte sequences of the Unicode Standard,
  table 3-7), which is what Python's `bytes.decode('utf-8')` accepts; any other
  input raises `UnicodeDecodeError`.
*/
module Utf8 {
  import opened Wrappers

  type byte = x: int | 0 <= x < 256

  predicate IsCont(b: int) { 0x80 <= b <= 0xBF }

  function Cp2(b0: int, b1: int): int { (b0 - 0xC0) * 64 + (b1 - 0x80) }
  function Cp3(b0: int, b1: int, b2: int): int { (b0 - 0xE0) * 4096 + (b1 - 0x80) * 64 + (b2 - 0x80) }
  function Cp4(b0: int, b1: int, b2: int, b3: int): int
  {
    (b0 - 0xF0) * 262144 + (b1 - 0x80) * 4096 + (b2 - 0x80) * 64 + (b3 - 0x80)
  }

  predicate Ok2(b0: int, b1: int) { 0xC2 <= b0 <= 0xDF && IsCont(b1) }
  predicate Ok3(b0: int, b1: int, b2: int)
  {
    0xE0 <= b0 <= 0xEF && IsCont(b1) && IsCont(b2) && (b0 != 0xE0 || b1 >= 0xA0) && (b0 != 0xED || b1 <= 0x9F)
  }
  predicate Ok4(b0: int, b1: int, b2: int, b3: int)
  {
    0xF0 <= b0 <= 0xF4 && IsCont(b1) && IsCont(b2) && IsCont(b3) && (b0 != 0xF0 || b1 >= 0x90) && (b0 != 0xF4 || b1 <= 0x8F)
  }

  lemma Range2(b0: int, b1: int)
    requires Ok2(b0, b1)
    ensures 0x80 <= Cp2(b0, b1) < 0x800
  {
  }

  lemma Range3(b0: int, b1: int, b2: int)
    requires Ok3(b0, b1, b2)
    ensures 0x800 <= Cp3(b0, b1, b2) < 0xD800 || 0xE000 <= Cp3(b0, b1, b2) < 0x10000
  {
  }

  lemma Range4(b0: int, b1: int, b2: int, b3: int)
    requires Ok4(b0, b1, b2, b3)
    ensures 0x10000 <= Cp4(b0, b1, b2, b3) < 0x110000
  {
  }

  /** The character that `b` begins with and the number of bytes it takes. */
  function DecodeFirst(b: seq<byte>): (r: Option<(char, nat)>)
    ensures r.Some? ==> 1 <= r.value.1 <= |b| && r.value.1 <= 4
  {
    if b == [] then None
    else if b[0] <= 0x7F then Some((b[0] as char, 1))
    else if |b| >= 2 && Ok2(b[0], b[1]) then
      Range2(b[0], b[1]);
      Some((Cp2(b[0], b[1]) as char, 2))
    else if |b| >= 3 && Ok3(b[0], b[1], b[2]) then
      Range3(b[0], b[1], b[2]);
      Some((Cp3(b[0], b[1], b[2]) as char, 3))
    else if |b| >= 4 && Ok4(b[0], b[1], b[2], b[3]) then
      Range4(b[0], b[1], b[2], b[3]);
      Some((Cp4(b[0], b[1], b[2], b[3]) as char, 4))
    else None
  }

  /** `b.decode('utf-8')`, with `None` for the `UnicodeDecodeError`. */
  function Decode(b: seq<byte>): Option<string>
    decreases |b|
  {
    if b == [] then Some("")
    else
      match DecodeFirst(b)
      case None => None
      case Some((c, n)) =>
        match Decode(b[n..])
        case None => None
        case Some(s) => Some([c] + s)
  }

  /** The bytes of one character. */
  function EncodeChar(c: char): (r: seq<byte>)
    ensures 1 <= |r| <= 4
  {
    var cp := c as int;
    if cp < 0x80 then [cp]
    else if cp < 0x800 then [0xC0 + cp / 64, 0x80 + cp % 64]
    else if cp < 0x10000 then [0xE0 + cp / 4096, 0x80 + (cp / 64) % 64, 0x80 + cp % 64]
    else [0xF0 + cp / 262144, 0x80 + (cp / 4096) % 64, 0x80 + (cp / 64) % 64, 0x80 + cp % 64]
  }

  function Encode(s: string): seq<byte>
  {
    if s == [] then [] else EncodeChar(s[0]) + Encode(s[1..])
  }

  lemma Enc2(cp: int)
    requires 0x80 <= cp < 0x800
    ensures Ok2(0xC0 + cp / 64, 0x80 + cp % 64) && Cp2(0xC0 + cp / 64, 0x80 + cp % 64) == cp
  {
  }

  lemma Enc3(cp: int)
    requires 0x800 <= cp < 0xD800 || 0xE000 <= cp < 0x10000
    ensures Ok3(0xE0 + cp / 4096, 0x80 + (cp / 64) % 64, 0x80 + cp % 64)
    ensures Cp3(0xE0 + cp / 4096, 0x80 + (cp / 64) % 64, 0x80 + cp % 64) == cp
  {
  }

  lemma Enc4(cp: int)
    requires 0x10000 <= cp < 0x110000
    ensures Ok4(0xF0 + cp / 262144, 0x80 + (cp / 4096) % 64, 0x80 + (cp / 64) % 64, 0x80 + cp % 64)
    ensures Cp4(0xF0 + cp / 262144, 0x80 + (cp / 4096) % 64, 0x80 + (cp / 64) % 64, 0x80 + cp % 64) == cp
  {
    var q1, x3 := cp / 64, cp % 64;
    var q2, x2 := q1 / 64, q1 % 64;
    var x0, x1 := q2 / 64, q2 % 64;
    assert cp == q2 * 4096 + (x2 * 64 + x3);
    assert cp / 4096 == q2;
    assert cp == x0 * 262144 + (x1 * 4096 + x2 * 64 + x3);
    assert cp / 262144 == x0;
  }

  lemma Dec2(b0: int, b1: int)
    requires Ok2(b0, b1)
    ensures var cp := Cp2(b0, b1); 0xC0 + cp / 64 == b0 && 0x80 + cp % 64 == b1
  {
  }

  lemma Dec3(b0: int, b1: int, b2: int)
    requires Ok3(b0, b1, b2)
    ensures var cp := Cp3(b0, b1, b2); 0xE0 + cp / 4096 == b0 && 0x80 + (cp / 64) % 64 == b1 && 0x80 + cp % 64 == b2
  {
    var x0, x1, x2 := b0 - 0xE0, b1 - 0x80, b2 - 0x80;
    var cp := Cp3(b0, b1, b2);
    assert cp == x0 * 4096 + (x1 * 64 + x2);
    assert cp / 4096 == x0;
    assert cp == (x0 * 64 + x1) * 64 + x2;
    assert cp / 64 == x0 * 64 + x1;
  }

  lemma Dec4(b0: int, b1: int, b2: int, b3: int)
    requires Ok4(b0, b1, b2, b3)
    ensures var cp := Cp4(b0, b1, b2, b3);
      0xF0 + cp / 262144 == b0 && 0x80 + (cp / 4096) % 64 == b1 && 0x80 + (cp / 64) % 64 == b2 && 0x80 + cp % 64 == b3
  {
    var x0, x1, x2, x3 := b0 - 0xF0, b1 - 0x80, b2 - 0x80, b3 - 0x80;
    var cp := Cp4(b0, b1, b2, b3);
    assert cp == x0 * 262144 + (x1 * 4096 + x2 * 64 + x3);
    assert cp / 262144 == x0;
    assert cp == (x0 * 64 + x1) * 4096 + (x2 * 64 + x3);
    assert cp / 4096 == x0 * 64 + x1;
    assert cp == ((x0 * 64 + x1) * 64 + x2) * 64 + x3;
    assert cp / 64 == (x0 * 64 + x1) * 64 + x2;
  }

  lemma DecodeFirstOfEncoded(c: char, rest: seq<byte>)
    ensures DecodeFirst(EncodeChar(c) + rest) == Some((c, |EncodeChar(c)|))
  {
    var cp := c as int;
    if cp < 0x80 {
      assert (EncodeChar(c) + rest)[0] == cp;
    } else if cp < 0x800 {
      var b0, b1 := 0xC0 + cp / 64, 0x80 + cp % 64;
      Enc2(cp);
      assert EncodeChar(c) == [b0, b1];
      DecodeFirst2(b0, b1, rest);
    } else if cp < 0x10000 {
      var b0, b1, b2 := 0xE0 + cp / 4096, 0x80 + (cp / 64) % 64, 0x80 + cp % 64;
      Enc3(cp);
      assert EncodeChar(c) == [b0, b1, b2];
      DecodeFirst3(b0, b1, b2, rest);
    } else {
      var b0, b1, b2, b3 := 0xF0 + cp / 262144, 0x80 + (cp / 4096) % 64, 0x80 + (cp / 64) % 64, 0x80 + cp % 64;
      Enc4(cp);
      assert EncodeChar(c) == [b0, b1, b2, b3];
      DecodeFirst4(b0, b1, b2, b3, rest);
    }
  }

  lemma DecodeFirst2(b0: byte, b1: byte, rest: seq<byte>)
    requires Ok2(b0, b1)
    ensures DecodeFirst([b0, b1] + rest) == Some((Cp2(b0, b1) as char, 2))
  {
    var b := [b0, b1] + rest;
    assert b[0] == b0 && b[1] == b1;
  }

  lemma DecodeFirst3(b0: byte, b1: byte, b2: byte, rest: seq<byte>)
    requires Ok3(b0, b1, b2)
    ensures DecodeFirst([b0, b1, b2] + rest) == Some((Cp3(b0, b1, b2) as char, 3))
  {
    var b := [b0, b1, b2] + rest;
    assert b[0] == b0 && b[1] == b1 && b[2] == b2;
    assert !Ok2(b[0], b[1]);
  }

  lemma DecodeFirst4(b0: byte, b1: byte, b2: byte, b3: byte, rest: seq<byte>)
    requires Ok4(b0, b1, b2, b3)
    ensures DecodeFirst([b0, b1, b2, b3] + rest) == Some((Cp4(b0, b1, b2, b3) as char, 4))
  {
    var b := [b0, b1, b2, b3] + rest;
    assert b[0] == b0 && b[1] == b1 && b[2] == b2 && b[3] == b3;
    assert !Ok2(b[0], b[1]);
    assert !Ok3(b[0], b[1], b[2]);
  }

  lemma FirstDecodedEncodes(b: seq<byte>)
    requires DecodeFirst(b).Some?
    ensures EncodeChar(DecodeFirst(b).value.0) == b[..DecodeFirst(b).value.1]
  {
    if b[0] <= 0x7F {
    } else if |b| >= 2 && Ok2(b[0], b[1]) {
      Range2(b[0], b[1]);
      Dec2(b[0], b[1]);
    } else if |b| >= 3 && Ok3(b[0], b[1], b[2]) {
      Range3(b[0], b[1], b[2]);
      Dec3(b[0], b[1], b[2]);
    } else {
      Range4(b[0], b[1], b[2], b[3]);
      Dec4(b[0], b[1], b[2], b[3]);
    }
  }

  /** Decoding what was encoded gives the text back. */
  lemma {:induction false} DecodeEncode(s: string)
    ensures Decode(Encode(s)) == Some(s)
  {
    if s != [] {
      var b := Encode(s);
      var e := EncodeChar(s[0]);
      DecodeFirstOfEncoded(s[0], Encode(s[1..]));
      assert b == e + Encode(s[1..]);
      assert b[|e|..] == Encode(s[1..]);
      DecodeEncode(s[1..]);
      assert Decode(b) == Some([s[0]] + s[1..]);
      assert [s[0]] + s[1..] == s;
    }
  }

  /** A successful decode has exactly one byte sequence behind it. */
  lemma {:induction false} EncodeDecode(b: seq<byte>)
    requires Decode(b).Some?
    ensures Encode(Decode(b).value) == b
    decreases |b|
  {
    if b != [] {
      var (c, n) := DecodeFirst(b).value;
      DecodeStep(b);
      var t := Decode(b[n..]).value;
      EncodeCons(c, t);
      EncodeDecode(b[n..]);
      FirstDecodedEncodes(b);
      SplitAt(b, n);
    }
  }

  lemma DecodeStep(b: seq<byte>)
    requires b != [] && Decode(b).Some?
    ensures DecodeFirst(b).Some? && Decode(b[DecodeFirst(b).value.1..]).Some?
    ensures Decode(b).value == [DecodeFirst(b).value.0] + Decode(b[DecodeFirst(b).value.1..]).value
  {
  }

  lemma EncodeCons(c: char, t: string)
    ensures Encode([c] + t) == EncodeChar(c) + Encode(t)
  {
    assert ([c] + t)[1..] == t;
  }

  lemma SplitAt(b: seq<byte>, n: nat)
    requires n <= |b|
    ensures b[..n] + b[n..] == b
  {
  }
}

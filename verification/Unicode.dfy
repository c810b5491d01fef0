/** Well-formed UTF-8: which bytes are a Rust string. */
module Unicode {
  import opened Prelude

  predicate InRange(b: Bytes, i: nat, low: u8, high: u8) {
    i < |b| && low <= b[i] <= high
  }

  /** Bytes of the first code point, 0 if malformed: table 3-7 of the Unicode Standard. */
  function FirstLength(b: Bytes): (n: nat)
    requires |b| > 0
    ensures n <= |b|
  {
    if b[0] <= 0x7F then 1
    else if 0xC2 <= b[0] <= 0xDF then
      if InRange(b, 1, 0x80, 0xBF) then 2 else 0
    else if 0xE0 <= b[0] <= 0xEF then
      var low := if b[0] == 0xE0 then 0xA0 else 0x80;
      var high := if b[0] == 0xED then 0x9F else 0xBF;
      if InRange(b, 1, low, high) && InRange(b, 2, 0x80, 0xBF) then 3 else 0
    else if 0xF0 <= b[0] <= 0xF4 then
      var low := if b[0] == 0xF0 then 0x90 else 0x80;
      var high := if b[0] == 0xF4 then 0x8F else 0xBF;
      if InRange(b, 1, low, high) && InRange(b, 2, 0x80, 0xBF) && InRange(b, 3, 0x80, 0xBF) then 4 else 0
    else 0
  }

  predicate Utf8(b: Bytes) {
    b == [] || (FirstLength(b) > 0 && Utf8(b[FirstLength(b)..]))
  }

  // ----- What that means ------------------------------------------------------

  /** A Unicode scalar value: a code point that is no surrogate. */
  type Scalar = c: int | 0 <= c < 0xD800 || 0xE000 <= c < 0x11_0000

  /** The six low bits of a number, as a byte of a sequence. */
  function Trail(n: nat): u8 {
    (0x80 + n % 64) as u8
  }

  /** Table 3-6 of the Unicode Standard. */
  function EncodeScalar(c: Scalar): (b: Bytes)
    ensures |b| > 0
  {
    if c < 0x80 then [c as u8]
    else if c < 0x800 then [(0xC0 + c / 64) as u8, Trail(c)]
    else if c < 0x1_0000 then [(0xE0 + c / 4096) as u8, Trail(c / 64), Trail(c)]
    else [(0xF0 + c / 262144) as u8, Trail(c / 4096), Trail(c / 64), Trail(c)]
  }

  function EncodeAll(cs: seq<Scalar>): Bytes {
    if cs == [] then [] else EncodeScalar(cs[0]) + EncodeAll(cs[1..])
  }

  lemma EncodedFirst(c: Scalar, rest: Bytes)
    ensures FirstLength(EncodeScalar(c) + rest) == |EncodeScalar(c)|
  {
  }

  lemma Weights(h: nat, l: nat)
    requires l < 64
    ensures (h * 64 + l) / 64 == h && (h * 64 + l) % 64 == l
  {
  }

  /** The scalar value of the first sequence, in the binary weights of its bytes. */
  lemma FirstEncodes(b: Bytes) returns (c: Scalar)
    requires |b| > 0 && FirstLength(b) > 0
    ensures EncodeScalar(c) == b[..FirstLength(b)]
  {
    var n := FirstLength(b);
    if n == 1 {
      c := b[0] as int;
    } else if n == 2 {
      c := TwoBytes(b[0], b[1]);
    } else if n == 3 {
      c := ThreeBytes(b[0], b[1], b[2]);
    } else {
      c := FourBytes(b[0], b[1], b[2], b[3]);
    }
  }

  lemma TwoBytes(x: u8, y: u8) returns (c: Scalar)
    requires 0xC2 <= x <= 0xDF && 0x80 <= y <= 0xBF
    ensures EncodeScalar(c) == [x, y]
  {
    var (h, l) := (x as int - 0xC0, y as int - 0x80);
    Weights(h, l);
    c := h * 64 + l;
  }

  lemma ThreeBytes(x: u8, y: u8, z: u8) returns (c: Scalar)
    requires 0xE0 <= x <= 0xEF && 0x80 <= y <= 0xBF && 0x80 <= z <= 0xBF
    requires (x == 0xE0 ==> y >= 0xA0) && (x == 0xED ==> y <= 0x9F)
    ensures EncodeScalar(c) == [x, y, z]
  {
    var (g, h, l) := (x as int - 0xE0, y as int - 0x80, z as int - 0x80);
    Weights(g, h);
    Weights(g * 64 + h, l);
    c := (g * 64 + h) * 64 + l;
    assert c / 4096 == g;
  }

  lemma FourBytes(w: u8, x: u8, y: u8, z: u8) returns (c: Scalar)
    requires 0xF0 <= w <= 0xF4 && 0x80 <= x <= 0xBF && 0x80 <= y <= 0xBF && 0x80 <= z <= 0xBF
    requires (w == 0xF0 ==> x >= 0x90) && (w == 0xF4 ==> x <= 0x8F)
    ensures EncodeScalar(c) == [w, x, y, z]
  {
    var (f, g, h, l) := (w as int - 0xF0, x as int - 0x80, y as int - 0x80, z as int - 0x80);
    Weights(f, g);
    Weights(f * 64 + g, h);
    Weights((f * 64 + g) * 64 + h, l);
    c := ((f * 64 + g) * 64 + h) * 64 + l;
    assert c / 4096 == f * 64 + g && c / 262144 == f;
  }

  lemma {:induction false} EncodedIsUtf8(cs: seq<Scalar>)
    ensures Utf8(EncodeAll(cs))
  {
    if cs != [] {
      EncodedIsUtf8(cs[1..]);
      EncodedFirst(cs[0], EncodeAll(cs[1..]));
      assert EncodeAll(cs)[|EncodeScalar(cs[0])|..] == EncodeAll(cs[1..]);
    }
  }

  lemma {:induction false} Utf8IsEncoded(b: Bytes) returns (cs: seq<Scalar>)
    requires Utf8(b)
    ensures EncodeAll(cs) == b
  {
    if b == [] {
      cs := [];
    } else {
      var c := FirstEncodes(b);
      var rest := Utf8IsEncoded(b[FirstLength(b)..]);
      cs := [c] + rest;
      assert cs[1..] == rest && b == b[..FirstLength(b)] + b[FirstLength(b)..];
    }
  }

  /** Bytes are a string exactly if they are the encoding of some scalar values. */
  lemma Utf8Exactly(b: Bytes)
    ensures Utf8(b) <==> exists cs :: EncodeAll(cs) == b
  {
    if Utf8(b) {
      var cs := Utf8IsEncoded(b);
    }
    if cs :| EncodeAll(cs) == b {
      EncodedIsUtf8(cs);
    }
  }
}

/** URL-safe base64 without padding (core/src/util/base64.rs; section 5 of RFC 4648). */
module Base64 {
  import opened Prelude

  newtype Sextet = n: int | 0 <= n < 64

  // ----- Letters ------------------------------------------------------------

  function Letter(n: Sextet): char {
    if n < 26 then ('A' as int + n as int) as char
    else if n < 52 then ('a' as int + n as int - 26) as char
    else if n < 62 then ('0' as int + n as int - 52) as char
    else if n == 62 then '-' else '_'
  }

  function Value(c: char): Option<Sextet> {
    if 'A' <= c <= 'Z' then Some((c as int - 'A' as int) as Sextet)
    else if 'a' <= c <= 'z' then Some((c as int - 'a' as int + 26) as Sextet)
    else if '0' <= c <= '9' then Some((c as int - '0' as int + 52) as Sextet)
    else if c == '-' then Some(62)
    else if c == '_' then Some(63)
    else None
  }

  function Letters(ns: seq<Sextet>): string {
    if ns == [] then "" else [Letter(ns[0])] + Letters(ns[1..])
  }

  function Values(s: string): Option<seq<Sextet>> {
    if s == "" then Some([])
    else
      var n, rest := Value(s[0]), Values(s[1..]);
      if n == None || rest == None then None else Some([n.value] + rest.value)
  }

  lemma LetterValue(n: Sextet)
    ensures Value(Letter(n)) == Some(n) && Letter(n) != '.'
  {
  }

  lemma ValueLetter(c: char)
    ensures Value(c).Some? ==> Letter(Value(c).value) == c
  {
  }

  lemma {:induction false} LettersValues(ns: seq<Sextet>)
    ensures Values(Letters(ns)) == Some(ns) && '.' !in Letters(ns)
  {
    if ns != [] {
      LetterValue(ns[0]);
      LettersValues(ns[1..]);
      assert Letters(ns)[1..] == Letters(ns[1..]);
      assert ns == [ns[0]] + ns[1..];
    }
  }

  lemma {:induction false} ValuesLetters(s: string)
    ensures Values(s).Some? ==> Letters(Values(s).value) == s
  {
    if s != "" && Values(s).Some? {
      ValueLetter(s[0]);
      ValuesLetters(s[1..]);
      assert Values(s).value[1..] == Values(s[1..]).value;
      assert s == [s[0]] + s[1..];
    }
  }

  // ----- Bits: three octets spread over four sextets ------------------------

  function S1(x: u8): Sextet { (x / 4) as Sextet }
  function S2(x: u8, y: u8): Sextet { (x % 4 * 16 + y / 16) as Sextet }
  function S3(y: u8, z: u8): Sextet { (y % 16 * 4 + z / 64) as Sextet }
  function S4(z: u8): Sextet { (z % 64) as Sextet }

  function O1(p: Sextet, q: Sextet): u8 { (p as int * 4 + q as int / 16) as u8 }
  function O2(q: Sextet, r: Sextet): u8 { (q as int % 16 * 16 + r as int / 4) as u8 }
  function O3(r: Sextet, t: Sextet): u8 { (r as int % 4 * 64 + t as int) as u8 }

  lemma Repack(x: u8, y: u8, z: u8)
    ensures O1(S1(x), S2(x, y)) == x && O2(S2(x, y), S3(y, z)) == y && O3(S3(y, z), S4(z)) == z
    ensures S2(x, 0) % 16 == 0 && S3(y, 0) % 4 == 0
  {
  }

  lemma Unpack(p: Sextet, q: Sextet, r: Sextet, t: Sextet)
    ensures S1(O1(p, q)) == p && S2(O1(p, q), O2(q, r)) == q && S3(O2(q, r), O3(r, t)) == r && S4(O3(r, t)) == t
    ensures q % 16 == 0 ==> S2(O1(p, q), 0) == q
    ensures r % 4 == 0 ==> S3(O2(q, r), 0) == r
  {
  }

  function Sextets(b: Bytes): seq<Sextet> {
    if |b| == 0 then []
    else if |b| == 1 then [S1(b[0]), S2(b[0], 0)]
    else if |b| == 2 then [S1(b[0]), S2(b[0], b[1]), S3(b[1], 0)]
    else [S1(b[0]), S2(b[0], b[1]), S3(b[1], b[2]), S4(b[2])] + Sextets(b[3..])
  }

  /** Refuses an impossible length and unused bits that are not zero. */
  function Octets(s: seq<Sextet>): Option<Bytes> {
    if |s| == 0 then Some([])
    else if |s| == 1 then None
    else if |s| == 2 then
      if s[1] % 16 == 0 then Some([O1(s[0], s[1])]) else None
    else if |s| == 3 then
      if s[2] % 4 == 0 then Some([O1(s[0], s[1]), O2(s[1], s[2])]) else None
    else
      var rest := Octets(s[4..]);
      if rest == None then None
      else Some([O1(s[0], s[1]), O2(s[1], s[2]), O3(s[2], s[3])] + rest.value)
  }

  lemma {:induction false} SextetsOctets(b: Bytes)
    ensures Octets(Sextets(b)) == Some(b)
  {
    hide O1;
    hide O2;
    hide O3;
    hide S1;
    hide S2;
    hide S3;
    hide S4;
    if |b| >= 3 {
      SextetsOctets(b[3..]);
      Repack(b[0], b[1], b[2]);
      RegroupOctets(b, S1(b[0]), S2(b[0], b[1]), S3(b[1], b[2]), S4(b[2]), Sextets(b[3..]));
    } else if |b| == 2 {
      Repack(b[0], b[1], 0);
      assert b == [b[0], b[1]];
    } else if |b| == 1 {
      Repack(b[0], 0, 0);
      assert b == [b[0]];
    }
  }

  lemma RegroupOctets(b: Bytes, p: Sextet, q: Sextet, r: Sextet, t: Sextet, rest: seq<Sextet>)
    requires |b| >= 3 && O1(p, q) == b[0] && O2(q, r) == b[1] && O3(r, t) == b[2]
    requires Octets(rest) == Some(b[3..])
    ensures Octets([p, q, r, t] + rest) == Some(b)
  {
    hide O1;
    hide O2;
    hide O3;
    assert b == [b[0], b[1], b[2]] + b[3..];
    assert ([p, q, r, t] + rest)[4..] == rest;
  }

  lemma {:induction false} OctetsSextets(s: seq<Sextet>)
    ensures Octets(s).Some? ==> Sextets(Octets(s).value) == s
  {
    hide O1;
    hide O2;
    hide O3;
    hide S1;
    hide S2;
    hide S3;
    hide S4;
    if |s| >= 4 && Octets(s).Some? {
      var rest := Octets(s[4..]).value;
      OctetsSextets(s[4..]);
      Unpack(s[0], s[1], s[2], s[3]);
      RegroupSextets(s, O1(s[0], s[1]), O2(s[1], s[2]), O3(s[2], s[3]), rest);
    } else if |s| == 3 {
      Unpack(s[0], s[1], s[2], 0);
      assert s == [s[0], s[1], s[2]];
    } else if |s| == 2 {
      Unpack(s[0], s[1], 0, 0);
      assert s == [s[0], s[1]];
    }
  }

  lemma RegroupSextets(s: seq<Sextet>, x: u8, y: u8, z: u8, rest: Bytes)
    requires |s| >= 4 && S1(x) == s[0] && S2(x, y) == s[1] && S3(y, z) == s[2] && S4(z) == s[3]
    requires Sextets(rest) == s[4..]
    ensures Sextets([x, y, z] + rest) == s
  {
    hide S1;
    hide S2;
    hide S3;
    hide S4;
    assert s == [s[0], s[1], s[2], s[3]] + s[4..];
    assert ([x, y, z] + rest)[3..] == rest;
  }

  // ----- The codec ----------------------------------------------------------

  function Encode(b: Bytes): string {
    Letters(Sextets(b))
  }

  function Decode(s: string): Option<Bytes> {
    var ns := Values(s);
    if ns == None then None else Octets(ns.value)
  }

  /** The decoder inverts the encoder and accepts nothing but what the encoder prints. */
  lemma Bijection(b: Bytes, s: string)
    ensures Decode(s) == Some(b) <==> s == Encode(b)
  {
    SextetsOctets(b);
    LettersValues(Sextets(b));
    ValuesLetters(s);
    if Values(s).Some? {
      OctetsSextets(Values(s).value);
    }
  }

  lemma NoDot(b: Bytes)
    ensures '.' !in Encode(b)
  {
    LettersValues(Sextets(b));
  }

  // ----- What the encoding looks like ----------------------------------------

  /** Table 2 of RFC 4648. */
  const ALPHABET: string := "ABCDEFGHIJKLMNOPQRSTUVWXYZ" + "abcdefghijklmnopqrstuvwxyz" + "0123456789-_"

  lemma LetterInTable(n: Sextet)
    ensures |ALPHABET| == 64 && Letter(n) == ALPHABET[n as int]
  {
    UpperInTable(n);
    LowerInTable(n);
    DigitInTable(n);
  }

  lemma UpperInTable(n: Sextet)
    ensures n < 26 ==> Letter(n) == "ABCDEFGHIJKLMNOPQRSTUVWXYZ"[n as int]
  {
    var all := "ABCDEFGHIJKLMNOPQRSTUVWXYZ";
    assert forall i :: 0 <= i < 26 ==> all[i] == ('A' as int + i) as char;
  }

  lemma LowerInTable(n: Sextet)
    ensures 26 <= n < 52 ==> Letter(n) == "abcdefghijklmnopqrstuvwxyz"[n as int - 26]
  {
    var all := "abcdefghijklmnopqrstuvwxyz";
    assert forall i :: 0 <= i < 26 ==> all[i] == ('a' as int + i) as char;
  }

  lemma DigitInTable(n: Sextet)
    ensures 52 <= n ==> Letter(n) == "0123456789-_"[n as int - 52]
  {
    var all := "0123456789";
    assert forall i :: 0 <= i < 10 ==> all[i] == ('0' as int + i) as char;
  }

  lemma {:induction false} LettersAt(ns: seq<Sextet>)
    ensures |Letters(ns)| == |ns| && forall i :: 0 <= i < |ns| ==> Letters(ns)[i] == Letter(ns[i])
  {
    if ns != [] {
      LettersAt(ns[1..]);
    }
  }

  function At<T>(s: seq<T>, i: nat, zero: T): T {
    if i < |s| then s[i] else zero
  }

  /** Three octets and four sextets are the same 24 bits, the most significant first. */
  predicate SameBits(x: u8, y: u8, z: u8, p: Sextet, q: Sextet, r: Sextet, t: Sextet) {
    x as int * 65536 + y as int * 256 + z as int == p as int * 262144 + q as int * 4096 + r as int * 64 + t as int
  }

  lemma {:induction false} SextetsAreBits(b: Bytes, i: nat)
    requires 3 * i < |b|
    ensures
      var ns := Sextets(b);
      SameBits(At(b, 3 * i, 0), At(b, 3 * i + 1, 0), At(b, 3 * i + 2, 0),
               At(ns, 4 * i, 0), At(ns, 4 * i + 1, 0), At(ns, 4 * i + 2, 0), At(ns, 4 * i + 3, 0))
  {
    if i > 0 {
      hide SameBits, S1, S2, S3, S4;
      SextetsAreBits(b[3..], i - 1);
    }
  }

  lemma {:induction false} SextetCount(b: Bytes)
    ensures |Sextets(b)| == (4 * |b| + 2) / 3
  {
    if |b| >= 3 {
      SextetCount(b[3..]);
    }
  }

  /** The i-th three octets are these groups of bits, and the i-th four letters show them. */
  ghost predicate PrintsGroup(b: Bytes, i: nat, s: string, p: Sextet, q: Sextet, r: Sextet, t: Sextet) {
    && SameBits(At(b, 3 * i, 0), At(b, 3 * i + 1, 0), At(b, 3 * i + 2, 0), p, q, r, t)
    && |ALPHABET| == 64 && 4 * i < |s|
    && s[4 * i..Min(|s|, 4 * i + 4)]
       <= [ALPHABET[p as int], ALPHABET[q as int], ALPHABET[r as int], ALPHABET[t as int]]
  }

  /**
   Every three octets, the last ones filled up with zero bits, are printed as the
   letters of their four groups of six bits, as many letters as the bits need.
   */
  lemma EncodesBits(b: Bytes, i: nat)
    requires 3 * i < |b|
    ensures |Encode(b)| == (4 * |b| + 2) / 3
    ensures exists p, q, r, t :: PrintsGroup(b, i, Encode(b), p, q, r, t)
  {
    hide Sextets, Letter, Letters, SameBits, ALPHABET;
    var ns := Sextets(b);
    SextetsAreBits(b, i);
    SextetCount(b);
    LettersAt(ns);
    var p, q, r, t := At(ns, 4 * i, 0), At(ns, 4 * i + 1, 0), At(ns, 4 * i + 2, 0), At(ns, 4 * i + 3, 0);
    LetterInTable(p);
    LetterInTable(q);
    LetterInTable(r);
    LetterInTable(t);
    assert PrintsGroup(b, i, Encode(b), p, q, r, t);
  }
}

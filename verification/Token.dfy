/** Dotted tokens: printing and verifying them (core/src/crypto/token.rs). */
module Token {
  import opened Prelude
  import opened Texts
  import Base64
  import LittleEndian

  /** The parts of cryptography the tokens use, as arbitrary functions. */
  datatype SigningKey = SigningKey(publicDer: Bytes, sign: Bytes -> Bytes)

  datatype VerifyingKey = VerifyingKey(signMethod: string, der: Bytes, verify: (Bytes, Bytes) -> bool)

  type Hash = Bytes -> Bytes

  /** The verifying half of an ed25519 signing key. */
  ghost predicate Matches(sk: SigningKey, vk: VerifyingKey) {
    && vk.signMethod == "ed25519" && vk.der == sk.publicDer
    && forall digest :: vk.verify(digest, sk.sign(digest))
  }

  datatype Outcome = Accepted | Rejected(reason: string) | Panics

  function Digest(hash: Hash, der: Bytes, salt: Bytes): Bytes {
    hash(der + salt)
  }

  function GenerateTokenNonce(hash: Hash, key: SigningKey, salt: Bytes): string {
    var digest := Digest(hash, key.publicDer, salt);
    Join(["sha256", Base64.Encode(digest), Base64.Encode(salt), "ed25519", Base64.Encode(key.sign(digest))], '.')
  }

  /** The slice of the first five parts panics on fewer; any further parts are ignored. */
  function VerifyTokenWithResult(hash: Hash, key: VerifyingKey, token: string, verifySalt: Bytes -> Outcome): Outcome {
    var parts := Split(token, '.');
    if |parts| < 5 then Panics
    else if parts[0] != "sha256" then Rejected("Invalid hash method")
    else if parts[3] != key.signMethod then Rejected("Invalid sign method")
    else
      var salt := Base64.Decode(parts[2]);
      if salt == None then Rejected("Invalid base64")
      else if verifySalt(salt.value) != Accepted then verifySalt(salt.value)
      else
        var digest := Digest(hash, key.der, salt.value);
        if Base64.Encode(digest) != parts[1] then Rejected("Hash mismatch")
        else
          var signature := Base64.Decode(parts[4]);
          if signature == None then Rejected("Invalid signature base64 encoding")
          else if key.verify(digest, signature.value) then Accepted else Rejected("Invalid signature")
  }

  function NonceCheck(nonce: Bytes): Bytes -> Outcome {
    salt => if salt != nonce then Rejected("Invalid nonce") else Accepted
  }

  function VerifyTokenNonce(hash: Hash, key: VerifyingKey, token: string, nonce: Bytes): Outcome {
    VerifyTokenWithResult(hash, key, token, NonceCheck(nonce))
  }

  const HOUR: nat := 60 * 60

  /** Seconds since the token, in 64 bits: a token from the future overflows, which is checked in some builds. */
  function TimestampCheck(now: nat, checked: bool): Bytes -> Outcome {
    salt =>
      if |salt| != 8 then Rejected("Invalid salt length")
      else
        var made := LittleEndian.Read(salt);
        if checked && made > now then Panics
        else if (now - made) % LittleEndian.Capacity(8) > HOUR then Rejected("Fingerprint timestamp expired")
        else Accepted
  }

  function GenerateTokenTimestamp(hash: Hash, key: SigningKey, now: nat): string {
    GenerateTokenNonce(hash, key, LittleEndian.Write(now, 8))
  }

  function VerifyTokenTimestamp(hash: Hash, key: VerifyingKey, token: string, now: nat, checked: bool): Outcome {
    VerifyTokenWithResult(hash, key, token, TimestampCheck(now, checked))
  }

  // ----- What a verified token is -----------------------------------------------

  /** The first five fields of a token that carries this salt and a signature the key accepts. */
  ghost predicate Carries(hash: Hash, key: VerifyingKey, token: string, salt: Bytes) {
    var parts := Split(token, '.');
    var digest := hash(key.der + salt);
    exists signature ::
      && key.verify(digest, signature)
      && |parts| >= 5
      && parts[..5] == ["sha256", Base64.Encode(digest), Base64.Encode(salt), key.signMethod, Base64.Encode(signature)]
  }

  /** For every string: it is accepted exactly if it carries a salt that the check accepts. */
  lemma AcceptsExactly(hash: Hash, key: VerifyingKey, token: string, check: Bytes -> Outcome)
    ensures VerifyTokenWithResult(hash, key, token, check) == Accepted
       <==> exists salt :: check(salt) == Accepted && Carries(hash, key, token, salt)
  {
    var parts := Split(token, '.');
    if VerifyTokenWithResult(hash, key, token, check) == Accepted {
      var salt, signature := Base64.Decode(parts[2]).value, Base64.Decode(parts[4]).value;
      Base64.Bijection(salt, parts[2]);
      Base64.Bijection(signature, parts[4]);
      assert Carries(hash, key, token, salt) by {
        assert key.verify(Digest(hash, key.der, salt), signature);
      }
    }
    if salt :| check(salt) == Accepted && Carries(hash, key, token, salt) {
      var digest := hash(key.der + salt);
      var signature :| key.verify(digest, signature) && |parts| >= 5
                    && parts[..5] == ["sha256", Base64.Encode(digest), Base64.Encode(salt), key.signMethod,
                                      Base64.Encode(signature)];
      assert forall i :: 0 <= i < 5 ==> parts[i] == parts[..5][i];
      Base64.Bijection(salt, parts[2]);
      Base64.Bijection(signature, parts[4]);
    }
  }

  /** An accepted token has the hash of key and nonce in its second field, and a signature of that hash. */
  lemma AcceptedMeaning(hash: Hash, key: VerifyingKey, token: string, nonce: Bytes)
    requires VerifyTokenNonce(hash, key, token, nonce) == Accepted
    ensures
      var parts := Split(token, '.');
      && |parts| >= 5 && parts[1] == Base64.Encode(hash(key.der + nonce)) && parts[2] == Base64.Encode(nonce)
      && exists signature :: parts[4] == Base64.Encode(signature) && key.verify(hash(key.der + nonce), signature)
  {
    var parts := Split(token, '.');
    AcceptsExactly(hash, key, token, NonceCheck(nonce));
    var salt :| NonceCheck(nonce)(salt) == Accepted && Carries(hash, key, token, salt);
    assert salt == nonce;
    assert forall i :: 0 <= i < 5 ==> parts[i] == parts[..5][i];
    var signature :| key.verify(hash(key.der + salt), signature) && parts[..5][4] == Base64.Encode(signature);
    assert parts[4] == Base64.Encode(signature);
  }

  /** With a hash without collisions, no hash and signature serve two nonces. */
  lemma NoCarryOver(hash: Hash, key: VerifyingKey, a: string, m: Bytes, b: string, n: Bytes)
    requires forall x, y :: hash(x) == hash(y) ==> x == y
    requires VerifyTokenNonce(hash, key, a, m) == Accepted && VerifyTokenNonce(hash, key, b, n) == Accepted
    ensures Split(a, '.')[1] == Split(b, '.')[1] <==> m == n
  {
    hide VerifyTokenNonce;
    AcceptedMeaning(hash, key, a, m);
    AcceptedMeaning(hash, key, b, n);
    Base64.Bijection(hash(key.der + m), Split(a, '.')[1]);
    Base64.Bijection(hash(key.der + n), Split(b, '.')[1]);
    if key.der + m == key.der + n {
      assert m == (key.der + m)[|key.der|..] == (key.der + n)[|key.der|..] == n;
    }
  }

  /** A token determines its salt. */
  lemma CarriesOneSalt(hash: Hash, key: VerifyingKey, token: string, a: Bytes, b: Bytes)
    requires Carries(hash, key, token, a) && Carries(hash, key, token, b)
    ensures a == b
  {
    var parts := Split(token, '.');
    assert parts[..5][2] == Base64.Encode(a) == Base64.Encode(b);
    Base64.Bijection(a, parts[..5][2]);
    Base64.Bijection(b, parts[..5][2]);
  }

  lemma GeneratedCarries(hash: Hash, sk: SigningKey, vk: VerifyingKey, salt: Bytes)
    requires Matches(sk, vk)
    ensures Carries(hash, vk, GenerateTokenNonce(hash, sk, salt), salt)
    ensures |Split(GenerateTokenNonce(hash, sk, salt), '.')| == 5
  {
    var digest := Digest(hash, sk.publicDer, salt);
    var signature := sk.sign(digest);
    var parts := ["sha256", Base64.Encode(digest), Base64.Encode(salt), "ed25519", Base64.Encode(signature)];
    Base64.NoDot(digest);
    Base64.NoDot(salt);
    Base64.NoDot(signature);
    SplitOfJoin(parts, '.');
    assert vk.verify(digest, signature);
    assert parts[..5] == parts;
  }

  /** On a generated token, whatever the salt check says is the outcome. */
  lemma GeneratedOutcome(hash: Hash, sk: SigningKey, vk: VerifyingKey, salt: Bytes, check: Bytes -> Outcome)
    requires Matches(sk, vk)
    ensures VerifyTokenWithResult(hash, vk, GenerateTokenNonce(hash, sk, salt), check) == check(salt)
  {
    var token := GenerateTokenNonce(hash, sk, salt);
    var parts := Split(token, '.');
    GeneratedCarries(hash, sk, vk, salt);
    assert forall i :: 0 <= i < 5 ==> parts[i] == parts[..5][i];
    Base64.Bijection(salt, parts[2]);
    AcceptsExactly(hash, vk, token, check);
  }

  /** For all keys and byte strings: the token made for n is accepted against m exactly if they are equal. */
  lemma NonceRoundTrip(hash: Hash, sk: SigningKey, vk: VerifyingKey, n: Bytes, m: Bytes)
    requires Matches(sk, vk)
    ensures VerifyTokenNonce(hash, vk, GenerateTokenNonce(hash, sk, n), m) == Accepted <==> n == m
  {
    GeneratedOutcome(hash, sk, vk, n, NonceCheck(m));
  }

  /**
   A timestamp token made at t and checked at now, both 64-bit: accepted exactly
   within the hour. A token from the future stops a build with overflow checks
   and is refused by others, except at the very end of time.
   */
  lemma TimestampRoundTrip(hash: Hash, sk: SigningKey, vk: VerifyingKey, t: nat, now: nat, checked: bool)
    requires Matches(sk, vk) && t < LittleEndian.Capacity(8) && now < LittleEndian.Capacity(8)
    ensures
      var outcome := VerifyTokenTimestamp(hash, vk, GenerateTokenTimestamp(hash, sk, t), now, checked);
      if t <= now then outcome == Accepted <==> now - t <= 3600
      else if checked then outcome == Panics
      else outcome == Accepted <==> LittleEndian.Capacity(8) - (t - now) <= HOUR
  {
    hide VerifyTokenWithResult, GenerateTokenNonce, Matches;
    var salt := LittleEndian.Write(t, 8);
    GeneratedOutcome(hash, sk, vk, salt, TimestampCheck(now, checked));
    LittleEndian.ReadWrite(t, 8);
    Wrapped(now - t);
  }

  lemma Wrapped(d: int)
    requires 0 < d + LittleEndian.Capacity(8) && d < LittleEndian.Capacity(8)
    ensures d % LittleEndian.Capacity(8) == if d >= 0 then d else d + LittleEndian.Capacity(8)
  {
    var c := LittleEndian.Capacity(8);
    assert c == 0x1_0000_0000_0000_0000;
  }

  /** The third of five or more fields is this salt, and the two names are the expected ones. */
  ghost predicate ShowsSalt(key: VerifyingKey, token: string, salt: Bytes) {
    var parts := Split(token, '.');
    |parts| >= 5 && parts[0] == "sha256" && parts[2] == Base64.Encode(salt) && parts[3] == key.signMethod
  }

  /** For every string: it panics exactly on fewer than four dots, or if the check panics on the salt shown. */
  lemma CheckPanicsExactly(hash: Hash, key: VerifyingKey, token: string, check: Bytes -> Outcome)
    ensures VerifyTokenWithResult(hash, key, token, check) == Panics
       <==> (multiset(token)['.'] < 4 || exists salt :: ShowsSalt(key, token, salt) && check(salt) == Panics)
  {
    var parts := Split(token, '.');
    SplitCount(token, '.');
    if salt :| ShowsSalt(key, token, salt) && check(salt) == Panics {
      Base64.Bijection(salt, parts[2]);
    }
    if |parts| >= 5 && VerifyTokenWithResult(hash, key, token, check) == Panics {
      var salt := Base64.Decode(parts[2]).value;
      Base64.Bijection(salt, parts[2]);
      assert ShowsSalt(key, token, salt);
    }
  }

  /** Verification against a nonce panics on exactly the strings with fewer than four dots. */
  lemma PanicsExactly(hash: Hash, key: VerifyingKey, token: string, nonce: Bytes)
    ensures VerifyTokenNonce(hash, key, token, nonce) == Panics <==> multiset(token)['.'] < 4
  {
    CheckPanicsExactly(hash, key, token, NonceCheck(nonce));
  }

  lemma TimestampCheckPanics(now: nat, checked: bool, salt: Bytes)
    ensures TimestampCheck(now, checked)(salt) == Panics
       <==> (checked && exists made :: now < made < LittleEndian.Capacity(8) && salt == LittleEndian.Write(made, 8))
  {
    if |salt| == 8 {
      LittleEndian.ReadBound(salt);
      LittleEndian.WriteRead(salt);
    }
    if made :| now < made < LittleEndian.Capacity(8) && salt == LittleEndian.Write(made, 8) {
      LittleEndian.ReadWrite(made, 8);
    }
  }

  /**
   Verification of a timestamp panics on exactly the strings with fewer than four
   dots and, with overflow checks, on those with the right names around a time that
   has not come yet; hash and signature are not looked at before.
   */
  lemma TimestampPanicsExactly(hash: Hash, key: VerifyingKey, token: string, now: nat, checked: bool)
    ensures VerifyTokenTimestamp(hash, key, token, now, checked) == Panics
       <==> (multiset(token)['.'] < 4
             || (checked && exists made ::
                   now < made < LittleEndian.Capacity(8) && ShowsSalt(key, token, LittleEndian.Write(made, 8))))
  {
    CheckPanicsExactly(hash, key, token, TimestampCheck(now, checked));
    FutureSalts(key, token, now, checked);
    hide VerifyTokenWithResult, ShowsSalt, TimestampCheck;
  }

  lemma FutureSalts(key: VerifyingKey, token: string, now: nat, checked: bool)
    ensures (exists salt :: ShowsSalt(key, token, salt) && TimestampCheck(now, checked)(salt) == Panics)
       <==> (checked && exists made ::
               now < made < LittleEndian.Capacity(8) && ShowsSalt(key, token, LittleEndian.Write(made, 8)))
  {
    hide ShowsSalt, TimestampCheck;
    if salt :| ShowsSalt(key, token, salt) && TimestampCheck(now, checked)(salt) == Panics {
      TimestampCheckPanics(now, checked, salt);
      var made :| now < made < LittleEndian.Capacity(8) && salt == LittleEndian.Write(made, 8);
      assert ShowsSalt(key, token, LittleEndian.Write(made, 8));
    }
    if made :| checked && now < made < LittleEndian.Capacity(8) && ShowsSalt(key, token, LittleEndian.Write(made, 8)) {
      TimestampCheckPanics(now, checked, LittleEndian.Write(made, 8));
      assert TimestampCheck(now, checked)(LittleEndian.Write(made, 8)) == Panics;
    }
  }
}

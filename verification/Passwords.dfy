/**
 Stored password hashes: how they are written and how they are checked.

 The key derivation is PBKDF2 with HMAC-SHA-256, section 5.2 of RFC 8018; here it is any
 function of the password, the salt and the number of iterations.
 */
module Passwords {
  import opened Wrappers
  import opened Decimal
  import opened RequestBodies
  import opened Base64

  type Derivation = (Bytes, Bytes, nat) -> Bytes

  // Reads an integer, as Python's `int` does: it may accept more than the shortest form.
  type Reader = string -> Option<int>

  const HASH_NAME := "pbkdf2_sha256"
  const HASH_VERSION := "v1"
  const MIN_ITERATIONS: nat := 1000
  const DEFAULT_ITERATIONS: nat := 600000
  const MAX_PASSWORD_BYTES: nat := 1024

  datatype PasswordError = TooLong

  // The iterations a configured text asks for; never fewer than the minimum.
  function Iterations(read: Reader, raw: string): (n: nat)
    ensures n >= 1000
    ensures raw == "" || read(raw).None? ==> n == 600000
    ensures raw != "" && read(raw).Some? ==> n == read(raw).value || (n == 1000 && read(raw).value < n)
  {
    if raw == "" || read(raw).None? then DEFAULT_ITERATIONS
    else if read(raw).value < MIN_ITERATIONS then MIN_ITERATIONS
    else read(raw).value
  }

  datatype Stored = Stored(name: string, version: string, iterations: string, salt: string, digest: string)

  function Joined(h: Stored): string {
    h.name + ['$'] + (h.version + ['$'] + (h.iterations + ['$'] + (h.salt + ['$'] + h.digest)))
  }

  // Splits at the first four dollar signs.
  function Parts(s: string): Option<Stored> {
    var a := SplitAt(s, '$');
    if a.None? then None
    else
      var b := SplitAt(a.value.1, '$');
      if b.None? then None
      else
        var c := SplitAt(b.value.1, '$');
        if c.None? then None
        else
          var d := SplitAt(c.value.1, '$');
          if d.None? then None else Some(Stored(a.value.0, b.value.0, c.value.0, d.value.0, d.value.1))
  }

  // Splitting undoes joining; the last field may even hold the separator.
  lemma PartsJoined(h: Stored)
    requires '$' !in h.name && '$' !in h.version && '$' !in h.iterations && '$' !in h.salt
    ensures Parts(Joined(h)) == Some(h)
  {
    var fourth := h.salt + ['$'] + h.digest;
    var third := h.iterations + ['$'] + fourth;
    var second := h.version + ['$'] + third;
    SplitAtJoin(h.name, '$', second);
    SplitAtJoin(h.version, '$', third);
    SplitAtJoin(h.iterations, '$', fourth);
    SplitAtJoin(h.salt, '$', h.digest);
    hide SplitAt;
  }

  function HashPassword(derive: Derivation, password: Bytes, salt: Bytes, iterations: nat): Result<string, PasswordError> {
    if |password| > MAX_PASSWORD_BYTES then Err(TooLong)
    else Ok(Joined(Stored(HASH_NAME, HASH_VERSION, Print(iterations), Encode(salt), Encode(derive(password, salt, iterations)))))
  }

  predicate VerifyPassword(derive: Derivation, read: Reader, password: Bytes, stored: string) {
    if |password| > MAX_PASSWORD_BYTES then false
    else
      var h := Parts(stored);
      if h.None? || h.value.name != HASH_NAME || h.value.version != HASH_VERSION then false
      else
        var iterations := read(h.value.iterations);
        if iterations.None? || iterations.value < MIN_ITERATIONS then false
        else
          var salt, expected := Decode(h.value.salt), Decode(h.value.digest);
          salt.Some? && expected.Some? && derive(password, salt.value, iterations.value) == expected.value
  }

  lemma StoredParts(iterations: nat, salt: Bytes, digest: Bytes)
    ensures var h := Stored(HASH_NAME, HASH_VERSION, Print(iterations), Encode(salt), Encode(digest));
            Parts(Joined(h)) == Some(h)
  {
    assert '$' !in Print(iterations);
    assert '$' !in HASH_NAME && '$' !in HASH_VERSION;
    EncodedShape(salt);
    hide Print, Encode;
    PartsJoined(Stored(HASH_NAME, HASH_VERSION, Print(iterations), Encode(salt), Encode(digest)));
  }

  // A stored hash is matched by exactly the passwords that are short enough and derive to
  // the same key.
  lemma VerifiesExactly(derive: Derivation, read: Reader, password: Bytes, attempt: Bytes, salt: Bytes, iterations: nat)
    requires |password| <= MAX_PASSWORD_BYTES && iterations >= MIN_ITERATIONS
    requires read(Print(iterations)) == Some(iterations)
    ensures var stored := HashPassword(derive, password, salt, iterations);
            stored.Ok? && (VerifyPassword(derive, read, attempt, stored.value) <==>
                             |attempt| <= MAX_PASSWORD_BYTES && derive(attempt, salt, iterations) == derive(password, salt, iterations))
  {
    StoredParts(iterations, salt, derive(password, salt, iterations));
    DecodeEncode(salt);
    DecodeEncode(derive(password, salt, iterations));
    hide Parts, Joined, Encode, Decode, Print;
  }

  // The shortest decimal form is read as the number it was printed from.
  function ReadDigits(s: string): Option<int> {
    if s != [] && AllDigits(s) then Some(Parse(s)) else None
  }

  // So the right password is accepted whatever its salt and its iterations.
  lemma RightPasswordVerifies(derive: Derivation, password: Bytes, salt: Bytes, raw: string)
    requires |password| <= MAX_PASSWORD_BYTES
    ensures var stored := HashPassword(derive, password, salt, Iterations(ReadDigits, raw));
            stored.Ok? && VerifyPassword(derive, ReadDigits, password, stored.value)
  {
    var n := Iterations(ReadDigits, raw);
    ParsePrint(n);
    VerifiesExactly(derive, ReadDigits, password, password, salt, n);
    hide HashPassword, VerifyPassword;
  }

  // What is too long is neither hashed nor accepted.
  lemma TooLongIsRefused(derive: Derivation, read: Reader, password: Bytes, salt: Bytes, iterations: nat, stored: string)
    requires |password| > MAX_PASSWORD_BYTES
    ensures HashPassword(derive, password, salt, iterations) == Err(TooLong) && !VerifyPassword(derive, read, password, stored)
  {
  }

  // ----- every stored text, well-formed or not

  lemma PartsExactly(s: string, h: Stored)
    ensures Parts(s) == Some(h) <==> s == Joined(h) && '$' !in h.name && '$' !in h.version && '$' !in h.iterations && '$' !in h.salt
  {
    hide SplitAt;
    if '$' !in h.name && '$' !in h.version && '$' !in h.iterations && '$' !in h.salt { PartsJoined(h); }
  }

  // The text is a hash of the supported kind with these three fields.
  predicate IsHash(stored: string, iterations: string, salt: string, digest: string) {
    && '$' !in iterations && '$' !in salt
    && stored == "pbkdf2_sha256" + "$" + ("v1" + "$" + (iterations + "$" + (salt + "$" + digest)))
  }

  lemma HashParts(stored: string, iterations: string, salt: string, digest: string)
    ensures IsHash(stored, iterations, salt, digest) <==> Parts(stored) == Some(Stored("pbkdf2_sha256", "v1", iterations, salt, digest))
  {
    var h := Stored("pbkdf2_sha256", "v1", iterations, salt, digest);
    PartsExactly(stored, h);
    assert '$' !in "pbkdf2_sha256" && '$' !in "v1";
    hide Parts;
  }

  // The password fits the fields: there are enough iterations, both fields are encoded bytes, and the
  // derived key is the digest.
  predicate Fits(derive: Derivation, read: Reader, password: Bytes, iterations: string, salt: string, digest: string) {
    && read(iterations).Some? && read(iterations).value >= 1000
    && Decode(salt).Some? && Decode(digest) == Some(derive(password, Decode(salt).value, read(iterations).value))
  }

  // A stored text is matched exactly by a password of at most 1024 bytes that fits its fields, if it
  // is a hash of the supported kind; anything else is matched by nothing.
  lemma MatchesExactly(derive: Derivation, read: Reader, password: Bytes, stored: string)
    ensures VerifyPassword(derive, read, password, stored) <==>
      |password| <= 1024 && exists iterations, salt, digest ::
        IsHash(stored, iterations, salt, digest) && Fits(derive, read, password, iterations, salt, digest)
  {
    hide Decode, Parts, IsHash;
    var h := Parts(stored);
    if h.Some? { HashParts(stored, h.value.iterations, h.value.salt, h.value.digest); }
    if iterations, salt, digest :| IsHash(stored, iterations, salt, digest) && Fits(derive, read, password, iterations, salt, digest) {
      HashParts(stored, iterations, salt, digest);
    }
  }

  // What is stored for a password of at most 1024 bytes, and only for one.
  lemma HashExactly(derive: Derivation, password: Bytes, salt: Bytes, iterations: nat)
    ensures var r := HashPassword(derive, password, salt, iterations);
            && (r.Ok? <==> |password| <= 1024)
            && (r.Ok? ==> IsHash(r.value, Print(iterations), Encode(salt), Encode(derive(password, salt, iterations))))
  {
    StoredParts(iterations, salt, derive(password, salt, iterations));
    if |password| <= MAX_PASSWORD_BYTES {
      HashParts(HashPassword(derive, password, salt, iterations).value, Print(iterations), Encode(salt), Encode(derive(password, salt, iterations)));
    }
    hide Parts, Encode, Print, IsHash;
  }
}

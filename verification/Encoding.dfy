/** Byte layouts of infinitemarkets/crypto.py: length-prefixed fields, envelopes and public tokens. */
module Encoding {
  import opened Wrappers

  type Byte = b: int | 0 <= b < 256
  type Bytes = seq<Byte>

  const U32_LIMIT := 0x1_0000_0000

  // ---- Length-prefixed fields ----

  /** struct.pack(">I", n). */
  function U32(n: nat): (r: Bytes)
    requires n < U32_LIMIT
    ensures |r| == 4
  {
    [n / 0x100_0000, n / 0x1_0000 % 256, n / 256 % 256, n % 256]
  }

  function ReadU32(b: Bytes): (n: nat)
    requires |b| == 4
    ensures n < U32_LIMIT
  {
    b[0] as int * 0x100_0000 + b[1] as int * 0x1_0000 + b[2] as int * 256 + b[3] as int
  }

  lemma ReadOfU32(n: nat)
    requires n < U32_LIMIT
    ensures ReadU32(U32(n)) == n
  {
    assert n == n / 256 * 256 + n % 256;
    assert n / 256 == n / 0x1_0000 * 256 + n / 256 % 256;
    assert n / 0x1_0000 == n / 0x100_0000 * 256 + n / 0x1_0000 % 256;
  }

  lemma U32OfRead(b: Bytes)
    requires |b| == 4
    ensures U32(ReadU32(b)) == b
  {
    var m := ReadU32(b);
    assert m / 256 == b[0] as int * 0x1_0000 + b[1] as int * 256 + b[2] as int;
    assert m / 0x1_0000 == b[0] as int * 256 + b[1] as int;
    assert m / 0x100_0000 == b[0];
  }

  /** Most significant byte first. */
  lemma U32IsBigEndian(n: nat)
    requires n < 4_294_967_296
    ensures
      var b := U32(n);
      b[0] as int * 16_777_216 + b[1] as int * 65_536 + b[2] as int * 256 + b[3] as int == n
  {
    ReadOfU32(n);
  }

  predicate Packable(fields: seq<Bytes>) {
    forall i :: 0 <= i < |fields| ==> |fields[i]| < U32_LIMIT
  }

  function Prefixed(fields: seq<Bytes>): Bytes
    requires Packable(fields)
  {
    if fields == [] then [] else U32(|fields[0]|) + fields[0] + Prefixed(fields[1..])
  }

  /** Read the fields back, None when the bytes are no such encoding. */
  function Fields(b: Bytes): Option<seq<Bytes>>
    decreases |b|
  {
    if b == [] then Some([])
    else if |b| < 4 then None
    else
      var n := ReadU32(b[..4]);
      if |b| < 4 + n then None
      else
        match Fields(b[4 + n..])
        case None => None
        case Some(rest) => Some([b[4..4 + n]] + rest)
  }

  lemma {:induction false} FieldsOfPrefixed(fields: seq<Bytes>)
    requires Packable(fields)
    ensures Fields(Prefixed(fields)) == Some(fields)
  {
    if fields != [] {
      var b := Prefixed(fields);
      FieldsOfPrefixed(fields[1..]);
      ReadOfU32(|fields[0]|);
      assert b[..4] == U32(|fields[0]|);
      assert b[4..4 + |fields[0]|] == fields[0];
      assert b[4 + |fields[0]|..] == Prefixed(fields[1..]);
      assert [fields[0]] + fields[1..] == fields;
    }
  }

  lemma {:induction false} PrefixedOfFields(b: Bytes)
    requires Fields(b).Some?
    ensures Packable(Fields(b).value) && Prefixed(Fields(b).value) == b
    decreases |b|
  {
    if b != [] {
      var n := ReadU32(b[..4]);
      FieldsStep(b);
      PrefixedOfFields(b[4 + n..]);
      U32OfRead(b[..4]);
      PrefixedCons(b[4..4 + n], Fields(b[4 + n..]).value);
      assert b == b[..4] + b[4..4 + n] + b[4 + n..];
    }
  }

  lemma FieldsStep(b: Bytes)
    requires b != [] && Fields(b).Some?
    ensures
      |b| >= 4 && var n := ReadU32(b[..4]);
      |b| >= 4 + n && Fields(b[4 + n..]).Some? && Fields(b).value == [b[4..4 + n]] + Fields(b[4 + n..]).value
  {
  }

  lemma PrefixedCons(f: Bytes, rest: seq<Bytes>)
    requires |f| < U32_LIMIT && Packable(rest)
    ensures Packable([f] + rest) && Prefixed([f] + rest) == U32(|f|) + f + Prefixed(rest)
  {
    assert ([f] + rest)[1..] == rest;
  }

  /** No two lists of fields share an encoding. */
  lemma PrefixedIsInjective(a: seq<Bytes>, b: seq<Bytes>)
    requires Packable(a) && Packable(b) && Prefixed(a) == Prefixed(b)
    ensures a == b
  {
    FieldsOfPrefixed(a);
    FieldsOfPrefixed(b);
  }

  lemma {:induction false} PrefixedSnoc(fields: seq<Bytes>, f: Bytes)
    requires Packable(fields) && |f| < U32_LIMIT
    ensures Prefixed(fields + [f]) == Prefixed(fields) + U32(|f|) + f
  {
    if fields == [] {
      assert [f][1..] == [];
    } else {
      PrefixedSnoc(fields[1..], f);
      assert (fields + [f])[1..] == fields[1..] + [f];
    }
  }

  /** `_len_prefixed`: fails exactly on a field of 2^32 bytes or more, else its bytes determine the fields. */
  method LenPrefixed(fields: seq<Bytes>) returns (r: Result<Bytes, ()>)
    ensures r.Ok? <==> Packable(fields)
    ensures r.Ok? ==> r.value == Prefixed(fields) && Fields(r.value) == Some(fields)
  {
    var out: Bytes := [];
    for k := 0 to |fields|
      invariant Packable(fields[..k]) && out == Prefixed(fields[..k])
    {
      if |fields[k]| >= U32_LIMIT {
        return Err(());
      }
      assert fields[..k + 1] == fields[..k] + [fields[k]];
      PrefixedSnoc(fields[..k], fields[k]);
      out := out + U32(|fields[k]|);
      out := out + fields[k];
    }
    assert fields[..|fields|] == fields;
    FieldsOfPrefixed(fields);
    r := Ok(out);
  }

  // ---- Associated data and index messages ----

  /** "infinitemarkets". */
  const AAD_PREFIX: Bytes := [105, 110, 102, 105, 110, 105, 116, 101, 109, 97, 114, 107, 101, 116, 115]

  /** Where a ciphertext belongs, each part in UTF-8. */
  datatype Place = Place(recordId: Bytes, table: Bytes, column: Bytes, version: Bytes)

  predicate Short(p: Place) {
    |p.recordId| < U32_LIMIT && |p.table| < U32_LIMIT && |p.column| < U32_LIMIT && |p.version| < U32_LIMIT
  }

  function AadFor(p: Place): Bytes
    requires Short(p)
  {
    Prefixed([AAD_PREFIX, p.recordId, p.table, p.column, p.version])
  }

  function IndexMessage(purpose: Bytes, merchant: Bytes, value: Bytes): Bytes
    requires |purpose| < U32_LIMIT && |merchant| < U32_LIMIT && |value| < U32_LIMIT
  {
    Prefixed([purpose, merchant, value])
  }

  lemma PrefixIsProgramName(i: nat)
    ensures |AAD_PREFIX| == |"infinitemarkets"|
    ensures i < |AAD_PREFIX| ==> AAD_PREFIX[i] == "infinitemarkets"[i] as int
  {
    if i >= 8 {
      assert i in {8, 9, 10, 11, 12, 13, 14} || i > 14;
    }
  }

  /** The associated data names the program and the place, part by part and in this order; an index message its three parts. */
  lemma MessagesSpellTheirParts(p: Place, purpose: Bytes, merchant: Bytes, value: Bytes)
    requires Short(p) && |purpose| < U32_LIMIT && |merchant| < U32_LIMIT && |value| < U32_LIMIT
    ensures Fields(AadFor(p)) == Some([AAD_PREFIX, p.recordId, p.table, p.column, p.version])
    ensures Fields(IndexMessage(purpose, merchant, value)) == Some([purpose, merchant, value])
  {
    FieldsOfPrefixed([AAD_PREFIX, p.recordId, p.table, p.column, p.version]);
    FieldsOfPrefixed([purpose, merchant, value]);
  }

  /** A ciphertext moved to any other record, table, column or version is checked against different associated data. */
  lemma AadsNeverCollide(p: Place, q: Place)
    requires Short(p) && Short(q)
    ensures AadFor(p) == AadFor(q) <==> p == q
  {
    if AadFor(p) == AadFor(q) {
      var a := [AAD_PREFIX, p.recordId, p.table, p.column, p.version];
      var b := [AAD_PREFIX, q.recordId, q.table, q.column, q.version];
      PrefixedIsInjective(a, b);
      assert a[1] == b[1] && a[2] == b[2] && a[3] == b[3] && a[4] == b[4];
    }
  }

  /** Index messages differ in purpose, merchant or value, and none is the associated data of an envelope. */
  lemma IndexMessagesNeverCollide(a: seq<Bytes>, b: seq<Bytes>, p: Place)
    requires |a| == 3 && |b| == 3 && Packable(a) && Packable(b) && Short(p)
    ensures IndexMessage(a[0], a[1], a[2]) == IndexMessage(b[0], b[1], b[2]) <==> a == b
    ensures IndexMessage(a[0], a[1], a[2]) != AadFor(p)
  {
    assert [a[0], a[1], a[2]] == a && [b[0], b[1], b[2]] == b;
    if IndexMessage(a[0], a[1], a[2]) == IndexMessage(b[0], b[1], b[2]) {
      PrefixedIsInjective(a, b);
    }
    FieldsOfPrefixed(a);
    FieldsOfPrefixed([AAD_PREFIX, p.recordId, p.table, p.column, p.version]);
  }

  // ---- Envelopes ----

  const VERSION_LEN := 4
  const NONCE_LEN := 12
  const TAG_LEN := 16

  /** AES-256-GCM as two functions of key, nonce, associated data and text; `seal` appends the tag. */
  datatype Aead = Aead(
    seal: (Bytes, Bytes, Bytes, Bytes) -> Bytes,
    unseal: (Bytes, Bytes, Bytes, Bytes) -> Option<Bytes>)

  ghost predicate Correct(aead: Aead) {
    forall key, nonce, aad, text ::
      && |aead.seal(key, nonce, aad, text)| == |text| + TAG_LEN
      && aead.unseal(key, nonce, aad, aead.seal(key, nonce, aad, text)) == Some(text)
  }

  datatype CryptoError = VersionTooWide | TooShort | VersionMismatch | AuthenticationFailed

  function Zeros(n: nat): (r: Bytes)
    ensures |r| == n && forall i :: 0 <= i < n ==> r[i] == 0
  {
    seq(n, _ => 0)
  }

  /** ljust(VERSION_LEN, NUL). */
  function Padded(version: Bytes): Bytes {
    if |version| < VERSION_LEN then version + Zeros(VERSION_LEN - |version|) else version
  }

  function Encrypt(aead: Aead, text: Bytes, key: Bytes, p: Place, nonce: Bytes): Result<Bytes, CryptoError>
    requires Short(p)
  {
    if |p.version| > VERSION_LEN then Err(VersionTooWide)
    else Ok(Padded(p.version) + nonce + aead.seal(key, nonce, AadFor(p), text))
  }

  function Decrypt(aead: Aead, envelope: Bytes, key: Bytes, p: Place): Result<Bytes, CryptoError>
    requires Short(p)
  {
    if |envelope| < VERSION_LEN + NONCE_LEN + TAG_LEN then Err(TooShort)
    else if envelope[..VERSION_LEN] != Padded(p.version) then Err(VersionMismatch)
    else
      match aead.unseal(key, envelope[VERSION_LEN..VERSION_LEN + NONCE_LEN], AadFor(p), envelope[VERSION_LEN + NONCE_LEN..])
      case None => Err(AuthenticationFailed)
      case Some(text) => Ok(text)
  }

  /** The first four bytes are this version, filled up with zeros. */
  predicate CarriesVersion(envelope: Bytes, version: Bytes)
    requires |envelope| >= 4
  {
    |version| <= 4 && forall i :: 0 <= i < 4 ==> envelope[i] == if i < |version| then version[i] else 0
  }

  /** Four bytes of version, twelve of nonce, then what the cipher made of the text. */
  lemma EnvelopeLayout(aead: Aead, text: Bytes, key: Bytes, p: Place, nonce: Bytes)
    requires Short(p) && |nonce| == 12
    ensures
      var r := Encrypt(aead, text, key, p, nonce);
      && (r.Err? <==> |p.version| > 4) && (r.Err? ==> r.error == VersionTooWide)
      && (r.Ok? ==>
            && |r.value| >= 16 && CarriesVersion(r.value, p.version)
            && r.value[4..16] == nonce && r.value[16..] == aead.seal(key, nonce, AadFor(p), text))
  {
  }

  /** An envelope opens exactly when it is long enough, carries the version and the cipher accepts it at this place. */
  lemma DecryptExactly(aead: Aead, envelope: Bytes, key: Bytes, p: Place)
    requires Short(p)
    ensures
      var r := Decrypt(aead, envelope, key, p);
      && (r == Err(TooShort) <==> |envelope| < 32)
      && (|envelope| >= 32 ==>
            var unsealed := aead.unseal(key, envelope[4..16], AadFor(p), envelope[16..]);
            && (r == Err(VersionMismatch) <==> !CarriesVersion(envelope, p.version))
            && (r == Err(AuthenticationFailed) <==> CarriesVersion(envelope, p.version) && unsealed == None)
            && forall text :: r == Ok(text) <==> CarriesVersion(envelope, p.version) && unsealed == Some(text))
  {
    if |envelope| >= 4 {
      PaddedIsCarried(envelope, p.version);
    }
  }

  lemma PaddedIsCarried(envelope: Bytes, version: Bytes)
    requires |envelope| >= 4
    ensures envelope[..4] == Padded(version) <==> CarriesVersion(envelope, version)
  {
    if CarriesVersion(envelope, version) {
      assert envelope[..4] == Padded(version);
    } else if |version| <= 4 {
      var i :| 0 <= i < 4 && envelope[i] != if i < |version| then version[i] else 0;
      assert Padded(version)[i] != envelope[..4][i];
    }
  }

  /** Decryption undoes encryption; under any other padded version it refuses before touching the cipher. */
  lemma EnvelopeRoundTrip(aead: Aead, text: Bytes, key: Bytes, p: Place, nonce: Bytes, q: Place)
    requires Correct(aead) && Short(p) && Short(q) && |nonce| == NONCE_LEN && |p.version| <= VERSION_LEN
    ensures
      var r := Encrypt(aead, text, key, p, nonce);
      && r.Ok? && |r.value| == VERSION_LEN + NONCE_LEN + |text| + TAG_LEN
      && Decrypt(aead, r.value, key, p) == Ok(text)
      && (Decrypt(aead, r.value, key, q) == Err(VersionMismatch) <==> Padded(q.version) != Padded(p.version))
  {
  }

  /** rstrip(NUL). */
  function Stripped(b: Bytes): Bytes {
    if b != [] && b[|b| - 1] == 0 then Stripped(b[..|b| - 1]) else b
  }

  function EnvelopeVersion(envelope: Bytes): Bytes {
    Stripped(if |envelope| < VERSION_LEN then envelope else envelope[..VERSION_LEN])
  }

  lemma {:induction false} StrippedPadding(b: Bytes, n: nat)
    ensures Stripped(b + Zeros(n)) == Stripped(b)
  {
    if n == 0 {
      assert b + Zeros(0) == b;
    } else {
      assert (b + Zeros(n))[..|b| + n - 1] == b + Zeros(n - 1);
      StrippedPadding(b, n - 1);
    }
  }

  /** The version field gives the key version back exactly when that version does not end in a NUL. */
  lemma VersionIsRecoveredExactly(aead: Aead, text: Bytes, key: Bytes, p: Place, nonce: Bytes)
    requires Short(p) && |p.version| <= VERSION_LEN
    ensures
      EnvelopeVersion(Encrypt(aead, text, key, p, nonce).value) == p.version <==>
      p.version == [] || p.version[|p.version| - 1] != 0
  {
    var envelope := Encrypt(aead, text, key, p, nonce).value;
    assert envelope[..VERSION_LEN] == Padded(p.version);
    StrippedPadding(p.version, VERSION_LEN - |p.version|);
    if p.version != [] && p.version[|p.version| - 1] == 0 {
      StrippedIsShorter(p.version[..|p.version| - 1]);
    }
  }

  lemma {:induction false} StrippedIsShorter(b: Bytes)
    ensures |Stripped(b)| <= |b|
  {
    if b != [] && b[|b| - 1] == 0 {
      StrippedIsShorter(b[..|b| - 1]);
    }
  }
}

/** Unpadded base64url (sections 3.5 and 5 of RFC 4648) and the public token check. */
module PublicToken {
  import opened Wrappers
  import opened Encoding

  type Sextet = v: int | 0 <= v < 64

  const TOKEN_BYTES := 32

  // ---- Alphabet ----

  function Letter(v: Sextet): char {
    if v < 26 then ('A' as int + v) as char
    else if v < 52 then ('a' as int + v - 26) as char
    else if v < 62 then ('0' as int + v - 52) as char
    else if v == 62 then '-'
    else '_'
  }

  /** Table 2 of RFC 4648: A to Z, a to z, 0 to 9, minus and underscore, and each letter gives its value back. */
  lemma LetterOfTable(v: Sextet)
    ensures Letter(0) == 'A' && Letter(25) == 'Z' && Letter(26) == 'a' && Letter(51) == 'z'
    ensures Letter(52) == '0' && Letter(61) == '9' && Letter(62) == '-' && Letter(63) == '_'
    ensures v < 61 && v != 25 && v != 51 ==> Letter(v + 1) as int == Letter(v) as int + 1
    ensures InAlphabet(Letter(v)) && Value(Letter(v)) == v
  {
  }

  predicate InAlphabet(c: char) {
    'A' <= c <= 'Z' || 'a' <= c <= 'z' || '0' <= c <= '9' || c == '-' || c == '_'
  }

  function Value(c: char): Sextet
    requires InAlphabet(c)
  {
    if 'A' <= c <= 'Z' then c as int - 'A' as int
    else if 'a' <= c <= 'z' then c as int - 'a' as int + 26
    else if '0' <= c <= '9' then c as int - '0' as int + 52
    else if c == '-' then 62
    else 63
  }

  function Letters(vs: seq<Sextet>): string {
    seq(|vs|, i requires 0 <= i < |vs| => Letter(vs[i]))
  }

  predicate AllLetters(s: string) {
    forall i :: 0 <= i < |s| ==> InAlphabet(s[i])
  }

  function Values(s: string): seq<Sextet>
    requires AllLetters(s)
  {
    seq(|s|, i requires 0 <= i < |s| => Value(s[i]))
  }

  // ---- Groups ----

  function Sextet0(x: Byte): Sextet { x / 4 }
  function Sextet1(x: Byte, y: Byte): Sextet { x % 4 * 16 + y / 16 }
  function Sextet2(y: Byte, z: Byte): Sextet { y % 16 * 4 + z / 64 }
  function Sextet3(z: Byte): Sextet { z % 64 }

  function Byte0(p: Sextet, q: Sextet): Byte { p as int * 4 + q as int / 16 }
  function Byte1(q: Sextet, r: Sextet): Byte { q as int % 16 * 16 + r as int / 4 }
  function Byte2(r: Sextet, s: Sextet): Byte { r as int % 4 * 64 + s as int }

  function Encode(b: Bytes): seq<Sextet> {
    if b == [] then []
    else if |b| == 1 then [Sextet0(b[0]), Sextet1(b[0], 0)]
    else if |b| == 2 then [Sextet0(b[0]), Sextet1(b[0], b[1]), Sextet2(b[1], 0)]
    else [Sextet0(b[0]), Sextet1(b[0], b[1]), Sextet2(b[1], b[2]), Sextet3(b[2])] + Encode(b[3..])
  }

  /** The lenient decoder: the spare bits of a last short group are dropped. */
  function Decode(v: seq<Sextet>): Bytes
    requires |v| % 4 != 1
  {
    if v == [] then []
    else if |v| == 2 then [Byte0(v[0], v[1])]
    else if |v| == 3 then [Byte0(v[0], v[1]), Byte1(v[1], v[2])]
    else [Byte0(v[0], v[1]), Byte1(v[1], v[2]), Byte2(v[2], v[3])] + Decode(v[4..])
  }

  /** The spare bits of the last group are zero. */
  predicate Canonical(v: seq<Sextet>)
    requires |v| % 4 != 1
  {
    (|v| % 4 == 2 ==> v[|v| - 1] % 16 == 0) && (|v| % 4 == 3 ==> v[|v| - 1] % 4 == 0)
  }

  /** Section 4 of RFC 4648: the bits of three bytes in order, six at a time; a short last group is filled up with zeros. */
  lemma GroupsKeepTheBits(x: Byte, y: Byte, z: Byte)
    ensures Encode([]) == []
    ensures |Encode([x])| == 2 && Encode([x])[0] as int * 64 + Encode([x])[1] as int == x as int * 16
    ensures |Encode([x, y])| == 3
    ensures
      Encode([x, y])[0] as int * 4096 + Encode([x, y])[1] as int * 64 + Encode([x, y])[2] as int
      == (x as int * 256 + y as int) * 4
    ensures |Encode([x, y, z])| == 4
    ensures
      Encode([x, y, z])[0] as int * 262_144 + Encode([x, y, z])[1] as int * 4096 + Encode([x, y, z])[2] as int * 64
      + Encode([x, y, z])[3] as int == x as int * 65_536 + y as int * 256 + z as int
  {
  }

  function EncodedLength(n: nat): nat {
    n / 3 * 4 + if n % 3 == 0 then 0 else n % 3 + 1
  }

  lemma {:induction false} EncodeLength(b: Bytes)
    ensures |Encode(b)| == EncodedLength(|b|) && |Encode(b)| % 4 != 1
  {
    if |b| >= 3 {
      EncodeLength(b[3..]);
    }
  }

  lemma GroupDecodes(x: Byte, y: Byte, z: Byte)
    ensures Byte0(Sextet0(x), Sextet1(x, y)) == x
    ensures Byte1(Sextet1(x, y), Sextet2(y, z)) == y
    ensures Byte2(Sextet2(y, z), Sextet3(z)) == z
  {
  }

  lemma GroupEncodes(p: Sextet, q: Sextet, r: Sextet, s: Sextet)
    ensures Sextet0(Byte0(p, q)) == p
    ensures Sextet1(Byte0(p, q), Byte1(q, r)) == q
    ensures Sextet2(Byte1(q, r), Byte2(r, s)) == r
    ensures Sextet3(Byte2(r, s)) == s
  {
  }

  lemma DecodeStep(g: seq<Sextet>, rest: seq<Sextet>)
    requires |g| == 4 && |rest| % 4 != 1
    ensures |g + rest| % 4 != 1
    ensures Decode(g + rest) == [Byte0(g[0], g[1]), Byte1(g[1], g[2]), Byte2(g[2], g[3])] + Decode(rest)
  {
  }

  lemma EncodeStep(g: Bytes, rest: Bytes)
    requires |g| == 3
    ensures Encode(g + rest) == [Sextet0(g[0]), Sextet1(g[0], g[1]), Sextet2(g[1], g[2]), Sextet3(g[2])] + Encode(rest)
  {
  }

  lemma DecodeOne(x: Byte)
    ensures Encode([x]) == [Sextet0(x), Sextet1(x, 0)]
    ensures Decode([Sextet0(x), Sextet1(x, 0)]) == [x] && Canonical([Sextet0(x), Sextet1(x, 0)])
  {
  }

  lemma DecodeTwo(x: Byte, y: Byte)
    ensures Encode([x, y]) == [Sextet0(x), Sextet1(x, y), Sextet2(y, 0)]
    ensures Decode([Sextet0(x), Sextet1(x, y), Sextet2(y, 0)]) == [x, y]
    ensures Canonical([Sextet0(x), Sextet1(x, y), Sextet2(y, 0)])
  {
  }

  lemma DecodeShort(b: Bytes)
    requires |b| < 3
    ensures |Encode(b)| % 4 != 1 && Decode(Encode(b)) == b && Canonical(Encode(b))
  {
    if |b| == 1 {
      assert b == [b[0]];
      DecodeOne(b[0]);
    } else if |b| == 2 {
      assert b == [b[0], b[1]];
      DecodeTwo(b[0], b[1]);
    }
  }

  /** Decoding undoes encoding. */
  lemma {:induction false} DecodeEncode(b: Bytes)
    ensures |Encode(b)| % 4 != 1 && Decode(Encode(b)) == b && Canonical(Encode(b))
  {
    if |b| < 3 {
      DecodeShort(b);
    } else {
      var g, rest := b[..3], b[3..];
      assert b == g + rest;
      DecodeEncode(rest);
      EncodeStep(g, rest);
      GroupDecodes(g[0], g[1], g[2]);
      var sextets := [Sextet0(g[0]), Sextet1(g[0], g[1]), Sextet2(g[1], g[2]), Sextet3(g[2])];
      DecodeStep(sextets, Encode(rest));
      assert [g[0], g[1], g[2]] == g;
      CanonicalStep(sextets, Encode(rest));
    }
  }

  lemma CanonicalStep(g: seq<Sextet>, rest: seq<Sextet>)
    requires |g| == 4 && |rest| % 4 != 1
    ensures |g + rest| % 4 != 1 && (Canonical(g + rest) <==> Canonical(rest))
  {
  }

  lemma EncodeShort(v: seq<Sextet>)
    requires |v| < 4 && |v| != 1
    ensures Encode(Decode(v)) == v <==> Canonical(v)
    ensures EncodedLength(|Decode(v)|) == |v|
  {
    if |v| == 2 {
      GroupEncodes(v[0], v[1], 0, 0);
      assert Sextet1(Byte0(v[0], v[1]), 0) == v[1] / 16 * 16;
      assert v == [v[0], v[1]];
    } else if |v| == 3 {
      GroupEncodes(v[0], v[1], v[2], 0);
      assert Sextet2(Byte1(v[1], v[2]), 0) == v[2] / 4 * 4;
      assert v == [v[0], v[1], v[2]];
    }
  }

  /** Re-encoding gives the text back exactly when it is canonical. */
  lemma {:induction false} EncodeDecode(v: seq<Sextet>)
    requires |v| % 4 != 1
    ensures Encode(Decode(v)) == v <==> Canonical(v)
    ensures EncodedLength(|Decode(v)|) == |v|
  {
    if |v| < 4 {
      EncodeShort(v);
    } else {
      var g, rest := v[..4], v[4..];
      assert v == g + rest;
      EncodeDecode(rest);
      DecodeStep(g, rest);
      GroupEncodes(g[0], g[1], g[2], g[3]);
      var bytes := [Byte0(g[0], g[1]), Byte1(g[1], g[2]), Byte2(g[2], g[3])];
      EncodeStep(bytes, Decode(rest));
      assert [g[0], g[1], g[2], g[3]] == g;
      CanonicalStep(g, rest);
      assert Encode(Decode(v)) == g + Encode(Decode(rest));
      assert Encode(Decode(v))[4..] == Encode(Decode(rest));
    }
  }

  // ---- Tokens ----

  function PublicTokenOf(raw: Bytes): string {
    Letters(Encode(raw))
  }

  datatype Refusal = Malformed | NonCanonical

  /** The pattern's `$` also matches before one trailing newline, which the lenient decoder skips. */
  predicate Matches(token: string) {
    || (|token| == 43 && AllLetters(token))
    || (|token| == 44 && token[43] == '\n' && AllLetters(token[..43]))
  }

  predicate Shaped(s: string) {
    |s| == 43 && AllLetters(s)
  }

  function BytesOf(s: string): Bytes
    requires Shaped(s)
  {
    Decode(Values(s))
  }

  function TokenLookupHash(sha: Bytes -> Bytes, token: string): Result<Bytes, Refusal> {
    if !Matches(token) then Err(Malformed)
    else
      var raw := BytesOf(token[..43]);
      if |raw| != TOKEN_BYTES then Err(Malformed)
      else if PublicTokenOf(raw) != token then Err(NonCanonical)
      else Ok(sha(raw))
  }

  lemma LettersValues(s: string, v: seq<Sextet>)
    ensures AllLetters(s) ==> Letters(Values(s)) == s
    ensures AllLetters(Letters(v)) && Values(Letters(v)) == v
  {
  }

  /** A generated token is accepted, and its hash is that of the bytes it was generated from. */
  lemma {:induction false} GeneratedTokensAreAccepted(sha: Bytes -> Bytes, raw: Bytes)
    requires |raw| == TOKEN_BYTES
    ensures |PublicTokenOf(raw)| == 43 && TokenLookupHash(sha, PublicTokenOf(raw)) == Ok(sha(raw))
  {
    EncodeLength(raw);
    DecodeEncode(raw);
    LettersValues("", Encode(raw));
    assert PublicTokenOf(raw)[..43] == PublicTokenOf(raw);
  }

  lemma LengthOf43(n: nat)
    ensures EncodedLength(n) == 43 <==> n == 32
  {
  }

  /** 43 sextets stand for 32 bytes, and are their encoding exactly when the last one carries no spare bits. */
  lemma SextetsOf43(v: seq<Sextet>)
    requires |v| == 43
    ensures |Decode(v)| == 32 && |Encode(Decode(v))| == 43
    ensures Encode(Decode(v)) == v <==> v[42] % 4 == 0
  {
    EncodeDecode(v);
    LengthOf43(|Decode(v)|);
    EncodeLength(Decode(v));
  }

  lemma LettersAreEqual(a: seq<Sextet>, b: seq<Sextet>)
    ensures Letters(a) == Letters(b) <==> a == b
  {
    LettersValues("", a);
    LettersValues("", b);
  }

  lemma Reencodes(s: string)
    requires Shaped(s)
    ensures |BytesOf(s)| == 32 && |PublicTokenOf(BytesOf(s))| == 43
    ensures PublicTokenOf(BytesOf(s)) == s <==> Value(s[42]) % 4 == 0
  {
    SextetsOf43(Values(s));
    LettersValues(s, []);
    LettersAreEqual(Encode(BytesOf(s)), Values(s));
  }

  /** Accepted exactly: 43 letters whose last one carries no spare bits. */
  lemma AcceptedExactly(sha: Bytes -> Bytes, token: string)
    ensures
      TokenLookupHash(sha, token).Ok? <==>
      |token| == 43 && AllLetters(token) && Value(token[42]) % 4 == 0
  {
    if Matches(token) {
      Reencodes(token[..43]);
      if |token| == 43 {
        assert token[..43] == token;
      }
    }
  }

  /** Malformed is what the pattern refuses; everything it lets through is canonical and hashed, or refused as not canonical. */
  lemma RefusedExactly(sha: Bytes -> Bytes, token: string)
    ensures
      var r := TokenLookupHash(sha, token);
      var matched := (|token| == 43 || (|token| == 44 && token[43] == '\n')) && AllLetters(token[..43]);
      && (r == Err(Malformed) <==> !matched)
      && (r == Err(NonCanonical) <==> matched && (|token| == 44 || Value(token[42]) % 4 != 0))
      && (r.Ok? ==> Shaped(token) && r.value == sha(BytesOf(token)))
  {
    AcceptedExactly(sha, token);
    if |token| == 43 {
      assert token[..43] == token;
    }
    if Matches(token) {
      Reencodes(token[..43]);
    }
  }

  /** One token per 32-byte value: an accepted token is the encoding of the bytes it stands for. */
  lemma {:induction false} OneTokenPerValue(sha: Bytes -> Bytes, a: string, b: string)
    ensures TokenLookupHash(sha, a).Ok? ==> Shaped(a) && a == PublicTokenOf(BytesOf(a))
    ensures TokenLookupHash(sha, a).Ok? && TokenLookupHash(sha, b).Ok? ==>
      Shaped(a) && Shaped(b) && (BytesOf(a) == BytesOf(b) <==> a == b)
  {
    AcceptedExactly(sha, a);
    AcceptedExactly(sha, b);
    assert Shaped(a) ==> a[..43] == a;
    assert Shaped(b) ==> b[..43] == b;
  }
}

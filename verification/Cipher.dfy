/** The fallback cipher of `secrets.py`: a keystream of keyed hashes, XOR, and a tag over
    nonce and data, framed as nonce, tag, data. */
module Cipher {
  import opened Text

  type Bytes = seq<bv8>

  /** The primitives the cipher is built from. */
  datatype Primitives = Primitives(
    hmac: (Bytes, Bytes) -> Bytes,
    deriveKey: string -> Bytes,
    utf8: string -> Bytes,
    fromUtf8: Bytes -> Option<string>,
    base64: Bytes -> string,
    fromBase64: string -> Option<Bytes>)

  /** HMAC-SHA256 is 32 bytes long; UTF-8 and base64 (section 5 of RFC 4648) decode what they
      encode. */
  ghost predicate Lawful(p: Primitives) {
    && (forall k, m :: |p.hmac(k, m)| == 32)
    && (forall t :: p.fromUtf8(p.utf8(t)) == Some(t))
    && (forall b :: p.fromBase64(p.base64(b)) == Some(b))
  }

  const MAGIC := "wes1:"

  /** The number of counters `to_bytes(8, "big")` can write. */
  const COUNTERS: nat := 0x1_0000_0000_0000_0000

  /** `n.to_bytes(width, "big")`. */
  function BigEndian(n: nat, width: nat): (r: Bytes)
    ensures |r| == width
  {
    if width == 0 then [] else BigEndian(n / 256, width - 1) + [ByteOf(n % 256)]
  }

  /** The number that bytes stand for, the most significant one first. */
  function Value(b: Bytes): nat {
    if b == [] then 0 else 256 * Value(b[..|b| - 1]) + ByteValue(b[|b| - 1])
  }

  function ByteValue(b: bv8): nat {
    b as nat
  }

  function ByteOf(n: nat): bv8
    requires n < 256
  {
    n as bv8
  }

  lemma NextByte(b: bv8)
    requires ByteValue(b) < 255
    ensures ByteValue(b + 1) == ByteValue(b) + 1
  {
  }

  lemma ValueIsByte(b: bv8)
    ensures ByteOf(ByteValue(b)) == b
  {
  }

  lemma ByteZero()
    ensures ByteValue(0) == 0
  {
  }

  lemma {:induction false} SomeByte(n: nat) returns (b: bv8)
    requires n < 256
    ensures ByteValue(b) == n
  {
    hide ByteValue;
    if n == 0 {
      b := 0;
      ByteZero();
    } else {
      var before := SomeByte(n - 1);
      NextByte(before);
      b := before + 1;
    }
  }

  lemma ByteIsValue(n: nat)
    requires n < 256
    ensures ByteValue(ByteOf(n)) == n
  {
    hide ByteValue, ByteOf;
    var b := SomeByte(n);
    ValueIsByte(b);
  }

  function Power(width: nat): nat {
    if width == 0 then 1 else 256 * Power(width - 1)
  }

  /** So distinct counters are written as distinct bytes. */
  lemma {:induction false} BigEndianExactly(n: nat, width: nat)
    requires n < Power(width)
    ensures Value(BigEndian(n, width)) == n
  {
    hide ByteOf, ByteValue;
    if width > 0 {
      Carry(n, Power(width - 1));
      BigEndianExactly(n / 256, width - 1);
      Appended(BigEndian(n / 256, width - 1), n % 256);
    }
  }

  lemma Carry(n: nat, m: nat)
    requires n < 256 * m
    ensures n / 256 < m
  {
  }

  lemma Appended(b: Bytes, digit: nat)
    requires digit < 256
    ensures Value(b + [ByteOf(digit)]) == 256 * Value(b) + digit
  {
    hide ByteOf, ByteValue;
    ByteIsValue(digit);
    var appended := b + [ByteOf(digit)];
    assert appended[..|b|] == b && appended[|b|] == ByteOf(digit);
  }

  lemma CountersAreDistinct(m: nat, n: nat)
    requires m < COUNTERS && n < COUNTERS && BigEndian(m, 8) == BigEndian(n, 8)
    ensures m == n
  {
    assert Power(8) == 256 * 256 * 256 * 256 * 256 * 256 * 256 * 256 == COUNTERS;
    BigEndianExactly(m, 8);
    BigEndianExactly(n, 8);
  }

  /** The first `n` blocks of the keystream. */
  function Blocks(p: Primitives, key: Bytes, nonce: Bytes, n: nat): (r: Bytes)
    requires Lawful(p)
    ensures |r| == 32 * n
  {
    if n == 0 then [] else Blocks(p, key, nonce, n - 1) + p.hmac(key, nonce + BigEndian(n - 1, 8))
  }

  /** The bytes of the keystream; there is none so long that the counter overflows. */
  function Keystream(p: Primitives, key: Bytes, nonce: Bytes, length: nat): (r: Bytes)
    requires Lawful(p)
    ensures |r| == length
  {
    Blocks(p, key, nonce, length / 32 + 1)[..length]
  }

  lemma {:induction false} BlocksPrefix(p: Primitives, key: Bytes, nonce: Bytes, m: nat, n: nat)
    requires Lawful(p) && m <= n
    ensures Blocks(p, key, nonce, m) <= Blocks(p, key, nonce, n)
    decreases n
  {
    if m < n {
      hide BigEndian;
      BlocksPrefix(p, key, nonce, m, n - 1);
    }
  }

  /** Main result: a shorter keystream is a prefix of a longer one. */
  lemma KeystreamPrefix(p: Primitives, key: Bytes, nonce: Bytes, m: nat, n: nat)
    requires Lawful(p) && m <= n
    ensures Keystream(p, key, nonce, m) == Keystream(p, key, nonce, n)[..m]
  {
    BlocksPrefix(p, key, nonce, m / 32 + 1, n / 32 + 1);
  }

  /** The byte at `i` is the one at `i % 32` in the hash of the nonce and the counter `i / 32`. */
  lemma {:induction false} BlockByte(p: Primitives, key: Bytes, nonce: Bytes, n: nat, i: nat)
    requires Lawful(p) && i < 32 * n
    ensures Blocks(p, key, nonce, n)[i] == p.hmac(key, nonce + BigEndian(i / 32, 8))[i % 32]
  {
    if i < 32 * (n - 1) {
      BlockByte(p, key, nonce, n - 1, i);
    } else {
      assert i / 32 == n - 1 && i - 32 * (n - 1) == i % 32;
    }
  }

  lemma KeystreamByte(p: Primitives, key: Bytes, nonce: Bytes, length: nat, i: nat)
    requires Lawful(p) && i < length
    ensures Keystream(p, key, nonce, length)[i] == p.hmac(key, nonce + BigEndian(i / 32, 8))[i % 32]
  {
    BlockByte(p, key, nonce, length / 32 + 1, i);
  }

  /** Enough blocks begin with the keystream. */
  lemma KeystreamIsPrefix(p: Primitives, key: Bytes, nonce: Bytes, length: nat, n: nat)
    requires Lawful(p) && length <= 32 * n && n <= length / 32 + 1
    ensures Blocks(p, key, nonce, n)[..length] == Keystream(p, key, nonce, length)
  {
    BlocksPrefix(p, key, nonce, n, length / 32 + 1);
  }

  /** `_keystream`: None stands for the counter's overflow. */
  method GenerateKeystream(p: Primitives, key: Bytes, nonce: Bytes, length: nat) returns (r: Option<Bytes>)
    requires Lawful(p)
    ensures r == if length <= 32 * COUNTERS then Some(Keystream(p, key, nonce, length)) else None
  {
    var out: Bytes := [];
    var counter := 0;
    while |out| < length
      invariant out == Blocks(p, key, nonce, counter) && |out| == 32 * counter
      invariant counter <= COUNTERS && counter <= length / 32 + 1
      decreases length - |out|
    {
      if counter == COUNTERS {
        return None;
      }
      out := out + p.hmac(key, nonce + BigEndian(counter, 8));
      counter := counter + 1;
    }
    KeystreamIsPrefix(p, key, nonce, length, counter);
    return Some(out[..length]);
  }

  /** `bytes(a ^ b for a, b in zip(data, keystream))`. */
  function Xor(a: Bytes, b: Bytes): (r: Bytes)
    ensures |r| == if |a| <= |b| then |a| else |b|
  {
    seq(if |a| <= |b| then |a| else |b|, i requires 0 <= i < |a| && i < |b| => a[i] ^ b[i])
  }

  lemma XorTwice(a: Bytes, k: Bytes)
    requires |a| == |k|
    ensures Xor(Xor(a, k), k) == a && forall i :: 0 <= i < |a| ==> Xor(a, k)[i] == a[i] ^ k[i]
  {
    forall i | 0 <= i < |a| ensures Xor(Xor(a, k), k)[i] == a[i] {
      XorByte(a[i], k[i]);
    }
  }

  lemma XorByte(a: bv8, k: bv8)
    ensures (a ^ k) ^ k == a
  {
  }

  /** Every byte masked by the byte of its own place in the stream of hashes. */
  predicate Masks(p: Primitives, key: Bytes, nonce: Bytes, a: Bytes, b: Bytes)
    requires Lawful(p)
  {
    |a| == |b| && forall i :: 0 <= i < |a| ==> b[i] == a[i] ^ p.hmac(key, nonce + BigEndian(i / 32, 8))[i % 32]
  }

  lemma XorMasks(p: Primitives, key: Bytes, nonce: Bytes, a: Bytes, b: Bytes)
    requires Lawful(p)
    ensures Masks(p, key, nonce, a, b) <==> b == Xor(a, Keystream(p, key, nonce, |a|))
  {
    var stream := Keystream(p, key, nonce, |a|);
    forall i | 0 <= i < |a| ensures Xor(a, stream)[i] == a[i] ^ p.hmac(key, nonce + BigEndian(i / 32, 8))[i % 32] {
      KeystreamByte(p, key, nonce, |a|, i);
    }
  }

  /** What a token is made of: the marker, and in base64 the nonce, the tag of nonce and data, and
      the data, each byte of the text masked by the keyed hash of the nonce and its own counter. */
  predicate IsToken(p: Primitives, secret: string, plaintext: string, nonce: Bytes, token: string)
    requires Lawful(p)
  {
    && "wes1:" <= token && p.fromBase64(token[5..]).Some?
    && var raw := p.fromBase64(token[5..]).value;
       && |raw| >= 48 && raw[..16] == nonce
       && raw[16..48] == p.hmac(p.deriveKey(secret + "mac"), nonce + raw[48..])
       && Masks(p, p.deriveKey(secret + "enc"), nonce, p.utf8(plaintext), raw[48..])
  }

  /** Main result: what is encrypted is masked, byte by byte. */
  lemma EncryptedIsToken(p: Primitives, secret: string, plaintext: string, nonce: Bytes)
    requires Lawful(p) && |nonce| == 16
    ensures IsToken(p, secret, plaintext, nonce, Encrypted(p, secret, plaintext, nonce))
  {
    var key, text := p.deriveKey(secret + "enc"), p.utf8(plaintext);
    var data := Xor(text, Keystream(p, key, nonce, |text|));
    var tag := p.hmac(p.deriveKey(secret + "mac"), nonce + data);
    var blob := p.base64(nonce + tag + data);
    assert (MAGIC + blob)[|MAGIC|..] == blob;
    assert (nonce + tag + data)[..16] == nonce && (nonce + tag + data)[16..48] == tag && (nonce + tag + data)[48..] == data;
    XorMasks(p, key, nonce, text, data);
  }

  /** Main result: a token is accepted, with its text, if and only if its tag is right and its data,
      of a length that the keystream can cover, unmask to the UTF-8 of a text. */
  lemma AcceptedExactly(p: Primitives, secret: string, nonce: Bytes, tag: Bytes, data: Bytes, text: string)
    requires Lawful(p) && |nonce| == 16 && |tag| == 32
    ensures Decrypted(p, secret, MAGIC + p.base64(nonce + tag + data)) == Ok(text)
            <==> tag == p.hmac(p.deriveKey(secret + "mac"), nonce + data) && |data| <= 32 * COUNTERS
                 && exists plain :: Masks(p, p.deriveKey(secret + "enc"), nonce, data, plain) && p.fromUtf8(plain) == Some(text)
  {
    var key, blob := p.deriveKey(secret + "enc"), p.base64(nonce + tag + data);
    assert (MAGIC + blob)[|MAGIC|..] == blob;
    FramingRoundTrip(nonce, tag, data);
    forall plain ensures Masks(p, key, nonce, data, plain) <==> plain == Xor(data, Keystream(p, key, nonce, |data|)) {
      XorMasks(p, key, nonce, data, plain);
    }
  }

  datatype CipherError = CounterOverflow | NotBase64 | IntegrityFailed | NotUtf8

  /** Python's slice, which never fails. */
  function Slice(b: Bytes, from: nat, to: nat): Bytes {
    if from >= |b| || from >= to then [] else if to >= |b| then b[from..] else b[from..to]
  }

  method Encrypt(p: Primitives, secret: string, plaintext: string, nonce: Bytes) returns (r: Result<string, CipherError>)
    requires Lawful(p) && |nonce| == 16
    ensures r == if |p.utf8(plaintext)| <= 32 * COUNTERS then Ok(Encrypted(p, secret, plaintext, nonce))
                 else Err(CounterOverflow)
    ensures r.Ok? ==> IsToken(p, secret, plaintext, nonce, r.value)
  {
    EncryptedIsToken(p, secret, plaintext, nonce);
    var encKey, macKey := p.deriveKey(secret + "enc"), p.deriveKey(secret + "mac");
    var text := p.utf8(plaintext);
    var keystream := GenerateKeystream(p, encKey, nonce, |text|);
    if keystream.None? {
      return Err(CounterOverflow);
    }
    var data := Xor(text, keystream.value);
    var tag := p.hmac(macKey, nonce + data);
    return Ok(MAGIC + p.base64(nonce + tag + data));
  }

  function Encrypted(p: Primitives, secret: string, plaintext: string, nonce: Bytes): string
    requires Lawful(p)
  {
    var text := p.utf8(plaintext);
    var data := Xor(text, Keystream(p, p.deriveKey(secret + "enc"), nonce, |text|));
    MAGIC + p.base64(nonce + p.hmac(p.deriveKey(secret + "mac"), nonce + data) + data)
  }

  /** What `_decrypt_stdlib` makes of a token that starts with the marker. */
  function Decrypted(p: Primitives, secret: string, token: string): Result<string, CipherError>
    requires Lawful(p) && MAGIC <= token
  {
    match p.fromBase64(token[|MAGIC|..])
    case None => Err(NotBase64)
    case Some(raw) =>
      var nonce, tag, data := Slice(raw, 0, 16), Slice(raw, 16, 48), Slice(raw, 48, |raw|);
      if tag != p.hmac(p.deriveKey(secret + "mac"), nonce + data) then Err(IntegrityFailed)
      else if |data| > 32 * COUNTERS then Err(CounterOverflow)
      else
        match p.fromUtf8(Xor(data, Keystream(p, p.deriveKey(secret + "enc"), nonce, |data|)))
        case None => Err(NotUtf8)
        case Some(text) => Ok(text)
  }

  method Decrypt(p: Primitives, secret: string, token: string) returns (r: Result<string, CipherError>)
    requires Lawful(p) && MAGIC <= token
    ensures r == Decrypted(p, secret, token)
  {
    var decoded := p.fromBase64(token[|MAGIC|..]);
    if decoded.None? {
      return Err(NotBase64);
    }
    var raw := decoded.value;
    var nonce, tag, data := Slice(raw, 0, 16), Slice(raw, 16, 48), Slice(raw, 48, |raw|);
    var expected := p.hmac(p.deriveKey(secret + "mac"), nonce + data);
    if tag != expected {
      return Err(IntegrityFailed);
    }
    var keystream := GenerateKeystream(p, p.deriveKey(secret + "enc"), nonce, |data|);
    if keystream.None? {
      return Err(CounterOverflow);
    }
    var text := p.fromUtf8(Xor(data, keystream.value));
    return if text.Some? then Ok(text.value) else Err(NotUtf8);
  }

  /** The framing: any three parts, the first two 16 and 32 bytes long, are cut out again. */
  lemma FramingRoundTrip(nonce: Bytes, tag: Bytes, data: Bytes)
    requires |nonce| == 16 && |tag| == 32
    ensures var raw := nonce + tag + data;
            Slice(raw, 0, 16) == nonce && Slice(raw, 16, 48) == tag && Slice(raw, 48, |raw|) == data
  {
    var raw := nonce + tag + data;
    assert raw[0..16] == nonce && raw[16..48] == tag && raw[48..] == data;
  }

  /** Main result: for every secret, nonce and text, decrypting what was encrypted returns it. */
  lemma DecryptInvertsEncrypt(p: Primitives, secret: string, plaintext: string, nonce: Bytes)
    requires Lawful(p) && |nonce| == 16 && |p.utf8(plaintext)| <= 32 * COUNTERS
    ensures MAGIC <= Encrypted(p, secret, plaintext, nonce)
    ensures Decrypted(p, secret, Encrypted(p, secret, plaintext, nonce)) == Ok(plaintext)
  {
    var text := p.utf8(plaintext);
    var keystream := Keystream(p, p.deriveKey(secret + "enc"), nonce, |text|);
    var data := Xor(text, keystream);
    var tag := p.hmac(p.deriveKey(secret + "mac"), nonce + data);
    var blob := p.base64(nonce + tag + data);
    assert (MAGIC + blob)[|MAGIC|..] == blob;
    FramingRoundTrip(nonce, tag, data);
    XorTwice(text, keystream);
  }

  /** And a token is refused for its integrity exactly when its tag is not the tag of its
      nonce and data. */
  lemma TamperingIsDetected(p: Primitives, secret: string, nonce: Bytes, tag: Bytes, data: Bytes)
    requires Lawful(p) && |nonce| == 16 && |tag| == 32
    ensures Decrypted(p, secret, MAGIC + p.base64(nonce + tag + data)) == Err(IntegrityFailed)
            <==> tag != p.hmac(p.deriveKey(secret + "mac"), nonce + data)
  {
    var blob := p.base64(nonce + tag + data);
    assert (MAGIC + blob)[|MAGIC|..] == blob;
    FramingRoundTrip(nonce, tag, data);
  }
}

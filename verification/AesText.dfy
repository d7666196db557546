/** String encryption (app/utils/aes.go): padding (section 6.3 of RFC 5652), cipher block chaining (section 6.2 of
    NIST SP 800-38A) under a fixed key that also is the first chaining block, and base64 (section 4 of RFC 4648).
    The block cipher itself is any permutation of 16-byte blocks. */
module AesText {
  import opened Wrappers
  import opened Powers

  type byte = x: int | 0 <= x < 256

  type bytes = seq<byte>

  const BLOCK := 16

  /** The characters of the key, which the chaining starts from as well. */
  const KEY: bytes := [52, 56, 48, 48, 53, 53, 98, 48, 97, 48, 99, 52, 100, 49, 48, 99]

  /** A block cipher under the fixed key. */
  datatype Cipher = Cipher(encrypt: bytes -> bytes, decrypt: bytes -> bytes)

  ghost predicate BlockCipher(c: Cipher) {
    && (forall b: bytes :: |b| == BLOCK ==> |c.encrypt(b)| == BLOCK && c.decrypt(c.encrypt(b)) == b)
    && (forall b: bytes :: |b| == BLOCK ==> |c.decrypt(b)| == BLOCK && c.encrypt(c.decrypt(b)) == b)
  }

  // ----- Exclusive or -----

  /** Bit by bit, from the lowest of n bits. */
  function XorBits(a: nat, b: nat, n: nat): (r: nat)
    decreases n
  {
    if n == 0 then 0 else (a + b) % 2 + 2 * XorBits(a / 2, b / 2, n - 1)
  }

  lemma {:induction false} XorIsSmall(a: nat, b: nat, n: nat)
    ensures XorBits(a, b, n) < Pow2(n)
  {
    if n > 0 {
      XorIsSmall(a / 2, b / 2, n - 1);
    }
  }

  lemma LowestBit(a: nat, b: nat, rest: nat)
    ensures var x := (a + b) % 2 + 2 * rest; (x + b) % 2 == a % 2 && x / 2 == rest
  {
  }

  lemma {:induction false} XorTwice(a: nat, b: nat, n: nat)
    requires a < Pow2(n)
    ensures XorBits(XorBits(a, b, n), b, n) == a
  {
    if n > 0 {
      LowestBit(a, b, XorBits(a / 2, b / 2, n - 1));
      XorTwice(a / 2, b / 2, n - 1);
    }
  }

  lemma {:induction false} XorFits(a: byte, b: byte)
    ensures XorBits(a, b, Bits()) < 256
  {
    XorIsSmall(a, b, Bits());
    Pow2Octet();
  }

  function Xor(a: byte, b: byte): byte {
    XorFits(a, b);
    XorBits(a, b, Bits())
  }

  /** The bit at a position, counted from the lowest. */
  function Bit(a: nat, i: nat): nat
    decreases i
  {
    if i == 0 then a % 2 else Bit(a / 2, i - 1)
  }

  lemma OneBit(a: nat, b: nat, rest: nat)
    ensures
      var x := (a + b) % 2 + 2 * rest;
      x % 2 == (if a % 2 != b % 2 then 1 else 0) && x / 2 == rest
  {
  }

  lemma {:induction false} BitsDiffer(a: nat, b: nat, n: nat, i: nat)
    requires i < n
    ensures Bit(XorBits(a, b, n), i) == if Bit(a, i) != Bit(b, i) then 1 else 0
    decreases n
  {
    OneBit(a, b, XorBits(a / 2, b / 2, n - 1));
    if i > 0 {
      BitsDiffer(a / 2, b / 2, n - 1, i - 1);
    }
  }

  /** A bit of the exclusive or is set exactly where the two bits differ. */
  lemma {:induction false} XorIs(a: byte, b: byte, i: nat)
    requires i < 8
    ensures Bit(Xor(a, b), i) == if Bit(a, i) != Bit(b, i) then 1 else 0
  {
    BitsDiffer(a, b, Bits(), i);
  }

  function XorBlocks(a: bytes, b: bytes): (r: bytes)
    requires |a| == |b|
    ensures |r| == |a|
  {
    seq(|a|, i requires 0 <= i < |a| => Xor(a[i], b[i]))
  }

  /** And so for every byte of a block. */
  lemma {:induction false} XorBlocksIs(a: bytes, b: bytes, at: nat, i: nat)
    requires |a| == |b| && at < |a| && i < 8
    ensures Bit(XorBlocks(a, b)[at], i) == if Bit(a[at], i) != Bit(b[at], i) then 1 else 0
  {
    XorIs(a[at], b[at], i);
  }

  lemma XorBlocksTwice(a: bytes, b: bytes)
    requires |a| == |b|
    ensures XorBlocks(XorBlocks(a, b), b) == a
  {
    Pow2Octet();
    forall i | 0 <= i < |a|
      ensures Xor(Xor(a[i], b[i]), b[i]) == a[i]
    {
      XorTwice(a[i], b[i], Bits());
    }
  }

  // ----- Padding -----

  function Repeat(b: byte, n: nat): (r: bytes)
    ensures |r| == n && forall i :: 0 <= i < n ==> r[i] == b
  {
    if n == 0 then [] else Repeat(b, n - 1) + [b]
  }

  /** One to sixteen bytes, each telling how many there are. */
  function PKCS5Padding(src: bytes): bytes {
    var padding := BLOCK - |src| % BLOCK;
    src + Repeat(padding, padding)
  }

  /** Cuts off as many bytes as the last one tells, without looking at the others; slicing below zero panics. */
  function PKCS5UnPadding(src: bytes): Option<bytes>
    requires src != []
  {
    var unpadding := src[|src| - 1];
    if unpadding > |src| then None else Some(src[..|src| - unpadding])
  }

  ghost predicate WellPadded(s: bytes) {
    && s != [] && |s| % BLOCK == 0
    && 1 <= s[|s| - 1] <= BLOCK
    && forall i :: |s| - s[|s| - 1] <= i < |s| ==> s[i] == s[|s| - 1]
  }

  lemma PaddingRoundTrip(src: bytes)
    ensures WellPadded(PKCS5Padding(src))
    ensures PKCS5UnPadding(PKCS5Padding(src)) == Some(src)
  {
    var padded := PKCS5Padding(src);
    assert padded[|padded| - 1] == BLOCK - |src| % BLOCK;
    assert padded[..|src|] == src;
  }

  /** Unpadding is undone by padding exactly where the padding was in order. */
  lemma UnPaddingRoundTrip(s: bytes)
    requires s != []
    ensures PKCS5UnPadding(s).Some? && PKCS5Padding(PKCS5UnPadding(s).value) == s <==> WellPadded(s)
  {
    if PKCS5UnPadding(s).Some? {
      PaddingRoundTrip(PKCS5UnPadding(s).value);
    }
    if WellPadded(s) {
      OrderlyPadding(s);
    }
  }

  lemma OrderlyPadding(s: bytes)
    requires WellPadded(s)
    ensures PKCS5UnPadding(s).Some? && PKCS5Padding(PKCS5UnPadding(s).value) == s
  {
    var last := s[|s| - 1];
    assert |s| >= BLOCK;
    var n := |s| - last;
    PaddingSize(|s|, last);
    assert s == s[..n] + s[n..];
    assert s[n..] == Repeat(last, last);
  }

  lemma PaddingSize(length: nat, last: nat)
    requires length % BLOCK == 0 && 1 <= last <= BLOCK <= length
    ensures BLOCK - (length - last) % BLOCK == last
  {
    var q := length / BLOCK;
    assert length - last == (q - 1) * BLOCK + (BLOCK - last);
  }

  // ----- Chaining -----

  function CBCEncrypted(c: Cipher, iv: bytes, plain: bytes): bytes
    requires |iv| == BLOCK
    decreases |plain|
  {
    if |plain| < BLOCK then [] else
    var x := c.encrypt(XorBlocks(plain[..BLOCK], iv));
    if |x| != BLOCK then [] else x + CBCEncrypted(c, x, plain[BLOCK..])
  }

  function CBCDecrypted(c: Cipher, iv: bytes, cipher: bytes): bytes
    requires |iv| == BLOCK
    decreases |cipher|
  {
    if |cipher| < BLOCK then [] else
    var x := c.decrypt(cipher[..BLOCK]);
    if |x| != BLOCK then [] else XorBlocks(x, iv) + CBCDecrypted(c, cipher[..BLOCK], cipher[BLOCK..])
  }

  predicate WholeBlocks(n: nat) {
    n % BLOCK == 0
  }

  lemma {:induction false} DecryptFirst(c: Cipher, iv: bytes, x: bytes, rest: bytes)
    requires BlockCipher(c) && |iv| == BLOCK && |x| == BLOCK
    ensures |c.decrypt(x)| == BLOCK
    ensures CBCDecrypted(c, iv, x + rest) == XorBlocks(c.decrypt(x), iv) + CBCDecrypted(c, x, rest)
  {
    assert (x + rest)[..BLOCK] == x && (x + rest)[BLOCK..] == rest;
  }

  lemma {:induction false} EncryptFirst(c: Cipher, iv: bytes, p: bytes, rest: bytes)
    requires BlockCipher(c) && |iv| == BLOCK && |p| == BLOCK
    ensures var x := c.encrypt(XorBlocks(p, iv));
            |x| == BLOCK && CBCEncrypted(c, iv, p + rest) == x + CBCEncrypted(c, x, rest)
  {
    assert (p + rest)[..BLOCK] == p && (p + rest)[BLOCK..] == rest;
  }

  /** Blocks are either none or one and the others. */
  lemma FirstAndRest(s: bytes)
    requires WholeBlocks(|s|)
    ensures s == [] || (|s| >= BLOCK && WholeBlocks(|s[BLOCK..]|) && s == s[..BLOCK] + s[BLOCK..])
  {
  }

  lemma {:induction false} ChainingRoundTrip(c: Cipher, iv: bytes, plain: bytes)
    requires BlockCipher(c) && |iv| == BLOCK && WholeBlocks(|plain|)
    ensures |CBCEncrypted(c, iv, plain)| == |plain|
    ensures CBCDecrypted(c, iv, CBCEncrypted(c, iv, plain)) == plain
    decreases |plain|
  {
    FirstAndRest(plain);
    if plain != [] {
      var p, rest := plain[..BLOCK], plain[BLOCK..];
      EncryptFirst(c, iv, p, rest);
      var x := c.encrypt(XorBlocks(p, iv));
      ChainingRoundTrip(c, x, rest);
      DecryptFirst(c, iv, x, CBCEncrypted(c, x, rest));
      XorBlocksTwice(p, iv);
    }
  }

  /** The first of the blocks left, sealed. */
  method EncryptBlock(c: Cipher, left: bytes, prev: bytes) returns (block: bytes)
    requires BlockCipher(c) && |prev| == BLOCK && |left| >= BLOCK
    ensures |block| == BLOCK
    ensures CBCEncrypted(c, prev, left) == block + CBCEncrypted(c, block, left[BLOCK..])
  {
    EncryptFirst(c, prev, left[..BLOCK], left[BLOCK..]);
    assert left == left[..BLOCK] + left[BLOCK..];
    block := c.encrypt(XorBlocks(left[..BLOCK], prev));
  }

  /** Encrypts the source block by block into the destination, each block mixed with the one before. */
  method EncryptBlocks(c: Cipher, iv: bytes, dst: array<byte>, src: bytes)
    requires BlockCipher(c) && |iv| == BLOCK && WholeBlocks(|src|) && dst.Length == |src|
    modifies dst
    ensures dst[..] == CBCEncrypted(c, iv, src)
  {
    var prev, left, i := iv, src, 0;
    while left != []
      invariant i + |left| == dst.Length && WholeBlocks(|left|) && |prev| == BLOCK
      invariant dst[..i] + CBCEncrypted(c, prev, left) == CBCEncrypted(c, iv, src)
      decreases |left|
    {
      FirstAndRest(left);
      prev := EncryptBlock(c, left, prev);
      left := left[BLOCK..];
      Associate(dst[..i], prev, CBCEncrypted(c, prev, left));
      Write(dst, i, prev);
      i := i + BLOCK;
    }
    assert dst[..] == dst[..i];
  }

  /** The first of the blocks left, opened. */
  method DecryptBlock(c: Cipher, left: bytes, prev: bytes) returns (block: bytes)
    requires BlockCipher(c) && |prev| == BLOCK && |left| >= BLOCK
    ensures |block| == BLOCK
    ensures CBCDecrypted(c, prev, left) == block + CBCDecrypted(c, left[..BLOCK], left[BLOCK..])
  {
    DecryptFirst(c, prev, left[..BLOCK], left[BLOCK..]);
    assert left == left[..BLOCK] + left[BLOCK..];
    block := XorBlocks(c.decrypt(left[..BLOCK]), prev);
  }

  method DecryptBlocks(c: Cipher, iv: bytes, dst: array<byte>, src: bytes)
    requires BlockCipher(c) && |iv| == BLOCK && WholeBlocks(|src|) && dst.Length == |src|
    modifies dst
    ensures dst[..] == CBCDecrypted(c, iv, src)
  {
    var prev, left, i := iv, src, 0;
    while left != []
      invariant i + |left| == dst.Length && WholeBlocks(|left|) && |prev| == BLOCK
      invariant dst[..i] + CBCDecrypted(c, prev, left) == CBCDecrypted(c, iv, src)
      decreases |left|
    {
      FirstAndRest(left);
      var block := DecryptBlock(c, left, prev);
      prev, left := left[..BLOCK], left[BLOCK..];
      Associate(dst[..i], block, CBCDecrypted(c, prev, left));
      Write(dst, i, block);
      i := i + BLOCK;
    }
    assert dst[..] == dst[..i];
  }

  method Write(dst: array<byte>, at: nat, block: bytes)
    requires at + |block| <= dst.Length
    modifies dst
    ensures dst[..at + |block|] == old(dst[..at]) + block
  {
    for j := 0 to |block|
      invariant dst[..at] == old(dst[..at])
      invariant dst[at..at + j] == block[..j]
    {
      dst[at + j] := block[j];
    }
    assert dst[..at + |block|] == dst[..at] + dst[at..at + |block|];
  }

  // ----- Base64 -----

  function Symbol(v: nat): char
    requires v < 64
  {
    if v < 26 then ('A' as int + v) as char
    else if v < 52 then ('a' as int + v - 26) as char
    else if v < 62 then ('0' as int + v - 52) as char
    else if v == 62 then '+' else '/'
  }

  function ValueOf(c: char): (v: Option<nat>)
    ensures v.Some? ==> v.value < 64
  {
    if 'A' <= c <= 'Z' then Some(c as int - 'A' as int)
    else if 'a' <= c <= 'z' then Some(c as int - 'a' as int + 26)
    else if '0' <= c <= '9' then Some(c as int - '0' as int + 52)
    else if c == '+' then Some(62) else if c == '/' then Some(63) else None
  }

  lemma SymbolRoundTrip(v: nat)
    requires v < 64
    ensures ValueOf(Symbol(v)) == Some(v) && Symbol(v) != '='
  {
  }

  function EncodeToString(b: bytes): string
    decreases |b|
  {
    if |b| == 0 then ""
    else if |b| == 1 then [Symbol(b[0] / 4), Symbol(b[0] % 4 * 16), '=', '=']
    else if |b| == 2 then
      [Symbol(b[0] / 4), Symbol(b[0] % 4 * 16 + b[1] / 16), Symbol(b[1] % 16 * 4), '=']
    else
      [Symbol(b[0] / 4), Symbol(b[0] % 4 * 16 + b[1] / 16), Symbol(b[1] % 16 * 4 + b[2] / 64), Symbol(b[2] % 64)]
      + EncodeToString(b[3..])
  }

  /** The bytes of a well-formed text: groups of four symbols, of which the last may end in padding. */
  function Decoded(t: string): Option<bytes>
    decreases |t|
  {
    if t == "" then Some([])
    else if |t| < 4 || ValueOf(t[0]).None? || ValueOf(t[1]).None? then None
    else
      var b0 := ValueOf(t[0]).value * 4 + ValueOf(t[1]).value / 16;
      if |t| == 4 && t[2] == '=' && t[3] == '=' then Some([b0])
      else if ValueOf(t[2]).None? then None
      else
        var b1 := ValueOf(t[1]).value % 16 * 16 + ValueOf(t[2]).value / 4;
        if |t| == 4 && t[3] == '=' then Some([b0, b1])
        else if ValueOf(t[3]).None? then None
        else
          var b2 := ValueOf(t[2]).value % 4 * 64 + ValueOf(t[3]).value;
          var rest := Decoded(t[4..]);
          if rest.None? then None else Some([b0, b1, b2] + rest.value)
  }

  /** The end of a text: one or two bytes left over. */
  lemma {:induction false} TailRoundTrip(b: bytes)
    requires 1 <= |b| <= 2
    ensures Decoded(EncodeToString(b)) == Some(b)
  {
    SymbolRoundTrip(b[0] / 4);
    if |b| == 1 {
      SymbolRoundTrip(b[0] % 4 * 16);
      var t := EncodeToString(b);
      assert |t| == 4 && t[2] == '=' && t[3] == '=';
      assert Decoded(t) == Some([b[0]]);
      assert [b[0]] == b;
    } else {
      SymbolRoundTrip(b[0] % 4 * 16 + b[1] / 16);
      SymbolRoundTrip(b[1] % 16 * 4);
      assert [b[0], b[1]] == b;
    }
  }

  lemma {:induction false} Base64RoundTrip(b: bytes)
    ensures Decoded(EncodeToString(b)) == Some(b)
    decreases |b|
  {
    if 1 <= |b| <= 2 {
      TailRoundTrip(b);
    } else if |b| > 2 {
      Base64RoundTrip(b[3..]);
      GroupRoundTrip(b);
      assert b == [b[0], b[1], b[2]] + b[3..];
    }
  }

  /** A full group of three bytes, and what follows it. */
  lemma {:induction false} GroupRoundTrip(b: bytes)
    requires |b| >= 3
    ensures Decoded(EncodeToString(b[3..])).Some? ==>
              Decoded(EncodeToString(b)) == Some([b[0], b[1], b[2]] + Decoded(EncodeToString(b[3..])).value)
  {
    var v0, v1, v2, v3 := b[0] / 4, b[0] % 4 * 16 + b[1] / 16, b[1] % 16 * 4 + b[2] / 64, b[2] % 64;
    SymbolRoundTrip(v0);
    SymbolRoundTrip(v1);
    SymbolRoundTrip(v2);
    SymbolRoundTrip(v3);
    GroupValues(b[0], b[1], b[2]);
    var t := EncodeToString(b);
    assert t == [Symbol(v0), Symbol(v1), Symbol(v2), Symbol(v3)] + EncodeToString(b[3..]);
    assert t[4..] == EncodeToString(b[3..]);
  }

  lemma GroupValues(b0: byte, b1: byte, b2: byte)
    ensures var v1, v2 := b0 % 4 * 16 + b1 / 16, b1 % 16 * 4 + b2 / 64;
            b0 / 4 * 4 + v1 / 16 == b0 && v1 % 16 * 16 + v2 / 4 == b1 && v2 % 4 * 64 + b2 % 64 == b2
  {
  }

  // ----- What a text is, block by block -----

  /** The i-th block of 16 bytes. */
  function Block(s: bytes, i: nat): (r: bytes)
    requires (i + 1) * 16 <= |s|
    ensures |r| == 16
  {
    s[i * 16..(i + 1) * 16]
  }

  /** The first block is mixed with the start, each other one with the cipher block before it. */
  ghost predicate Chained(c: Cipher, start: bytes, plain: bytes, cipher: bytes, i: nat)
    requires |start| == 16 && |plain| == |cipher| && (i + 1) * 16 <= |plain|
  {
    Block(cipher, i) == c.encrypt(XorBlocks(Block(plain, i), if i == 0 then start else Block(cipher, i - 1)))
  }

  ghost predicate Chains(c: Cipher, start: bytes, plain: bytes, cipher: bytes) {
    && |start| == 16 && |plain| == |cipher|
    && forall i: nat :: (i + 1) * 16 <= |plain| ==> Chained(c, start, plain, cipher, i)
  }

  lemma BlockBehind(p: bytes, rest: bytes, i: nat)
    requires |p| == 16 && (i + 1) * 16 <= |p + rest|
    ensures Block(p + rest, i) == if i == 0 then p else Block(rest, i - 1)
  {
    var s := p + rest;
    if i > 0 {
      assert s[i * 16..(i + 1) * 16] == rest[(i - 1) * 16..i * 16];
    }
  }

  lemma ChainsMore(c: Cipher, start: bytes, p: bytes, x: bytes, plain: bytes, cipher: bytes)
    requires |start| == 16 && |p| == 16 && |x| == 16 && x == c.encrypt(XorBlocks(p, start))
    requires Chains(c, x, plain, cipher)
    ensures Chains(c, start, p + plain, x + cipher)
  {
    var longPlain, longCipher := p + plain, x + cipher;
    forall i: nat | (i + 1) * 16 <= |longPlain|
      ensures Chained(c, start, longPlain, longCipher, i)
    {
      BlockBehind(p, plain, i);
      BlockBehind(x, cipher, i);
      if i > 0 {
        BlockBehind(x, cipher, i - 1);
        assert Chained(c, x, plain, cipher, i - 1);
      }
    }
  }

  lemma {:induction false} EncryptedChains(c: Cipher, start: bytes, plain: bytes)
    requires BlockCipher(c) && |start| == BLOCK && WholeBlocks(|plain|)
    ensures Chains(c, start, plain, CBCEncrypted(c, start, plain))
    decreases |plain|
  {
    FirstAndRest(plain);
    if plain != [] {
      var p, rest := plain[..BLOCK], plain[BLOCK..];
      EncryptFirst(c, start, p, rest);
      var x := c.encrypt(XorBlocks(p, start));
      EncryptedChains(c, x, rest);
      ChainsMore(c, start, p, x, rest, CBCEncrypted(c, x, rest));
    }
  }

  /** The text of a string is the base64 of its blocks chained from the key, after one to sixteen bytes of padding that
      tell how many they are. */
  lemma {:induction false} WhatIsEncrypted(c: Cipher, plaintext: bytes)
    requires BlockCipher(c)
    ensures
      var n: nat := 16 - |plaintext| % 16;
      var cipher := CBCEncrypted(c, KEY, PKCS5Padding(plaintext));
      && Encrypted(c, plaintext) == EncodeToString(cipher)
      && Chains(c, KEY, plaintext + seq(n, _ => n), cipher)
  {
    PaddingRoundTrip(plaintext);
    EncryptedChains(c, KEY, PKCS5Padding(plaintext));
    PaddingIs(plaintext);
  }

  lemma PaddingIs(src: bytes)
    ensures var n: nat := 16 - |src| % 16; PKCS5Padding(src) == src + seq(n, _ => n)
  {
    var n: nat := 16 - |src| % 16;
    assert Repeat(n, n) == seq(n, _ => n);
  }

  /** A source of whole blocks is decrypted to what chains to it, up to the padding that is cut off; any other source to
      the empty string. */
  lemma {:induction false} WhatIsDecrypted(c: Cipher, text: string, partial: bytes)
    requires BlockCipher(c)
    ensures
      var cipher := Source(text, partial);
      if |cipher| < 16 || |cipher| % 16 != 0 then Decrypted(c, text, partial) == Some([])
      else
        var plain := CBCDecrypted(c, KEY, cipher);
        && plain != [] && Chains(c, KEY, plain, cipher)
        && var last := plain[|plain| - 1];
           Decrypted(c, text, partial) == if last > |plain| then None else Some(plain[..|plain| - last])
  {
    var cipher := Source(text, partial);
    if |cipher| >= 16 && |cipher| % 16 == 0 {
      var plain := CBCDecrypted(c, KEY, cipher);
      DecryptedLength(c, KEY, cipher);
      EncryptAfterDecrypt(c, KEY, cipher);
      EncryptedChains(c, KEY, plain);
    }
  }

  /** The key, in characters. */
  lemma KeyIs()
    ensures |KEY| == 16 && forall i :: 0 <= i < 16 ==> KEY[i] as char == "480055b0a0c4d10c"[i]
  {
  }

  /** The alphabet of section 4 of RFC 4648. */
  lemma AlphabetIs(v: nat)
    requires v < 64
    ensures v < 26 ==> Symbol(v) == ('A' as int + v) as char
    ensures 26 <= v < 52 ==> Symbol(v) == ('a' as int + (v - 26)) as char
    ensures 52 <= v < 62 ==> Symbol(v) == ('0' as int + (v - 52)) as char
    ensures v == 62 ==> Symbol(v) == '+'
    ensures v == 63 ==> Symbol(v) == '/'
  {
  }

  lemma Digits(v0: nat, v1: nat, v2: nat, v3: nat, n: nat)
    requires v1 < 64 && v2 < 64 && v3 < 64 && n == v0 * 262144 + v1 * 4096 + v2 * 64 + v3
    ensures n / 262144 == v0 && n / 4096 % 64 == v1 && n / 64 % 64 == v2 && n % 64 == v3
  {
    assert n / 64 == v0 * 4096 + v1 * 64 + v2;
    assert n / 4096 == v0 * 64 + v1;
  }

  /** Three bytes are four symbols of six bits, highest first. */
  lemma {:induction false} GroupIs(b: bytes)
    requires |b| >= 3
    ensures
      var n: nat := (b[0] as nat) * 65536 + (b[1] as nat) * 256 + b[2] as nat;
      && n < 16777216
      && EncodeToString(b) ==
           [Symbol(n / 262144), Symbol(n / 4096 % 64), Symbol(n / 64 % 64), Symbol(n % 64)] + EncodeToString(b[3..])
  {
    var n: nat := (b[0] as nat) * 65536 + (b[1] as nat) * 256 + b[2] as nat;
    Digits(b[0] / 4, b[0] % 4 * 16 + b[1] / 16, b[1] % 16 * 4 + b[2] / 64, b[2] % 64, n);
  }

  /** One or two bytes are filled up with zero bits and told apart by the padding. */
  lemma {:induction false} TailIs(b: bytes)
    requires |b| <= 2
    ensures b == [] ==> EncodeToString(b) == ""
    ensures |b| == 1 ==> EncodeToString(b) == [Symbol(b[0] / 4), Symbol(b[0] % 4 * 16), '=', '=']
    ensures |b| == 2 ==>
      EncodeToString(b) == [Symbol(b[0] / 4), Symbol(b[0] % 4 * 16 + b[1] / 16), Symbol(b[1] % 16 * 4), '=']
  {
  }

  // ----- Both ways -----

  function Encrypted(c: Cipher, plaintext: bytes): string {
    EncodeToString(CBCEncrypted(c, KEY, PKCS5Padding(plaintext)))
  }

  /** The bytes a text stands for; of a malformed one the decoder delivers whatever it had by then. */
  function Source(text: string, partial: bytes): bytes {
    Decoded(text).GetOr(partial)
  }

  /** None is a panic, an unusable source gives the empty string. */
  function Decrypted(c: Cipher, text: string, partial: bytes): Option<bytes>
    requires BlockCipher(c)
  {
    var b := Source(text, partial);
    if |b| < BLOCK || |b| % BLOCK != 0 then Some([]) else
    DecryptedLength(c, KEY, b);
    PKCS5UnPadding(CBCDecrypted(c, KEY, b))
  }

  lemma {:induction false} DecryptedLength(c: Cipher, iv: bytes, cipher: bytes)
    requires BlockCipher(c) && |iv| == BLOCK && WholeBlocks(|cipher|)
    ensures |CBCDecrypted(c, iv, cipher)| == |cipher|
    decreases |cipher|
  {
    if |cipher| >= BLOCK {
      DecryptedLength(c, cipher[..BLOCK], cipher[BLOCK..]);
    }
  }

  method AesEncrypt(c: Cipher, plaintext: bytes) returns (text: string)
    requires BlockCipher(c)
    ensures text == Encrypted(c, plaintext)
  {
    var b := PKCS5Padding(plaintext);
    PaddingRoundTrip(plaintext);
    var ciphertext := new byte[|b|];
    EncryptBlocks(c, KEY, ciphertext, b);
    text := EncodeToString(ciphertext[..]);
  }

  method AesDecrypt(c: Cipher, text: string, partial: bytes) returns (plaintext: bytes, fault: Fault)
    requires BlockCipher(c)
    ensures fault == (if Decrypted(c, text, partial).None? then Panicked else NoFault)
    ensures plaintext == Decrypted(c, text, partial).GetOr([])
  {
    var b := Source(text, partial);
    if |b| < BLOCK {
      return [], NoFault;
    }
    if |b| % BLOCK != 0 {
      return [], NoFault;
    }
    var buffer := new byte[|b|];
    DecryptBlocks(c, KEY, buffer, b);
    DecryptedLength(c, KEY, b);
    var cut := PKCS5UnPadding(buffer[..]);
    match cut
    case None => return [], Panicked;
    case Some(p) => return p, NoFault;
  }

  /** Decrypting an encrypted string gives back the string, whatever its length. */
  lemma EncryptionRoundTrip(c: Cipher, plaintext: bytes, partial: bytes)
    requires BlockCipher(c)
    ensures Decrypted(c, Encrypted(c, plaintext), partial) == Some(plaintext)
  {
    var padded := PKCS5Padding(plaintext);
    var b := CBCEncrypted(c, KEY, padded);
    PaddingRoundTrip(plaintext);
    ChainingRoundTrip(c, KEY, padded);
    Base64RoundTrip(b);
  }

  /** Different strings are encrypted differently. */
  lemma EncryptionIsInjective(c: Cipher, a: bytes, b: bytes)
    requires BlockCipher(c)
    ensures Encrypted(c, a) == Encrypted(c, b) ==> a == b
  {
    EncryptionRoundTrip(c, a, []);
    EncryptionRoundTrip(c, b, []);
  }

  lemma {:induction false} EncryptAfterDecrypt(c: Cipher, iv: bytes, cipher: bytes)
    requires BlockCipher(c) && |iv| == BLOCK && WholeBlocks(|cipher|)
    ensures CBCEncrypted(c, iv, CBCDecrypted(c, iv, cipher)) == cipher
    decreases |cipher|
  {
    FirstAndRest(cipher);
    if cipher != [] {
      var x, rest := cipher[..BLOCK], cipher[BLOCK..];
      DecryptFirst(c, iv, x, rest);
      var p := XorBlocks(c.decrypt(x), iv);
      EncryptAfterDecrypt(c, x, rest);
      EncryptFirst(c, iv, p, CBCDecrypted(c, x, rest));
      XorBlocksTwice(c.decrypt(x), iv);
    }
  }

  /** The other way round: what a source of whole blocks decrypts to encrypts to the same bytes again exactly when
      the decrypted padding was in order. */
  lemma {:induction false} ReEncryption(c: Cipher, text: string, partial: bytes)
    requires BlockCipher(c)
    requires var b := Source(text, partial); |b| >= BLOCK && |b| % BLOCK == 0
    ensures var d := Decrypted(c, text, partial);
            d.Some? && Encrypted(c, d.value) == EncodeToString(Source(text, partial)) <==>
              WellPadded(CBCDecrypted(c, KEY, Source(text, partial)))
  {
    ReEncryptedBytes(c, Source(text, partial));
  }

  lemma {:induction false} ReEncryptedBytes(c: Cipher, b: bytes)
    requires BlockCipher(c) && |b| >= BLOCK && |b| % BLOCK == 0
    ensures var s := CBCDecrypted(c, KEY, b);
            && s != []
            && (PKCS5UnPadding(s).Some? && Encrypted(c, PKCS5UnPadding(s).value) == EncodeToString(b) <==>
                  WellPadded(s))
  {
    var s := CBCDecrypted(c, KEY, b);
    DecryptedLength(c, KEY, b);
    assert |s| == |b|;
    UnPaddingRoundTrip(s);
    EncryptAfterDecrypt(c, KEY, b);
    if PKCS5UnPadding(s).Some? {
      var padded := PKCS5Padding(PKCS5UnPadding(s).value);
      PaddingRoundTrip(PKCS5UnPadding(s).value);
      SameText(c, padded, s);
    }
  }

  /** Whole blocks are told apart by what they are encrypted to. */
  lemma {:induction false} SameText(c: Cipher, a: bytes, b: bytes)
    requires BlockCipher(c) && WholeBlocks(|a|) && WholeBlocks(|b|)
    ensures EncodeToString(CBCEncrypted(c, KEY, a)) == EncodeToString(CBCEncrypted(c, KEY, b)) <==> a == b
  {
    Base64RoundTrip(CBCEncrypted(c, KEY, a));
    Base64RoundTrip(CBCEncrypted(c, KEY, b));
    ChainingRoundTrip(c, KEY, a);
    ChainingRoundTrip(c, KEY, b);
  }
}

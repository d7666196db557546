/** IPv4 masks and the gateway check of the guest customization (helper/virtualmachine/virtualmachinecustomize),
    after the prefix notation of section 3.1 of RFC 4632. */
module Cidr {
  import opened Wrappers
  import opened Powers

  type octet = x: int | 0 <= x < 256

  /** An address or a mask. */
  datatype IP = IP(a: octet, b: octet, c: octet, d: octet)

  /** The number an address stands for. */
  function Value(ip: IP): nat {
    ((ip.a * 256 + ip.b) * 256 + ip.c) * 256 + ip.d
  }

  /** Its highest octet comes first. */
  lemma ValueIs(ip: IP)
    ensures Value(ip) == ip.a * 16777216 + ip.b * 65536 + ip.c * 256 + ip.d
  {
  }

  /** The bits of a and b, both of n bits, that are set in both. */
  function AndBits(a: nat, b: nat, n: nat): (r: nat)
    decreases n
  {
    if n == 0 then 0 else (if a % 2 == 1 && b % 2 == 1 then 1 else 0) + 2 * AndBits(a / 2, b / 2, n - 1)
  }

  /** The octet with the given number of leading ones. */
  function OnesOctet(n: int): octet {
    if n >= 8 then 255
    else if n <= 0 then 0
    else if n == 1 then 128 else if n == 2 then 192 else if n == 3 then 224 else if n == 4 then 240
    else if n == 5 then 248 else if n == 6 then 252 else 254
  }

  /** The mask with the first m of 32 bits set; there is none for other m. */
  function CIDRMask(m: int): Option<IP> {
    if 0 <= m <= 32 then Some(IP(OnesOctet(m), OnesOctet(m - 8), OnesOctet(m - 16), OnesOctet(m - 24))) else None
  }

  /** The four numbers of the dotted mask. Indexing a missing mask panics. */
  function V4CIDRMaskToDotted(m: int): Option<(int, int, int, int)> {
    match CIDRMask(m)
    case None => None
    case Some(mask) => Some((mask.a, mask.b, mask.c, mask.d))
  }

  lemma {:induction false} AndIsSmall(a: nat, b: nat, n: nat)
    ensures AndBits(a, b, n) < Pow2(n)
  {
    if n > 0 {
      AndIsSmall(a / 2, b / 2, n - 1);
    }
  }

  lemma {:induction false} AndFits(a: octet, b: octet)
    ensures AndBits(a, b, Bits()) < 256
  {
    AndIsSmall(a, b, Bits());
    assert Pow2(4) == 16;
  }

  function And(a: octet, b: octet): octet {
    AndFits(a, b);
    AndBits(a, b, Bits())
  }

  function Mask(ip: IP, mask: IP): IP {
    IP(And(ip.a, mask.a), And(ip.b, mask.b), And(ip.c, mask.c), And(ip.d, mask.d))
  }

  /** Masking by a missing mask gives no address, and two missing addresses count as equal. */
  predicate MatchGateway(a: IP, m: int, g: IP) {
    match CIDRMask(m)
    case None => true
    case Some(mask) => Mask(a, mask) == Mask(g, mask)
  }

  // ----- Powers and bits -----

  lemma {:induction false} Pow2Sum(a: nat, b: nat)
    ensures Pow2(a + b) == Pow2(a) * Pow2(b)
  {
    if a > 0 {
      Pow2Sum(a - 1, b);
    }
  }

  lemma Pow2By8(a: nat)
    ensures Pow2(a + 8) == Pow2(a) * 256
  {
    Pow2Sum(a, 8);
    Pow2Octet();
  }

  lemma {:induction false} OnesOctetValue(k: int)
    requires 0 <= k <= 8
    ensures OnesOctet(k) == 256 - Pow2(8 - k)
  {
    Pow2Octet();
  }

  /** Masking an octet drops its low bits. */
  lemma {:induction false} AndOnes(a: nat, k: nat, n: nat)
    requires k <= n && a < Pow2(n)
    ensures Pow2(n - k) <= Pow2(n) && AndBits(a, Pow2(n) - Pow2(n - k), n) == a - a % Pow2(n - k)
    decreases n
  {
    if n > 0 {
      if k == n {
        AndAll(a, n);
      } else {
        assert Pow2(n) == 2 * Pow2(n - 1) && Pow2(n - k) == 2 * Pow2(n - 1 - k);
        AndOnes(a / 2, k, n - 1);
        var b := Pow2(n) - Pow2(n - k);
        assert b / 2 == Pow2(n - 1) - Pow2(n - 1 - k) && b % 2 == 0;
        HalfRest(a, Pow2(n - 1 - k));
      }
    }
  }

  lemma HalfRest(a: nat, p: nat)
    requires p > 0
    ensures 2 * (a / 2 - a / 2 % p) == a - a % (2 * p)
  {
    var q := a / 2 / p;
    var r := a / 2 % p;
    assert a == 2 * (p * q + r) + a % 2;
    assert 2 * p * q == 2 * (p * q);
    Rest(a, 2 * p, q, 2 * r + a % 2);
  }

  /** A quotient and a rest smaller than the divisor are the quotient and the rest. */
  lemma Rest(a: int, d: int, q: int, r: int)
    requires d > 0 && a == d * q + r && 0 <= r < d
    ensures a / d == q && a % d == r
  {
    var e := a / d - q;
    assert a == d * (a / d) + a % d;
    assert d * (a / d) - d * q == d * e;
    Multiple(d, e);
  }

  lemma Multiple(d: int, e: int)
    requires d > 0
    ensures e >= 1 ==> d * e >= d
    ensures e <= -1 ==> d * e <= 0 - d
  {
    if e >= 1 {
      assert d * (e - 1) >= 0;
    } else if e <= -1 {
      assert d * (0 - e - 1) >= 0;
    }
  }

  lemma {:induction false} AndAll(a: nat, n: nat)
    requires a < Pow2(n)
    ensures AndBits(a, Pow2(n) - 1, n) == a
  {
    if n > 0 {
      assert (Pow2(n) - 1) / 2 == Pow2(n - 1) - 1 && (Pow2(n) - 1) % 2 == 1;
      AndAll(a / 2, n - 1);
    }
  }

  /** The bits above the lowest n. */
  function High(v: nat, n: nat): (r: nat)
    decreases n
  {
    if n == 0 then v else High(v / 2, n - 1)
  }

  lemma {:induction false} HighIsQuotient(v: nat, n: nat)
    ensures High(v, n) == v / Pow2(n)
  {
    if n > 0 {
      HighIsQuotient(v / 2, n - 1);
      DivideTwice(v, 2, Pow2(n - 1));
    }
  }

  lemma HighOfOctet(x: nat, v: nat, l: octet, n: nat)
    requires x == v * 256 + l
    ensures High(x, n + 8) == High(v, n)
  {
    HighSteps(x, n + 4);
    HighSteps(x / 16, n);
    assert x / 16 / 16 == v;
  }

  lemma {:induction false} HighSteps(x: nat, n: nat)
    ensures High(x, n + 4) == High(x / 16, n)
  {
    assert High(x, n + 4) == High(x / 2, n + 3);
    assert High(x / 2, n + 3) == High(x / 2 / 2, n + 2);
    assert High(x / 2 / 2, n + 2) == High(x / 2 / 2 / 2, n + 1);
    assert High(x / 2 / 2 / 2, n + 1) == High(x / 2 / 2 / 2 / 2, n);
    assert x / 2 / 2 / 2 / 2 == x / 16;
  }

  /** A number without its r low bits. */
  function Low(a: nat, r: nat): nat
    decreases r
  {
    if r == 0 then a else 2 * Low(a / 2, r - 1)
  }

  lemma {:induction false} LowIs(a: nat, r: nat)
    ensures Low(a, r) == a - a % Pow2(r)
  {
    if r > 0 {
      LowIs(a / 2, r - 1);
      HalfRest(a, Pow2(r - 1));
    }
  }

  lemma {:induction false} LowOfAll(a: octet)
    ensures Low(a, 8) == 0
  {
    LowIs(a, 8);
    Pow2Octet();
  }

  /** How many bits of an octet a mask clears that sets k bits from the octet's start on. */
  function Cleared(k: int): nat {
    if k >= 8 then 0 else if k <= 0 then 8 else 8 - k
  }

  lemma {:induction false} MaskedBits(a: octet, k: nat, n: nat)
    requires k <= n == 8
    ensures AndBits(a, OnesOctet(k), n) == Low(a, n - k)
  {
    Pow2Octet();
    OnesOctetValue(k);
    LowIs(a, n - k);
    AndOnes(a, k, n);
  }

  /** Masking an octet by k leading ones leaves its k high bits. */
  lemma {:induction false} MaskedOctet(a: octet, k: int)
    ensures And(a, OnesOctet(k)) == Low(a, Cleared(k))
  {
    MaskedBits(a, if k >= 8 then 8 else if k <= 0 then 0 else k, Bits());
  }

  /** Dividing by a power of two up to 256 leaves the octets before apart from the last one's leading bits. */
  lemma Quotient(v: nat, a: octet, p: nat, k: nat)
    requires p > 0 && p * k == 256
    ensures a / p < k && (v * 256 + a) / p == k * v + a / p
  {
    assert a == p * (a / p) + a % p;
    assert p * (k * v) == (p * k) * v;
    assert p * (k * v + a / p) == p * (k * v) + p * (a / p);
    Rest(v * 256 + a, p, k * v + a / p, a % p);
    assert p * (k - a / p) == 256 - p * (a / p);
    Multiple(p, a / p - k);
    assert p * (a / p - k) == p * (a / p) - 256;
  }

  lemma Split(v: nat, a: octet, w: nat, b: octet, p: nat, k: nat)
    requires p > 0 && p * k == 256
    ensures (v * 256 + a) / p == (w * 256 + b) / p <==> v == w && a - a % p == b - b % p
  {
    Quotient(v, a, p, k);
    Quotient(w, b, p, k);
    var x, y := a / p, b / p;
    assert a - a % p == p * x && b - b % p == p * y;
    SameMultiple(p, x, y);
    Rest(k * v + x, k, v, x);
    Rest(k * w + y, k, w, y);
  }

  lemma SameMultiple(p: nat, x: int, y: int)
    requires p > 0
    ensures p * x == p * y <==> x == y
  {
    assert p * (x - y) == p * x - p * y;
    Multiple(p, x - y);
  }

  lemma {:induction false} SplitAtPower(x: nat, v: nat, a: octet, y: nat, w: nat, b: octet, r: nat)
    requires r <= 8 && x == v * 256 + a && y == w * 256 + b
    ensures x / Pow2(r) == y / Pow2(r) <==> v == w && a - a % Pow2(r) == b - b % Pow2(r)
  {
    Pow2Sum(r, 8 - r);
    Pow2Octet();
    Split(v, a, w, b, Pow2(r), Pow2(8 - r));
  }

  /** Two numbers agree above their r low bits exactly when their upper octets do and their last octets' high bits. */
  lemma {:induction false} SplitOctet(x: nat, v: nat, a: octet, y: nat, w: nat, b: octet, r: nat)
    requires r <= 8 && x == v * 256 + a && y == w * 256 + b
    ensures High(x, r) == High(y, r) <==> v == w && Low(a, r) == Low(b, r)
  {
    SplitAtPower(x, v, a, y, w, b, r);
    HighIsQuotient(x, r);
    HighIsQuotient(y, r);
    LowIs(a, r);
    LowIs(b, r);
  }

  // ----- What the functions mean -----

  /** The dotted mask of a prefix length is the number with just the leading bits set; other lengths panic. */
  lemma {:induction false} DottedMaskValue(m: int)
    ensures V4CIDRMaskToDotted(m).Some? <==> 0 <= m <= 32
    ensures 0 <= m <= 32 ==>
              var (a, b, c, d) := V4CIDRMaskToDotted(m).value;
              ((a * 256 + b) * 256 + c) * 256 + d == Pow2(32) - Pow2(32 - m)
  {
    Pow2Octet();
    Pow2By8(8);
    Pow2By8(16);
    Pow2By8(24);
    if 0 <= m <= 8 {
      OnesOctetValue(m);
      Pow2By8(8 - m);
      Pow2By8(16 - m);
      Pow2By8(24 - m);
    } else if 8 < m <= 16 {
      OnesOctetValue(m - 8);
      Pow2By8(16 - m);
      Pow2By8(24 - m);
    } else if 16 < m <= 24 {
      OnesOctetValue(m - 16);
      Pow2By8(24 - m);
    } else if 24 < m <= 32 {
      OnesOctetValue(m - 24);
    }
  }

  /** An address as a mask leaves it. */
  lemma Masked(ip: IP, m: int)
    requires 0 <= m <= 32
    ensures var r := Mask(ip, CIDRMask(m).value);
            && r.a == Low(ip.a, Cleared(m)) && r.b == Low(ip.b, Cleared(m - 8))
            && r.c == Low(ip.c, Cleared(m - 16)) && r.d == Low(ip.d, Cleared(m - 24))
  {
    MaskedOctet(ip.a, m);
    MaskedOctet(ip.b, m - 8);
    MaskedOctet(ip.c, m - 16);
    MaskedOctet(ip.d, m - 24);
  }

  predicate SameHigh(x: nat, y: nat, n: nat) {
    High(x, n) == High(y, n)
  }

  predicate SameLow(a: octet, g: octet, k: int) {
    Low(a, Cleared(k)) == Low(g, Cleared(k))
  }

  lemma MaskedEqual(a: IP, g: IP, m: int)
    requires 0 <= m <= 32
    ensures MatchGateway(a, m, g) <==>
            SameLow(a.a, g.a, m) && SameLow(a.b, g.b, m - 8) && SameLow(a.c, g.c, m - 16) && SameLow(a.d, g.d, m - 24)
  {
    Masked(a, m);
    Masked(g, m);
    var x, y := Mask(a, CIDRMask(m).value), Mask(g, CIDRMask(m).value);
    assert x == y <==> x.a == y.a && x.b == y.b && x.c == y.c && x.d == y.d;
  }

  /** Octets behind the prefix are cleared and do not matter, those within it count in full. */
  lemma OutsideOrInside(a: octet, g: octet, k: int)
    ensures k <= 0 ==> SameLow(a, g, k)
    ensures k >= 8 ==> (SameLow(a, g, k) <==> a == g)
  {
    LowOfAll(a);
    LowOfAll(g);
  }

  lemma SkipOctet(x: nat, v: nat, a: octet, y: nat, w: nat, b: octet, n: nat)
    requires x == v * 256 + a && y == w * 256 + b
    ensures SameHigh(x, y, n + 8) <==> SameHigh(v, w, n)
  {
    HighOfOctet(x, v, a, n);
    HighOfOctet(y, w, b, n);
  }

  lemma StopAtOctet(x: nat, v: nat, a: octet, y: nat, w: nat, b: octet, k: int)
    requires 0 <= k <= 8 && x == v * 256 + a && y == w * 256 + b
    ensures SameHigh(x, y, 8 - k) <==> v == w && SameLow(a, b, k)
  {
    SplitOctet(x, v, a, y, w, b, 8 - k);
  }

  lemma OneOctet(a: octet, g: octet, m: int)
    requires 0 <= m <= 8
    ensures SameHigh(a, g, 8 - m) <==> SameLow(a, g, m)
  {
    StopAtOctet(a, 0, a, g, 0, g, m);
  }

  lemma TwoOctets(x: nat, a: octet, b: octet, y: nat, g: octet, h: octet, m: int)
    requires 0 <= m <= 16 && x == a * 256 + b && y == g * 256 + h
    ensures SameHigh(x, y, 16 - m) <==> SameLow(a, g, m) && SameLow(b, h, m - 8)
  {
    OutsideOrInside(a, g, m);
    OutsideOrInside(b, h, m - 8);
    if m <= 8 {
      SkipOctet(x, a, b, y, g, h, 8 - m);
      OneOctet(a, g, m);
    } else {
      StopAtOctet(x, a, b, y, g, h, m - 8);
    }
  }

  lemma ThreeOctets(x: nat, v: nat, a: octet, b: octet, c: octet, y: nat, w: nat, g: octet,
    h: octet, i: octet, m: int)
    requires 0 <= m <= 24 && v == a * 256 + b && w == g * 256 + h && x == v * 256 + c && y == w * 256 + i
    ensures SameHigh(x, y, 24 - m) <==> SameLow(a, g, m) && SameLow(b, h, m - 8) && SameLow(c, i, m - 16)
  {
    OutsideOrInside(a, g, m);
    OutsideOrInside(b, h, m - 8);
    OutsideOrInside(c, i, m - 16);
    if m <= 16 {
      SkipOctet(x, v, c, y, w, i, 16 - m);
      TwoOctets(v, a, b, w, g, h, m);
    } else {
      StopAtOctet(x, v, c, y, w, i, m - 16);
    }
  }

  lemma FourOctets(a: IP, g: IP, m: int)
    requires 0 <= m <= 32
    ensures SameHigh(Value(a), Value(g), 32 - m) <==>
            SameLow(a.a, g.a, m) && SameLow(a.b, g.b, m - 8) && SameLow(a.c, g.c, m - 16) && SameLow(a.d, g.d, m - 24)
  {
    OutsideOrInside(a.a, g.a, m);
    OutsideOrInside(a.b, g.b, m - 8);
    OutsideOrInside(a.c, g.c, m - 16);
    OutsideOrInside(a.d, g.d, m - 24);
    var v, w := a.a * 256 + a.b, g.a * 256 + g.b;
    var x, y := v * 256 + a.c, w * 256 + g.c;
    if m <= 24 {
      SkipOctet(Value(a), x, a.d, Value(g), y, g.d, 24 - m);
      ThreeOctets(x, v, a.a, a.b, a.c, y, w, g.a, g.b, g.c, m);
    } else {
      StopAtOctet(Value(a), x, a.d, Value(g), y, g.d, m - 24);
    }
  }

  lemma MatchIsHigh(a: IP, g: IP, m: int)
    requires 0 <= m <= 32
    ensures MatchGateway(a, m, g) <==> SameHigh(Value(a), Value(g), 32 - m)
  {
    MaskedEqual(a, g, m);
    FourOctets(a, g, m);
  }

  /** The gateway fits an address exactly when both lie in the same block of 2^(32-m) addresses, and always if there is
      no such prefix length. */
  lemma {:induction false} GatewayInSameBlock(a: IP, m: int, g: IP)
    ensures MatchGateway(a, m, g) <==>
      (0 <= m <= 32 ==>
         Value(a) / Pow2(32 - m) == Value(g) / Pow2(32 - m))
  {
    if 0 <= m <= 32 {
      MatchIsHigh(a, g, m);
      HighIsQuotient(Value(a), 32 - m);
      HighIsQuotient(Value(g), 32 - m);
    }
  }

  lemma {:induction false} HighFurther(v: nat, n: nat, more: nat)
    ensures High(v, n + more) == High(High(v, n), more)
    decreases n
  {
    if n > 0 {
      HighFurther(v / 2, n - 1, more);
    }
  }

  lemma SameFurther(x: nat, y: nat, n: nat, further: nat)
    requires n <= further
    ensures SameHigh(x, y, n) ==> SameHigh(x, y, further)
  {
    HighFurther(x, n, further - n);
    HighFurther(y, n, further - n);
  }

  /** Blocks nest: addresses that share the block of a longer prefix share that of a shorter one, so a gateway
      that fits under the longer prefix fits under the shorter. */
  lemma BlocksNest(x: nat, y: nat, m: nat, shorter: nat)
    requires shorter <= m <= 32 && x / Pow2(32 - m) == y / Pow2(32 - m)
    ensures x / Pow2(32 - shorter) == y / Pow2(32 - shorter)
  {
    HighIsQuotient(x, 32 - m);
    HighIsQuotient(y, 32 - m);
    SameFurther(x, y, 32 - m, 32 - shorter);
    HighIsQuotient(x, 32 - shorter);
    HighIsQuotient(y, 32 - shorter);
  }

  lemma DivideTwice(v: nat, p: nat, q: nat)
    requires p > 0 && q > 0
    ensures p * q > 0 && v / (p * q) == v / p / q
  {
    var x := v / p;
    var y := x / q;
    var r := p * (x % q) + v % p;
    assert p * (x % q) + p * (q - x % q) == p * q;
    Multiple(p, q - x % q);
    Multiple(p, q);
    assert p * x == p * (q * y) + p * (x % q) by {
      assert x == q * y + x % q;
    }
    assert p * (q * y) == p * q * y;
    Rest(v, p * q, y, r);
  }
}

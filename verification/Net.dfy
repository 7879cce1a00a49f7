/** IP addresses, CIDR prefixes and the arithmetic behind `contains`
    (crates/core/src/net.rs). */
module Net {
  import opened Results

  function Pow2(n: nat): (r: nat)
    ensures r >= 1
  {
    if n == 0 then 1 else 2 * Pow2(n - 1)
  }

  type U32 = n: nat | n < 0x1_0000_0000
  type U128 = n: nat | n < 0x1_0000_0000_0000_0000_0000_0000_0000_0000

  datatype IpAddr = V4(v4: U32) | V6(v6: U128)

  /** Address width of a family. */
  function Width(ip: IpAddr): (w: nat)
  {
    if ip.V4? then 32 else 128
  }

  function Bits(ip: IpAddr): (b: nat)
  {
    match ip case V4(b) => b case V6(b) => b
  }

  predicate SameFamily(a: IpAddr, b: IpAddr)
  {
    a.V4? == b.V4?
  }

  // --------------------------------------------------------- machine words

  /** Bitwise AND, bit by bit from the lowest. */
  function And(a: nat, b: nat): (r: nat)
    ensures r <= a
  {
    if a == 0 || b == 0 then 0
    else 2 * And(a / 2, b / 2) + (if a % 2 == 1 && b % 2 == 1 then 1 else 0)
  }

  /** `MAX << k` on an unsigned word of `w` bits: the bits shifted out are lost.
      A shift by `w` or more is an overflow, so it is not allowed here. */
  function MaxShl(w: nat, k: nat): (r: nat)
    requires k < w
  {
    ((Pow2(w) - 1) * Pow2(k)) % Pow2(w)
  }

  function Min(a: nat, b: nat): (r: nat)
    ensures r <= a && r <= b && (r == a || r == b)
  {
    if a <= b then a else b
  }

  /** A word of `w` bits rounded down to a multiple of `2^(w - len)`, as
      `MaskRoundsDown` shows. Length zero stands apart because `MaxShl` takes no
      shift by `w`. */
  function MaskBits(bits: nat, w: nat, len: nat): (r: nat)
    requires w > 0
    ensures r <= bits
  {
    if len == 0 then 0 else And(bits, MaxShl(w, w - Min(len, w)))
  }

  /** The first address of the block of this length that holds `ip`. */
  function Mask(ip: IpAddr, len: nat): (r: IpAddr)
    ensures SameFamily(r, ip)
  {
    match ip
    case V4(b) => V4(MaskBits(b, 32, len))
    case V6(b) => V6(MaskBits(b, 128, len))
  }

  // --------------------------------------------------------------- prefixes

  datatype IpPrefix = IpPrefix(network: IpAddr, len: nat)

  datatype PrefixError = Length | HostBits

  function NewPrefix(network: IpAddr, len: nat): (r: Result<IpPrefix, PrefixError>)
  {
    if len > Width(network) then Err(PrefixError.Length)
    else if Mask(network, len) != network then Err(HostBits)
    else Ok(IpPrefix(network, len))
  }

  /** A prefix that the constructor can produce. */
  predicate ValidPrefix(p: IpPrefix)
  {
    NewPrefix(p.network, p.len) == Ok(p)
  }

  predicate Contains(p: IpPrefix, ip: IpAddr)
  {
    SameFamily(p.network, ip) && Mask(ip, p.len) == p.network
  }

  /** The overlap test: either network address lies in the other prefix. */
  predicate Overlaps(a: IpPrefix, b: IpPrefix)
  {
    Contains(a, b.network) || Contains(b, a.network)
  }

  // ------------------------------------------------------------- arithmetic

  lemma MulMonotone(a: nat, b: nat, c: nat)
    requires a <= b
    ensures a * c <= b * c
  {
    assert b * c == a * c + (b - a) * c;
  }

  lemma MulAssociative(a: nat, b: nat, c: nat)
    ensures a * (b * c) == (a * b) * c
  {
  }

  lemma {:induction false} Pow2Split(a: nat, b: nat)
    ensures Pow2(a + b) == Pow2(a) * Pow2(b)
  {
    if a > 0 {
      Pow2Split(a - 1, b);
      MulAssociative(2, Pow2(a - 1), Pow2(b));
    }
  }

  lemma {:induction false} Pow2Monotone(a: nat, b: nat)
    requires a <= b
    ensures Pow2(a) <= Pow2(b)
  {
    if a < b { Pow2Monotone(a, b - 1); }
  }

  lemma Pow2Words()
    ensures Pow2(32) == 0x1_0000_0000
    ensures Pow2(128) == 0x1_0000_0000_0000_0000_0000_0000_0000_0000
  {
    assert Pow2(8) == 256;
    Doubled(8, 256);
    Doubled(16, 0x1_0000);
    Doubled(32, 0x1_0000_0000);
    Doubled(64, 0x1_0000_0000_0000_0000);
  }

  lemma Doubled(n: nat, v: nat)
    requires Pow2(n) == v
    ensures Pow2(2 * n) == v * v
  {
    Pow2Split(n, n);
    assert n + n == 2 * n;
  }

  lemma SmallMultiple(t: int, d: nat)
    requires 0 < t * d + d && t * d < d
    ensures t == 0
  {
    if t >= 1 { MulMonotone(1, t, d); }
  }

  lemma DivRest(n: nat, d: nat, q: nat, r: nat)
    requires d > 0 && n == q * d + r && r < d
    ensures n / d == q && n % d == r
  {
    var q', r' := n / d, n % d;
    assert n == d * q' + r';
    assert (q' - q) * d == q' * d - q * d == r - r';
    SmallMultiple(q' - q, d);
  }

  /** The shifted all-ones word has exactly the `w - k` highest bits set. */
  lemma MaxShlValue(w: nat, k: nat)
    requires k < w
    ensures Pow2(k) <= Pow2(w)
    ensures MaxShl(w, k) == Pow2(w) - Pow2(k)
  {
    Pow2Monotone(k, w);
    TopBlock(Pow2(w), Pow2(k));
  }

  lemma TopBlock(W: nat, K: nat)
    requires 0 < K <= W
    ensures ((W - 1) * K) % W == W - K
  {
    assert (W - 1) * K == W * K - K;
    assert (K - 1) * W == W * K - W;
    DivRest((W - 1) * K, W, K - 1, W - K);
  }

  lemma HalfRemainder(x: nat, K: nat)
    requires K > 0
    ensures x % (2 * K) == 2 * ((x / 2) % K) + x % 2
  {
    var q, r := (x / 2) / K, (x / 2) % K;
    assert x / 2 == K * q + r;
    MulAssociative(q, 2, K);
    assert q * (2 * K) == 2 * (K * q);
    DivRest(x, 2 * K, q, 2 * r + x % 2);
  }

  lemma AndEven(x: nat, m: nat, h: nat)
    requires m == 2 * h
    ensures And(x, m) == 2 * And(x / 2, h)
  {
    assert m / 2 == h && m % 2 == 0;
  }

  lemma AndOdd(x: nat, m: nat, h: nat)
    requires m == 2 * h + 1
    ensures And(x, m) == 2 * And(x / 2, h) + x % 2
  {
    assert m / 2 == h && m % 2 == 1;
  }

  lemma {:induction false} AndAll(x: nat, w: nat)
    requires x < Pow2(w)
    ensures And(x, Pow2(w) - 1) == x
  {
    if w > 0 {
      AndAll(x / 2, w - 1);
      AndOdd(x, Pow2(w) - 1, Pow2(w - 1) - 1);
    }
  }

  /** The `k` lowest bits. */
  function Low(x: nat, k: nat): (r: nat)
  {
    if k == 0 then 0 else 2 * Low(x / 2, k - 1) + x % 2
  }

  lemma {:induction false} LowIsRemainder(x: nat, k: nat)
    ensures Low(x, k) == x % Pow2(k)
  {
    if k > 0 {
      LowIsRemainder(x / 2, k - 1);
      HalfRemainder(x, Pow2(k - 1));
    }
  }

  lemma {:induction false} AndLow(x: nat, w: nat, k: nat)
    requires k <= w && x < Pow2(w)
    ensures Pow2(k) <= Pow2(w) && And(x, Pow2(w) - Pow2(k)) + Low(x, k) == x
    decreases w
  {
    if k == w {
      LowIsRemainder(x, k);
      SmallRemainder(x, Pow2(k));
    } else if k == 0 {
      AndAll(x, w);
    } else {
      AndLow(x / 2, w - 1, k - 1);
      AndEven(x, Pow2(w) - Pow2(k), Pow2(w - 1) - Pow2(k - 1));
    }
  }

  /** ANDing a word with its highest `w - k` bits clears the `k` lowest. */
  lemma AndHigh(x: nat, w: nat, k: nat)
    requires k <= w && x < Pow2(w)
    ensures Pow2(k) <= Pow2(w)
    ensures And(x, Pow2(w) - Pow2(k)) == x - x % Pow2(k)
  {
    AndLow(x, w, k);
    LowIsRemainder(x, k);
  }

  lemma SmallRemainder(x: nat, d: nat)
    requires x < d
    ensures x % d == x
  {
    DivRest(x, d, 0, x);
  }

  /** Masking rounds down to a multiple of the block size. */
  lemma MaskRoundsDown(bits: nat, w: nat, len: nat)
    requires 0 < w && len <= w && bits < Pow2(w)
    ensures MaskBits(bits, w, len) == bits - bits % Pow2(w - len)
  {
    if len == 0 {
      SmallRemainder(bits, Pow2(w));
    } else {
      var k := w - len;
      MaxShlValue(w, k);
      AndHigh(bits, w, k);
      assert MaskBits(bits, w, len) == And(bits, Pow2(w) - Pow2(k));
    }
  }

  /** Number of addresses in the prefix. */
  function BlockSize(p: IpPrefix): (r: nat)
    requires p.len <= Width(p.network)
    ensures r >= 1
  {
    Pow2(Width(p.network) - p.len)
  }

  lemma BitsBound(ip: IpAddr)
    ensures Bits(ip) < Pow2(Width(ip))
  {
    Pow2Words();
  }

  lemma MaskValue(ip: IpAddr, len: nat)
    requires len <= Width(ip)
    ensures Bits(Mask(ip, len)) == Bits(ip) - Bits(ip) % Pow2(Width(ip) - len)
  {
    BitsBound(ip);
    MaskRoundsDown(Bits(ip), Width(ip), len);
  }

  /** The constructor accepts exactly the aligned networks with a length that
      fits the family, and reports the length first. */
  lemma NewPrefixAccepts(network: IpAddr, len: nat)
    ensures NewPrefix(network, len).Ok? <==>
              len <= Width(network) && Bits(network) % Pow2(Width(network) - len) == 0
    ensures NewPrefix(network, len) == Err(PrefixError.Length) <==> len > Width(network)
  {
    if len <= Width(network) {
      MaskValue(network, len);
    }
  }

  lemma AlignedInterval(x: nat, n: nat, size: nat)
    requires size > 0 && n % size == 0
    ensures x - x % size == n <==> n <= x < n + size
  {
    if n <= x < n + size {
      DivRest(x, size, n / size, x - n);
    }
  }

  /** `contains` is the interval test, for every length including none and the
      whole width. */
  lemma ContainsIsInterval(p: IpPrefix, ip: IpAddr)
    requires ValidPrefix(p)
    ensures Contains(p, ip) <==>
              SameFamily(p.network, ip) &&
              Bits(p.network) <= Bits(ip) < Bits(p.network) + BlockSize(p)
  {
    NewPrefixAccepts(p.network, p.len);
    if SameFamily(p.network, ip) {
      MaskValue(ip, p.len);
      AlignedInterval(Bits(ip), Bits(p.network), BlockSize(p));
    }
  }

  /** Every address in `inner` is in `outer`. */
  ghost predicate Within(inner: IpPrefix, outer: IpPrefix)
  {
    forall ip :: Contains(inner, ip) ==> Contains(outer, ip)
  }

  ghost predicate ShareAddress(a: IpPrefix, b: IpPrefix)
  {
    exists ip :: Contains(a, ip) && Contains(b, ip)
  }

  /** A valid prefix contains its own network address. */
  lemma ContainsNetwork(p: IpPrefix)
    requires ValidPrefix(p)
    ensures Contains(p, p.network)
  {
    ContainsIsInterval(p, p.network);
  }

  /** Blocks of the longer prefix sit inside blocks of the shorter one. */
  lemma LongerInside(inner: IpPrefix, outer: IpPrefix, ip: IpAddr)
    requires ValidPrefix(inner) && ValidPrefix(outer)
    requires outer.len <= inner.len
    requires Contains(inner, ip) && Contains(outer, ip)
    ensures Within(inner, outer)
  {
    ContainsIsInterval(inner, ip);
    ContainsIsInterval(outer, ip);
    BlockInside(inner, outer, Bits(ip));
    forall x | Contains(inner, x) ensures Contains(outer, x) {
      ContainsIsInterval(inner, x);
      ContainsIsInterval(outer, x);
    }
  }

  lemma BlockInside(inner: IpPrefix, outer: IpPrefix, x: nat)
    requires ValidPrefix(inner) && ValidPrefix(outer) && SameFamily(inner.network, outer.network)
    requires outer.len <= inner.len
    requires Bits(inner.network) <= x < Bits(inner.network) + BlockSize(inner)
    requires Bits(outer.network) <= x < Bits(outer.network) + BlockSize(outer)
    ensures Bits(outer.network) <= Bits(inner.network)
    ensures Bits(inner.network) + BlockSize(inner) <= Bits(outer.network) + BlockSize(outer)
  {
    NewPrefixAccepts(inner.network, inner.len);
    NewPrefixAccepts(outer.network, outer.len);
    Pow2Split(inner.len - outer.len, Width(outer.network) - inner.len);
    var small, ratio := BlockSize(inner), Pow2(inner.len - outer.len);
    assert BlockSize(outer) == ratio * small;
    BlocksNest(Bits(inner.network), Bits(outer.network), small, ratio, x);
  }

  lemma BlocksNest(n: nat, m: nat, small: nat, ratio: nat, x: nat)
    requires small > 0 && ratio > 0
    requires n % small == 0 && m % (ratio * small) == 0
    requires n <= x < n + small && m <= x < m + ratio * small
    ensures m <= n && n + small <= m + ratio * small
  {
    var a, c := n / small, m / (ratio * small);
    var b := c * ratio;
    assert n == a * small && m == c * (ratio * small);
    MulAssociative(c, ratio, small);
    // b * small <= x < (a + 1) * small, and a * small <= x < (b + ratio) * small
    assert (a + 1) * small == a * small + small;
    assert (b + ratio) * small == b * small + ratio * small;
    if b > a { MulMonotone(a + 1, b, small); }
    if a >= b + ratio { MulMonotone(b + ratio, a, small); }
    MulMonotone(b, a, small);
    MulMonotone(a + 1, b + ratio, small);
  }

  /** Two prefixes are nested one way or the other, or share no address; an
      address in both is enough for nesting. */
  lemma NestedOrDisjoint(a: IpPrefix, b: IpPrefix)
    requires ValidPrefix(a) && ValidPrefix(b)
    ensures Within(a, b) || Within(b, a) || !ShareAddress(a, b)
    ensures ShareAddress(a, b) ==> (a.len >= b.len ==> Within(a, b)) && (b.len >= a.len ==> Within(b, a))
  {
    if ShareAddress(a, b) {
      var ip :| Contains(a, ip) && Contains(b, ip);
      if a.len >= b.len { LongerInside(a, b, ip); }
      if b.len >= a.len { LongerInside(b, a, ip); }
    }
  }

  /** `overlaps` holds exactly when some address lies in both. */
  lemma OverlapsIsSharedAddress(a: IpPrefix, b: IpPrefix)
    requires ValidPrefix(a) && ValidPrefix(b)
    ensures Overlaps(a, b) <==> ShareAddress(a, b)
  {
    ContainsNetwork(a);
    ContainsNetwork(b);
    if ShareAddress(a, b) {
      NestedOrDisjoint(a, b);
      if a.len >= b.len {
        assert Contains(b, a.network);
      } else {
        assert Contains(a, b.network);
      }
    }
  }
}

/** The near-black clamp, as the backend and the frontend each compute it. Halves arise only at peak 16,
    where the scale 1.5 is exact, so exact rationals give what the floating-point code gives. */
module Colours {
  const MIN_MAX_CHANNEL: int := 24

  datatype Rgb = Rgb(r: int, g: int, b: int)

  function Max(a: int, b: int): int {
    if a < b then b else a
  }

  function Peak(c: Rgb): int {
    Max(Max(c.r, c.g), c.b)
  }

  predicate IsByte(n: int) {
    0 <= n < 256
  }

  predicate IsColour(c: Rgb) {
    IsByte(c.r) && IsByte(c.g) && IsByte(c.b)
  }

  // ---------- Rounding n / d

  /** Python's round: a half goes to the even neighbour. */
  function RoundHalfEven(n: int, d: int): int
    requires d > 0
  {
    var q := n / d;
    var rem := n - q * d;
    if 2 * rem < d then q else if 2 * rem > d then q + 1 else if q % 2 == 0 then q else q + 1
  }

  /** JavaScript's Math.round: a half goes up. */
  function RoundHalfUp(n: int, d: int): int
    requires d > 0
  {
    var q := n / d;
    if 2 * (n - q * d) >= d then q + 1 else q
  }

  ghost predicate Nearest(m: int, n: int, d: int) {
    -d <= 2 * (m * d - n) <= d
  }

  lemma RemainderBounds(n: int, d: int)
    requires d > 0
    ensures 0 <= n - (n / d) * d < d
  {
    assert n == d * (n / d) + n % d;
  }

  lemma BothNearest(n: int, d: int)
    requires d > 0
    ensures Nearest(RoundHalfEven(n, d), n, d) && Nearest(RoundHalfUp(n, d), n, d)
  {
    RemainderBounds(n, d);
    var q := n / d;
    assert (q + 1) * d == q * d + d;
  }

  lemma MulOrder(a: int, b: int, d: int)
    requires d > 0 && a <= b
    ensures a * d <= b * d
  {
  }

  lemma MulStep(a: int, b: int, d: int)
    requires d > 0 && a < b
    ensures a * d + d <= b * d
  {
    MulOrder(a + 1, b, d);
  }

  lemma ProductsClose(x: int, y: int, n: int, n': int, d: int)
    requires 2 * (x - n) <= d && -d <= 2 * (y - n') && n' - n >= d > 0
    ensures x < y + d
  {
  }

  /** Nearest integers keep the order of what they round. */
  lemma NearestOrder(m: int, n: int, m': int, n': int, d: int)
    requires d > 0 && Nearest(m, n, d) && Nearest(m', n', d) && n' - n >= d
    ensures m <= m'
  {
    ProductsClose(m * d, m' * d, n, n', d);
    if m > m' {
      MulStep(m', m, d);
    }
  }

  lemma NearestExact(m: int, k: int, d: int)
    requires d > 0 && Nearest(m, k * d, d)
    ensures m == k
  {
    if m > k {
      MulStep(k, m, d);
    } else if m < k {
      MulStep(m, k, d);
    }
  }

  // ---------- The clamps

  /** What the backend does to a colour that is not black. */
  function ClampEven(c: Rgb): Rgb
    requires Peak(c) > 0
  {
    var p := Peak(c);
    if p >= MIN_MAX_CHANNEL then c
    else Rgb(RoundHalfEven(c.r * MIN_MAX_CHANNEL, p), RoundHalfEven(c.g * MIN_MAX_CHANNEL, p),
             RoundHalfEven(c.b * MIN_MAX_CHANNEL, p))
  }

  /** What the frontend does to a colour that is not black. */
  function ClampUp(c: Rgb): Rgb
    requires Peak(c) > 0
  {
    var p := Peak(c);
    if p >= MIN_MAX_CHANNEL then c
    else Rgb(RoundHalfUp(c.r * MIN_MAX_CHANNEL, p), RoundHalfUp(c.g * MIN_MAX_CHANNEL, p),
             RoundHalfUp(c.b * MIN_MAX_CHANNEL, p))
  }

  /** `c'` is `c` scaled from `peak` up to 24, rounded to a nearest integer. */
  ghost predicate Lifted(c: int, c': int, peak: int) {
    && Nearest(c', c * MIN_MAX_CHANNEL, peak)
    && (c' == 0 <==> c == 0)
    && (c' == MIN_MAX_CHANNEL <==> c == peak)
    && 0 <= c' <= MIN_MAX_CHANNEL
  }

  lemma LiftChannel(c: int, c': int, peak: int)
    requires 0 <= c <= peak && 0 < peak < MIN_MAX_CHANNEL && Nearest(c', c * MIN_MAX_CHANNEL, peak)
    ensures Lifted(c, c', peak)
  {
    if c == 0 {
      NearestExact(c', 0, peak);
    } else {
      if c' <= 0 {
        MulOrder(c', 0, peak);
        assert false;
      }
    }
    if c == peak {
      NearestExact(c', MIN_MAX_CHANNEL, peak);
    } else {
      if c' >= MIN_MAX_CHANNEL {
        MulOrder(MIN_MAX_CHANNEL, c', peak);
        assert false;
      }
    }
  }

  lemma LiftKeepsOrder(c: int, c': int, d: int, d': int, peak: int)
    requires 0 <= c <= peak && 0 <= d <= peak && 0 < peak < MIN_MAX_CHANNEL
    requires Nearest(c', c * MIN_MAX_CHANNEL, peak) && Nearest(d', d * MIN_MAX_CHANNEL, peak)
    requires c < d
    ensures c' <= d'
  {
    NearestOrder(c', c * MIN_MAX_CHANNEL, d', d * MIN_MAX_CHANNEL, peak);
  }

  /** A faithful clamp: bright colours are kept; others get peak exactly 24, keep their zeros and the
      order of their channels, and miss the exact scale by at most half a step. */
  ghost predicate FaithfulClamp(c: Rgb, c': Rgb) {
    && IsColour(c') && Peak(c') == Max(Peak(c), MIN_MAX_CHANNEL)
    && (Peak(c) >= MIN_MAX_CHANNEL ==> c' == c)
    && (Peak(c) < MIN_MAX_CHANNEL ==>
        Lifted(c.r, c'.r, Peak(c)) && Lifted(c.g, c'.g, Peak(c)) && Lifted(c.b, c'.b, Peak(c)))
    && (c.r < c.g ==> c'.r <= c'.g) && (c.g < c.r ==> c'.g <= c'.r) && (c.r == c.g ==> c'.r == c'.g)
    && (c.g < c.b ==> c'.g <= c'.b) && (c.b < c.g ==> c'.b <= c'.g) && (c.g == c.b ==> c'.g == c'.b)
    && (c.r < c.b ==> c'.r <= c'.b) && (c.b < c.r ==> c'.b <= c'.r) && (c.r == c.b ==> c'.r == c'.b)
  }

  ghost predicate NearestAll(c: Rgb, c': Rgb, peak: int) {
    && Nearest(c'.r, c.r * MIN_MAX_CHANNEL, peak)
    && Nearest(c'.g, c.g * MIN_MAX_CHANNEL, peak)
    && Nearest(c'.b, c.b * MIN_MAX_CHANNEL, peak)
    && (c.r == c.g ==> c'.r == c'.g) && (c.g == c.b ==> c'.g == c'.b) && (c.r == c.b ==> c'.r == c'.b)
  }

  lemma NearestIsFaithful(c: Rgb, c': Rgb)
    requires IsColour(c) && 0 < Peak(c) < MIN_MAX_CHANNEL && NearestAll(c, c', Peak(c))
    ensures FaithfulClamp(c, c')
  {
    var p := Peak(c);
    LiftChannel(c.r, c'.r, p);
    LiftChannel(c.g, c'.g, p);
    LiftChannel(c.b, c'.b, p);
    OrderOfTwo(c.r, c'.r, c.g, c'.g, p);
    OrderOfTwo(c.g, c'.g, c.b, c'.b, p);
    OrderOfTwo(c.r, c'.r, c.b, c'.b, p);
  }

  lemma OrderOfTwo(c: int, c': int, d: int, d': int, peak: int)
    requires 0 <= c <= peak && 0 <= d <= peak && 0 < peak < MIN_MAX_CHANNEL
    requires Nearest(c', c * MIN_MAX_CHANNEL, peak) && Nearest(d', d * MIN_MAX_CHANNEL, peak)
    ensures (c < d ==> c' <= d') && (d < c ==> d' <= c')
  {
    if c < d {
      LiftKeepsOrder(c, c', d, d', peak);
    } else if d < c {
      LiftKeepsOrder(d, d', c, c', peak);
    }
  }

  /** Both clamps are faithful, for every colour that is not black. */
  lemma ClampsAreFaithful(c: Rgb)
    requires IsColour(c) && Peak(c) > 0
    ensures FaithfulClamp(c, ClampEven(c)) && FaithfulClamp(c, ClampUp(c))
  {
    var p := Peak(c);
    if p < MIN_MAX_CHANNEL {
      BothNearest(c.r * MIN_MAX_CHANNEL, p);
      BothNearest(c.g * MIN_MAX_CHANNEL, p);
      BothNearest(c.b * MIN_MAX_CHANNEL, p);
      NearestIsFaithful(c, ClampEven(c));
      NearestIsFaithful(c, ClampUp(c));
    }
  }

  // ---------- Where the two differ

  /** A channel falls halfway between two integers only at peak 16. */
  lemma HalvesOnlyAtSixteen(c: int, peak: int)
    requires 0 <= c <= peak && 0 < peak < MIN_MAX_CHANNEL
    requires 2 * (c * MIN_MAX_CHANNEL - (c * MIN_MAX_CHANNEL / peak) * peak) == peak
    ensures peak == 16
  {
  }

  lemma RoundsAlike(n: int, d: int)
    requires d > 0 && 2 * (n - (n / d) * d) != d
    ensures RoundHalfEven(n, d) == RoundHalfUp(n, d)
  {
  }

  lemma RoundsClose(n: int, d: int)
    requires d > 0
    ensures RoundHalfEven(n, d) <= RoundHalfUp(n, d) <= RoundHalfEven(n, d) + 1
  {
  }

  lemma AtSixteen(c: int)
    requires 0 <= c <= 16
    ensures RoundHalfEven(c * MIN_MAX_CHANNEL, 16) != RoundHalfUp(c * MIN_MAX_CHANNEL, 16) <==> c % 4 == 3
  {
  }

  /** Backend and frontend round a channel differently exactly at peak 16 and channels 3, 7, 11, 15. */
  lemma ChannelsDifferIff(c: int, peak: int)
    requires 0 <= c <= peak && 0 < peak < MIN_MAX_CHANNEL
    ensures
      var even, up := RoundHalfEven(c * MIN_MAX_CHANNEL, peak), RoundHalfUp(c * MIN_MAX_CHANNEL, peak);
      && even <= up <= even + 1
      && (even != up <==> peak == 16 && c % 4 == 3)
  {
    hide RoundHalfEven, RoundHalfUp;
    var n := c * MIN_MAX_CHANNEL;
    RoundsClose(n, peak);
    if peak == 16 {
      AtSixteen(c);
    } else {
      if 2 * (n - (n / peak) * peak) == peak {
        HalvesOnlyAtSixteen(c, peak);
      }
      RoundsAlike(n, peak);
    }
  }

  /** On any colour but black the two clamps are within one step of each other on every channel, and they
      are equal unless the peak is 16 and some channel is 3, 7, 11 or 15. */
  lemma ClampsDifferIff(c: Rgb)
    requires IsColour(c) && Peak(c) > 0
    ensures
      var even, up := ClampEven(c), ClampUp(c);
      && even.r <= up.r <= even.r + 1 && even.g <= up.g <= even.g + 1 && even.b <= up.b <= even.b + 1
      && (even != up <==> Peak(c) == 16 && (c.r % 4 == 3 || c.g % 4 == 3 || c.b % 4 == 3))
  {
    var p := Peak(c);
    if p < MIN_MAX_CHANNEL {
      ChannelsDifferIff(c.r, p);
      ChannelsDifferIff(c.g, p);
      ChannelsDifferIff(c.b, p);
    }
  }

  /** They do differ: on (16, 3, 0) Python gives green 4 and JavaScript 5. */
  lemma TheyDoDiffer()
    ensures ClampEven(Rgb(16, 3, 0)) == Rgb(24, 4, 0) && ClampUp(Rgb(16, 3, 0)) == Rgb(24, 5, 0)
  {
  }
}

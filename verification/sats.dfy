/** Satoshi arithmetic shared by every component: one bitcoin is 10^8 sats. */
module Sats {
  const SatsPerBtc: real := 100000000.0

  /** `Math.round` on a finite value: the nearest integer, halves rounded up. */
  function Round(x: real): (n: int)
    ensures n as real - 0.5 <= x < n as real + 0.5
  {
    (x + 0.5).Floor
  }

  /** `Math.round(price / rate * 100_000_000)`: what a fiat price costs in sats at a BTC rate. */
  function SatsFor(price: real, rate: real): int
    requires rate != 0.0
  {
    Round(price / rate * SatsPerBtc)
  }

  /** `sats / 100_000_000 * rate`: the fiat value of a sats amount at a BTC rate. */
  function FiatFor(sats: real, rate: real): real {
    sats / SatsPerBtc * rate
  }

  /** Rounding is the identity on whole numbers. */
  lemma RoundWhole(n: int)
    ensures Round(n as real) == n
  {
  }

  /** Rounding never reverses an order. */
  lemma RoundMonotone(x: real, y: real)
    requires x <= y
    ensures Round(x) <= Round(y)
  {
  }

  /** For a fixed non-negative price, a higher BTC rate never costs more sats. */
  lemma SatsForAntitone(price: real, low: real, high: real)
    requires price >= 0.0 && 0.0 < low <= high
    ensures SatsFor(price, high) <= SatsFor(price, low)
  {
    assert price / high <= price / low by {
      assert price / high * high == price == price / low * low;
    }
    RoundMonotone(price / high * SatsPerBtc, price / low * SatsPerBtc);
  }

  /** Converting a sats amount to fiat and back at the same rate gives the rounded amount. */
  lemma SatsFiatRoundTrip(sats: real, rate: real)
    requires rate != 0.0
    ensures SatsFor(FiatFor(sats, rate), rate) == Round(sats)
  {
    assert FiatFor(sats, rate) / rate == sats / SatsPerBtc;
  }
}

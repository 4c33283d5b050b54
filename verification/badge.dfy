/**
 * The percent-change badge beside a saved item
 * (src/components/portfolio/PriceChangeBadge.jsx): what the item would cost in
 * sats at today's rate, compared with the sats it cost when it was saved.
 */
module PriceChangeBadge {
  import opened Wrappers
  import opened JsNumber
  import opened Records
  import Sats

  /** Changes smaller than this many percent show as "Stable". */
  const Threshold: real := 0.5

  /** What is drawn: nothing, "Stable", or the rounded-off magnitude with "Cheaper" or "More Exp.". */
  datatype Badge =
    | NoBadge
    | Stable
    | Shown(cheaper: bool, percent: Num, originalSats: int, currentSats: int)

  /** `((currentSatsCost - originalSats) / originalSats) * 100` */
  function DiffPercent(current: int, original: int): (d: Num)
    ensures original != 0 ==> d == Finite((current - original) as real / original as real * 100.0)
    ensures original == 0 ==>
      d == if current > 0 then PosInf else if current == 0 then NaN else NegInf
  {
    Scale(Div(Finite((current - original) as real), Finite(original as real)), 100.0)
  }

  /** The badge for `item` given the current BTC rate in its currency (absent when unknown). */
  function BadgeFor(item: SavedItem, currentBtcPrice: Option<real>): (b: Badge)
    ensures b.NoBadge? <==> currentBtcPrice.None? || currentBtcPrice.value == 0.0
    ensures currentBtcPrice.Some? && currentBtcPrice.value != 0.0 ==>
      var current := Sats.SatsFor(item.price, currentBtcPrice.value);
      var original := item.sats;
      (b.Stable? <==>
         original != 0 && -Threshold < (current - original) as real / original as real * 100.0 < Threshold)
      && (b.Shown? ==> b.currentSats == current && b.originalSats == original)
      && (b.Shown? && original != 0 ==>
            var d := (current - original) as real / original as real * 100.0;
            (b.cheaper <==> d < 0.0) && b.percent == Finite(if d < 0.0 then -d else d))
      && (b.Shown? && original == 0 ==>
            (b.cheaper <==> current < 0) && b.percent == if current == 0 then NaN else PosInf)
  {
    if currentBtcPrice.None? || currentBtcPrice.value == 0.0 then NoBadge
    else
      var current := Sats.SatsFor(item.price, currentBtcPrice.value);
      var d := DiffPercent(current, item.sats);
      if Less(Abs(d), Finite(Threshold)) then Stable
      else Shown(Less(d, Finite(0.0)), Abs(d), item.sats, current)
  }

  /** With a positive original cost, the badge says "Cheaper" exactly when today's cost is lower. */
  lemma CheaperIffLower(item: SavedItem, rate: real)
    requires rate != 0.0 && item.sats > 0
    ensures var b := BadgeFor(item, Some(rate));
      b.Shown? ==> (b.cheaper <==> Sats.SatsFor(item.price, rate) < item.sats)
  {
    var current := Sats.SatsFor(item.price, rate);
    var d := (current - item.sats) as real / item.sats as real;
    assert d < 0.0 <==> current < item.sats by {
      assert d * item.sats as real == (current - item.sats) as real;
    }
  }

  /** An unchanged BTC rate recomputes the saved cost, so the badge is "Stable" (when that cost is not 0). */
  lemma UnchangedRateIsStable(item: SavedItem, rate: real)
    requires rate != 0.0 && item.sats == Sats.SatsFor(item.price, rate) && item.sats != 0
    ensures BadgeFor(item, Some(rate)) == Stable
  {
  }

  /** An item saved at 0 sats and still 0 sats divides 0 by 0: a "NaN% More Exp." badge. */
  lemma ZeroCostShowsNaN(item: SavedItem, rate: real)
    requires rate != 0.0 && item.sats == 0 && Sats.SatsFor(item.price, rate) == 0
    ensures BadgeFor(item, Some(rate)) == Shown(false, NaN, 0, 0)
  {
  }

  /** For a fixed item, a higher BTC rate never gives a higher cost or a larger change. */
  lemma HigherRateNeverCostsMore(item: SavedItem, low: real, high: real)
    requires item.price >= 0.0 && 0.0 < low <= high && item.sats > 0
    ensures Sats.SatsFor(item.price, high) <= Sats.SatsFor(item.price, low)
    ensures DiffPercent(Sats.SatsFor(item.price, high), item.sats).v
         <= DiffPercent(Sats.SatsFor(item.price, low), item.sats).v
  {
    Sats.SatsForAntitone(item.price, low, high);
    var o := item.sats as real;
    var dh := (Sats.SatsFor(item.price, high) - item.sats) as real;
    var dl := (Sats.SatsFor(item.price, low) - item.sats) as real;
    assert dh <= dl;
    assert dh / o <= dl / o by {
      assert dh / o * o == dh && dl / o * o == dl;
    }
  }

  /** The item of the badge's tests: 50,000 USD, saved at 1 BTC. */
  function TestItem(): SavedItem {
    SavedItem(1, "Test Item", 50000.0, "usd", 100000000, "", "", None)
  }

  /** The tests: no rate, no badge; the same rate, "Stable". */
  lemma NoBadgeAndStableExamples()
    ensures BadgeFor(TestItem(), None) == NoBadge
    ensures BadgeFor(TestItem(), Some(50000.0)) == Stable
  {
    UnchangedRateIsStable(TestItem(), 50000.0);
  }

  /** The tests: a doubled rate gives "50.0% Cheaper". */
  lemma DoubledRateExample()
    ensures BadgeFor(TestItem(), Some(100000.0)) == Shown(true, Finite(50.0), 100000000, 50000000)
  {
    assert Sats.SatsFor(50000.0, 100000.0) == 50000000;
  }

  /** The tests: a halved rate gives "100.0% More Exp.". */
  lemma HalvedRateExample()
    ensures BadgeFor(TestItem(), Some(25000.0)) == Shown(false, Finite(100.0), 100000000, 200000000)
  {
    assert Sats.SatsFor(50000.0, 25000.0) == 200000000;
  }
}

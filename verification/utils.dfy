/** The two pure helpers of `client/src/lib/utils.js` that carry logic:
    the discount percentage shown on a product and text truncation. */
module Utils {
  import opened Common

  /** `calculateDiscount(price, compareAtPrice)`: the percentage saved against
      the compare-at price, rounded to a whole number; 0 when there is no
      compare-at price (absent or 0) or it is not above the price. */
  function CalculateDiscount(price: real, compareAtPrice: Option<real>): (d: int)
    ensures (compareAtPrice.None? || compareAtPrice.value == 0.0
             || compareAtPrice.value <= price) ==> d == 0
    ensures compareAtPrice.Some? && 0.0 <= price < compareAtPrice.value ==> 0 <= d <= 100
    ensures compareAtPrice.Some? && 0.0 == price < compareAtPrice.value ==> d == 100
    ensures compareAtPrice.Some? && compareAtPrice.value != 0.0 && price < compareAtPrice.value ==>
              var saved := (compareAtPrice.value - price) / compareAtPrice.value * 100.0;
              saved - 0.5 < d as real <= saved + 0.5
  {
    if compareAtPrice.None? || compareAtPrice.value == 0.0 || compareAtPrice.value <= price then 0
    else
      var c := compareAtPrice.value;
      FractionBounds(c, price);
      Round((c - price) / c * 100.0)
  }

  /** For `0 <= price < c` the saved fraction lies in `(0, 1]`, and is 1 for
      a free product. */
  lemma FractionBounds(c: real, price: real)
    requires c != 0.0
    ensures 0.0 <= price < c ==> 0.0 < (c - price) / c * 100.0 <= 100.0
    ensures 0.0 == price < c ==> (c - price) / c * 100.0 == 100.0
  {
    if 0.0 <= price < c {
      var f := (c - price) / c;
      assert f * c == c - price;
      Quotient(c - price, c);
    }
  }

  lemma Quotient(a: real, c: real)
    requires 0.0 < a <= c
    ensures 0.0 < a / c <= 1.0
  {
  }

  /** For a fixed positive compare-at price, a lower price never shows a
      smaller discount. */
  lemma DiscountMonotone(p1: real, p2: real, c: real)
    requires c > 0.0 && p1 <= p2
    ensures CalculateDiscount(p1, Some(c)) >= CalculateDiscount(p2, Some(c))
  {
    if p2 < c {
      assert (c - p1) / c >= (c - p2) / c by { DivideMonotone(c - p2, c - p1, c); }
      RoundMonotone((c - p2) / c * 100.0, (c - p1) / c * 100.0);
    } else if p1 < c {
      assert (c - p1) / c > 0.0 by { DividePositive(c - p1, c); }
    }
  }

  lemma DivideMonotone(a: real, b: real, c: real)
    requires a <= b && c > 0.0
    ensures a / c <= b / c
  {
  }

  lemma DividePositive(a: real, c: real)
    requires a > 0.0 && c > 0.0
    ensures a / c > 0.0
  {
  }

  /** `truncateText(text, maxLength)`: the text itself when it fits, else its
      first `maxLength` characters (none, for a negative `maxLength`, as
      `substring` clamps) followed by an ellipsis. */
  function TruncateText(text: string, maxLength: int): (r: string)
    ensures |text| <= maxLength ==> r == text
    ensures |text| > maxLength >= 0 ==> |r| == maxLength + 3 && r[maxLength..] == "..."
    ensures |text| > maxLength ==> |r| >= 3 && r[|r| - 3..] == "..."
    ensures maxLength < 0 ==> r == "..."
    ensures var keep := Min(|text|, Max(maxLength, 0));
            keep <= |r| && r[..keep] == text[..keep]
  {
    if |text| <= maxLength then text
    else
      var keep := Max(maxLength, 0);
      var r := text[..keep] + "...";
      assert r[..keep] == text[..keep] && r[keep..] == "...";
      r
  }

  /** Truncating a truncated text changes nothing. */
  lemma TruncateIdempotent(text: string, maxLength: int)
    ensures TruncateText(TruncateText(text, maxLength), maxLength) == TruncateText(text, maxLength)
  {
    var once := TruncateText(text, maxLength);
    if |text| > maxLength {
      var keep := Max(maxLength, 0);
      assert once[..keep] == text[..keep];
    }
  }
}

/** The star row of a product card: whole stars, a half star for a
    fractional rating, grey stars for the rest, and the review count. */
module StarRating {
  import opened Text

  /** `Math.floor(rating)`. */
  function FullStars(rating: real): (r: int)
    ensures r as real <= rating < r as real + 1.0
  {
    rating.Floor
  }

  /** `rating % 1 !== 0`: the rating is not a whole number. JavaScript's
      remainder keeps the sign of the rating, so this holds for negative
      fractions too. */
  predicate HasHalfStar(rating: real) {
    rating != rating.Floor as real
  }

  function AsReal(n: int): real {
    n as real
  }

  /** The half star is shown exactly when no whole number equals the
      rating, and then the rating lies strictly between two whole stars. */
  lemma HalfStarIff(rating: real)
    ensures HasHalfStar(rating) <==> forall n: int :: AsReal(n) != rating
    ensures HasHalfStar(rating) ==> FullStars(rating) as real < rating < FullStars(rating) as real + 1.0
  {
    if !HasHalfStar(rating) {
      assert AsReal(rating.Floor) == rating;
    } else {
      forall n: int ensures AsReal(n) != rating {
      }
    }
  }

  /** `Math.max(0, 5 - fullStars - (hasHalfStar ? 1 : 0))`. */
  function EmptyStars(rating: real): (r: nat)
    ensures r == 0 || r == 5 - FullStars(rating) - (if HasHalfStar(rating) then 1 else 0)
  {
    var e := 5 - FullStars(rating) - (if HasHalfStar(rating) then 1 else 0);
    if e > 0 then e else 0
  }

  /** A rating in the range the product model allows shows exactly five
      stars in all. */
  lemma FiveStars(rating: real)
    requires 0.0 <= rating <= 5.0
    ensures FullStars(rating) >= 0
    ensures FullStars(rating) + (if HasHalfStar(rating) then 1 else 0) + EmptyStars(rating) == 5
  {
    if HasHalfStar(rating) {
      assert FullStars(rating) as real < rating;
    }
  }

  /** A rating of five or more shows no grey star. */
  lemma NoEmptyAtTop(rating: real)
    requires rating >= 5.0
    ensures EmptyStars(rating) == 0
  {
    assert FullStars(rating) >= 5;
  }

  /** `formatReviews` below a thousand: the count in decimal digits. */
  function FormatReviews(count: nat): (r: string)
    requires count < 1000
    ensures 1 <= |r| <= 3 && AllDigits(r)
  {
    NatDigitsBound(count);
    NatText(count)
  }

  /** The shown count reads back as the count. */
  lemma FormatReviewsValue(count: nat)
    requires count < 1000
    ensures DigitsValue(FormatReviews(count)) == count
  {
    NatTextValue(count);
  }

  lemma NatDigitsBound(n: nat)
    requires n < 1000
    ensures |NatText(n)| <= 3
  {
    if n >= 10 {
      var m := n / 10;
      if m >= 10 {
        assert |NatText(m / 10)| == 1;
        assert |NatText(m)| == 2;
      }
    }
  }
}

/** The `RatingValue` value object: a star rating that is an integer from 1 to 5. */
module RatingValues {
  import opened Wrappers
  import opened JsNumber

  /** A rating that passed validation; build it only through `NewRatingValue`. */
  datatype RatingValue = RatingValue(value: real) {

    /** `getValue`. */
    function GetValue(): real {
      value
    }

    /** The value as a whole number of stars (exact for a validated rating). */
    function Stars(): int {
      value.Floor
    }
  }

  /** The error the constructor throws: 'Rating must be an integer between 1 and 5'. */
  datatype RatingError = NotAnIntegerFromOneToFive

  /** The five values the constructor accepts. */
  const AcceptedStars: set<real> := {1.0, 2.0, 3.0, 4.0, 5.0}

  /** The constructor with its `validate` call: integers 1..5 pass, everything else (NaN included) throws. */
  function NewRatingValue(n: Num): (r: Result<RatingValue, RatingError>)
    ensures r.Success? <==> n.Fin? && n.v in AcceptedStars
    ensures r.Success? ==> r.value.GetValue() == n.v
    ensures r.Success? ==> 1 <= r.value.Stars() <= 5 && r.value.Stars() as real == n.v
  {
    if n.NaN? || !IsInteger(n.v) || n.v < 1.0 || n.v > 5.0 then
      Failure(NotAnIntegerFromOneToFive)
    else
      var k := n.v.Floor;
      assert k == 1 || k == 2 || k == 3 || k == 4 || k == 5;
      Success(RatingValue(n.v))
  }

  /** `equals`: two ratings are equal exactly when their values are. */
  predicate Equals(a: RatingValue, b: RatingValue) {
    a.value == b.value
  }

  /** `equals` is reflexive and symmetric, and coincides with value equality. */
  lemma EqualsIsValueEquality(a: RatingValue, b: RatingValue)
    ensures Equals(a, a)
    ensures Equals(a, b) <==> Equals(b, a)
    ensures Equals(a, b) <==> a == b
  {
  }

  /** A value inside [1, 5] that is not an integer, such as 3.5, is still rejected. */
  lemma HalfStarRejected()
    ensures NewRatingValue(Fin(3.5)).Failure?
  {
    assert !IsInteger(3.5);
  }
}

// Dollars rounded to cents, ties to even, as the budget service rounds them.
module ModelConfig {
  import opened Wrappers

  const TIE_WIDTH := 0.000000001

  function Abs(x: real): real {
    if x < 0.0 then -x else x
  }

  // Math.floor(scaled), unless scaled is halfway up to the next cent (then the even one) or beyond (then the next).
  function RoundTies(scaled: real): int {
    var floor := scaled.Floor;
    if Abs(scaled - floor as real - 0.5) < TIE_WIDTH then (if floor % 2 == 0 then floor else floor + 1)
    else (scaled + 0.5).Floor
  }

  function Cents(value: real): (r: Result<int>)
    ensures r.Ok? <==> value >= 0.0
  {
    if value < 0.0 then Error else Ok(RoundTies(value * 100.0))
  }

  // Below, at and above the tie, a rounded amount is the floor, the even neighbour and the next.
  lemma RoundTiesCases(scaled: real)
    ensures var floor := scaled.Floor;
      RoundTies(scaled) == if scaled <= floor as real + 0.5 - TIE_WIDTH then floor
                           else if scaled >= floor as real + 0.5 + TIE_WIDTH then floor + 1
                           else if floor % 2 == 0 then floor else floor + 1
  {
  }

  // Rounding keeps order: more dollars are never fewer cents.
  lemma CentsMonotone(a: real, b: real)
    requires 0.0 <= a <= b
    ensures Cents(a).value <= Cents(b).value
  {
    RoundTiesCases(a * 100.0);
    RoundTiesCases(b * 100.0);
  }

  // And moves an amount by no more than half a cent and the width of a tie.
  lemma CentsNear(a: real)
    requires 0.0 <= a
    ensures Abs(Cents(a).value as real - a * 100.0) <= 0.5 + TIE_WIDTH
  {
    RoundTiesCases(a * 100.0);
  }

  // Cents said of the whole cents and the rest: a rest within a billionth of a half goes to the even neighbour.
  lemma CentsMeaning(value: real, whole: nat, rest: real)
    requires value * 100.0 == whole as real + rest && 0.0 <= rest < 1.0
    ensures Cents(value) == Ok(if rest <= 0.499999999 then whole
                               else if rest >= 0.500000001 then whole + 1
                               else if whole % 2 == 0 then whole else whole + 1)
  {
    assert (value * 100.0).Floor == whole;
    RoundTiesCases(value * 100.0);
  }

  // A tie goes to the even cent.
  lemma CentsTies(k: nat)
    ensures Cents((k as real + 0.5) / 100.0).value == (if k % 2 == 0 then k else k + 1)
  {
    var scaled := (k as real + 0.5) / 100.0 * 100.0;
    assert scaled == k as real + 0.5;
    assert scaled.Floor == k;
  }
}

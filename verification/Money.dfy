/** Amounts of money as price times a whole number of shares or lots. */
module Money {
  import opened Reals

  /** The money that `shares` shares are worth at `price`. */
  function Cost(price: real, shares: int): real {
    price * shares as real
  }

  lemma CostAdds(price: real, m: int, n: int)
    ensures Cost(price, m + n) == Cost(price, m) + Cost(price, n)
  {
    assert (m + n) as real == m as real + n as real;
  }

  lemma CostOfDifference(x: real, y: real, n: int)
    ensures Cost(x - y, n) == Cost(x, n) - Cost(y, n)
  {
    MulSub(x, y, n as real);
  }

  lemma CostNonNegative(price: real, n: int)
    requires price >= 0.0 && n >= 0
    ensures Cost(price, n) >= 0.0
    ensures price > 0.0 && n > 0 ==> Cost(price, n) > 0.0
  {
    MulNonNegative(price, n as real);
  }

  lemma NoShares(price: real)
    ensures Cost(price, 0) == 0.0
  {
  }
}

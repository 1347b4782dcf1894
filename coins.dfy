/**
 * The part of the SDK coin type that the sell-order code relies on: a denom
 * and an integer amount that may be the nil integer. Comparisons between two
 * coins are only defined for coins of the same denom with non-nil amounts; the
 * SDK panics otherwise, which the model turns into preconditions.
 */
module Coins {
  import opened Wrappers

  /** A coin: its denom and its amount (`None` is the nil integer). */
  datatype Coin = Coin(denom: string, amount: Option<int>)

  predicate IsNil(c: Coin) {
    c.amount.None?
  }

  /** The amount read as a plain integer, the nil integer read as zero. */
  function AmountOf(c: Coin): (a: int) {
    if c.amount.Some? then c.amount.value else 0
  }

  predicate IsZero(c: Coin)
    requires !IsNil(c)
  {
    c.amount.value == 0
  }

  predicate IsNegative(c: Coin)
    requires !IsNil(c)
  {
    c.amount.value < 0
  }

  /** When two coins may be compared without a panic. */
  predicate Comparable(a: Coin, b: Coin) {
    a.denom == b.denom && !IsNil(a) && !IsNil(b)
  }

  predicate IsLT(a: Coin, b: Coin)
    requires Comparable(a, b)
  {
    a.amount.value < b.amount.value
  }

  predicate IsGTE(a: Coin, b: Coin)
    requires Comparable(a, b)
  {
    a.amount.value >= b.amount.value
  }

  /** The zero coin of a denom. */
  function ZeroCoin(denom: string): (c: Coin)
    ensures c.denom == denom && !IsNil(c) && IsZero(c)
  {
    Coin(denom, Some(0))
  }
}

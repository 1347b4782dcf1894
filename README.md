# Sell orders of the Dym-Name marketplace, in Dafny

This project models the sell-order record of the Dym-Name marketplace (`x/dymns/types/sell_order.go`).
A sell order offers a Dym-Name or an alias. It has a minimum price, an optional sell price (the "buy
now" price) and an optional highest bid, and it expires at an epoch. The model covers:

- when a sell price counts as set;
- when an order has expired and when it has finished (expired, or bought out by a bid that reached the sell price);
- the validation of an order and of a bid, each an ordered chain of early returns;
- the default attribute values of the event an order emits.

Files:

- `wrappers.dfy` (`Wrappers`): `Option` for nil-able pointers, and `Outcome` for an error or its absence.
- `coins.dfy` (`Coins`): the part of the SDK coin the code relies on. A coin is a denom and an
  amount that may be the nil integer. Comparing two coins is only defined for the same denom and
  non-nil amounts, because the SDK panics otherwise.
- `checks.dfy` (`Checks`): an early-return chain as data. It is a sequence of checks, each with a
  "violated" flag and an error. `FirstFailure` runs them in order and reports the first violated one.
- `sell_order.dfy` (`SellOrders`): the records and the operations of the source file.
- `sell_order_properties.dfy` (`SellOrderProperties`): the ordered check tables and the lemmas about the operations.

The checks that the file calls but does not define are fields of an `Externals` value, and nothing is
assumed about them. They are the Dym-Name, alias and bech32-address checks, the bid-parameter check
and the SDK's coin validation.

## Model

| member | source | states |
|---|---|---|
| `SellOrders.HasSetSellPrice` | x/dymns/types/sell_order.go:15-18 | a sell price is set exactly when it is present and its amount is neither nil nor zero |
| `SellOrders.HasExpired` | x/dymns/types/sell_order.go:25-28 | an order has expired at `now` exactly when its expiry epoch is strictly before `now` |
| `SellOrders.HasFinished` | x/dymns/types/sell_order.go:35-53 | an expired order is finished; a live order without a sell price is not; a live order with one is finished exactly when a highest bid exists and is at least the sell price; it may only be asked when those two coins are comparable |
| `SellOrders.ValidateBidFields` | x/dymns/types/sell_order.go:128-150 | a non-nil bid passes exactly when its bidder is non-empty and a valid bech32 account, its price is non-nil, positive and a valid coin, and its parameters are valid for the asset type; it never reports a nil bid |
| `SellOrders.ValidateBid` | x/dymns/types/sell_order.go:124-150 | a nil bid is rejected as nil, and only a nil bid is; a non-nil bid passes exactly when its fields pass |
| `SellOrders.ValidateAsset` | x/dymns/types/sell_order.go:61-80 | the asset passes exactly when it is a non-empty valid Dym-Name of type Name or a non-empty valid alias of type Alias; any other type fails |
| `SellOrders.ValidateMinPrice` | x/dymns/types/sell_order.go:86-92 | the min price passes exactly when its amount is non-nil and positive and the coin is valid |
| `SellOrders.ValidateSellPrice` | x/dymns/types/sell_order.go:94-108 | with a valid min price, the sell-price section passes exactly when an unset sell price, or a set one that is a valid coin of the min price's denom and not below the min price |
| `SellOrders.ValidateBeforeHighestBid` | x/dymns/types/sell_order.go:61-108 | the checks before the highest bid pass exactly when the asset, a non-zero expiry, the min price and the sell price all pass |
| `SellOrders.ValidateHighestBid` | x/dymns/types/sell_order.go:110-118 | with no bid the section passes; with one it passes exactly when the bid is valid, not below the min price, and not above a set sell price |
| `SellOrders.ValidateOrderFields` | x/dymns/types/sell_order.go:61-121 | an accepted order has a valid asset, a non-zero expiry and ordered prices: 0 < min <= highest bid <= sell price, all in the min price's denom; it never reports a nil order |
| `SellOrders.ValidateOrder` | x/dymns/types/sell_order.go:56-121 | a nil order is rejected as nil, and only a nil order is; an accepted order has ordered prices |
| `SellOrders.SdkEvent` | x/dymns/types/sell_order.go:152-182 | the event reports the sell price when set and the zero coin of the min price's denom otherwise; it reports the highest bidder and bid price when there is a bid, and "" and that same zero coin otherwise; the other attributes are the order's own |
| `SellOrderProperties.ValidateBidFieldsFollowsChecks` | x/dymns/types/sell_order.go:128-150 | bid validation reports the first violated check in the order bidder empty, bidder invalid, price nil or zero, price negative, price invalid, parameters invalid, and passes when none is violated |
| `SellOrderProperties.ValidateAssetFollowsChecks` | x/dymns/types/sell_order.go:61-80 | the asset section reports the first violated asset check, in source order |
| `SellOrderProperties.ValidateMinPriceFollowsChecks` | x/dymns/types/sell_order.go:86-92 | the min-price section reports zero, then negative, then invalid |
| `SellOrderProperties.ValidateSellPriceFollowsChecks` | x/dymns/types/sell_order.go:94-108 | the sell-price section reports negative, then invalid, then denom mismatch, then below min |
| `SellOrderProperties.ValidateHighestBidFollowsChecks` | x/dymns/types/sell_order.go:110-118 | the highest-bid section reports an invalid bid, then a bid below min, then a sell price below the bid |
| `SellOrderProperties.ValidateOrderFieldsFollowsChecks` | x/dymns/types/sell_order.go:56-121 | order validation reports the first violated check of the whole ordered table (asset, expiry, min price, sell price, highest bid) and passes exactly when no check is violated |
| `SellOrderProperties.ExpiryIsStrict` | x/dymns/types/sell_order.go:26-28 | at its expiry epoch an order has not expired; one epoch later it has |
| `SellOrderProperties.FinishedStaysFinished` | x/dymns/types/sell_order.go:36-53 | an order finished at some epoch is finished at every later epoch |
| `SellOrderProperties.ValidatedOrderCanDecideFinished` | x/dymns/types/sell_order.go:94-118 | for an accepted order, `HasFinished` compares comparable coins at every epoch |
| `SellOrderProperties.ValidatedEarlyFinishIsBuyout` | x/dymns/types/sell_order.go:46-52 | an accepted order that has not expired is finished exactly when its highest bid equals its sell price |
| `SellOrderProperties.ValidatedEventDefaultsAreDistinct` | x/dymns/types/sell_order.go:155-169 | for an accepted order, the event's sell price is zero exactly when none is set, and its bidder is empty and bid price zero exactly when there is no bid; both prices are in the min price's denom |

## Left out

- `HasExpiredAtCtx` and `HasFinishedAtCtx` only read the block time from the SDK context. The model takes the epoch as a parameter instead.
- The Dym-Name, alias and bech32-address checks, `ValidateOrderParams` and the SDK's `Coin.Validate` are not defined in this file. They are arbitrary total predicates in `Externals`. The bech32 check is always called with its prefix-matching flag set, so it is a one-argument predicate here.
- `SellOrders.HasFinished`: the SDK's `IsGTE` panics on mismatched denoms or a nil amount. The model states this as the precondition `CanDecideFinished`, which covers only the path that reaches the comparison.
- `SellOrders.ValidateOrderFields`: the comparison of the highest bid with the min price does not check denoms, so the SDK panics on a mismatch. The model states this as the precondition `BidPriceComparable`, which covers only the path that reaches that comparison.
- The SDK integer is 256-bit. Amounts here are unbounded integers, which is safe because the code only compares them.
- Errors are kinds, one per early return. The wrapped `ErrInvalidArgument` error and its message text are not modelled. An error returned by `ValidateOrderParams` becomes the kind `InvalidOrderParams`.
- `SdkEvent` returns the attribute values as coins and strings. The event type, the attribute keys, and the `fmt` and `Coin.String` formatting are not modelled. `sdk.NewCoin` also panics on an invalid denom, and that is not modelled either.
- Nil receivers of `HasSetSellPrice`, `HasExpired` and `HasFinished` dereference nil in the source. The model defines them on order values. The nil checks of the two `Validate` methods are modelled.
- The asset-type enum is `TypeName`, `TypeAlias` and `OtherType`. `OtherType` stands for the unspecified value and any other integer.
- The genesis-bridge handshake, the lockup keeper and the rollapp packet-key codec are other subsystems of the program and are out of scope for this model.

/**
 * What the sell-order code promises: the order in which validation reports
 * its errors, the price ordering of a validated order, how the lifecycle
 * predicates behave over time, and what the event's default values mean.
 */
module SellOrderProperties {
  import opened Wrappers
  import opened Coins
  import opened Checks
  import opened SellOrders

  // ---------------------------------------------------------------------------
  // Validation as an ordered table of checks
  // ---------------------------------------------------------------------------

  /** The checks of a bid, in the order they are made. */
  function BidChecks(b: SellOrderBid, assetType: AssetType, ext: Externals): (cs: seq<Check<BidError>>) {
    [ Check(b.bidder == "", EmptyBidder),
      Check(!ext.isValidBech32Account(b.bidder), InvalidBidder),
      Check(IsNil(b.price) || AmountOf(b.price) == 0, BidPriceZero),
      Check(AmountOf(b.price) < 0, BidPriceNegative),
      Check(!ext.coinValid(b.price), BidPriceInvalid),
      Check(!ext.validateOrderParams(b.params, assetType), InvalidOrderParams) ]
  }

  /** The asset checks: those of one asset type are never violated by an order of another type. */
  function AssetChecks(o: SellOrder, ext: Externals): (cs: seq<Check<OrderError>>) {
    [ Check(o.assetType == TypeName && o.assetId == "", EmptyDymName),
      Check(o.assetType == TypeName && !ext.isValidDymName(o.assetId), InvalidDymName),
      Check(o.assetType == TypeAlias && o.assetId == "", EmptyAlias),
      Check(o.assetType == TypeAlias && !ext.isValidAlias(o.assetId), InvalidAlias),
      Check(o.assetType == OtherType, InvalidAssetType) ]
  }

  function ExpiryChecks(o: SellOrder): (cs: seq<Check<OrderError>>) {
    [ Check(o.expireAt == 0, EmptyExpiry) ]
  }

  function MinPriceChecks(o: SellOrder, ext: Externals): (cs: seq<Check<OrderError>>) {
    [ Check(IsNil(o.minPrice) || AmountOf(o.minPrice) == 0, MinPriceZero),
      Check(AmountOf(o.minPrice) < 0, MinPriceNegative),
      Check(!ext.coinValid(o.minPrice), MinPriceInvalid) ]
  }

  /** The sell-price checks, never violated when no sell price is set. */
  function SellPriceChecks(o: SellOrder, ext: Externals): (cs: seq<Check<OrderError>>) {
    var sellSet := HasSetSellPrice(o);
    var sell := if sellSet then o.sellPrice.value else o.minPrice;
    [ Check(sellSet && AmountOf(sell) < 0, SellPriceNegative),
      Check(sellSet && !ext.coinValid(sell), SellPriceInvalid),
      Check(sellSet && sell.denom != o.minPrice.denom, SellPriceDenomMismatch),
      Check(sellSet && AmountOf(sell) < AmountOf(o.minPrice), SellPriceBelowMin) ]
  }

  /** The highest-bid checks, never violated when there is no bid. */
  function HighestBidChecks(o: SellOrder, ext: Externals): (cs: seq<Check<OrderError>>) {
    var sellSet := HasSetSellPrice(o);
    var sell := if sellSet then o.sellPrice.value else o.minPrice;
    var hasBid := o.highestBid.Some?;
    var bidPrice := if hasBid then o.highestBid.value.price else o.minPrice;
    var bidCheck := ValidateBid(o.highestBid, o.assetType, ext);
    [ Check(hasBid && bidCheck.Fail?, HighestBidInvalid(if bidCheck.Fail? then bidCheck.error else NilBid)),
      Check(hasBid && AmountOf(bidPrice) < AmountOf(o.minPrice), HighestBidBelowMin),
      Check(hasBid && sellSet && AmountOf(sell) < AmountOf(bidPrice), SellPriceBelowHighestBid) ]
  }

  /** The checks of an order, in the order they are made. */
  function OrderChecks(o: SellOrder, ext: Externals): (cs: seq<Check<OrderError>>) {
    AssetChecks(o, ext) + ExpiryChecks(o) + MinPriceChecks(o, ext) + SellPriceChecks(o, ext) + HighestBidChecks(o, ext)
  }

  /** A bid is rejected with the error of its first violated check, and accepted when none is violated. */
  lemma ValidateBidFieldsFollowsChecks(b: SellOrderBid, assetType: AssetType, ext: Externals)
    ensures ValidateBidFields(b, assetType, ext) == FirstFailure(BidChecks(b, assetType, ext))
  {
    var cs := BidChecks(b, assetType, ext);
    if b.bidder == "" {
      FirstFailureAt(cs, 0);
    } else if !ext.isValidBech32Account(b.bidder) {
      FirstFailureAt(cs, 1);
    } else if IsNil(b.price) || AmountOf(b.price) == 0 {
      FirstFailureAt(cs, 2);
    } else if AmountOf(b.price) < 0 {
      FirstFailureAt(cs, 3);
    } else if !ext.coinValid(b.price) {
      FirstFailureAt(cs, 4);
    } else if !ext.validateOrderParams(b.params, assetType) {
      FirstFailureAt(cs, 5);
    }
  }

  lemma ValidateAssetFollowsChecks(o: SellOrder, ext: Externals)
    ensures ValidateAsset(o, ext) == FirstFailure(AssetChecks(o, ext))
  {
    var cs := AssetChecks(o, ext);
    if o.assetType == TypeName && o.assetId == "" {
      FirstFailureAt(cs, 0);
    } else if o.assetType == TypeName && !ext.isValidDymName(o.assetId) {
      FirstFailureAt(cs, 1);
    } else if o.assetType == TypeAlias && o.assetId == "" {
      FirstFailureAt(cs, 2);
    } else if o.assetType == TypeAlias && !ext.isValidAlias(o.assetId) {
      FirstFailureAt(cs, 3);
    } else if o.assetType == OtherType {
      FirstFailureAt(cs, 4);
    }
  }

  lemma ValidateMinPriceFollowsChecks(o: SellOrder, ext: Externals)
    ensures ValidateMinPrice(o, ext) == FirstFailure(MinPriceChecks(o, ext))
  {
    var cs := MinPriceChecks(o, ext);
    if IsNil(o.minPrice) || AmountOf(o.minPrice) == 0 {
      FirstFailureAt(cs, 0);
    } else if AmountOf(o.minPrice) < 0 {
      FirstFailureAt(cs, 1);
    } else if !ext.coinValid(o.minPrice) {
      FirstFailureAt(cs, 2);
    }
  }

  lemma ValidateSellPriceFollowsChecks(o: SellOrder, ext: Externals)
    requires ValidateMinPrice(o, ext).Pass?
    ensures ValidateSellPrice(o, ext) == FirstFailure(SellPriceChecks(o, ext))
  {
    var cs := SellPriceChecks(o, ext);
    if HasSetSellPrice(o) {
      var sell := o.sellPrice.value;
      if AmountOf(sell) < 0 {
        FirstFailureAt(cs, 0);
      } else if !ext.coinValid(sell) {
        FirstFailureAt(cs, 1);
      } else if sell.denom != o.minPrice.denom {
        FirstFailureAt(cs, 2);
      } else if AmountOf(sell) < AmountOf(o.minPrice) {
        FirstFailureAt(cs, 3);
      }
    }
  }

  lemma ValidateHighestBidFollowsChecks(o: SellOrder, ext: Externals)
    requires ValidateBeforeHighestBid(o, ext).Pass? && BidPriceComparable(o, ext)
    ensures ValidateHighestBid(o, ext) == FirstFailure(HighestBidChecks(o, ext))
  {
    var cs := HighestBidChecks(o, ext);
    if o.highestBid.Some? {
      var price := o.highestBid.value.price;
      if ValidateBid(o.highestBid, o.assetType, ext).Fail? {
        FirstFailureAt(cs, 0);
      } else if AmountOf(price) < AmountOf(o.minPrice) {
        FirstFailureAt(cs, 1);
      } else if HasSetSellPrice(o) && AmountOf(o.sellPrice.value) < AmountOf(price) {
        FirstFailureAt(cs, 2);
      }
    }
  }

  /** An order is rejected with the error of its first violated check, and accepted when none is violated. */
  lemma ValidateOrderFieldsFollowsChecks(o: SellOrder, ext: Externals)
    requires BidPriceComparable(o, ext)
    ensures ValidateOrderFields(o, ext) == FirstFailure(OrderChecks(o, ext))
  {
    var asset, expiry, min, sell, bid :=
      AssetChecks(o, ext), ExpiryChecks(o), MinPriceChecks(o, ext), SellPriceChecks(o, ext), HighestBidChecks(o, ext);
    FirstFailureAppend(asset + expiry + min + sell, bid);
    FirstFailureAppend(asset + expiry + min, sell);
    FirstFailureAppend(asset + expiry, min);
    FirstFailureAppend(asset, expiry);
    ValidateAssetFollowsChecks(o, ext);
    ValidateMinPriceFollowsChecks(o, ext);
    if ValidateMinPrice(o, ext).Pass? {
      ValidateSellPriceFollowsChecks(o, ext);
    }
    if ValidateBeforeHighestBid(o, ext).Pass? {
      ValidateHighestBidFollowsChecks(o, ext);
    }
  }

  // ---------------------------------------------------------------------------
  // Lifecycle over time
  // ---------------------------------------------------------------------------

  /** Expiry is strict: at its expiry epoch an order is still live, one epoch later it has expired. */
  lemma ExpiryIsStrict(o: SellOrder)
    ensures !HasExpired(o, o.expireAt)
    ensures o.expireAt < 0x7fff_ffff_ffff_ffff ==> HasExpired(o, o.expireAt + 1)
  {
  }

  /** Once finished, an order stays finished at every later epoch. */
  lemma FinishedStaysFinished(o: SellOrder, now: Int64, later: Int64)
    requires CanDecideFinished(o, now) && CanDecideFinished(o, later)
    requires now <= later && HasFinished(o, now)
    ensures HasFinished(o, later)
  {
  }

  /** A validated order never makes `HasFinished` compare incomparable coins, at any epoch. */
  lemma ValidatedOrderCanDecideFinished(o: SellOrder, ext: Externals)
    requires BidPriceComparable(o, ext) && ValidateOrderFields(o, ext).Pass?
    ensures forall now: Int64 :: CanDecideFinished(o, now)
  {
  }

  /**
   * A validated order that finished before expiring was bought out at exactly
   * its sell price: a bid reaching the sell price cannot exceed it.
   */
  lemma ValidatedEarlyFinishIsBuyout(o: SellOrder, ext: Externals, now: Int64)
    requires BidPriceComparable(o, ext) && ValidateOrderFields(o, ext).Pass?
    requires !HasExpired(o, now)
    ensures CanDecideFinished(o, now)
    ensures HasFinished(o, now) <==>
      HasSetSellPrice(o) && o.highestBid.Some? && o.highestBid.value.price == o.sellPrice.value
  {
  }

  // ---------------------------------------------------------------------------
  // Event defaults
  // ---------------------------------------------------------------------------

  /**
   * For a validated order the event's defaults cannot be mistaken for real
   * values: the reported sell price is zero exactly when none is set, and the
   * reported bidder is empty and the bid price zero exactly when there is no bid.
   */
  lemma ValidatedEventDefaultsAreDistinct(o: SellOrder, ext: Externals, actionName: string)
    requires BidPriceComparable(o, ext) && ValidateOrderFields(o, ext).Pass?
    ensures SdkEvent(o, actionName).sellPrice.denom == o.minPrice.denom
    ensures AmountOf(SdkEvent(o, actionName).sellPrice) == 0 <==> !HasSetSellPrice(o)
    ensures SdkEvent(o, actionName).highestBidPrice.denom == o.minPrice.denom
    ensures SdkEvent(o, actionName).highestBidder == "" <==> o.highestBid.None?
    ensures AmountOf(SdkEvent(o, actionName).highestBidPrice) == 0 <==> o.highestBid.None?
  {
  }
}

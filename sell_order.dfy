/**
 * Sell orders of the name marketplace: the record, its lifecycle predicates,
 * its validation and that of its highest bid, and the attribute values of the
 * event it emits.
 *
 * Checks whose code lives in other packages (the Dym-Name, alias and bech32
 * address checks, the bid parameter check and the SDK's coin validation) are
 * parameters: the fields of an `Externals` value, about which nothing is
 * assumed.
 */
module SellOrders {
  import opened Wrappers
  import opened Coins
  import opened Checks

  /** A signed 64-bit integer, the type of epochs. */
  newtype Int64 = x: int | -0x8000_0000_0000_0000 <= x < 0x8000_0000_0000_0000

  /** What is on sale: a Dym-Name, an alias, or any other (invalid) value of the enum. */
  datatype AssetType = TypeName | TypeAlias | OtherType

  datatype SellOrderBid = SellOrderBid(bidder: string, price: Coin, params: seq<string>)

  /** `sellPrice` and `highestBid` are nil-able pointers in the record. */
  datatype SellOrder = SellOrder(
    assetId: string,
    assetType: AssetType,
    expireAt: Int64,
    minPrice: Coin,
    sellPrice: Option<Coin>,
    highestBid: Option<SellOrderBid>)

  /** The validity checks the order code calls but does not define. */
  datatype Externals = Externals(
    isValidDymName: string -> bool,
    isValidAlias: string -> bool,
    isValidBech32Account: string -> bool,
    validateOrderParams: (seq<string>, AssetType) -> bool,
    coinValid: Coin -> bool)

  /** The reasons a bid is rejected, one per early return. */
  datatype BidError =
    | NilBid
    | EmptyBidder
    | InvalidBidder
    | BidPriceZero
    | BidPriceNegative
    | BidPriceInvalid
    | InvalidOrderParams

  /** The reasons an order is rejected, one per early return. */
  datatype OrderError =
    | NilOrder
    | EmptyDymName
    | InvalidDymName
    | EmptyAlias
    | InvalidAlias
    | InvalidAssetType
    | EmptyExpiry
    | MinPriceZero
    | MinPriceNegative
    | MinPriceInvalid
    | SellPriceNegative
    | SellPriceInvalid
    | SellPriceDenomMismatch
    | SellPriceBelowMin
    | HighestBidInvalid(cause: BidError)
    | HighestBidBelowMin
    | SellPriceBelowHighestBid

  // ---------------------------------------------------------------------------
  // Lifecycle
  // ---------------------------------------------------------------------------

  /** A sell price counts as set only when it is present with a non-nil, non-zero amount. */
  function HasSetSellPrice(o: SellOrder): (r: bool)
    ensures r <==> o.sellPrice.Some? && o.sellPrice.value.amount.Some? && o.sellPrice.value.amount.value != 0
  {
    o.sellPrice.Some? && !IsNil(o.sellPrice.value) && !IsZero(o.sellPrice.value)
  }

  /** The order expires strictly after its expiry epoch. */
  function HasExpired(o: SellOrder, now: Int64): (r: bool)
    ensures r <==> o.expireAt < now
  {
    o.expireAt < now
  }

  /**
   * `HasFinished` compares the highest bid with the sell price, which the SDK
   * only allows for two non-nil amounts of the same denom. This is what its
   * caller must guarantee on the one path that reaches the comparison.
   */
  predicate CanDecideFinished(o: SellOrder, now: Int64) {
    !HasExpired(o, now) && HasSetSellPrice(o) && o.highestBid.Some? ==>
      Comparable(o.highestBid.value.price, o.sellPrice.value)
  }

  /** The order is over: expired, or bought out by a bid reaching the sell price. */
  function HasFinished(o: SellOrder, now: Int64): (r: bool)
    requires CanDecideFinished(o, now)
    ensures HasExpired(o, now) ==> r
    ensures !HasExpired(o, now) && !HasSetSellPrice(o) ==> !r
    ensures !HasExpired(o, now) && HasSetSellPrice(o) ==>
      (r <==> o.highestBid.Some? && AmountOf(o.highestBid.value.price) >= AmountOf(o.sellPrice.value))
  {
    if HasExpired(o, now) then true
    else if !HasSetSellPrice(o) then false
    else if o.highestBid.None? then false
    else IsGTE(o.highestBid.value.price, o.sellPrice.value)
  }

  // ---------------------------------------------------------------------------
  // Bid validation
  // ---------------------------------------------------------------------------

  /** Validation of a non-nil bid. */
  function ValidateBidFields(b: SellOrderBid, assetType: AssetType, ext: Externals): (r: Outcome<BidError>)
    ensures r.Pass? <==>
      && b.bidder != ""
      && ext.isValidBech32Account(b.bidder)
      && !IsNil(b.price) && AmountOf(b.price) > 0
      && ext.coinValid(b.price)
      && ext.validateOrderParams(b.params, assetType)
    ensures r != Fail(NilBid)
  {
    if b.bidder == "" then Fail(EmptyBidder)
    else if !ext.isValidBech32Account(b.bidder) then Fail(InvalidBidder)
    else if IsNil(b.price) || IsZero(b.price) then Fail(BidPriceZero)
    else if IsNegative(b.price) then Fail(BidPriceNegative)
    else if !ext.coinValid(b.price) then Fail(BidPriceInvalid)
    else if !ext.validateOrderParams(b.params, assetType) then Fail(InvalidOrderParams)
    else Pass
  }

  /** Validation of a bid reference, which may be nil. */
  function ValidateBid(m: Option<SellOrderBid>, assetType: AssetType, ext: Externals): (r: Outcome<BidError>)
    ensures r == Fail(NilBid) <==> m.None?
    ensures r.Pass? <==> m.Some? && ValidateBidFields(m.value, assetType, ext).Pass?
  {
    match m
    case None => Fail(NilBid)
    case Some(b) => ValidateBidFields(b, assetType, ext)
  }

  // ---------------------------------------------------------------------------
  // Order validation, section by section
  // ---------------------------------------------------------------------------

  /** The asset must be a non-empty, valid Dym-Name or alias. */
  function ValidateAsset(o: SellOrder, ext: Externals): (r: Outcome<OrderError>)
    ensures r.Pass? <==>
      || (o.assetType == TypeName && o.assetId != "" && ext.isValidDymName(o.assetId))
      || (o.assetType == TypeAlias && o.assetId != "" && ext.isValidAlias(o.assetId))
  {
    match o.assetType
    case TypeName =>
      if o.assetId == "" then Fail(EmptyDymName)
      else if !ext.isValidDymName(o.assetId) then Fail(InvalidDymName)
      else Pass
    case TypeAlias =>
      if o.assetId == "" then Fail(EmptyAlias)
      else if !ext.isValidAlias(o.assetId) then Fail(InvalidAlias)
      else Pass
    case OtherType => Fail(InvalidAssetType)
  }

  /** The min price must be a valid coin with a positive amount. */
  function ValidateMinPrice(o: SellOrder, ext: Externals): (r: Outcome<OrderError>)
    ensures r.Pass? <==> !IsNil(o.minPrice) && AmountOf(o.minPrice) > 0 && ext.coinValid(o.minPrice)
  {
    if IsNil(o.minPrice) || IsZero(o.minPrice) then Fail(MinPriceZero)
    else if IsNegative(o.minPrice) then Fail(MinPriceNegative)
    else if !ext.coinValid(o.minPrice) then Fail(MinPriceInvalid)
    else Pass
  }

  /** A set sell price must be a valid coin of the min price's denom, not below it. */
  function ValidateSellPrice(o: SellOrder, ext: Externals): (r: Outcome<OrderError>)
    requires ValidateMinPrice(o, ext).Pass?
    ensures r.Pass? <==>
      HasSetSellPrice(o) ==>
        && ext.coinValid(o.sellPrice.value)
        && o.sellPrice.value.denom == o.minPrice.denom
        && AmountOf(o.sellPrice.value) >= AmountOf(o.minPrice)
  {
    if !HasSetSellPrice(o) then Pass
    else
      var sell := o.sellPrice.value;
      if IsNegative(sell) then Fail(SellPriceNegative)
      else if !ext.coinValid(sell) then Fail(SellPriceInvalid)
      else if sell.denom != o.minPrice.denom then Fail(SellPriceDenomMismatch)
      else if IsLT(sell, o.minPrice) then Fail(SellPriceBelowMin)
      else Pass
  }

  /** Every check that comes before the highest bid's: asset, expiry, min price, sell price. */
  function ValidateBeforeHighestBid(o: SellOrder, ext: Externals): (r: Outcome<OrderError>)
    ensures r.Pass? <==>
      && ValidateAsset(o, ext).Pass?
      && o.expireAt != 0
      && ValidateMinPrice(o, ext).Pass?
      && ValidateSellPrice(o, ext).Pass?
  {
    var asset := ValidateAsset(o, ext);
    if asset.Fail? then asset
    else if o.expireAt == 0 then Fail(EmptyExpiry)
    else
      var min := ValidateMinPrice(o, ext);
      if min.Fail? then min
      else ValidateSellPrice(o, ext)
  }

  /**
   * The comparison of the highest bid with the min price does not check
   * denoms, so the SDK panics on a mismatch. This is what a caller of
   * `ValidateOrderFields` must guarantee on the one path that reaches it.
   */
  predicate BidPriceComparable(o: SellOrder, ext: Externals) {
    (ValidateBeforeHighestBid(o, ext).Pass? && o.highestBid.Some?
     && ValidateBid(o.highestBid, o.assetType, ext).Pass?)
    ==> o.highestBid.value.price.denom == o.minPrice.denom
  }

  /** A highest bid, when present, must be valid and lie between the min and the sell price. */
  function ValidateHighestBid(o: SellOrder, ext: Externals): (r: Outcome<OrderError>)
    requires ValidateBeforeHighestBid(o, ext).Pass? && BidPriceComparable(o, ext)
    ensures r.Pass? <==>
      o.highestBid.Some? ==>
        && ValidateBid(o.highestBid, o.assetType, ext).Pass?
        && AmountOf(o.highestBid.value.price) >= AmountOf(o.minPrice)
        && (HasSetSellPrice(o) ==> AmountOf(o.highestBid.value.price) <= AmountOf(o.sellPrice.value))
  {
    match o.highestBid
    case None => Pass
    case Some(bid) =>
      var bidCheck := ValidateBid(o.highestBid, o.assetType, ext);
      if bidCheck.Fail? then Fail(HighestBidInvalid(bidCheck.error))
      else if IsLT(bid.price, o.minPrice) then Fail(HighestBidBelowMin)
      else if HasSetSellPrice(o) && IsLT(o.sellPrice.value, bid.price) then Fail(SellPriceBelowHighestBid)
      else Pass
  }

  /** The prices of an order are ordered: 0 < min <= highest bid <= sell price, all in one denom. */
  predicate PricesOrdered(o: SellOrder) {
    && !IsNil(o.minPrice) && AmountOf(o.minPrice) > 0
    && (HasSetSellPrice(o) ==>
          && o.sellPrice.value.denom == o.minPrice.denom
          && AmountOf(o.minPrice) <= AmountOf(o.sellPrice.value))
    && (o.highestBid.Some? ==>
          && o.highestBid.value.price.denom == o.minPrice.denom
          && !IsNil(o.highestBid.value.price)
          && AmountOf(o.minPrice) <= AmountOf(o.highestBid.value.price)
          && (HasSetSellPrice(o) ==> AmountOf(o.highestBid.value.price) <= AmountOf(o.sellPrice.value)))
  }

  /** Validation of a non-nil order. */
  function ValidateOrderFields(o: SellOrder, ext: Externals): (r: Outcome<OrderError>)
    requires BidPriceComparable(o, ext)
    ensures r.Pass? ==> PricesOrdered(o)
    ensures r.Pass? ==> ValidateAsset(o, ext).Pass? && o.expireAt != 0
    ensures r != Fail(NilOrder)
  {
    var head := ValidateBeforeHighestBid(o, ext);
    if head.Fail? then head
    else ValidateHighestBid(o, ext)
  }

  /** Validation of an order reference, which may be nil. */
  function ValidateOrder(m: Option<SellOrder>, ext: Externals): (r: Outcome<OrderError>)
    requires m.Some? ==> BidPriceComparable(m.value, ext)
    ensures r == Fail(NilOrder) <==> m.None?
    ensures r.Pass? ==> m.Some? && PricesOrdered(m.value)
  {
    match m
    case None => Fail(NilOrder)
    case Some(o) => ValidateOrderFields(o, ext)
  }

  // ---------------------------------------------------------------------------
  // Event attributes
  // ---------------------------------------------------------------------------

  /** The attribute values of the sell-order event, before they are formatted as strings. */
  datatype SellOrderEvent = SellOrderEvent(
    assetId: string,
    assetType: AssetType,
    expiryEpoch: Int64,
    minPrice: Coin,
    sellPrice: Coin,
    highestBidder: string,
    highestBidPrice: Coin,
    actionName: string)

  /** Missing prices are reported as the zero coin of the min price's denom, a missing bidder as "". */
  function SdkEvent(o: SellOrder, actionName: string): (e: SellOrderEvent)
    ensures HasSetSellPrice(o) ==> e.sellPrice == o.sellPrice.value
    ensures !HasSetSellPrice(o) ==> e.sellPrice == ZeroCoin(o.minPrice.denom)
    ensures o.highestBid.Some? ==>
      e.highestBidder == o.highestBid.value.bidder && e.highestBidPrice == o.highestBid.value.price
    ensures o.highestBid.None? ==> e.highestBidder == "" && e.highestBidPrice == ZeroCoin(o.minPrice.denom)
    ensures e.assetId == o.assetId && e.assetType == o.assetType && e.expiryEpoch == o.expireAt
    ensures e.minPrice == o.minPrice && e.actionName == actionName
  {
    var sellPrice := if HasSetSellPrice(o) then o.sellPrice.value else ZeroCoin(o.minPrice.denom);
    var (bidder, bidPrice) :=
      if o.highestBid.Some? then (o.highestBid.value.bidder, o.highestBid.value.price)
      else ("", ZeroCoin(o.minPrice.denom));
    SellOrderEvent(o.assetId, o.assetType, o.expireAt, o.minPrice, sellPrice, bidder, bidPrice, actionName)
  }
}

/** The four order kinds of the `dex1` wire format, and carving: deriving the pending
    remainder of a partially filled limit order. */
module Orders {

  import opened Bytes

  /** The fields of a limit order that the validator reads. */
  datatype LimitOrder = LimitOrder(
    bidToken: Hash32,
    askToken: Hash32,
    bidAmount: U128,
    askAmount: U128,
    claimedCkbytes: U64,
    recipient: Hash32)

  /** The fields of a market order that the validator reads. */
  datatype MarketOrder = MarketOrder(
    askToken: Hash32,
    claimedCkbytes: U64,
    recipient: Hash32)

  /** `schema::OrderUnion`: a closed set of four variants. */
  datatype Order =
    | Limit(limit: LimitOrder)
    | LimitWithDeadline(limit: LimitOrder, deadline: U64)
    | Market(market: MarketOrder)
    | MarketWithMinimumAsk(market: MarketOrder, minimumAsk: U128)
  {
    /** The two variants `validate_limit_order` accepts. */
    predicate IsLimit()
    {
      Limit? || LimitWithDeadline?
    }
  }

  /** `carve_limit_order`: the same order with exactly its bid amount, ask amount and
      claimed CKBytes replaced. Only the two limit variants can be carved. */
  function Carve(order: Order, newBid: U128, newAsk: U128, newClaimed: U64): (r: Order)
    requires order.IsLimit()
    ensures r.Limit? == order.Limit? && r.LimitWithDeadline? == order.LimitWithDeadline?
    ensures r.limit.bidAmount == newBid
    ensures r.limit.askAmount == newAsk
    ensures r.limit.claimedCkbytes == newClaimed
    ensures r.limit.bidToken == order.limit.bidToken
    ensures r.limit.askToken == order.limit.askToken
    ensures r.limit.recipient == order.limit.recipient
    ensures order.LimitWithDeadline? ==> r.deadline == order.deadline
  {
    var carved := order.limit.(bidAmount := newBid, askAmount := newAsk, claimedCkbytes := newClaimed);
    match order
    case Limit(_) => Limit(carved)
    case LimitWithDeadline(_, deadline) => LimitWithDeadline(carved, deadline)
  }

  /** Carving an order with its own amounts changes nothing. */
  lemma CarveFixedPoint(order: Order)
    requires order.IsLimit()
    ensures Carve(order, order.limit.bidAmount, order.limit.askAmount, order.limit.claimedCkbytes) == order
  {
  }

  /** Carving twice is carving once with the later amounts. */
  lemma CarveTwice(order: Order, b1: U128, a1: U128, c1: U64, b2: U128, a2: U128, c2: U64)
    requires order.IsLimit()
    ensures Carve(Carve(order, b1, a1, c1), b2, a2, c2) == Carve(order, b2, a2, c2)
  {
  }

  /** Carving is determined by its three new fields: two carvings of one order
      agree exactly when the new amounts agree. */
  lemma CarveInjective(order: Order, b1: U128, a1: U128, c1: U64, b2: U128, a2: U128, c2: U64)
    requires order.IsLimit()
    ensures Carve(order, b1, a1, c1) == Carve(order, b2, a2, c2) <==> b1 == b2 && a1 == a2 && c1 == c2
  {
  }
}

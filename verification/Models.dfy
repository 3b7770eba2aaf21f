/** The value types of the matching engine. */
module Models {
  datatype OrderSide = Buy | Sell

  /** An order as it arrives. A fresh order has both quantities equal. */
  datatype Order = Order(id: int, side: OrderSide, price: int, originalQuantity: int, remainingQuantity: int)

  datatype Trade = Trade(price: int, quantity: int, makerOrderId: int, takerOrderId: int)

  /** One slot of the pool. The slots are linked by index; -1 ends a chain. */
  datatype OrderNode = OrderNode(id: int, price: int, quantity: int, side: int, next: int, prev: int)

  datatype OrderResult = Success | RejectedPriceOutOfRange | RejectedPoolExhausted

  function Opposite(side: OrderSide): OrderSide {
    if side.Buy? then Sell else Buy
  }

  /** The byte a node stores for its side. */
  function SideByte(side: OrderSide): int {
    if side.Buy? then 1 else 2
  }

  function NewOrder(id: int, side: OrderSide, price: int, quantity: int): Order {
    Order(id, side, price, quantity, quantity)
  }

  function Min(a: int, b: int): int {
    if a <= b then a else b
  }

  function Max(a: int, b: int): int {
    if a <= b then b else a
  }
}

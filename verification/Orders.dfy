/** The entities of include/engine/order_book.h and include/engine/matching_algorithm.h.

    Prices, quantities and fees are exact numbers (`real`); ids and symbols are abstract. */
module Orders {

  datatype Side = BUY | SELL {
    function Opposite(): Side {
      if BUY? then SELL else BUY
    }
  }

  datatype OrderType = MARKET | LIMIT | IOC | FOK | STOP_LOSS | STOP_LIMIT | TAKE_PROFIT

  /** A client's id, or one of the ids that compact persistence invents ("B_0", "A_0", ...). */
  datatype OrderId = ClientId(n: nat) | BidLevelId(n: nat) | AskLevelId(n: nat)

  type Symbol = nat

  datatype Option<+T> = None | Some(value: T)

  /** An order as a value: what an `Order` object holds at one moment. */
  datatype Ticket = Ticket(id: OrderId, symbol: Symbol, side: Side, kind: OrderType, price: real, qty: real)

  predicate IsTrigger(kind: OrderType) {
    kind.STOP_LOSS? || kind.STOP_LIMIT? || kind.TAKE_PROFIT?
  }

  /** An order object, shared by a level's list and the book's index.
      Only the quantity is ever assigned after construction. */
  class Order {
    const id: OrderId
    const symbol: Symbol
    const side: Side
    const kind: OrderType
    const price: real
    var quantity: real

    constructor (id: OrderId, symbol: Symbol, side: Side, kind: OrderType, price: real, quantity: real)
      ensures View() == Ticket(id, symbol, side, kind, price, quantity)
    {
      this.id, this.symbol, this.side, this.kind := id, symbol, side, kind;
      this.price, this.quantity := price, quantity;
    }

    function View(): Ticket
      reads this
    {
      Ticket(id, symbol, side, kind, price, quantity)
    }

    method ModifyQuantity(newQuantity: real)
      modifies this
      ensures View() == old(View()).(qty := newQuantity)
    {
      quantity := newQuantity;
    }
  }

  datatype Trade = Trade(symbol: Symbol, price: real, quantity: real, makerFee: real, takerFee: real,
                         makerOrderId: OrderId, takerOrderId: OrderId, aggressor: Side)
}

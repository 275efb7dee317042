// types.py: the values that the components exchange.

module Types {

  datatype Option<+T> = None | Some(value: T)

  /** A constructor's own check of its parameters. */
  datatype Created<+T> = Ok(value: T) | BadParameter

  datatype Side = Buy | Sell

  datatype Level = Level(price: real, size: real)

  datatype OrderBook = OrderBook(bids: seq<Level>, asks: seq<Level>, timestampMs: int)

  datatype OrderRequest = OrderRequest(pair: string, side: Side, price: real, size: real, clientOrderId: string)

  datatype Order = Order(
    orderId: string, pair: string, side: Side, price: real, size: real, filledSize: real, clientOrderId: string)

  datatype Balance = Balance(currency: string, total: real)

  datatype MarketSignal = MarketSignal(
    flashCrash: bool, depthWallBid: bool, depthWallAsk: bool, spreadBps: real, imbalance: real)

  function Abs(x: real): real {
    if x < 0.0 then -x else x
  }
}

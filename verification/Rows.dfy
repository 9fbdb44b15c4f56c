/** The three kinds of market-data rows that the collector stores. */
module Rows {
  import opened Prelude

  /** A trade print.  The price is in units of 1e-6. */
  datatype TickRow = TickRow(ts: Int64, price: int, size: Int64, isBuy: bool, symbol: string, exchange: string)

  /** A top-of-book update; an absent side has no price. */
  datatype BboRow = BboRow(
    ts: Int64,
    bidPrice: Option<int>, bidSize: Int32, bidOrders: Int32,
    askPrice: Option<int>, askSize: Int32, askOrders: Int32,
    symbol: string, exchange: string)

  /** One depth-by-order event. */
  datatype DepthRow = DepthRow(
    ts: Int64, sourceNs: Int64, sequenceNumber: Int64,
    updateType: Int8, transactionType: Int8,
    price: int, prevPrice: Option<int>, size: Int32,
    orderId: string, symbol: string, exchange: string)
}

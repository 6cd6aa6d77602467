/**
 * The records the Bitkub endpoints return. The pagination loop looks only at
 * `pagination.next`; the history records are carried through untouched.
 */
module Dto {
  import opened Primitives

  datatype PaginationDetail = PaginationDetail(page: uint64, last: uint64, next: uint64, prev: uint64)

  /** `amount` is a float64 on the wire; it is kept here as its IEEE-754 bit pattern and never computed on. */
  datatype DepositHistory = DepositHistory(
    txnId: string,
    currency: string,
    amountBits: uint64,
    status: string,
    time: uint64)

  datatype OrderHistory = OrderHistory(
    txnId: string,
    orderId: string,
    hash: string,
    parentOrderId: string,
    parentOrderHash: string,
    superOrderId: string,
    superOrderHash: string,
    clientId: string,
    takenByMe: bool,
    isMaker: bool,
    side: string,
    orderType: string,
    rate: string,
    fee: string,
    credit: string,
    amount: string,
    ts: uint64)

  /** The JSON envelope of one page: an exchange error code, the page's records and the cursor. */
  datatype Response<T> = Response(errorCode: uint64, result: seq<T>, pagination: PaginationDetail)

  type DepositHistoryResponse = Response<DepositHistory>

  type OrderHistoryResponse = Response<OrderHistory>
}

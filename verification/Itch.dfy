/** Message vocabulary shared by every model of the book (NASDAQ TotalView-ITCH 5.0,
    "Add Order" and "Modify Order" messages), with the integer widths of the source. */
module Itch {
  type u8 = x: int | 0 <= x < 0x100
  type u16 = x: int | 0 <= x < 0x1_0000
  type u32 = x: int | 0 <= x < 0x1_0000_0000
  type u64 = x: int | 0 <= x < 0x1_0000_0000_0000_0000

  const U32_MAX: u32 := 0xFFFF_FFFF
  const WRAP32: nat := 0x1_0000_0000
  const WRAP64: nat := 0x1_0000_0000_0000_0000

  datatype Option<T> = None | Some(value: T)

  const SIDE_BUY: char := 'B'
  const SIDE_SELL: char := 'S'

  datatype MsgType =
    | AddOrder | AddOrderMpid | OrderExecuted | OrderExecutedPrice
    | OrderCancel | OrderDelete | OrderReplace | Trade | SystemEvent | Unknown

  /** The flat decoded message. A field a type does not carry is zero. */
  datatype Message = Message(
    kind: MsgType, side: char, printable: bool, locate: u16,
    shares: u32, price: u32, timestamp: u64, orderRef: u64, newOrderRef: u64)

  predicate ValidSide(side: char) {
    side == SIDE_BUY || side == SIDE_SELL
  }

  function Min(a: nat, b: nat): nat {
    if a < b then a else b
  }
}

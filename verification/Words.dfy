/** Constants shared by the order book, its stream stages and the software twin. */
module Words {
  const WORD := 0x1_0000_0000       // one more than the largest 32-bit word
  const NO_LEVEL := 0xFFFF_FFFF     // tree entry that stands for "no level here"
  const CANCEL_ALL := 0xFFFF_FFFF   // cancel quantity that stands for "everything"

  const NUM_STOCKS := 4
  const MAX_LEVELS := 256
  const MAX_ORDERS := 1024
  const TICK := 600

  const SIDE_BID := 0
  const SIDE_ASK := 1
  const SIDE_NONE := 2              // order slot never used
  const SIDE_DELETED := 3           // order slot used and deleted

  datatype Option<+T> = None | Some(value: T)

  /** The lowest price of each stock's ladder. */
  function MinPrice(stock: nat): nat
    requires stock < NUM_STOCKS
  {
    if stock == 0 then 1000000 else if stock == 1 then 2480000 else if stock == 2 then 2050000 else 1680000
  }

  /** The element that index idx of a Python list of n elements selects: -1 is the last one. */
  function Element(n: nat, idx: int): (l: nat)
    requires 0 <= idx + n && idx < n
    ensures l < n
  {
    if idx < 0 then idx + n else idx
  }

  function Last<T>(s: seq<T>): T
    requires s != []
  {
    s[|s| - 1]
  }
}

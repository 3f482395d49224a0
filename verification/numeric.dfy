/** Integer helpers shared by the tile arithmetic and the entities. */
module Numeric {

  function Abs(a: int): nat {
    if a < 0 then -a else a
  }
}

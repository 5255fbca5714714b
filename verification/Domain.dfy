// Shared vocabulary of the ledger model: owners, symbols, sides and partition keys.

module Domain {

  datatype Option<+T> = None | Some(value: T) {
    function GetOr(default: T): T {
      if this.Some? then value else default
    }
  }

  datatype Side = Buy | Sell

  type Symbol = string

  // The owner of a partition. `Unattributed` is the reserved partition for flow the engine
  // never placed; `Strategy` carries a strategy id.
  datatype Owner = Unattributed | Strategy(id: string)

  datatype Key = Key(owner: Owner, symbol: Symbol)

  function Abs(x: int): nat {
    if x < 0 then -x else x
  }

  function AbsR(x: real): real {
    if x < 0.0 then -x else x
  }

  function Min(x: real, y: real): real {
    if x <= y then x else y
  }

  function Max(a: int, b: int): int {
    if a < b then b else a
  }

  function MinNat(x: nat, y: nat): nat {
    if x <= y then x else y
  }
}

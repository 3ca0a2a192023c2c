/** Platform types shared by the two contracts: account names, symbols,
    assets and the fixed-width integers the contracts store. */
module Eosio {

  newtype uint8 = x: int | 0 <= x < 0x100
  newtype uint32 = x: int | 0 <= x < 0x1_0000_0000
  newtype uint64 = x: int | 0 <= x < 0x1_0000_0000_0000_0000
  newtype int64 = x: int | -0x8000_0000_0000_0000 <= x < 0x8000_0000_0000_0000

  const Uint64Modulus: int := 0x1_0000_0000_0000_0000

  /** An account name, kept as its raw 64-bit encoding (which is also the
      primary key of every table row keyed by a name). */
  datatype Name = Name(value: uint64)

  /** A symbol code, kept as its raw 64-bit encoding. */
  datatype SymbolCode = SymbolCode(raw: uint64)

  /** A symbol: its code and its decimal precision. Two symbols with the same
      code and different precisions are different symbols. */
  datatype Symbol = Symbol(code: SymbolCode, precision: uint8)

  datatype Asset = Asset(amount: int64, symbol: Symbol)

  /** The largest amount an asset may hold, (1 << 62) - 1. */
  const MaxAmount: int := 0x3FFF_FFFF_FFFF_FFFF

  /** An asset is valid when its amount lies within the platform's range. */
  predicate AssetIsValid(a: Asset)
  {
    -MaxAmount <= a.amount as int <= MaxAmount
  }

  type byte = uint8

  /** A memo, as the bytes of the string. */
  type Memo = seq<byte>

  const MaxMemoBytes: int := 256

  /** The account `mptcrowdsale`, encoded the platform's way. */
  const Crowdsale: Name := Name(0x95728bd389c1a2a0)

  /** How an action ends: committed, or aborted with the failed assertion. */
  datatype Outcome<E> = Ok | Abort(error: E)
}

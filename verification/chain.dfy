/**
 * The on-chain environment the contracts see: assets of the astroport
 * `asset` module, coins, the block environment, the bank/cw20 balances the
 * querier answers from, and address validation.
 */
module Chain {
  import opened Wrappers
  import opened Errors
  import opened Uint

  type Addr = string

  /** `AssetInfo`: a native denom or a cw20 token contract. */
  datatype AssetInfo = NativeToken(denom: string) | Token(contractAddr: Addr)

  datatype Asset = Asset(info: AssetInfo, amount: U128)

  datatype Coin = Coin(denom: string, amount: U128)

  /** The `Display` form of an `AssetInfo`: its denom or its contract address. */
  function InfoName(info: AssetInfo): string {
    match info
    case NativeToken(d) => d
    case Token(a) => a
  }

  /** The parts of `Env` the contracts read. */
  datatype Env = Env(contract: Addr, height: U64, time: U64)

  /**
   * The balances the querier reports: `(holder, asset) -> amount`; a pair
   * absent from the map is a zero balance.
   */
  datatype Ledger = Ledger(balances: map<(Addr, AssetInfo), U128>)

  function Balance(ledger: Ledger, holder: Addr, info: AssetInfo): U128 {
    if (holder, info) in ledger.balances then ledger.balances[(holder, info)] else 0
  }

  /** The address checker behind `Api::addr_validate`: the strings it accepts. */
  datatype Api = Api(valid: set<string>)

  function AddrValidate(api: Api, s: string): (r: Result<Addr, Error>)
    ensures r.Ok? <==> s in api.valid
    ensures r.Ok? ==> r.value == s
    ensures r.Err? ==> r.error == InvalidAddress(s)
  {
    if s in api.valid then Ok(s) else Err(InvalidAddress(s))
  }
}

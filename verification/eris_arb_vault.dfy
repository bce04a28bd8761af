/**
 * The configuration validators of the arb-vault interface package: a fee
 * configuration with three capped fees, and a liquid-staking-derivative
 * (LSD) entry whose two addresses must be valid.
 */
module ErisArbVault {
  import opened Wrappers
  import opened Errors
  import opened Uint
  import opened Chain

  /** `FeeConfig<T>`: the fee receiver and three fees as `Decimal`s. */
  datatype FeeConfig = FeeConfig(protocolFeeContract: string, protocolPerformanceFee: Decimal,
                                 protocolWithdrawFee: Decimal, immediateWithdrawFee: Decimal)

  /** `LsdType<T>`: the four supported LSD families, each with a hub and a cw20 address. */
  datatype LsdType =
    | Eris(addr: string, cw20: string)
    | Backbone(addr: string, cw20: string)
    | Stader(addr: string, cw20: string)
    | Prism(addr: string, cw20: string)

  datatype LsdConfig = LsdConfig(disabled: bool, lsdType: LsdType)

  /** A fee `d` is at most `p` percent. */
  predicate AtMostPercent(d: Decimal, p: nat) {
    d * 100 <= p * DECIMAL_FRACTIONAL
  }

  /**
   * `FeeConfig<String>::validate`: rejects a performance fee above 20%, then
   * a withdraw fee above 5%, then an immediate-withdraw fee above 10%, then
   * an invalid fee receiver; a valid configuration is returned unchanged.
   */
  function ValidateFeeConfig(api: Api, c: FeeConfig): (r: Result<FeeConfig, Error>)
    ensures r.Ok? <==>
              AtMostPercent(c.protocolPerformanceFee, 20) && AtMostPercent(c.protocolWithdrawFee, 5) &&
              AtMostPercent(c.immediateWithdrawFee, 10) && c.protocolFeeContract in api.valid
    ensures r.Ok? ==> r.value == c
    ensures !AtMostPercent(c.protocolPerformanceFee, 20) ==> r == Err(Generic("Performance fee too high"))
    ensures AtMostPercent(c.protocolPerformanceFee, 20) && !AtMostPercent(c.protocolWithdrawFee, 5) ==>
              r == Err(Generic("Protocol withdraw fee too high"))
    ensures AtMostPercent(c.protocolPerformanceFee, 20) && AtMostPercent(c.protocolWithdrawFee, 5) &&
            !AtMostPercent(c.immediateWithdrawFee, 10) ==>
              r == Err(Generic("Immediate withdraw fee too high"))
    ensures AtMostPercent(c.protocolPerformanceFee, 20) && AtMostPercent(c.protocolWithdrawFee, 5) &&
            AtMostPercent(c.immediateWithdrawFee, 10) && c.protocolFeeContract !in api.valid ==>
              r == Err(InvalidAddress(c.protocolFeeContract))
  {
    if c.protocolPerformanceFee > Percent(20) then Err(Generic("Performance fee too high"))
    else if c.protocolWithdrawFee > Percent(5) then Err(Generic("Protocol withdraw fee too high"))
    else if c.immediateWithdrawFee > Percent(10) then Err(Generic("Immediate withdraw fee too high"))
    else
      var receiver :- AddrValidate(api, c.protocolFeeContract);
      Ok(FeeConfig(receiver, c.protocolPerformanceFee, c.protocolWithdrawFee, c.immediateWithdrawFee))
  }

  /** The caps are inclusive: fees of exactly 20%, 5% and 10% pass. */
  lemma FeeCapsInclusive(api: Api, receiver: string)
    requires receiver in api.valid
    ensures ValidateFeeConfig(api, FeeConfig(receiver, Percent(20), Percent(5), Percent(10))).Ok?
  {
  }

  /** Rebuilds an `LsdType` of the same family as `t` from two addresses. */
  function SameFamily(t: LsdType, addr: string, cw20: string): LsdType {
    match t
    case Eris(_, _) => Eris(addr, cw20)
    case Backbone(_, _) => Backbone(addr, cw20)
    case Stader(_, _) => Stader(addr, cw20)
    case Prism(_, _) => Prism(addr, cw20)
  }

  /**
   * `LsdConfig<String>::validate`: validates the hub address, then the cw20
   * address, keeping the `disabled` flag and the LSD family.
   */
  function ValidateLsdConfig(api: Api, c: LsdConfig): (r: Result<LsdConfig, Error>)
    ensures r.Ok? <==> c.lsdType.addr in api.valid && c.lsdType.cw20 in api.valid
    ensures r.Ok? ==> r.value == c
    ensures c.lsdType.addr !in api.valid ==> r == Err(InvalidAddress(c.lsdType.addr))
    ensures c.lsdType.addr in api.valid && c.lsdType.cw20 !in api.valid ==> r == Err(InvalidAddress(c.lsdType.cw20))
  {
    var addr :- AddrValidate(api, c.lsdType.addr);
    var cw20 :- AddrValidate(api, c.lsdType.cw20);
    Ok(LsdConfig(c.disabled, SameFamily(c.lsdType, addr, cw20)))
  }
}

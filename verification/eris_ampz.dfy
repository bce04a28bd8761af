/**
 * Pure helpers of the ampz interface package: the fee configuration
 * validator, the uniqueness key of an execution source, the runtime form of
 * a destination, and the wrapping of a callback into a self-addressed
 * message.
 */
module ErisAmpz {
  import opened Wrappers
  import opened Errors
  import opened Uint
  import opened Chain

  /** `FeeConfig<T>`: two fees in basis points (`BasicPoints`, a `u16`) and a receiver. */
  datatype FeeConfig = FeeConfig(feeBps: U16, operatorBps: U16, receiver: string)

  /** The highest accepted fee, in basis points: 5%. */
  const MAX_FEE_BPS: nat := 500

  /**
   * `FeeConfig<String>::validate`: rejects a fee above 5%, then an operator
   * fee above 5%, then an invalid receiver; a valid configuration is
   * returned unchanged.
   */
  function ValidateFeeConfig(api: Api, c: FeeConfig): (r: Result<FeeConfig, Error>)
    ensures r.Ok? <==> c.feeBps * 20 <= 10000 && c.operatorBps * 20 <= 10000 && c.receiver in api.valid
    ensures r.Ok? ==> r.value == c
    ensures c.feeBps * 20 > 10000 ==> r == Err(Generic("max fee is 5 %"))
    ensures c.feeBps * 20 <= 10000 && c.operatorBps * 20 > 10000 ==> r == Err(Generic("max operator fee is 5 %"))
    ensures c.feeBps * 20 <= 10000 && c.operatorBps * 20 <= 10000 && c.receiver !in api.valid ==>
              r == Err(InvalidAddress(c.receiver))
  {
    if c.feeBps > MAX_FEE_BPS then Err(Generic("max fee is 5 %"))
    else if c.operatorBps > MAX_FEE_BPS then Err(Generic("max operator fee is 5 %"))
    else
      var receiver :- AddrValidate(api, c.receiver);
      Ok(FeeConfig(c.feeBps, c.operatorBps, receiver))
  }

  /** Where an execution takes its assets from. */
  datatype Source =
    | Claim
    | AstroRewards(lps: seq<string>)
    | Wallet(over: Asset, maxAmount: Option<U128>)

  /**
   * `Source::try_get_uniq_key`: the key under which a user may register at
   * most one execution of this source; a wallet source has none, so it may
   * be registered any number of times.
   */
  function TryGetUniqKey(s: Source): (r: Option<string>)
    ensures r.None? <==> s.Wallet?
  {
    match s
    case Claim => Some("claim")
    case AstroRewards(_) => Some("astro_rewards")
    case Wallet(_, _) => None
  }

  /**
   * Two sources share a key exactly when they are of the same kind and not
   * wallets: the key tells `Claim` and `AstroRewards` apart whatever their
   * contents.
   */
  lemma UniqKeySeparatesKinds(s: Source, t: Source)
    ensures TryGetUniqKey(s).Some? && TryGetUniqKey(s) == TryGetUniqKey(t) <==>
              (s.Claim? && t.Claim?) || (s.AstroRewards? && t.AstroRewards?)
  {
    assert "claim" != "astro_rewards" by {
      assert "claim"[0] != "astro_rewards"[0];
    }
  }

  /** A destination as stored with an execution. */
  datatype DestinationState = DepositAmplifier | DepositFarm(farm: string)

  /** A destination as carried through an execution, with the assets to deposit into a farm. */
  datatype DestinationRuntime =
    | RuntimeDepositAmplifier
    | RuntimeDepositFarm(assetInfos: seq<AssetInfo>, farm: string)

  /**
   * `DestinationState::to_runtime`: a farm keeps its address and receives
   * the given asset infos; the amplifier ignores them.
   */
  function ToRuntime(d: DestinationState, assetInfos: seq<AssetInfo>): (r: DestinationRuntime)
    ensures r.RuntimeDepositFarm? <==> d.DepositFarm?
    ensures r.RuntimeDepositFarm? ==> r.farm == d.farm && r.assetInfos == assetInfos
  {
    match d
    case DepositAmplifier => RuntimeDepositAmplifier
    case DepositFarm(farm) => RuntimeDepositFarm(assetInfos, farm)
  }

  /** The stored form of a runtime destination. */
  function ToState(r: DestinationRuntime): DestinationState {
    match r
    case RuntimeDepositAmplifier => DepositAmplifier
    case RuntimeDepositFarm(_, farm) => DepositFarm(farm)
  }

  /** `to_runtime` loses nothing of the stored destination, whatever asset infos it is given. */
  lemma ToRuntimeRoundTrip(d: DestinationState, assetInfos: seq<AssetInfo>)
    ensures ToState(ToRuntime(d, assetInfos)) == d
  {
  }

  /** The ampz callbacks. */
  datatype CallbackMsg =
    | AuthzDeposit(userBalanceStart: seq<Asset>, maxAmount: Option<seq<Asset>>)
    | Swap(assetInfos: seq<AssetInfo>, into: AssetInfo)
    | FinishExecution(destination: DestinationRuntime, executor: Addr)

  /** `CallbackWrapper`: a callback tagged with its execution id and user. */
  datatype CallbackWrapper = CallbackWrapper(id: U128, user: Addr, message: CallbackMsg)

  /** The one `ExecuteMsg` variant a callback travels in. */
  datatype ExecuteMsg = Callback(wrapper: CallbackWrapper)

  /** A `WasmMsg::Execute`. */
  datatype CosmosMsg = WasmExecute(contractAddr: Addr, msg: ExecuteMsg, funds: seq<Coin>)

  function IntoCallbackWrapper(cb: CallbackMsg, id: U128, user: Addr): (r: CallbackWrapper)
    ensures r.id == id && r.user == user && r.message == cb
  {
    CallbackWrapper(id, user, cb)
  }

  /** `CallbackMsg::into_cosmos_msg`: the wrapped callback, sent to `contract` with no funds. */
  function IntoCosmosMsg(cb: CallbackMsg, contract: Addr, id: U128, user: Addr): (r: Result<CosmosMsg, Error>)
    ensures r.Ok?
    ensures r.value.contractAddr == contract && r.value.funds == []
    ensures r.value.msg.wrapper == IntoCallbackWrapper(cb, id, user)
  {
    Ok(WasmExecute(contract, Callback(IntoCallbackWrapper(cb, id, user)), []))
  }

  /**
   * The receiving side of a callback: the message carries back exactly the
   * callback, id and user it was built from.
   */
  lemma CallbackRoundTrip(cb: CallbackMsg, contract: Addr, id: U128, user: Addr)
    ensures var m := IntoCosmosMsg(cb, contract, id, user).value;
      (m.msg.wrapper.message, m.msg.wrapper.id, m.msg.wrapper.user) == (cb, id, user)
  {
  }
}

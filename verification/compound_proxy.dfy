/**
 * The compound proxy of amp-compounder: `compound` turns reward assets into
 * LP tokens of a configured pair by swapping foreign rewards along stored
 * routes (or through the factory), scheduling an `OptimalSwap` callback that
 * balances the two pool assets with one swap, and a `ProvideLiquidity`
 * callback that deposits whatever arrived since a snapshot of the
 * contract's balances.
 *
 * Storage is the `State` value, queries are answered from a `Ledger`, and
 * every outgoing message is a `Msg` value; a response is the ordered list of
 * its messages.
 */
module CompoundProxy {
  import opened Wrappers
  import opened Errors
  import opened Uint
  import opened Chain
  import opened PoolMath

  // ---------------------------------------------------------------------------
  // Data model
  // ---------------------------------------------------------------------------

  datatype PairType = Xyk | Stable | Custom(name: string)

  /** The astroport `PairInfo` of a configured LP: its two assets and its pair contract. */
  datatype PairInfo = PairInfo(infoA: AssetInfo, infoB: AssetInfo, contractAddr: Addr, pairType: PairType)

  /** `LpConfig`: the pair, its commission in basis points, the token rewards are swapped to, and the default slippage. */
  datatype LpConfig = LpConfig(pairInfo: PairInfo, commissionBps: U64, wantedToken: AssetInfo, slippageTolerance: Decimal)

  /** A stored swap route; only its identity matters to the proxy. */
  datatype RouteConfig = RouteConfig(id: string)

  /** The proxy's storage: the optional factory, the LP configs by LP token, and routes keyed by (from, to). */
  datatype State = State(factory: Option<Addr>, lps: map<string, LpConfig>,
                         routes: map<(AssetInfo, AssetInfo), RouteConfig>)

  /** `COMMISSION_DENOM` and `MAX_SPREAD` of the contract's constants module. */
  datatype Consts = Consts(commissionDenom: U64, maxSpread: U64)

  /** The two callbacks the proxy sends to itself. */
  datatype CallbackMsg =
    | OptimalSwap(lpToken: string)
    | ProvideLiquidity(prevBalances: seq<Asset>, slippage: Option<Decimal>, receiver: Addr, lpToken: string)

  /** The messages the proxy emits. */
  datatype Msg =
      /** the cw20 transfer `deposit_asset` appends to pull a token reward into the proxy */
    | Deposit(reward: Asset)
      /** `RouteConfig::create_swap` */
    | RouteSwap(route: RouteConfig, offer: Asset, maxSpread: Decimal)
      /** `Factory::create_swap` */
    | FactorySwap(factory: Addr, offer: Asset, ask: AssetInfo, maxSpread: Decimal)
      /** `CallbackMsg::into_cosmos_msg`: an execute on the proxy itself with no funds */
    | Callback(contract: Addr, cb: CallbackMsg)
      /** a cw20 `IncreaseAllowance` expiring at a block height */
    | IncreaseAllowance(token: Addr, spender: Addr, amount: U128, expiresAtHeight: U64)
      /** `Pair::swap_msg` without belief price or receiver */
    | PairSwap(pair: Addr, offer: Asset, maxSpread: Decimal)
      /** `Pair::provide_liquidity_msg` */
    | PairProvide(pair: Addr, assets: seq<Asset>, slippage: Decimal, receiver: Addr, funds: seq<Coin>)

  /** The four amounts `calculate_optimal_swap` returns, and the messages it appends. */
  datatype SwapPlan = SwapPlan(swapA: U128, swapB: U128, returnA: U128, returnB: U128, msgs: seq<Msg>)

  const NoSwap := SwapPlan(0, 0, 0, 0, [])

  /** `PairInfo::query_pools(querier, holder)`: the holder's balance of each pair asset, in pair order. */
  function QueryPools(ledger: Ledger, pair: PairInfo, holder: Addr): (r: seq<Asset>)
    ensures |r| == 2 && r[0].info == pair.infoA && r[1].info == pair.infoB
  {
    [Asset(pair.infoA, Balance(ledger, holder, pair.infoA)),
     Asset(pair.infoB, Balance(ledger, holder, pair.infoB))]
  }

  /** `map.get(info).unwrap_or(0)`. */
  function Lookup(m: map<AssetInfo, U128>, info: AssetInfo): U128 {
    if info in m then m[info] else 0
  }

  // ---------------------------------------------------------------------------
  // calculate_optimal_swap
  // ---------------------------------------------------------------------------

  /** `Uint256` product of two `Uint128` values; it cannot overflow. */
  function Area(x: U128, y: U128): (r: U256)
    ensures r == x * y
  {
    assert x * y <= (TWO_128 - 1) * (TWO_128 - 1) by { MulLe(x, y, TWO_128 - 1, TWO_128 - 1); }
    assert 0 <= x * y by { MulLe(0, 0, x, y); }
    x * y
  }

  /**
   * `calculate_optimal_swap`: compares the caller's two "areas"
   * `provide_a * pool_b` and `provide_b * pool_a` against the pair's reserves
   * and swaps part of the over-represented side, if the swap amount and its
   * simulated return are both nonzero.
   */
  function CalculateOptimalSwap(ledger: Ledger, lp: LpConfig, consts: Consts, assetA: Asset, assetB: Asset)
    : (r: Result<SwapPlan, Error>)
    ensures r.Ok? ==> r.value.swapA == 0 || r.value.swapB == 0
    ensures r.Ok? ==> |r.value.msgs| <= 1 && (r.value.msgs == [] <==> r.value == NoSwap)
  {
    var pair := lp.pairInfo.contractAddr;
    var pools := QueryPools(ledger, lp.pairInfo, pair);
    var poolA := pools[0].amount;
    var poolB := pools[1].amount;
    var areaA := Area(assetA.amount, poolB);
    var areaB := Area(assetB.amount, poolA);
    if areaA > areaB then
      var swap :- GetSwapAmount(assetA.amount, assetB.amount, poolA, poolB, lp.commissionBps, consts.commissionDenom);
      if swap == 0 then Ok(NoSwap)
      else
        match DecFromRatio256(lp.commissionBps, consts.commissionDenom)
        case Err(e) => Err(e)
        case Ok(rate) =>
          var ret :- Simulate(poolA, poolB, swap, rate);
          if ret == 0 then Ok(NoSwap)
          else Ok(SwapPlan(swap, 0, 0, ret, [PairSwap(pair, Asset(assetA.info, swap), Percent(consts.maxSpread))]))
    else if areaA < areaB then
      var swap :- GetSwapAmount(assetB.amount, assetA.amount, poolB, poolA, lp.commissionBps, consts.commissionDenom);
      if swap == 0 then Ok(NoSwap)
      else
        match DecFromRatio256(lp.commissionBps, consts.commissionDenom)
        case Err(e) => Err(e)
        case Ok(rate) =>
          var ret :- Simulate(poolB, poolA, swap, rate);
          if ret == 0 then Ok(NoSwap)
          else Ok(SwapPlan(0, swap, ret, 0, [PairSwap(pair, Asset(assetB.info, swap), Percent(consts.maxSpread))]))
    else
      Ok(NoSwap)
  }

  /** The pair's reserves that `calculate_optimal_swap` queries. */
  function Reserves(ledger: Ledger, lp: LpConfig): (U128, U128) {
    var pools := QueryPools(ledger, lp.pairInfo, lp.pairInfo.contractAddr);
    (pools[0].amount, pools[1].amount)
  }

  /** When the two areas are equal nothing is swapped and no message is appended. */
  lemma BalancedNoSwap(ledger: Ledger, lp: LpConfig, consts: Consts, assetA: Asset, assetB: Asset)
    requires assetA.amount * Reserves(ledger, lp).1 == assetB.amount * Reserves(ledger, lp).0
    ensures CalculateOptimalSwap(ledger, lp, consts, assetA, assetB) == Ok(NoSwap)
  {
  }

  /**
   * Direction exclusivity: when the a-area is larger, only asset a can be
   * offered, `swap_b` and `return_a` stay zero, and the single message, if
   * any, is a pair swap of exactly `swap_a` of asset a, present exactly when
   * both `swap_a` and `return_b` are nonzero. The swap never exceeds the
   * caller's balance and the return never exceeds the ask reserve.
   */
  lemma SwapsFromA(ledger: Ledger, lp: LpConfig, consts: Consts, assetA: Asset, assetB: Asset)
    requires assetA.amount * Reserves(ledger, lp).1 > assetB.amount * Reserves(ledger, lp).0
    ensures var r := CalculateOptimalSwap(ledger, lp, consts, assetA, assetB);
      r.Ok? ==>
        r.value.swapB == 0 && r.value.returnA == 0 &&
        r.value.swapA <= assetA.amount && r.value.returnB <= Reserves(ledger, lp).1 &&
        (r.value.msgs != [] <==> r.value.swapA != 0 && r.value.returnB != 0) &&
        (r.value.msgs == [] ==> r.value == NoSwap) &&
        (r.value.msgs != [] ==>
           r.value.msgs == [PairSwap(lp.pairInfo.contractAddr, Asset(assetA.info, r.value.swapA), Percent(consts.maxSpread))])
  {
  }

  /** The mirror image of `SwapsFromA`. */
  lemma SwapsFromB(ledger: Ledger, lp: LpConfig, consts: Consts, assetA: Asset, assetB: Asset)
    requires assetA.amount * Reserves(ledger, lp).1 < assetB.amount * Reserves(ledger, lp).0
    ensures var r := CalculateOptimalSwap(ledger, lp, consts, assetA, assetB);
      r.Ok? ==>
        r.value.swapA == 0 && r.value.returnB == 0 &&
        r.value.swapB <= assetB.amount && r.value.returnA <= Reserves(ledger, lp).0 &&
        (r.value.msgs != [] <==> r.value.swapB != 0 && r.value.returnA != 0) &&
        (r.value.msgs == [] ==> r.value == NoSwap) &&
        (r.value.msgs != [] ==>
           r.value.msgs == [PairSwap(lp.pairInfo.contractAddr, Asset(assetB.info, r.value.swapB), Percent(consts.maxSpread))])
  {
  }

  /**
   * The divisor is never zero: with a nonzero commission denominator, no
   * division in either branch divides by zero, because the strict area
   * comparison forces the reserve used as divisor to be positive and a
   * swap is only simulated when its amount is nonzero.
   */
  lemma NeverDividesByZero(ledger: Ledger, lp: LpConfig, consts: Consts, assetA: Asset, assetB: Asset)
    requires 0 < consts.commissionDenom
    ensures CalculateOptimalSwap(ledger, lp, consts, assetA, assetB) != Err(Panic(DivideByZero))
  {
    var (poolA, poolB) := Reserves(ledger, lp);
    var bps := lp.commissionBps;
    var denom := consts.commissionDenom;
    assert DecFromRatio256(bps, denom).Ok? by { RateInRange(bps, denom); }
    if assetA.amount * poolB > assetB.amount * poolA {
      assert 0 < poolB by { PositiveFactor(assetA.amount, poolB, assetB.amount * poolA); }
      SwapAmountDivisors(assetA.amount, assetB.amount, poolA, poolB, bps, denom);
      assert Area(assetA.amount, poolB) > Area(assetB.amount, poolA);
    } else if assetA.amount * poolB < assetB.amount * poolA {
      assert 0 < poolA by { PositiveFactor(assetB.amount, poolA, assetA.amount * poolB); }
      SwapAmountDivisors(assetB.amount, assetA.amount, poolB, poolA, bps, denom);
      assert Area(assetA.amount, poolB) < Area(assetB.amount, poolA);
    }
  }

  /** `Decimal256::from_ratio(bps, denom)` is in range for any `u64` numerator. */
  lemma RateInRange(bps: U64, denom: U64)
    requires 0 < denom
    ensures DecFromRatio256(bps, denom).Ok?
  {
    DivLe(bps * DECIMAL_FRACTIONAL, denom, bps * DECIMAL_FRACTIONAL);
    MulLe(bps, DECIMAL_FRACTIONAL, TWO_64, DECIMAL_FRACTIONAL);
  }

  lemma PositiveFactor(x: nat, y: nat, z: nat)
    requires x * y > z
    ensures 0 < y
  {
    MulMono(x, y, x, 0);
  }

  // ---------------------------------------------------------------------------
  // optimal_swap
  // ---------------------------------------------------------------------------

  /**
   * The `OptimalSwap` callback: nothing for a stable pair or when the proxy
   * holds neither pool asset; otherwise the swap `calculate_optimal_swap`
   * plans for the proxy's own balances.
   */
  function ExecuteOptimalSwap(st: State, consts: Consts, env: Env, ledger: Ledger, lpToken: string)
    : (r: Result<seq<Msg>, Error>)
    ensures lpToken !in st.lps <==> r == Err(NotFound(lpToken))
    ensures r.Ok? ==> |r.value| <= 1
  {
    if lpToken !in st.lps then Err(NotFound(lpToken))
    else
      var lp := st.lps[lpToken];
      if lp.pairInfo.pairType.Stable? then Ok([])
      else
        var assets := QueryPools(ledger, lp.pairInfo, env.contract);
        if assets[0].amount != 0 || assets[1].amount != 0 then
          var plan :- CalculateOptimalSwap(ledger, lp, consts, assets[0], assets[1]);
          Ok(plan.msgs)
        else Ok([])
  }

  /**
   * `optimal_swap` emits at most one message, a pair swap on the LP's own
   * pair that offers one pool asset and no more of it than the proxy holds;
   * it emits nothing for a stable pair or when both balances are zero.
   */
  lemma OptimalSwapAtMostOne(st: State, consts: Consts, env: Env, ledger: Ledger, lpToken: string)
    ensures var r := ExecuteOptimalSwap(st, consts, env, ledger, lpToken);
      r.Ok? ==>
        |r.value| <= 1 &&
        (lpToken in st.lps && r.value != [] ==>
           var lp := st.lps[lpToken];
           var m := r.value[0];
           m.PairSwap? && m.pair == lp.pairInfo.contractAddr && m.maxSpread == Percent(consts.maxSpread) &&
           (m.offer.info == lp.pairInfo.infoA || m.offer.info == lp.pairInfo.infoB) &&
           0 < m.offer.amount <= Balance(ledger, env.contract, m.offer.info))
    ensures lpToken in st.lps &&
            (st.lps[lpToken].pairInfo.pairType.Stable? ||
             (Balance(ledger, env.contract, st.lps[lpToken].pairInfo.infoA) == 0 &&
              Balance(ledger, env.contract, st.lps[lpToken].pairInfo.infoB) == 0))
            ==> ExecuteOptimalSwap(st, consts, env, ledger, lpToken) == Ok([])
  {
    if lpToken in st.lps {
      var lp := st.lps[lpToken];
      var assets := QueryPools(ledger, lp.pairInfo, env.contract);
      var (poolA, poolB) := Reserves(ledger, lp);
      if !lp.pairInfo.pairType.Stable? && (assets[0].amount != 0 || assets[1].amount != 0) {
        if assets[0].amount * poolB > assets[1].amount * poolA {
          SwapsFromA(ledger, lp, consts, assets[0], assets[1]);
        } else if assets[0].amount * poolB < assets[1].amount * poolA {
          SwapsFromB(ledger, lp, consts, assets[0], assets[1]);
        } else {
          BalancedNoSwap(ledger, lp, consts, assets[0], assets[1]);
        }
      }
    }
  }

  // ---------------------------------------------------------------------------
  // provide_liquidity
  // ---------------------------------------------------------------------------

  /**
   * `prev_balances.into_iter().map(|a| (a.info, a.amount)).collect()` into a
   * `HashMap`: an asset listed twice keeps its later amount.
   */
  function PrevMap(prev: seq<Asset>): map<AssetInfo, U128>
    decreases |prev|
  {
    if |prev| == 0 then map[]
    else PrevMap(prev[..|prev| - 1])[prev[|prev| - 1].info := prev[|prev| - 1].amount]
  }

  /** The index of the last entry for `k`, or -1 when there is none. */
  function LastIndex(prev: seq<Asset>, k: AssetInfo): (r: int)
    ensures -1 <= r < |prev|
    ensures r >= 0 ==> prev[r].info == k
    ensures forall j :: r < j < |prev| ==> prev[j].info != k
    decreases |prev|
  {
    if |prev| == 0 then -1
    else if prev[|prev| - 1].info == k then |prev| - 1
    else LastIndex(prev[..|prev| - 1], k)
  }

  /**
   * The map holds exactly the listed assets, each with the amount of its
   * last occurrence.
   */
  lemma {:induction false} PrevMapLastWins(prev: seq<Asset>, k: AssetInfo)
    ensures k in PrevMap(prev) <==> LastIndex(prev, k) >= 0
    ensures k in PrevMap(prev) ==> PrevMap(prev)[k] == prev[LastIndex(prev, k)].amount
    decreases |prev|
  {
    if |prev| > 0 && prev[|prev| - 1].info != k {
      var init := prev[..|prev| - 1];
      PrevMapLastWins(init, k);
      if LastIndex(init, k) >= 0 {
        assert prev[LastIndex(init, k)] == init[LastIndex(init, k)];
      }
    }
  }

  /** The deposit `provide_liquidity` builds: the assets, the allowance messages and the funds. */
  datatype Provision = Provision(assets: seq<Asset>, msgs: seq<Msg>, funds: seq<Coin>)

  /**
   * The loop of `provide_liquidity`: for each held pool asset, the amount
   * above its snapshot (failing when the snapshot is larger), sent as funds
   * when native and approved to the pair until the next block when a token.
   */
  function ProvideSteps(current: seq<Asset>, prev: map<AssetInfo, U128>, pair: Addr, height: U64)
    : (r: Result<Provision, Error>)
    ensures (exists i :: 0 <= i < |current| && current[i].amount < Lookup(prev, current[i].info)) ==> r.Err?
    ensures r.Err? ==> r.error == SubUnderflow || r.error == Panic(AddOverflow)
    ensures r.Ok? ==> |r.value.assets| == |current|
    ensures r.Ok? ==> forall i :: 0 <= i < |current| ==>
              r.value.assets[i].info == current[i].info &&
              r.value.assets[i].amount + Lookup(prev, current[i].info) == current[i].amount
    decreases |current|
  {
    if |current| == 0 then Ok(Provision([], [], []))
    else
      var acc :- ProvideSteps(current[..|current| - 1], prev, pair, height);
      var asset := current[|current| - 1];
      var amount :- CheckedSub(asset.amount, Lookup(prev, asset.info));
      var provided := Asset(asset.info, amount);
      if amount == 0 then Ok(Provision(acc.assets + [provided], acc.msgs, acc.funds))
      else
        match asset.info
        case NativeToken(denom) =>
          Ok(Provision(acc.assets + [provided], acc.msgs, acc.funds + [Coin(denom, amount)]))
        case Token(token) =>
          var expiry :- Add64(height, 1);
          Ok(Provision(acc.assets + [provided], acc.msgs + [IncreaseAllowance(token, pair, amount, expiry)], acc.funds))
  }

  /**
   * The funds of the deposit are exactly the nonzero native amounts.
   */
  lemma {:induction false} ProvideStepsFunds(current: seq<Asset>, prev: map<AssetInfo, U128>, pair: Addr, height: U64)
    ensures var r := ProvideSteps(current, prev, pair, height);
      r.Ok? ==>
        (forall i :: 0 <= i < |current| && r.value.assets[i].amount != 0 && current[i].info.NativeToken? ==>
           Coin(current[i].info.denom, r.value.assets[i].amount) in r.value.funds) &&
        (forall c :: c in r.value.funds ==> c.amount != 0 && Asset(NativeToken(c.denom), c.amount) in r.value.assets)
    decreases |current|
  {
    var r := ProvideSteps(current, prev, pair, height);
    if |current| > 0 && r.Ok? {
      var init := current[..|current| - 1];
      ProvideStepsFunds(init, prev, pair, height);
      var acc := ProvideSteps(init, prev, pair, height).value;
      assert r.value.assets[..|init|] == acc.assets;
      forall i | 0 <= i < |init|
        ensures current[i] == init[i] && r.value.assets[i] == acc.assets[i]
      {
      }
    }
  }

  /**
   * The messages of the deposit are exactly the allowances of the nonzero
   * token amounts to the pair, each expiring at the next block height.
   */
  lemma {:induction false} ProvideStepsAllowances(current: seq<Asset>, prev: map<AssetInfo, U128>, pair: Addr, height: U64)
    ensures var r := ProvideSteps(current, prev, pair, height);
      r.Ok? ==>
        (forall i :: 0 <= i < |current| && r.value.assets[i].amount != 0 && current[i].info.Token? ==>
           exists m :: m in r.value.msgs && m.IncreaseAllowance? && m.token == current[i].info.contractAddr && m.amount == r.value.assets[i].amount) &&
        (forall m :: m in r.value.msgs ==>
           m.IncreaseAllowance? && m.spender == pair && m.expiresAtHeight == height + 1 && m.amount != 0 &&
           Asset(Token(m.token), m.amount) in r.value.assets)
    decreases |current|
  {
    var r := ProvideSteps(current, prev, pair, height);
    if |current| > 0 && r.Ok? {
      var init := current[..|current| - 1];
      ProvideStepsAllowances(init, prev, pair, height);
      var acc := ProvideSteps(init, prev, pair, height).value;
      assert r.value.assets[..|init|] == acc.assets;
      forall i | 0 <= i < |init|
        ensures current[i] == init[i] && r.value.assets[i] == acc.assets[i]
      {
      }
    }
  }

  /**
   * The `ProvideLiquidity` callback: deposits into the pair everything the
   * proxy holds above the snapshot, with the caller's slippage tolerance if
   * one was given and the LP's default otherwise.
   */
  function ExecuteProvideLiquidity(st: State, env: Env, ledger: Ledger, prevBalances: seq<Asset>,
                                   receiver: Addr, slippage: Option<Decimal>, lpToken: string)
    : (r: Result<seq<Msg>, Error>)
    ensures lpToken !in st.lps ==> r == Err(NotFound(lpToken))
    ensures r.Err? ==> r.error in {NotFound(lpToken), SubUnderflow, Panic(AddOverflow)}
    ensures lpToken in st.lps &&
            Balance(ledger, env.contract, st.lps[lpToken].pairInfo.infoA) <
            Lookup(PrevMap(prevBalances), st.lps[lpToken].pairInfo.infoA)
            ==> r.Err?
    ensures lpToken in st.lps &&
            Balance(ledger, env.contract, st.lps[lpToken].pairInfo.infoB) <
            Lookup(PrevMap(prevBalances), st.lps[lpToken].pairInfo.infoB)
            ==> r.Err?
  {
    if lpToken !in st.lps then Err(NotFound(lpToken))
    else
      var lp := st.lps[lpToken];
      var pair := lp.pairInfo.contractAddr;
      var assets := QueryPools(ledger, lp.pairInfo, env.contract);
      var parts :- ProvideSteps(assets, PrevMap(prevBalances), pair, env.height);
      Ok(parts.msgs + [PairProvide(pair, parts.assets, slippage.GetOr(lp.slippageTolerance), receiver, parts.funds)])
  }

  /**
   * The pair provide is the last message, every message before it is an
   * allowance to the pair, and the slippage tolerance is the caller's if
   * given, else the LP's default: it is not capped by the default. The
   * deposit holds both pool assets in pair order, each with the proxy's
   * balance above its snapshot, and its funds are exactly the nonzero
   * native amounts.
   */
  lemma ProvideLiquidityLast(st: State, env: Env, ledger: Ledger, prevBalances: seq<Asset>,
                             receiver: Addr, slippage: Option<Decimal>, lpToken: string)
    ensures var r := ExecuteProvideLiquidity(st, env, ledger, prevBalances, receiver, slippage, lpToken);
      r.Ok? ==>
        lpToken in st.lps && |r.value| >= 1 &&
        var lp := st.lps[lpToken];
        var last := r.value[|r.value| - 1];
        last.PairProvide? && last.pair == lp.pairInfo.contractAddr && last.receiver == receiver &&
        (slippage.Some? ==> last.slippage == slippage.value) &&
        (slippage.None? ==> last.slippage == lp.slippageTolerance) &&
        (forall i :: 0 <= i < |r.value| - 1 ==>
           r.value[i].IncreaseAllowance? && r.value[i].spender == lp.pairInfo.contractAddr) &&
        |last.assets| == 2 &&
        last.assets[0].info == lp.pairInfo.infoA && last.assets[1].info == lp.pairInfo.infoB &&
        last.assets[0].amount + Lookup(PrevMap(prevBalances), lp.pairInfo.infoA) ==
          Balance(ledger, env.contract, lp.pairInfo.infoA) &&
        last.assets[1].amount + Lookup(PrevMap(prevBalances), lp.pairInfo.infoB) ==
          Balance(ledger, env.contract, lp.pairInfo.infoB) &&
        (forall i :: 0 <= i < 2 && last.assets[i].amount != 0 && last.assets[i].info.NativeToken? ==>
           Coin(last.assets[i].info.denom, last.assets[i].amount) in last.funds) &&
        (forall c :: c in last.funds ==> c.amount != 0 && Asset(NativeToken(c.denom), c.amount) in last.assets)
  {
    var r := ExecuteProvideLiquidity(st, env, ledger, prevBalances, receiver, slippage, lpToken);
    if r.Ok? {
      var lp := st.lps[lpToken];
      var pair := lp.pairInfo.contractAddr;
      var assets := QueryPools(ledger, lp.pairInfo, env.contract);
      ProvideStepsAllowances(assets, PrevMap(prevBalances), pair, env.height);
      ProvideStepsFunds(assets, PrevMap(prevBalances), pair, env.height);
      var parts := ProvideSteps(assets, PrevMap(prevBalances), pair, env.height).value;
      assert r.value == parts.msgs + [PairProvide(pair, parts.assets, slippage.GetOr(lp.slippageTolerance), receiver, parts.funds)];
      forall i | 0 <= i < |r.value| - 1
        ensures r.value[i].IncreaseAllowance? && r.value[i].spender == pair
      {
        assert r.value[i] == parts.msgs[i];
        assert parts.msgs[i] in parts.msgs;
      }
    }
  }

  // ---------------------------------------------------------------------------
  // compound
  // ---------------------------------------------------------------------------

  function IsPoolAsset(lp: LpConfig, info: AssetInfo): bool {
    info == lp.pairInfo.infoA || info == lp.pairInfo.infoB
  }

  /** A reward can be turned into the wanted token: it is a pool asset, has a stored route, or a factory is set. */
  predicate Routable(st: State, lp: LpConfig, info: AssetInfo) {
    IsPoolAsset(lp, info) || (info, lp.wantedToken) in st.routes || st.factory.Some?
  }

  function RouteError(info: AssetInfo, wanted: AssetInfo): Error {
    Generic("did not find route " + InfoName(info) + "-" + InfoName(wanted))
  }

  /**
   * The swap `compound` appends for one reward: none for a pool asset, else
   * the stored route to the wanted token, else a factory swap with a 50%
   * maximum spread, else the "did not find route" error.
   */
  function SwapFor(st: State, consts: Consts, lp: LpConfig, reward: Asset): (r: Result<seq<Msg>, Error>)
    ensures r.Ok? <==> Routable(st, lp, reward.info)
    ensures r.Err? ==> r.error == RouteError(reward.info, lp.wantedToken)
    ensures r.Ok? ==> |r.value| <= 1 && (r.value == [] <==> IsPoolAsset(lp, reward.info))
  {
    if IsPoolAsset(lp, reward.info) then Ok([])
    else if (reward.info, lp.wantedToken) in st.routes then
      Ok([RouteSwap(st.routes[(reward.info, lp.wantedToken)], reward, Percent(consts.maxSpread))])
    else if st.factory.Some? then
      Ok([FactorySwap(st.factory.value, reward, lp.wantedToken, Percent(50))])
    else Err(RouteError(reward.info, lp.wantedToken))
  }

  /**
   * The messages `deposit_asset` appends for one reward: a transfer for a
   * token, and none for a native coin, which arrives with the call's funds.
   */
  function DepositMsgs(reward: Asset): (r: seq<Msg>)
    ensures |r| <= 1 && (r != [] <==> reward.info.Token?)
    ensures forall m :: m in r ==> m == Deposit(reward)
  {
    if reward.info.Token? then [Deposit(reward)] else []
  }

  /**
   * The reward loop of `compound`: each reward is deposited (the
   * `deposit_asset` check is the parameter `deposit`) and then swapped as
   * `SwapFor` decides; the first failure aborts.
   */
  function RewardMsgs(st: State, consts: Consts, lp: LpConfig, deposit: Asset -> Outcome<Error>, rewards: seq<Asset>)
    : (r: Result<seq<Msg>, Error>)
    ensures r.Ok? ==> |r.value| == CountTokens(rewards) + CountForeign(lp, rewards)
    ensures (forall j :: 0 <= j < |rewards| ==> deposit(rewards[j]).Pass? && Routable(st, lp, rewards[j].info)) ==> r.Ok?
    decreases |rewards|
  {
    if |rewards| == 0 then Ok([])
    else
      var msgs :- RewardMsgs(st, consts, lp, deposit, rewards[..|rewards| - 1]);
      var reward := rewards[|rewards| - 1];
      if deposit(reward).Fail? then Err(deposit(reward).error)
      else
        var swap :- SwapFor(st, consts, lp, reward);
        Ok(msgs + DepositMsgs(reward) + swap)
  }

  /** The native rewards, in order: the entries `native_reward_map` receives. */
  function NativeRewards(rewards: seq<Asset>): (r: seq<Asset>)
    ensures forall a :: a in r <==> a in rewards && a.info.NativeToken?
    decreases |rewards|
  {
    if |rewards| == 0 then []
    else
      var last := rewards[|rewards| - 1];
      NativeRewards(rewards[..|rewards| - 1]) + (if last.info.NativeToken? then [last] else [])
  }

  /**
   * The snapshot `compound` passes to `ProvideLiquidity`: each queried
   * balance minus that asset's native reward (zero for any other asset),
   * failing on the first underflow.
   */
  function Snapshot(balances: seq<Asset>, natives: map<AssetInfo, U128>): (r: Result<seq<Asset>, Error>)
    ensures r.Ok? <==> forall i :: 0 <= i < |balances| ==> Lookup(natives, balances[i].info) <= balances[i].amount
    ensures r.Err? ==> r.error == SubUnderflow
    ensures r.Ok? ==> |r.value| == |balances|
    ensures r.Ok? ==> forall i :: 0 <= i < |balances| ==>
              r.value[i].info == balances[i].info &&
              r.value[i].amount + Lookup(natives, balances[i].info) == balances[i].amount
    decreases |balances|
  {
    if |balances| == 0 then Ok([])
    else
      var init :- Snapshot(balances[..|balances| - 1], natives);
      var a := balances[|balances| - 1];
      var amount :- CheckedSub(a.amount, Lookup(natives, a.info));
      Ok(init + [Asset(a.info, amount)])
  }

  /**
   * `compound`: the reward deposits and swaps, then the `OptimalSwap`
   * callback unless `no_swap`, then the `ProvideLiquidity` callback carrying
   * the snapshot. `native_reward_map` is only read after the loop, so it is
   * built from the native rewards once the loop has succeeded.
   */
  function Compound(st: State, consts: Consts, env: Env, ledger: Ledger, deposit: Asset -> Outcome<Error>,
                    rewards: seq<Asset>, receiver: Addr, noSwap: Option<bool>, slippage: Option<Decimal>,
                    lpToken: string)
    : (r: Result<seq<Msg>, Error>)
    ensures lpToken !in st.lps ==> r == Err(Generic("did not find lp " + lpToken))
    ensures r.Ok? ==>
              && lpToken in st.lps
              && var n := CountTokens(rewards) + CountForeign(st.lps[lpToken], rewards);
                 n + 1 <= |r.value| <= n + 2
    ensures r.Ok? ==> r.value[|r.value| - 1].Callback? && r.value[|r.value| - 1].cb.ProvideLiquidity?
  {
    if lpToken !in st.lps then Err(Generic("did not find lp " + lpToken))
    else
      var lp := st.lps[lpToken];
      var msgs :- RewardMsgs(st, consts, lp, deposit, rewards);
      var natives := PrevMap(NativeRewards(rewards));
      var swapCb := if noSwap.GetOr(false) then [] else [Callback(env.contract, OptimalSwap(lpToken))];
      var prev :- Snapshot(QueryPools(ledger, lp.pairInfo, env.contract), natives);
      Ok(msgs + swapCb + [Callback(env.contract, ProvideLiquidity(prev, slippage, receiver, lpToken))])
  }

  /** The number of swap messages in a list. */
  function CountSwaps(msgs: seq<Msg>): nat
    decreases |msgs|
  {
    if |msgs| == 0 then 0
    else CountSwaps(msgs[..|msgs| - 1]) + (if msgs[|msgs| - 1].RouteSwap? || msgs[|msgs| - 1].FactorySwap? then 1 else 0)
  }

  /** The number of token rewards. */
  function CountTokens(rewards: seq<Asset>): nat
    decreases |rewards|
  {
    if |rewards| == 0 then 0
    else CountTokens(rewards[..|rewards| - 1]) + (if rewards[|rewards| - 1].info.Token? then 1 else 0)
  }

  /** The number of rewards that are not pool assets. */
  function CountForeign(lp: LpConfig, rewards: seq<Asset>): nat
    decreases |rewards|
  {
    if |rewards| == 0 then 0
    else CountForeign(lp, rewards[..|rewards| - 1]) + (if IsPoolAsset(lp, rewards[|rewards| - 1].info) then 0 else 1)
  }

  lemma CountSwapsAppend(a: seq<Msg>, b: seq<Msg>)
    ensures CountSwaps(a + b) == CountSwaps(a) + CountSwaps(b)
    decreases |b|
  {
    if |b| > 0 {
      assert (a + b)[..|a + b| - 1] == a + b[..|b| - 1];
      assert (a + b)[|a + b| - 1] == b[|b| - 1];
      CountSwapsAppend(a, b[..|b| - 1]);
    } else {
      assert a + b == a;
    }
  }

  /** One swap per reward that is not a pool asset, and none for a pool asset. */
  lemma {:induction false} RewardSwapCount(st: State, consts: Consts, lp: LpConfig, deposit: Asset -> Outcome<Error>,
                                           rewards: seq<Asset>)
    ensures var r := RewardMsgs(st, consts, lp, deposit, rewards);
      r.Ok? ==> CountSwaps(r.value) == CountForeign(lp, rewards)
    decreases |rewards|
  {
    var r := RewardMsgs(st, consts, lp, deposit, rewards);
    if |rewards| > 0 && r.Ok? {
      var init := rewards[..|rewards| - 1];
      var reward := rewards[|rewards| - 1];
      RewardSwapCount(st, consts, lp, deposit, init);
      var msgs := RewardMsgs(st, consts, lp, deposit, init).value;
      var swap := SwapFor(st, consts, lp, reward).value;
      var dep := DepositMsgs(reward);
      assert r.value == msgs + (dep + swap);
      CountSwapsAppend(msgs, dep + swap);
      CountSwapsAppend(dep, swap);
      assert CountSwaps(dep) == 0 by {
        if dep != [] {
          assert dep[..0] == [];
        }
      }
      if swap != [] {
        assert CountSwaps(swap) == 1 by {
          assert swap[..0] == [];
        }
      }
    }
  }

  /**
   * Route resolution in the reward loop: a route swap is used exactly when
   * a route to the wanted token is stored, with the contract's maximum
   * spread; otherwise the factory swap, with a 50% maximum spread; pool
   * assets are never swapped here, and no callback or pair message is
   * emitted here.
   */
  lemma {:induction false} RewardRouting(st: State, consts: Consts, lp: LpConfig, deposit: Asset -> Outcome<Error>,
                                         rewards: seq<Asset>)
    ensures var r := RewardMsgs(st, consts, lp, deposit, rewards);
      r.Ok? ==>
        (forall m :: m in r.value ==> m.Deposit? || m.RouteSwap? || m.FactorySwap?) &&
        (forall m :: m in r.value && m.RouteSwap? ==>
           m.offer in rewards && !IsPoolAsset(lp, m.offer.info) &&
           (m.offer.info, lp.wantedToken) in st.routes && m.route == st.routes[(m.offer.info, lp.wantedToken)] &&
           m.maxSpread == Percent(consts.maxSpread)) &&
        (forall m :: m in r.value && m.FactorySwap? ==>
           m.offer in rewards && !IsPoolAsset(lp, m.offer.info) &&
           (m.offer.info, lp.wantedToken) !in st.routes && st.factory == Some(m.factory) &&
           m.ask == lp.wantedToken && m.maxSpread == Percent(50))
    decreases |rewards|
  {
    var r := RewardMsgs(st, consts, lp, deposit, rewards);
    if |rewards| > 0 && r.Ok? {
      var init := rewards[..|rewards| - 1];
      var reward := rewards[|rewards| - 1];
      RewardRouting(st, consts, lp, deposit, init);
      var msgs := RewardMsgs(st, consts, lp, deposit, init).value;
      var swap := SwapFor(st, consts, lp, reward).value;
      assert r.value == msgs + DepositMsgs(reward) + swap;
      assert forall a :: a in init ==> a in rewards;
    }
  }

  /**
   * Deposits in the reward loop: every token reward is pulled in by a
   * transfer, and no transfer is emitted for anything else.
   */
  lemma {:induction false} RewardDeposits(st: State, consts: Consts, lp: LpConfig, deposit: Asset -> Outcome<Error>,
                                          rewards: seq<Asset>)
    ensures var r := RewardMsgs(st, consts, lp, deposit, rewards);
      r.Ok? ==>
        (forall a :: a in rewards && a.info.Token? ==> Deposit(a) in r.value) &&
        (forall m :: m in r.value && m.Deposit? ==> m.reward in rewards && m.reward.info.Token?)
    decreases |rewards|
  {
    var r := RewardMsgs(st, consts, lp, deposit, rewards);
    if |rewards| > 0 && r.Ok? {
      var init := rewards[..|rewards| - 1];
      var reward := rewards[|rewards| - 1];
      RewardDeposits(st, consts, lp, deposit, init);
      var msgs := RewardMsgs(st, consts, lp, deposit, init).value;
      var swap := SwapFor(st, consts, lp, reward).value;
      assert r.value == msgs + DepositMsgs(reward) + swap;
      assert forall a :: a in init ==> a in rewards;
      forall a | a in rewards && a.info.Token?
        ensures Deposit(a) in r.value
      {
        if a in init {
          assert Deposit(a) in msgs;
        } else {
          assert a == reward;
        }
      }
    }
  }

  /**
   * With every deposit accepted, the first reward that is neither a pool
   * asset nor has a route makes the loop fail with "did not find route"
   * when no factory is set.
   */
  lemma {:induction false} MissingRoute(st: State, consts: Consts, lp: LpConfig, deposit: Asset -> Outcome<Error>,
                                        rewards: seq<Asset>, i: nat)
    requires forall j :: 0 <= j < |rewards| ==> deposit(rewards[j]).Pass?
    requires i < |rewards| && !Routable(st, lp, rewards[i].info)
    requires forall j :: 0 <= j < i ==> Routable(st, lp, rewards[j].info)
    ensures RewardMsgs(st, consts, lp, deposit, rewards) == Err(RouteError(rewards[i].info, lp.wantedToken))
    decreases |rewards|
  {
    var init := rewards[..|rewards| - 1];
    if i < |init| {
      MissingRoute(st, consts, lp, deposit, init, i);
    } else {
      RoutableSucceeds(st, consts, lp, deposit, init);
    }
  }

  /** With every deposit accepted and every reward routable, the loop succeeds. */
  lemma {:induction false} RoutableSucceeds(st: State, consts: Consts, lp: LpConfig, deposit: Asset -> Outcome<Error>,
                                            rewards: seq<Asset>)
    requires forall j :: 0 <= j < |rewards| ==> deposit(rewards[j]).Pass? && Routable(st, lp, rewards[j].info)
    ensures RewardMsgs(st, consts, lp, deposit, rewards).Ok?
    decreases |rewards|
  {
    if |rewards| > 0 {
      RoutableSucceeds(st, consts, lp, deposit, rewards[..|rewards| - 1]);
    }
  }

  /**
   * The order of `compound`'s messages: the reward deposits and swaps
   * first, then the `OptimalSwap` callback exactly when `no_swap` is not
   * set, so that it sees the balances the reward swaps produce, and last the
   * `ProvideLiquidity` callback to the proxy itself carrying the snapshot:
   * each pool asset's balance minus its native reward amount.
   */
  lemma CompoundOrder(st: State, consts: Consts, env: Env, ledger: Ledger, deposit: Asset -> Outcome<Error>,
                      rewards: seq<Asset>, receiver: Addr, noSwap: Option<bool>, slippage: Option<Decimal>,
                      lpToken: string)
    ensures var r := Compound(st, consts, env, ledger, deposit, rewards, receiver, noSwap, slippage, lpToken);
      r.Ok? ==>
        lpToken in st.lps && |r.value| >= 1 &&
        (Callback(env.contract, OptimalSwap(lpToken)) in r.value <==> !noSwap.GetOr(false)) &&
        (!noSwap.GetOr(false) ==>
           |r.value| >= 2 && r.value[|r.value| - 2] == Callback(env.contract, OptimalSwap(lpToken))) &&
        (forall i :: 0 <= i < |r.value| - (if noSwap.GetOr(false) then 1 else 2) ==>
           r.value[i].Deposit? || r.value[i].RouteSwap? || r.value[i].FactorySwap?) &&
        var last := r.value[|r.value| - 1];
        var lp := st.lps[lpToken];
        var natives := PrevMap(NativeRewards(rewards));
        last.Callback? && last.contract == env.contract && last.cb.ProvideLiquidity? &&
        last.cb.receiver == receiver && last.cb.slippage == slippage && last.cb.lpToken == lpToken &&
        |last.cb.prevBalances| == 2 &&
        last.cb.prevBalances[0].info == lp.pairInfo.infoA && last.cb.prevBalances[1].info == lp.pairInfo.infoB &&
        last.cb.prevBalances[0].amount + Lookup(natives, lp.pairInfo.infoA) == Balance(ledger, env.contract, lp.pairInfo.infoA) &&
        last.cb.prevBalances[1].amount + Lookup(natives, lp.pairInfo.infoB) == Balance(ledger, env.contract, lp.pairInfo.infoB)
  {
    var r := Compound(st, consts, env, ledger, deposit, rewards, receiver, noSwap, slippage, lpToken);
    if r.Ok? {
      var lp := st.lps[lpToken];
      RewardRouting(st, consts, lp, deposit, rewards);
      var msgs := RewardMsgs(st, consts, lp, deposit, rewards).value;
      assert Callback(env.contract, OptimalSwap(lpToken)) !in msgs;
      var swapCb := if noSwap.GetOr(false) then [] else [Callback(env.contract, OptimalSwap(lpToken))];
      var prev := Snapshot(QueryPools(ledger, lp.pairInfo, env.contract), PrevMap(NativeRewards(rewards))).value;
      var provide := Callback(env.contract, ProvideLiquidity(prev, slippage, receiver, lpToken));
      assert r.value == msgs + swapCb + [provide];
      assert |r.value| - (if noSwap.GetOr(false) then 1 else 2) == |msgs|;
      forall i | 0 <= i < |msgs|
        ensures r.value[i].Deposit? || r.value[i].RouteSwap? || r.value[i].FactorySwap?
      {
        assert r.value[i] == msgs[i] && msgs[i] in msgs;
      }
    }
  }

  /**
   * Repeated native rewards are undercounted: the snapshot subtracts, for a
   * native asset, the amount of its last reward entry only, however many
   * entries it has.
   */
  lemma NativeLastWins(rewards: seq<Asset>, info: AssetInfo)
    ensures var natives := NativeRewards(rewards);
      Lookup(PrevMap(natives), info) ==
        (if LastIndex(natives, info) >= 0 then natives[LastIndex(natives, info)].amount else 0)
  {
    PrevMapLastWins(NativeRewards(rewards), info);
  }

  /**
   * The round trip of `compound` and its `ProvideLiquidity` callback: when
   * the callback runs against the balances the snapshot was taken from, and
   * a native reward's asset is listed once in the pair, it deposits exactly
   * that asset's native reward amount, and nothing of any other asset.
   */
  lemma CompoundThenProvide(st: State, consts: Consts, env: Env, ledger: Ledger, deposit: Asset -> Outcome<Error>,
                            rewards: seq<Asset>, receiver: Addr, noSwap: Option<bool>, slippage: Option<Decimal>,
                            lpToken: string)
    requires lpToken in st.lps && st.lps[lpToken].pairInfo.infoA != st.lps[lpToken].pairInfo.infoB
    ensures var r := Compound(st, consts, env, ledger, deposit, rewards, receiver, noSwap, slippage, lpToken);
      r.Ok? ==>
        var cb := r.value[|r.value| - 1].cb;
        var lp := st.lps[lpToken];
        var natives := PrevMap(NativeRewards(rewards));
        var p := ExecuteProvideLiquidity(st, env, ledger, cb.prevBalances, cb.receiver, cb.slippage, cb.lpToken);
        p.Ok? && |p.value| == 1 &&
        p.value[0].PairProvide? &&
        p.value[0].assets == [Asset(lp.pairInfo.infoA, Lookup(natives, lp.pairInfo.infoA)),
                              Asset(lp.pairInfo.infoB, Lookup(natives, lp.pairInfo.infoB))]
  {
    var r := Compound(st, consts, env, ledger, deposit, rewards, receiver, noSwap, slippage, lpToken);
    if r.Ok? {
      CompoundOrder(st, consts, env, ledger, deposit, rewards, receiver, noSwap, slippage, lpToken);
      var lp := st.lps[lpToken];
      var natives := PrevMap(NativeRewards(rewards));
      var cb := r.value[|r.value| - 1].cb;
      TokensNotNative(rewards, lp.pairInfo.infoA);
      TokensNotNative(rewards, lp.pairInfo.infoB);
      ProvideFromSnapshot(st, env, ledger, natives, cb.prevBalances, cb.receiver, cb.slippage, cb.lpToken);
    }
  }

  /**
   * `ProvideLiquidity` run on the balances a snapshot was taken from
   * deposits exactly what the snapshot set aside, provided no token was set
   * aside.
   */
  lemma ProvideFromSnapshot(st: State, env: Env, ledger: Ledger, natives: map<AssetInfo, U128>, prev: seq<Asset>,
                            receiver: Addr, slippage: Option<Decimal>, lpToken: string)
    requires lpToken in st.lps
    requires var pi := st.lps[lpToken].pairInfo;
      pi.infoA != pi.infoB && |prev| == 2 && prev[0].info == pi.infoA && prev[1].info == pi.infoB &&
      prev[0].amount + Lookup(natives, pi.infoA) == Balance(ledger, env.contract, pi.infoA) &&
      prev[1].amount + Lookup(natives, pi.infoB) == Balance(ledger, env.contract, pi.infoB) &&
      (pi.infoA.Token? ==> Lookup(natives, pi.infoA) == 0) &&
      (pi.infoB.Token? ==> Lookup(natives, pi.infoB) == 0)
    ensures var pi := st.lps[lpToken].pairInfo;
      var p := ExecuteProvideLiquidity(st, env, ledger, prev, receiver, slippage, lpToken);
      p.Ok? && |p.value| == 1 && p.value[0].PairProvide? &&
      p.value[0].assets == [Asset(pi.infoA, Lookup(natives, pi.infoA)), Asset(pi.infoB, Lookup(natives, pi.infoB))]
  {
    var lp := st.lps[lpToken];
    var pm := PrevMap(prev);
    PrevMapOfPair(prev);
    var current := QueryPools(ledger, lp.pairInfo, env.contract);
    ProvideStepsNoAllowance(current, pm, lp.pairInfo.contractAddr, env.height);
    var steps := ProvideSteps(current, pm, lp.pairInfo.contractAddr, env.height).value;
    assert steps.assets == [Asset(lp.pairInfo.infoA, Lookup(natives, lp.pairInfo.infoA)),
                            Asset(lp.pairInfo.infoB, Lookup(natives, lp.pairInfo.infoB))];
  }

  /** The map of a two-entry list with distinct assets. */
  lemma PrevMapOfPair(prev: seq<Asset>)
    requires |prev| == 2 && prev[0].info != prev[1].info
    ensures Lookup(PrevMap(prev), prev[0].info) == prev[0].amount
    ensures Lookup(PrevMap(prev), prev[1].info) == prev[1].amount
  {
    assert prev[..1][..0] == [] && prev[..1][0] == prev[0];
    assert prev[..|prev| - 1] == prev[..1];
  }

  /** A token asset is never in the native reward map. */
  lemma TokensNotNative(rewards: seq<Asset>, info: AssetInfo)
    ensures info.Token? ==> Lookup(PrevMap(NativeRewards(rewards)), info) == 0
  {
    var natives := NativeRewards(rewards);
    PrevMapLastWins(natives, info);
    if info in PrevMap(natives) {
      assert natives[LastIndex(natives, info)] in natives;
    }
  }

  /**
   * When no snapshot exceeds its balance and every token is at its snapshot,
   * the deposit loop succeeds without an allowance.
   */
  lemma {:induction false} ProvideStepsNoAllowance(current: seq<Asset>, prev: map<AssetInfo, U128>, pair: Addr, height: U64)
    requires forall i :: 0 <= i < |current| ==>
               Lookup(prev, current[i].info) <= current[i].amount &&
               (current[i].info.Token? ==> Lookup(prev, current[i].info) == current[i].amount)
    ensures ProvideSteps(current, prev, pair, height).Ok?
    ensures ProvideSteps(current, prev, pair, height).value.msgs == []
    decreases |current|
  {
    if |current| > 0 {
      ProvideStepsNoAllowance(current[..|current| - 1], prev, pair, height);
    }
  }

  // ---------------------------------------------------------------------------
  // handle_callback
  // ---------------------------------------------------------------------------

  /** `handle_callback`: only the proxy itself may invoke its callbacks. */
  function HandleCallback(st: State, consts: Consts, env: Env, ledger: Ledger, sender: Addr, cb: CallbackMsg)
    : (r: Result<seq<Msg>, Error>)
    ensures sender != env.contract ==> r == Err(Unauthorized)
    ensures cb.OptimalSwap? && r.Ok? ==> |r.value| <= 1
    ensures cb.ProvideLiquidity? && cb.lpToken !in st.lps ==> r.Err?
  {
    if sender != env.contract then Err(Unauthorized)
    else
      match cb
      case OptimalSwap(lpToken) => ExecuteOptimalSwap(st, consts, env, ledger, lpToken)
      case ProvideLiquidity(prev, slippage, receiver, lpToken) =>
        ExecuteProvideLiquidity(st, env, ledger, prev, receiver, slippage, lpToken)
  }

  /**
   * A callback fails with `Unauthorized` exactly when its sender is not the
   * proxy's own address: neither callback body can fail that way.
   */
  lemma CallbackSelfOnly(st: State, consts: Consts, env: Env, ledger: Ledger, sender: Addr, cb: CallbackMsg)
    ensures HandleCallback(st, consts, env, ledger, sender, cb) == Err(Unauthorized) <==> sender != env.contract
  {
  }
}

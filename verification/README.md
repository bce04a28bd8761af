# ERIS compound proxy and arb-vault accounting in Dafny

This project models two CosmWasm contracts and a few helpers of the ERIS
interface packages.

The **compound proxy** turns a user's reward assets into liquidity-pool (LP)
shares of an XYK pair:
- `compound` deposits each reward and swaps the rewards that are not pool
  assets towards the LP's wanted token, through a stored route or the factory;
- it snapshots the proxy's balances, queues an `OptimalSwap` callback unless
  `no_swap` is set, and always a `ProvideLiquidity` callback last;
- `OptimalSwap` swaps part of the over-represented pool asset, sized by the
  closed-form `get_swap_amount` and priced by `simulate`;
- `ProvideLiquidity` deposits everything above the snapshot into the pair.

The **arb vault** is modelled in its withdraw and unbond accounting:
- the flash-loan arbitrage guard;
- providing the underlying token (`utoken`) for LP shares;
- unbonding shares at once, or through a per-user unbond history that pays out
  after the unbonding period;
- `create_withdraw_msgs`, which pays only from the part of the vault's balance
  that is not locked.

From the **interface packages** the model covers:
- the fee-configuration validators of the arb vault and of ampz;
- the LSD-config validator;
- the uniqueness key of an ampz execution source;
- the runtime form of an ampz destination;
- the wrapping of an ampz callback into a message.

How the model represents the program:
- **Integers.** `Uint128`, `Uint256` and `u64` are bounded naturals. Every
  operator that panics in the source (overflow, underflow, division by zero;
  for plain `u64` arithmetic, see "Left out")
  returns `Err(Panic(kind))`, so each operation is a total function returning
  a `Result`.
- **Fixed point.** Decimals are fixed point with 10^18 atomics: `Decimal` is
  128 bits wide and `Decimal256` is 256 bits wide.
- **Storage and queries.** Storage is an immutable value passed in and
  returned. Queried balances are a `Ledger` or a `Queries` value.
- **Helpers.** Helpers whose code is not part of this model are parameters:
  `deposit_asset`, `calc_fees`, `get_share_from_deposit`, `pool_fee_factor`,
  and the vault's pre-checks.

Modules:

| module | covers |
|---|---|
| `Wrappers` | result types |
| `Errors` | error kinds |
| `Uint` | checked arithmetic, fixed point and integer square root |
| `Chain` | assets, coins, environment, ledger and address validation |
| `PoolMath` | `get_swap_amount` and `simulate` |
| `CompoundProxy` | the proxy's execute functions |
| `ErisArbVault` | the arb-vault package validators |
| `ErisAmpz` | the ampz package helpers |
| `ArbVault` | the vault's domain operations |

The slippage tolerance sent with the pair deposit is the caller's value when
one is given, and otherwise the LP's stored default
(`compound_proxy/src/execute.rs:310`). It is not the larger of the two, and
the model follows the code.

## Model

| member | source | states |
|---|---|---|
| PoolMath.SwapAreas | contracts/amp-compounder/compound_proxy/src/execute.rs:330-333 | The post-deposit pools and the two cross areas fail only by an addition or multiplication overflow of `Uint256`. |
| PoolMath.Discriminant | contracts/amp-compounder/compound_proxy/src/execute.rs:335-336 | The discriminant fails only by a `u64` or `Uint256` overflow or by the `u64` underflow of `denom - bps`. |
| PoolMath.Numerator | contracts/amp-compounder/compound_proxy/src/execute.rs:337 | The numerator fails only by an addition or multiplication overflow. |
| PoolMath.SwapAmountWide | contracts/amp-compounder/compound_proxy/src/execute.rs:323-338 | Every `Uint256` and `u64` step of the closed form before narrowing. Success implies `bps <= denom` and nonzero divisors. Every failure is a panic. The bound by the offer is `PoolMath.SwapAmountAtMostOffer`. |
| PoolMath.GetSwapAmount | contracts/amp-compounder/compound_proxy/src/execute.rs:323-341 | A swap amount never exceeds the offered amount. The "overflow" error occurs exactly when the 256-bit result does not fit 128 bits, which cannot happen for a `Uint128` offer. Every other failure is a panic. |
| PoolMath.SwapAmountDivisors | contracts/amp-compounder/compound_proxy/src/execute.rs:338 | With a nonzero commission denominator and a nonzero ask reserve, neither division divides by zero. |
| PoolMath.SwapAmountAtMostOffer | contracts/amp-compounder/compound_proxy/src/execute.rs:323-341 | Whenever no operator panics, the optimal swap amount is at most `amount_a`. The proof goes through the square-root bound of the closed form. |
| PoolMath.Simulate | contracts/amp-compounder/compound_proxy/src/execute.rs:344-364 | The net return is at most the gross return, which is at most the ask reserve. With a zero commission they are equal. There is no division by zero when the pool after the offer is nonzero. Failures are panics or "overflow". The exact net value is stated by `PoolMath.SimulateNet`. |
| PoolMath.SimulateNet | contracts/amp-compounder/compound_proxy/src/execute.rs:351-363 | The net return is the truncated gross return less the commission `floor(gross * rate)`. With a rate of at most one it is at least `gross * (1 - rate)`, so a positive gross return with a rate below one gives a positive return, the condition under which a swap is emitted. |
| PoolMath.SimulateSucceeds | contracts/amp-compounder/compound_proxy/src/execute.rs:344-364 | With 128-bit reserves and offer, a nonzero pool after the offer and a rate of at most one, `simulate` succeeds. |
| PoolMath.GrossReturnOfNothing | contracts/amp-compounder/compound_proxy/src/execute.rs:352-355 | Offering nothing to a non-empty pool returns nothing. |
| CompoundProxy.CalculateOptimalSwap | contracts/amp-compounder/compound_proxy/src/execute.rs:178-261 | At most one of the two swap amounts is nonzero, and at most one message is appended. No message means the all-zero plan. The branch contracts are `CompoundProxy.BalancedNoSwap`, `CompoundProxy.SwapsFromA`, `CompoundProxy.SwapsFromB` and `CompoundProxy.NeverDividesByZero`. |
| CompoundProxy.BalancedNoSwap | contracts/amp-compounder/compound_proxy/src/execute.rs:196-200 | Equal provide areas plan no swap and emit no message. |
| CompoundProxy.SwapsFromA | contracts/amp-compounder/compound_proxy/src/execute.rs:200-228 | When the a-area is larger, only asset a is offered, and never more than held. The return is at most the b reserve. The single pair swap is emitted exactly when both the swap and its return are nonzero. |
| CompoundProxy.SwapsFromB | contracts/amp-compounder/compound_proxy/src/execute.rs:229-257 | The mirror image for a larger b-area. |
| CompoundProxy.NeverDividesByZero | contracts/amp-compounder/compound_proxy/src/execute.rs:196-257 | With a nonzero commission denominator, `calculate_optimal_swap` never fails by division by zero. |
| CompoundProxy.ExecuteOptimalSwap | contracts/amp-compounder/compound_proxy/src/execute.rs:147-173 | An unknown LP token fails with not-found, and nothing else fails that way. At most one message is emitted; its content is stated by `CompoundProxy.OptimalSwapAtMostOne`. |
| CompoundProxy.OptimalSwapAtMostOne | contracts/amp-compounder/compound_proxy/src/execute.rs:147-173 | At most one message is emitted: a pair swap on the LP's pair, of one pool asset, no larger than the proxy's balance of it. A stable pair or two zero balances emit nothing. |
| CompoundProxy.ExecuteProvideLiquidity | contracts/amp-compounder/compound_proxy/src/execute.rs:265-320 | An unknown LP token fails with not-found. The only other failures are an underflow or the expiry overflow, and a snapshot above either pool balance fails. The messages are stated by `CompoundProxy.ProvideSteps`, `CompoundProxy.ProvideStepsFunds`, `CompoundProxy.ProvideStepsAllowances` and `CompoundProxy.ProvideLiquidityLast`. |
| CompoundProxy.PrevMapLastWins | contracts/amp-compounder/compound_proxy/src/execute.rs:281-282 | The snapshot map holds exactly the listed assets, each with the amount of its last entry. |
| CompoundProxy.ProvideSteps | contracts/amp-compounder/compound_proxy/src/execute.rs:284-306 | Each provided amount plus its snapshot equals the current balance, in pair order. A snapshot above a balance makes the loop fail with an underflow. |
| CompoundProxy.ProvideStepsFunds | contracts/amp-compounder/compound_proxy/src/execute.rs:293-298 | The funds are exactly the nonzero native amounts. |
| CompoundProxy.ProvideStepsAllowances | contracts/amp-compounder/compound_proxy/src/execute.rs:299-304 | The messages are exactly the allowances of the nonzero token amounts to the pair, each expiring at the next block height. |
| CompoundProxy.ProvideLiquidityLast | contracts/amp-compounder/compound_proxy/src/execute.rs:308-314 | The pair deposit is last and goes to the given receiver. Every earlier message is an allowance to the pair. The slippage is the caller's if given, else the LP default. The deposit holds both pool assets in pair order, each with exactly the proxy's current balance minus its snapshot amount. Its funds are exactly the nonzero native amounts. |
| CompoundProxy.NativeRewards | contracts/amp-compounder/compound_proxy/src/execute.rs:80-82 | The entries the native reward map receives are exactly the native rewards. |
| CompoundProxy.Snapshot | contracts/amp-compounder/compound_proxy/src/execute.rs:94-103 | The snapshot succeeds exactly when no native reward exceeds its asset's balance. Each snapshot amount plus the native reward equals the balance. |
| CompoundProxy.SwapFor | contracts/amp-compounder/compound_proxy/src/execute.rs:45-78 | One reward succeeds exactly when it is routable, else it fails with "did not find route". At most one swap is emitted, and none exactly for a pool asset. |
| CompoundProxy.RewardMsgs | contracts/amp-compounder/compound_proxy/src/execute.rs:45-78 | The loop emits exactly one transfer per token reward plus one swap per reward that is not a pool asset. The loop succeeds when every deposit passes and every reward is routable. Routing and counts are stated by `CompoundProxy.RewardRouting`, `CompoundProxy.RewardDeposits`, `CompoundProxy.RewardSwapCount` and `CompoundProxy.MissingRoute`. |
| CompoundProxy.RewardSwapCount | contracts/amp-compounder/compound_proxy/src/execute.rs:45-78 | One swap is emitted per reward that is not a pool asset, and none for a pool asset. |
| CompoundProxy.RewardRouting | contracts/amp-compounder/compound_proxy/src/execute.rs:45-78 | Every message is a transfer or a swap. A stored route is used with the contract's maximum spread. Otherwise the factory swap to the wanted token is used with a 50% maximum spread. Pool assets are never swapped. |
| CompoundProxy.RewardDeposits | contracts/amp-compounder/compound_proxy/src/execute.rs:46 | Every token reward is pulled in by a transfer, and every transfer is of a token reward. A native reward adds no message. |
| CompoundProxy.MissingRoute | contracts/amp-compounder/compound_proxy/src/execute.rs:70-76 | The first reward with no route and no factory fails with "did not find route". |
| CompoundProxy.RoutableSucceeds | contracts/amp-compounder/compound_proxy/src/execute.rs:45-78 | When every deposit passes and every reward is routable, the reward loop succeeds. |
| CompoundProxy.Compound | contracts/amp-compounder/compound_proxy/src/execute.rs:23-116 | An unknown LP token fails with "did not find lp". A successful response has one transfer per token reward and one swap per non-pool reward, followed by one or two callbacks, and ends with the `ProvideLiquidity` callback. Order and contents are stated by `CompoundProxy.CompoundOrder` and `CompoundProxy.CompoundThenProvide`. |
| CompoundProxy.CompoundOrder | contracts/amp-compounder/compound_proxy/src/execute.rs:85-113 | Only reward deposits and swaps come before the callbacks. The `OptimalSwap` callback is present exactly when `no_swap` is unset or false, and then it is second to last, after the reward swaps whose output it balances. The last message is the `ProvideLiquidity` self-callback carrying the receiver, the slippage and a snapshot of balance minus native reward. |
| CompoundProxy.NativeLastWins | contracts/amp-compounder/compound_proxy/src/execute.rs:80-82 | For a native asset rewarded several times, the snapshot subtracts only its last reward amount. |
| CompoundProxy.CompoundThenProvide | contracts/amp-compounder/compound_proxy/src/execute.rs:94-113 | Round trip: the callback, run on the balances the snapshot was taken from, deposits exactly the native reward amounts of the pair's two distinct assets. |
| CompoundProxy.HandleCallback | contracts/amp-compounder/compound_proxy/src/execute.rs:120-143 | A sender other than the proxy fails with `Unauthorized`. An `OptimalSwap` callback emits at most one message, and a `ProvideLiquidity` callback for an unknown LP token fails. |
| CompoundProxy.CallbackSelfOnly | contracts/amp-compounder/compound_proxy/src/execute.rs:126-129 | A callback fails with `Unauthorized` exactly when the sender is not the proxy itself. |
| ErisArbVault.ValidateFeeConfig | packages/eris/src/arb_vault.rs:299-318 | The config is accepted exactly when the performance fee is at most 20%, the withdraw fee at most 5%, the immediate fee at most 10% and the receiver valid. The first violated check is the error reported. An accepted config is unchanged. |
| ErisArbVault.FeeCapsInclusive | packages/eris/src/arb_vault.rs:300-310 | Fees of exactly 20%, 5% and 10% are accepted. |
| ErisArbVault.ValidateLsdConfig | packages/eris/src/arb_vault.rs:46-80 | The config is accepted exactly when both addresses are valid, the hub address being checked first. The `disabled` flag and the LSD family are kept. |
| ErisAmpz.ValidateFeeConfig | packages/eris/src/ampz.rs:146-159 | The config is accepted exactly when both fees are at most 500 basis points and the receiver is valid. The fee check precedes the operator-fee check. An accepted config is unchanged. |
| ErisAmpz.TryGetUniqKey | packages/eris/src/ampz.rs:58-71 | There is no key exactly for a wallet source. |
| ErisAmpz.UniqKeySeparatesKinds | packages/eris/src/ampz.rs:58-71 | Two sources share a key exactly when both are `Claim` or both are `AstroRewards`. |
| ErisAmpz.ToRuntime | packages/eris/src/ampz.rs:185-195 | A farm keeps its address and receives the given asset infos. The amplifier ignores them. |
| ErisAmpz.ToRuntimeRoundTrip | packages/eris/src/ampz.rs:185-195 | The stored destination is recovered from its runtime form. |
| ErisAmpz.IntoCallbackWrapper | packages/eris/src/ampz.rs:242-248 | The wrapper carries the given id, user and callback. |
| ErisAmpz.IntoCosmosMsg | packages/eris/src/ampz.rs:229-240 | The message is always built. It targets the given contract with no funds and wraps the callback. |
| ErisAmpz.CallbackRoundTrip | packages/eris/src/ampz.rs:229-248 | The receiving side recovers the callback, id and user. |
| ArbVault.FindEntry | contracts/arb-vault/src/domain/execute.rs:251-252 | An entry is found exactly when one is saved under the id, and it is that entry. Otherwise the load fails with not-found. |
| ArbVault.AddToUnbondHistory | contracts/arb-vault/src/domain/execute.rs:207-214 | The entry is appended to the user's history under the next id, and the locked balance grows by its amount. Other users are untouched. It fails only by overflow. |
| ArbVault.CreateWithdrawMsgs | contracts/arb-vault/src/domain/execute.rs:316-385 | A zero amount fails with `NoWithdrawableAsset`. It fails with `NotEnoughAssetsInThePool` exactly when `sat(available - sat(locked - take))` is below the amount. Otherwise it succeeds exactly when the fees succeed and do not exceed the amount. On success the locked balance becomes `sat(locked - take)`, the amount plus that balance is at most the vault's balance, the receiver gets the amount less both fees, and a protocol-fee transfer follows exactly when that fee is nonzero. |
| ArbVault.ReceiveAtMostWithdraw | contracts/arb-vault/src/domain/execute.rs:356-357 | The receiver never gets more than the amount withdrawn. |
| ArbVault.WithdrawUnbondingImmediate | contracts/arb-vault/src/domain/execute.rs:241-272 | It pays the entry's amount with the pool fee factor it has now, taking that amount from the locked balance. Only the `(sender, id)` entry is removed. |
| ArbVault.WithdrawImmediateConserves | contracts/arb-vault/src/domain/execute.rs:251-271 | The sender's history total drops by exactly the withdrawn entry's amount. |
| ArbVault.Loaded | contracts/arb-vault/src/domain/execute.rs:281-286 | The loaded entries are the first thirty of the history, in id order. |
| ArbVault.PayReleased | contracts/arb-vault/src/domain/execute.rs:288-302 | The sum of the released loaded entries is paid with no pool fee and taken from the locked balance. A zero sum fails with `NoWithdrawableAsset` and a sum of 2^128 or more panics. |
| ArbVault.WithdrawUnbonded | contracts/arb-vault/src/domain/execute.rs:274-313 | As written: the payout of `PayReleased`, after which the sender's history loses every loaded entry, while the locked balance drops only by the released sum. |
| ArbVault.WithdrawUnbondedLosesPending | contracts/arb-vault/src/domain/execute.rs:281-311 | As written, the history total falls by the amount paid plus the total of the pending loaded entries. |
| ArbVault.WithdrawUnbondedDropsPendingEntry | contracts/arb-vault/src/domain/execute.rs:281-311 | A concrete history where an unreleased entry of 50 is deleted unpaid while the locked balance keeps counting it, and the corrected version keeps the entry. |
| ArbVault.WithdrawUnbondedCorrected | contracts/arb-vault/src/domain/execute.rs:305-311 | Corrected: the same payout and the same drop of the locked balance, but every pending entry stays and nothing new enters the history. |
| ArbVault.WithdrawUnbondedCorrectedConserves | contracts/arb-vault/src/domain/execute.rs:305-311 | Corrected: the history total falls by exactly the amount paid. |
| ArbVault.WithdrawImmediateKeepsWellFormed | contracts/arb-vault/src/domain/execute.rs:271 | Removing the entry keeps every history ascending in id, with ids below the next id. |
| ArbVault.WithdrawUnbondedKeepsWellFormed | contracts/arb-vault/src/domain/execute.rs:308-311 | The written removal keeps every history well formed. |
| ArbVault.WithdrawUnbondedCorrectedKeepsWellFormed | contracts/arb-vault/src/domain/execute.rs:308-311 | The corrected removal keeps every history well formed. |
| ArbVault.ProvideLiquidity | contracts/arb-vault/src/domain/execute.rs:115-167 | After the pre-checks, a zero deposit fails with `InvalidZeroAmount`, a non-utoken deposit with `AssetMismatch`, and a deposit above the vault total underflows. Otherwise it mints the share priced on `vault_total - deposit` to the recipient, or to the sender when none is given. |
| ArbVault.UnbondLater | contracts/arb-vault/src/domain/execute.rs:202-221 | The entry is recorded with `release = now + unbond_time_s`, which panics on overflow, and no message is emitted. When the history update cannot overflow and the withdraw fee is at most 100%, it succeeds exactly when `lp <= supply`. |
| ArbVault.UnbondUser | contracts/arb-vault/src/domain/execute.rs:169-239 | Only the LP token may call it, else `ExpectingLPToken`. The withdrawal is `floor(vault_total * lp / supply)` and a zero supply panics. An immediate unbond pays with the full pool fee factor, taking nothing from the locked balance; a deferred one appends the entry and locks its amount. Either way a burn of exactly `lp` is the last message. |
| ArbVault.UnbondKeepsWellFormed | contracts/arb-vault/src/domain/execute.rs:207-214 | Unbonding keeps every history well formed. |
| ArbVault.ExecuteArbitrage | contracts/arb-vault/src/domain/execute.rs:40-97 | A zero loan fails with `InvalidZeroAmount` before anything else. It succeeds exactly when the loan is nonzero, the checks pass and the target is valid. It then saves the checkpoint and emits the loan to the target (the sender by default), followed by the result assertion. |

## Left out

- **Storage, queries and serialisation.** Storage, querier calls, `to_binary` and attributes are not modelled. Storage is a value. Queried balances and totals are inputs. Address validation is membership in a set of valid strings.
- **`deposit_asset`.** The code is not part of this model. Its check is the parameter `deposit`. The model assumes it appends one `Deposit` transfer for a token reward and nothing for a native reward, whose coins arrive with the call.
- **`u64` overflow.** `env.block.height + 1` and `now + unbond_time_s` are plain `u64` additions. They panic only when the build enables overflow checks, and the build profile is not part of this model. `Add64` assumes the checks are on; without them the sum would wrap.
- **`RouteConfig::create_swap` and `Factory::create_swap`.** The code is not part of this model. Each is one swap message, treated as infallible. The factory's pair query is not modelled.
- **Constants.** `COMMISSION_DENOM` and `MAX_SPREAD` are defined in code that is not part of this model, so they are the `Consts` parameters.
- **`BasicPoints`.** It is a `u16`. Its constructor bound is not part of this model.
- **`update_config` and `split`.** `update_config` in the proxy is owner-gated storage editing. The commented-out `split` is dead code.
- **Helpers of the arb vault whose code is not part of this model.**
  - `calc_fees`, `get_share_from_deposit` and `pool_fee_factor` are the functions of `External`.
  - `assert_not_nested`, `assert_min_profit`, `assert_max_amount`, the LSD lookups, `Asset::check` and the sent-funds check are one `Outcome`, consulted where the first of them runs.
- **`add_to_unbond_history` and the locked balance.** The vault's `state.rs` is not part of this model. `AddToUnbondHistory` hands out ids from a counter and adds the amount to the locked balance. That is what `take_from_locked` in `create_withdraw_msgs` presupposes.
- **Native transfers.** A native asset's `into_msg` is a plain bank send; no tax deduction is modelled.
- **Storage errors in the history range.** These are not modelled.
- **`execute_withdraw_liquidity` and `receive_cw20`.** They are not part of this model. The cw20 sender arrives as the `sender` argument of `UnbondUser`.
- **`isqrt`.** `Uint256::isqrt` is the exact floor square root.
- **Interleaving.** Interleaving of separate compounding chains across transactions is not modelled.
- ArbVault.UnbondUser: does not state which error the deferred path's fee deduction raises when the withdraw fee exceeds 100%. `ValidateFeeConfig` rules such a fee out.

## Findings

| source | as written | input that shows it | evidently intended | confidence | as-written member | corrected member |
|---|---|---|---|---|---|---|
| contracts/arb-vault/src/domain/execute.rs:305-311 | `execute_withdraw_unbonded` pays only the released entries among the thirty it loads, but removes all thirty from the history. | A history `[(id 0, 100, release 10), (id 1, 50, release 20)]` withdrawn at time 10: 100 is paid and both entries are deleted. The 50 of entry 1 is never paid and stays counted in the locked balance. | Remove only the entries that were paid, those with `release_time <= now`. | high; not executed | ArbVault.WithdrawUnbonded (with ArbVault.WithdrawUnbondedLosesPending, ArbVault.WithdrawUnbondedDropsPendingEntry) | ArbVault.WithdrawUnbondedCorrected (with ArbVault.WithdrawUnbondedCorrectedConserves) |

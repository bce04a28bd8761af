/**
 * The withdraw and unbond accounting of the arb vault: providing the
 * underlying token for LP shares, unbonding LP shares either immediately or
 * through a per-user unbond history, withdrawing from that history, and the
 * guard of a flash-loan arbitrage.
 *
 * Storage is the immutable `Vault` value threaded through the operations;
 * queried amounts arrive as `Queries`, the pre-checks that live in other
 * files as an `Outcome`, and the fee and share helpers as the functions of
 * `External`.
 */
module ArbVault {
  import opened Wrappers
  import opened Errors
  import opened Uint
  import opened Chain
  import ErisArbVault

  /** How many history entries `execute_withdraw_unbonded` loads per call. */
  const MAX_LOADED: nat := 30

  /** `UnbondHistory`: an amount of the underlying token waiting for its release time. */
  datatype UnbondEntry = UnbondEntry(amount: U128, startTime: U64, releaseTime: U64)

  /** One stored history entry with the id under which it was saved. */
  datatype Unbond = Unbond(id: U64, entry: UnbondEntry)

  /** `BalanceCheckpoint`: the values an arbitrage must end above. */
  datatype Checkpoint = Checkpoint(vaultAvailable: U128, tvlUtoken: U128)

  /**
   * The vault's storage: the locked balance, each user's unbond history in
   * ascending id order (the order in which the map keyed by `(user, id)` is
   * ranged), the next unbond id, and the arbitrage checkpoint.
   */
  datatype Vault = Vault(balanceLocked: U128, unbonds: map<Addr, seq<Unbond>>, nextId: U64,
                         checkpoint: Option<Checkpoint>)

  /** The validated configuration, with the stored fee configuration. */
  datatype Config = Config(utoken: string, lpAddr: Addr, unbondTimeS: U64, fees: ErisArbVault.FeeConfig)

  /** What the operations query: the LSD group's totals, the LP supply and the vault's utoken balance. */
  datatype Queries = Queries(vaultTotal: U128, vaultAvailable: U128, tvlUtoken: U128,
                             lpSupply: U128, utokenAmount: U128)

  /** The helpers whose code is not part of this model. */
  datatype External = External(
    calcFees: (ErisArbVault.FeeConfig, U128, Decimal) -> Result<(U128, U128), Error>,
    shareFromDeposit: (U128, U128) -> Result<U128, Error>,
    poolFeeFactor: (UnbondEntry, U64) -> Decimal)

  /** `ExecuteSubMsg`: the contract to call with the flash loan, its message and the loan amount. */
  datatype SubMsg = SubMsg(contractAddr: Option<string>, msg: string, fundsAmount: U128)

  /** The messages the vault emits. */
  datatype VaultMsg =
    | BankSend(to: Addr, coin: Coin)
    | WasmExecute(contract: Addr, msg: string, funds: seq<Coin>)
    | Mint(token: Addr, recipient: Addr, amount: U128)
    | Burn(token: Addr, amount: U128)
    | AssertResult(contract: Addr, resultToken: AssetInfo, wantedProfit: Decimal)

  //----------------------------------------------------------------------------------------
  //  The unbond history
  //----------------------------------------------------------------------------------------

  /** A user's history; a user with none has the empty one. */
  function History(v: Vault, user: Addr): seq<Unbond> {
    if user in v.unbonds then v.unbonds[user] else []
  }

  /** Sum of the amounts of a history. */
  function Total(s: seq<Unbond>): nat {
    if |s| == 0 then 0 else s[0].entry.amount + Total(s[1..])
  }

  /** The entries released at `now`. */
  function Released(s: seq<Unbond>, now: nat): (r: seq<Unbond>)
    ensures forall u :: u in r <==> u in s && u.entry.releaseTime <= now
  {
    if |s| == 0 then []
    else (if s[0].entry.releaseTime <= now then [s[0]] else []) + Released(s[1..], now)
  }

  /** The entries not yet released at `now`. */
  function Pending(s: seq<Unbond>, now: nat): (r: seq<Unbond>)
    ensures forall u :: u in r <==> u in s && now < u.entry.releaseTime
  {
    if |s| == 0 then []
    else (if now < s[0].entry.releaseTime then [s[0]] else []) + Pending(s[1..], now)
  }

  /** The history without the entry saved under `id`. */
  function RemoveId(s: seq<Unbond>, id: nat): (r: seq<Unbond>)
    ensures forall u :: u in r <==> u in s && u.id != id
  {
    if |s| == 0 then []
    else (if s[0].id != id then [s[0]] else []) + RemoveId(s[1..], id)
  }

  /** Ids strictly ascend, so each id occurs once. */
  predicate Ascending(s: seq<Unbond>) {
    forall i, j :: 0 <= i < j < |s| ==> s[i].id < s[j].id
  }

  /** Every history ascends and uses only ids below the next id to hand out. */
  predicate WellFormed(v: Vault) {
    forall u :: u in v.unbonds ==> Ascending(v.unbonds[u]) && forall e :: e in v.unbonds[u] ==> e.id < v.nextId
  }

  /** `state.unbond_history.load((user, id))`: the entry saved under `id`, or a not-found error. */
  function FindEntry(s: seq<Unbond>, id: nat): (r: Result<UnbondEntry, Error>)
    ensures r.Ok? <==> exists u :: u in s && u.id == id
    ensures r.Ok? ==> Unbond(id, r.value) in s
    ensures r.Err? ==> r.error == NotFound("UnbondHistory")
  {
    if |s| == 0 then Err(NotFound("UnbondHistory"))
    else if s[0].id == id then Ok(s[0].entry)
    else
      assert forall u :: u in s && u.id == id ==> u in s[1..] by {
        forall u | u in s && u.id == id ensures u in s[1..] {
          var k :| 0 <= k < |s| && s[k] == u;
          assert s[1..][k - 1] == u;
        }
      }
      FindEntry(s[1..], id)
  }

  /**
   * `add_to_unbond_history`: saves the entry under the next id, which then
   * advances, and adds its amount to the locked balance; both additions
   * panic on overflow.
   */
  function AddToUnbondHistory(v: Vault, user: Addr, e: UnbondEntry): (r: Result<Vault, Error>)
    ensures r.Ok? <==> v.nextId + 1 < TWO_64 && v.balanceLocked + e.amount < TWO_128
    ensures r.Err? ==> r.error == Panic(AddOverflow)
    ensures r.Ok? ==> History(r.value, user) == History(v, user) + [Unbond(v.nextId, e)]
    ensures r.Ok? ==> forall w :: w != user ==> History(r.value, w) == History(v, w)
    ensures r.Ok? ==> r.value.balanceLocked == v.balanceLocked + e.amount && r.value.nextId == v.nextId + 1
    ensures r.Ok? ==> r.value.checkpoint == v.checkpoint
  {
    var next :- Add64(v.nextId, 1);
    var locked :- Add128(v.balanceLocked, e.amount);
    Ok(v.(balanceLocked := locked, unbonds := v.unbonds[user := History(v, user) + [Unbond(v.nextId, e)]],
          nextId := next))
  }

  //----------------------------------------------------------------------------------------
  //  Withdrawing
  //----------------------------------------------------------------------------------------

  /**
   * `create_withdraw_msgs`: pays out `withdraw` of the underlying token less
   * the protocol and pool fees, releasing `takeFromLocked` from the locked
   * balance first. Only the part of the vault's balance that stays unlocked
   * may be paid out; the protocol fee, when nonzero, goes to the fee
   * receiver in a second transfer.
   */
  function CreateWithdrawMsgs(v: Vault, cfg: Config, ext: External, q: Queries, receiver: Addr,
                              withdraw: U128, poolFeeFactor: Decimal, takeFromLocked: U128)
    : (r: Result<(Vault, seq<VaultMsg>), Error>)
    ensures withdraw == 0 ==> r == Err(NoWithdrawableAsset)
    ensures withdraw != 0 && SatSub(q.utokenAmount, SatSub(v.balanceLocked, takeFromLocked)) < withdraw ==>
              r == Err(NotEnoughAssetsInThePool)
    ensures var fees := ext.calcFees(cfg.fees, withdraw, poolFeeFactor);
            r.Ok? <==> withdraw != 0 && SatSub(q.utokenAmount, SatSub(v.balanceLocked, takeFromLocked)) >= withdraw &&
                       fees.Ok? && fees.value.0 + fees.value.1 <= withdraw
    ensures var fees := ext.calcFees(cfg.fees, withdraw, poolFeeFactor);
            r.Err? && withdraw != 0 && SatSub(q.utokenAmount, SatSub(v.balanceLocked, takeFromLocked)) >= withdraw ==>
              r.error == SubUnderflow || (fees.Err? && r.error == fees.error)
    ensures r.Ok? ==> r.value.0 == v.(balanceLocked := SatSub(v.balanceLocked, takeFromLocked))
    ensures r.Ok? ==> withdraw + r.value.0.balanceLocked <= q.utokenAmount
    ensures r.Ok? ==> var fees := ext.calcFees(cfg.fees, withdraw, poolFeeFactor).value;
              && |r.value.1| == (if fees.0 != 0 then 2 else 1)
              && r.value.1[0].BankSend? && r.value.1[0].to == receiver && r.value.1[0].coin.denom == cfg.utoken
              && r.value.1[0].coin.amount + fees.0 + fees.1 == withdraw
              && (fees.0 != 0 ==> r.value.1[1] == BankSend(cfg.fees.protocolFeeContract, Coin(cfg.utoken, fees.0)))
  {
    if withdraw == 0 then Err(NoWithdrawableAsset)
    else
      var lockedAfter := SatSub(v.balanceLocked, takeFromLocked);
      var takeable := SatSub(q.utokenAmount, lockedAfter);
      if takeable < withdraw then Err(NotEnoughAssetsInThePool)
      else
        var fees :- ext.calcFees(cfg.fees, withdraw, poolFeeFactor);
        var afterProtocolFee :- CheckedSub(withdraw, fees.0);
        var receive :- CheckedSub(afterProtocolFee, fees.1);
        var feeMsg := if fees.0 != 0 then [BankSend(cfg.fees.protocolFeeContract, Coin(cfg.utoken, fees.0))] else [];
        Ok((v.(balanceLocked := lockedAfter), [BankSend(receiver, Coin(cfg.utoken, receive))] + feeMsg))
  }

  /** What a withdrawal pays to its receiver never exceeds the amount withdrawn. */
  lemma ReceiveAtMostWithdraw(v: Vault, cfg: Config, ext: External, q: Queries, receiver: Addr,
                              withdraw: U128, poolFeeFactor: Decimal, takeFromLocked: U128)
    ensures var r := CreateWithdrawMsgs(v, cfg, ext, q, receiver, withdraw, poolFeeFactor, takeFromLocked);
            r.Ok? ==> r.value.1[0].coin.amount <= withdraw
  {
  }

  /**
   * `execute_withdraw_unbonding_immediate`: withdraws one history entry
   * before its release, with the pool fee factor it has at `now`, releasing
   * the entry's whole amount from the locked balance and deleting only that
   * entry.
   */
  function WithdrawUnbondingImmediate(v: Vault, cfg: Config, ext: External, q: Queries, now: U64,
                                      sender: Addr, id: U64, checks: Outcome<Error>)
    : (r: Result<(Vault, seq<VaultMsg>), Error>)
    ensures checks.Fail? ==> r == Err(checks.error)
    ensures checks.Pass? && FindEntry(History(v, sender), id).Err? ==> r == Err(NotFound("UnbondHistory"))
    ensures r.Ok? ==> var e := FindEntry(History(v, sender), id).value;
              var paid := CreateWithdrawMsgs(v, cfg, ext, q, sender, e.amount, ext.poolFeeFactor(e, now), e.amount);
              && Unbond(id, e) in History(v, sender)
              && paid.Ok? && r.value.1 == paid.value.1
              && r.value.0.balanceLocked == SatSub(v.balanceLocked, e.amount)
    ensures r.Ok? ==> History(r.value.0, sender) == RemoveId(History(v, sender), id)
    ensures r.Ok? ==> forall w :: w != sender ==> History(r.value.0, w) == History(v, w)
    ensures r.Ok? ==> r.value.0.nextId == v.nextId && r.value.0.checkpoint == v.checkpoint
  {
    if checks.Fail? then Err(checks.error)
    else
      var e :- FindEntry(History(v, sender), id);
      var paid :- CreateWithdrawMsgs(v, cfg, ext, q, sender, e.amount, ext.poolFeeFactor(e, now), e.amount);
      Ok((paid.0.(unbonds := paid.0.unbonds[sender := RemoveId(History(v, sender), id)]), paid.1))
  }

  /** The entries `execute_withdraw_unbonded` loads: the first thirty of the history, in id order. */
  function Loaded(v: Vault, user: Addr): (r: seq<Unbond>)
    ensures |r| == if |History(v, user)| <= MAX_LOADED then |History(v, user)| else MAX_LOADED
    ensures r == History(v, user)[..|r|]
  {
    var h := History(v, user);
    if |h| <= MAX_LOADED then h else h[..MAX_LOADED]
  }

  /**
   * The payment half of `execute_withdraw_unbonded`: the released loaded
   * entries are summed (the `Uint128` sum panics once it overflows) and
   * withdrawn with no pool fee, taking their sum from the locked balance.
   */
  function PayReleased(v: Vault, cfg: Config, ext: External, q: Queries, now: U64, sender: Addr,
                       checks: Outcome<Error>): (r: Result<(Vault, seq<VaultMsg>), Error>)
    ensures checks.Fail? ==> r == Err(checks.error)
    ensures checks.Pass? && Total(Released(Loaded(v, sender), now)) == 0 ==> r == Err(NoWithdrawableAsset)
    ensures checks.Pass? && Total(Released(Loaded(v, sender), now)) >= TWO_128 ==> r == Err(Panic(AddOverflow))
    ensures r.Ok? ==> var paid := Total(Released(Loaded(v, sender), now));
              && 0 < paid < TWO_128
              && CreateWithdrawMsgs(v, cfg, ext, q, sender, paid, 0, paid) == Ok(r.value)
              && r.value.0 == v.(balanceLocked := SatSub(v.balanceLocked, paid))
              && paid + r.value.0.balanceLocked <= q.utokenAmount
              && r.value.1[0].to == sender && r.value.1[0].coin.amount <= paid
  {
    if checks.Fail? then Err(checks.error)
    else
      var paid := Total(Released(Loaded(v, sender), now));
      if paid >= TWO_128 then Err(Panic(AddOverflow))
      else CreateWithdrawMsgs(v, cfg, ext, q, sender, paid, 0, paid)
  }

  /**
   * `execute_withdraw_unbonded` as written: pays the released entries among
   * the loaded ones, then deletes every loaded entry, released or not.
   */
  function WithdrawUnbonded(v: Vault, cfg: Config, ext: External, q: Queries, now: U64, sender: Addr,
                            checks: Outcome<Error>): (r: Result<(Vault, seq<VaultMsg>), Error>)
    ensures r.Ok? <==> PayReleased(v, cfg, ext, q, now, sender, checks).Ok?
    ensures r.Ok? ==> r.value.1 == PayReleased(v, cfg, ext, q, now, sender, checks).value.1
    ensures r.Ok? ==> r.value.0.balanceLocked == SatSub(v.balanceLocked, Total(Released(Loaded(v, sender), now)))
    ensures r.Ok? ==> History(r.value.0, sender) == History(v, sender)[|Loaded(v, sender)|..]
    ensures r.Ok? ==> forall w :: w != sender ==> History(r.value.0, w) == History(v, w)
  {
    var paid :- PayReleased(v, cfg, ext, q, now, sender, checks);
    Ok((paid.0.(unbonds := paid.0.unbonds[sender := History(v, sender)[|Loaded(v, sender)|..]]), paid.1))
  }

  /**
   * `execute_withdraw_unbonded` as evidently intended: pays the same
   * amount, but keeps the loaded entries that are not yet released.
   */
  function WithdrawUnbondedCorrected(v: Vault, cfg: Config, ext: External, q: Queries, now: U64, sender: Addr,
                                     checks: Outcome<Error>): (r: Result<(Vault, seq<VaultMsg>), Error>)
    ensures r.Ok? <==> PayReleased(v, cfg, ext, q, now, sender, checks).Ok?
    ensures r.Ok? ==> r.value.1 == PayReleased(v, cfg, ext, q, now, sender, checks).value.1
    ensures r.Ok? ==> r.value.0.balanceLocked == SatSub(v.balanceLocked, Total(Released(Loaded(v, sender), now)))
    ensures r.Ok? ==> forall u :: u in History(v, sender) && now < u.entry.releaseTime ==> u in History(r.value.0, sender)
    ensures r.Ok? ==> forall u :: u in History(r.value.0, sender) ==> u in History(v, sender)
    ensures r.Ok? ==> forall w :: w != sender ==> History(r.value.0, w) == History(v, w)
  {
    var paid :- PayReleased(v, cfg, ext, q, now, sender, checks);
    var h := History(v, sender);
    var loaded := Loaded(v, sender);
    var kept := Pending(loaded, now) + h[|loaded|..];
    assert forall u :: u in h && now < u.entry.releaseTime ==> u in kept by {
      forall u | u in h && now < u.entry.releaseTime ensures u in kept {
        var k :| 0 <= k < |h| && h[k] == u;
        if k < |loaded| {
          assert u in loaded;
        } else {
          assert h[|loaded|..][k - |loaded|] == u;
        }
      }
    }
    Ok((paid.0.(unbonds := paid.0.unbonds[sender := kept]), paid.1))
  }

  //----------------------------------------------------------------------------------------
  //  What the withdrawals owe and keep
  //----------------------------------------------------------------------------------------

  lemma {:induction false} TotalAppend(a: seq<Unbond>, b: seq<Unbond>)
    ensures Total(a + b) == Total(a) + Total(b)
  {
    if |a| == 0 {
      assert a + b == b;
    } else {
      assert (a + b)[1..] == a[1..] + b;
      TotalAppend(a[1..], b);
    }
  }

  /** Every entry is either released or pending, so the two parts sum to the whole. */
  lemma {:induction false} TotalSplit(s: seq<Unbond>, now: nat)
    ensures Total(s) == Total(Released(s, now)) + Total(Pending(s, now))
  {
    if |s| != 0 {
      var head := if s[0].entry.releaseTime <= now then [s[0]] else [];
      var rest := if now < s[0].entry.releaseTime then [s[0]] else [];
      TotalAppend(head, Released(s[1..], now));
      TotalAppend(rest, Pending(s[1..], now));
      TotalSplit(s[1..], now);
    }
  }

  /** Removing an id that does not occur changes nothing. */
  lemma {:induction false} RemoveAbsent(s: seq<Unbond>, id: nat)
    requires forall k :: 0 <= k < |s| ==> s[k].id != id
    ensures RemoveId(s, id) == s
  {
    if |s| != 0 {
      RemoveAbsent(s[1..], id);
      assert [s[0]] + s[1..] == s;
    }
  }

  /** In an ascending history, removing the entry saved under `id` removes exactly its amount. */
  lemma {:induction false} TotalRemoveId(s: seq<Unbond>, id: U64, e: UnbondEntry)
    requires Ascending(s) && Unbond(id, e) in s
    ensures Total(s) == Total(RemoveId(s, id)) + e.amount
  {
    if s[0].id == id {
      assert s[0] == Unbond(id, e) by {
        var k :| 0 <= k < |s| && s[k] == Unbond(id, e);
        assert k == 0;
      }
      RemoveAbsent(s[1..], id);
      assert RemoveId(s, id) == RemoveId(s[1..], id);
    } else {
      assert Unbond(id, e) in s[1..] by {
        var k :| 0 <= k < |s| && s[k] == Unbond(id, e);
        assert s[1..][k - 1] == s[k];
      }
      TotalRemoveId(s[1..], id, e);
    }
  }

  /**
   * The finding, as written: the history loses the released entries it
   * pays and, unpaid, the pending entries that were loaded with them.
   */
  lemma WithdrawUnbondedLosesPending(v: Vault, cfg: Config, ext: External, q: Queries, now: U64, sender: Addr,
                                     checks: Outcome<Error>)
    ensures var r := WithdrawUnbonded(v, cfg, ext, q, now, sender, checks);
            r.Ok? ==> Total(History(v, sender)) ==
                        Total(History(r.value.0, sender)) + Total(Released(Loaded(v, sender), now))
                        + Total(Pending(Loaded(v, sender), now))
  {
    var h := History(v, sender);
    var loaded := Loaded(v, sender);
    assert h == loaded + h[|loaded|..];
    TotalAppend(loaded, h[|loaded|..]);
    TotalSplit(loaded, now);
  }

  /** As intended, what leaves the history is exactly what is paid. */
  lemma WithdrawUnbondedCorrectedConserves(v: Vault, cfg: Config, ext: External, q: Queries, now: U64,
                                           sender: Addr, checks: Outcome<Error>)
    ensures var r := WithdrawUnbondedCorrected(v, cfg, ext, q, now, sender, checks);
            r.Ok? ==> Total(History(v, sender)) ==
                        Total(History(r.value.0, sender)) + Total(Released(Loaded(v, sender), now))
  {
    var h := History(v, sender);
    var loaded := Loaded(v, sender);
    assert h == loaded + h[|loaded|..];
    TotalAppend(loaded, h[|loaded|..]);
    TotalAppend(Pending(loaded, now), h[|loaded|..]);
    TotalSplit(loaded, now);
  }

  /**
   * A concrete case: one entry released at time 10 and one pending until
   * 20; a withdrawal at time 10 pays the first and deletes both, while the
   * unpaid 50 stays counted in the locked balance.
   */
  lemma WithdrawUnbondedDropsPendingEntry()
    ensures var v := Vault(150, map["user" := [Unbond(0, UnbondEntry(100, 0, 10)), Unbond(1, UnbondEntry(50, 0, 20))]],
                           2, None);
            var cfg := Config("uluna", "lp", 10, ErisArbVault.FeeConfig("fees", 0, 0, 0));
            var ext := External((c, w, f) => Ok((0, 0)), (a, b) => Ok(b), (e, t) => 0);
            var q := Queries(1000, 1000, 1000, 1000, 1000);
            var r := WithdrawUnbonded(v, cfg, ext, q, 10, "user", Pass);
            var fixed := WithdrawUnbondedCorrected(v, cfg, ext, q, 10, "user", Pass);
            && r.Ok? && r.value.1 == [BankSend("user", Coin("uluna", 100))]
            && History(r.value.0, "user") == [] && r.value.0.balanceLocked == 50
            && fixed.Ok? && fixed.value.1 == r.value.1
            && History(fixed.value.0, "user") == [Unbond(1, UnbondEntry(50, 0, 20))]
  {
    var h := [Unbond(0, UnbondEntry(100, 0, 10)), Unbond(1, UnbondEntry(50, 0, 20))];
    assert h[1..][1..] == [];
    assert Released(h, 10) == [h[0]];
    assert Pending(h, 10) == [h[1]];
  }

  /** Withdrawing one entry early removes exactly its amount from the history. */
  lemma WithdrawImmediateConserves(v: Vault, cfg: Config, ext: External, q: Queries, now: U64,
                                   sender: Addr, id: U64, checks: Outcome<Error>)
    requires WellFormed(v)
    ensures var r := WithdrawUnbondingImmediate(v, cfg, ext, q, now, sender, id, checks);
            r.Ok? ==> Total(History(v, sender)) ==
                        Total(History(r.value.0, sender)) + FindEntry(History(v, sender), id).value.amount
  {
    var r := WithdrawUnbondingImmediate(v, cfg, ext, q, now, sender, id, checks);
    if r.Ok? {
      var e := FindEntry(History(v, sender), id).value;
      assert Ascending(History(v, sender));
      TotalRemoveId(History(v, sender), id, e);
    }
  }

  lemma AscendingConcat(a: seq<Unbond>, b: seq<Unbond>)
    requires Ascending(a) && Ascending(b)
    requires forall x, y :: x in a && y in b ==> x.id < y.id
    ensures Ascending(a + b)
  {
    forall i, j | 0 <= i < j < |a + b| ensures (a + b)[i].id < (a + b)[j].id {
      if j < |a| {
      } else if i >= |a| {
        assert (a + b)[i] == b[i - |a|] && (a + b)[j] == b[j - |a|];
      } else {
        assert (a + b)[i] in a && (a + b)[j] in b by {
          assert (a + b)[i] == a[i] && (a + b)[j] == b[j - |a|];
        }
      }
    }
  }

  lemma {:induction false} AscendingPending(s: seq<Unbond>, now: nat)
    requires Ascending(s)
    ensures Ascending(Pending(s, now))
  {
    if |s| != 0 {
      AscendingPending(s[1..], now);
      var head := if now < s[0].entry.releaseTime then [s[0]] else [];
      forall x, y | x in head && y in Pending(s[1..], now) ensures x.id < y.id {
        var k :| 0 <= k < |s[1..]| && s[1..][k] == y;
        assert s[k + 1] == y;
      }
      AscendingConcat(head, Pending(s[1..], now));
    }
  }

  lemma {:induction false} AscendingRemoveId(s: seq<Unbond>, id: nat)
    requires Ascending(s)
    ensures Ascending(RemoveId(s, id))
  {
    if |s| != 0 {
      AscendingRemoveId(s[1..], id);
      var head := if s[0].id != id then [s[0]] else [];
      forall x, y | x in head && y in RemoveId(s[1..], id) ensures x.id < y.id {
        var k :| 0 <= k < |s[1..]| && s[1..][k] == y;
        assert s[k + 1] == y;
      }
      AscendingConcat(head, RemoveId(s[1..], id));
    }
  }

  /** Replacing one user's history by an ascending one with old ids keeps the vault well formed. */
  lemma ReplaceHistory(v: Vault, w: Vault, user: Addr, s: seq<Unbond>)
    requires WellFormed(v) && Ascending(s)
    requires w.unbonds == v.unbonds[user := s] && v.nextId <= w.nextId
    requires forall e :: e in s ==> e.id < w.nextId
    ensures WellFormed(w)
  {
  }

  /** The history an early withdrawal leaves behind stays well formed. */
  lemma WithdrawImmediateKeepsWellFormed(v: Vault, cfg: Config, ext: External, q: Queries, now: U64,
                                         sender: Addr, id: U64, checks: Outcome<Error>)
    requires WellFormed(v)
    ensures var r := WithdrawUnbondingImmediate(v, cfg, ext, q, now, sender, id, checks);
            r.Ok? ==> WellFormed(r.value.0)
  {
    var r := WithdrawUnbondingImmediate(v, cfg, ext, q, now, sender, id, checks);
    if r.Ok? {
      var h := History(v, sender);
      AscendingRemoveId(h, id);
      ReplaceHistory(v, r.value.0, sender, RemoveId(h, id));
    }
  }

  /** So does the one the written withdrawal of released entries leaves. */
  lemma WithdrawUnbondedKeepsWellFormed(v: Vault, cfg: Config, ext: External, q: Queries, now: U64,
                                        sender: Addr, checks: Outcome<Error>)
    requires WellFormed(v)
    ensures var r := WithdrawUnbonded(v, cfg, ext, q, now, sender, checks);
            r.Ok? ==> WellFormed(r.value.0)
  {
    var r := WithdrawUnbonded(v, cfg, ext, q, now, sender, checks);
    if r.Ok? {
      var h := History(v, sender);
      var rest := h[|Loaded(v, sender)|..];
      assert forall e :: e in rest ==> e in h;
      ReplaceHistory(v, r.value.0, sender, rest);
    }
  }

  /** And so does the one the corrected withdrawal leaves. */
  lemma WithdrawUnbondedCorrectedKeepsWellFormed(v: Vault, cfg: Config, ext: External, q: Queries, now: U64,
                                                 sender: Addr, checks: Outcome<Error>)
    requires WellFormed(v)
    ensures var r := WithdrawUnbondedCorrected(v, cfg, ext, q, now, sender, checks);
            r.Ok? ==> WellFormed(r.value.0)
  {
    var r := WithdrawUnbondedCorrected(v, cfg, ext, q, now, sender, checks);
    if r.Ok? {
      var h := History(v, sender);
      var k := |Loaded(v, sender)|;
      KeptAscending(h, k, now);
      ReplaceHistory(v, r.value.0, sender, Pending(h[..k], now) + h[k..]);
    }
  }

  /** Keeping the pending entries of a prefix and all of the rest keeps a history ascending. */
  lemma KeptAscending(h: seq<Unbond>, k: nat, now: nat)
    requires Ascending(h) && k <= |h|
    ensures Ascending(Pending(h[..k], now) + h[k..])
    ensures forall e :: e in Pending(h[..k], now) + h[k..] ==> e in h
  {
    var loaded, rest := h[..k], h[k..];
    AscendingPending(loaded, now);
    forall x, y | x in Pending(loaded, now) && y in rest ensures x.id < y.id {
      var i :| 0 <= i < |loaded| && loaded[i] == x;
      var j :| 0 <= j < |rest| && rest[j] == y;
      assert h[i] == x && h[k + j] == y;
    }
    AscendingConcat(Pending(loaded, now), rest);
    assert forall e :: e in loaded ==> e in h;
    assert forall e :: e in rest ==> e in h;
  }

  //----------------------------------------------------------------------------------------
  //  Providing, unbonding and arbitrage
  //----------------------------------------------------------------------------------------

  /** An optional address to validate, defaulting to the sender. */
  function AddrOrSender(api: Api, addr: Option<string>, sender: Addr): (r: Result<Addr, Error>)
    ensures addr.None? ==> r == Ok(sender)
    ensures addr.Some? ==> r == AddrValidate(api, addr.value)
  {
    match addr
    case None => Ok(sender)
    case Some(a) => AddrValidate(api, a)
  }

  /**
   * `execute_provide_liquidity`: after the pre-checks, a zero deposit and a
   * deposit of anything but the underlying native token are refused; the
   * share is priced against the vault total without the deposit itself and
   * minted to the recipient, by default the sender.
   */
  function ProvideLiquidity(cfg: Config, ext: External, q: Queries, api: Api, sender: Addr, deposit: Asset,
                            recipient: Option<string>, checks: Outcome<Error>): (r: Result<seq<VaultMsg>, Error>)
    ensures checks.Fail? ==> r == Err(checks.error)
    ensures checks.Pass? && deposit.amount == 0 ==> r == Err(InvalidZeroAmount)
    ensures checks.Pass? && deposit.amount != 0 && deposit.info != NativeToken(cfg.utoken) ==> r == Err(AssetMismatch)
    ensures checks.Pass? && deposit.amount != 0 && deposit.info == NativeToken(cfg.utoken) && q.vaultTotal < deposit.amount ==>
              r == Err(SubUnderflow)
    ensures r.Ok? ==> deposit.amount != 0 && deposit.info == NativeToken(cfg.utoken) && deposit.amount <= q.vaultTotal
    ensures r.Ok? ==> var share := ext.shareFromDeposit(q.vaultTotal - deposit.amount, deposit.amount);
              && share.Ok?
              && |r.value| == 1 && r.value[0].Mint? && r.value[0].token == cfg.lpAddr
              && r.value[0] == Mint(cfg.lpAddr, r.value[0].recipient, share.value)
              && AddrOrSender(api, recipient, sender) == Ok(r.value[0].recipient)
    ensures r.Ok? && recipient.None? ==> r.value[0].recipient == sender
  {
    if checks.Fail? then Err(checks.error)
    else if deposit.amount == 0 then Err(InvalidZeroAmount)
    else if deposit.info != NativeToken(cfg.utoken) then Err(AssetMismatch)
    else
      var vaultUtoken :- CheckedSub(q.vaultTotal, deposit.amount);
      var share :- ext.shareFromDeposit(vaultUtoken, deposit.amount);
      var to :- AddrOrSender(api, recipient, sender);
      Ok([Mint(cfg.lpAddr, to, share)])
  }

  /**
   * The deferred branch of `execute_unbond_user`: records the withdrawal in
   * the user's history, released one unbond period from now, and checks
   * that the protocol withdraw fee and the burnt LP amount can be deducted.
   */
  function UnbondLater(v: Vault, cfg: Config, now: U64, sender: Addr, withdraw: U128, lp: U128, supply: U128)
    : (r: Result<(Vault, seq<VaultMsg>), Error>)
    ensures now + cfg.unbondTimeS >= TWO_64 ==> r == Err(Panic(AddOverflow))
    ensures r.Err? ==> r.error in {Panic(AddOverflow), Panic(MulOverflow), SubUnderflow}
    ensures now + cfg.unbondTimeS < TWO_64 && v.nextId + 1 < TWO_64 && v.balanceLocked + withdraw < TWO_128
            && cfg.fees.protocolWithdrawFee <= ONE
            ==> (r.Ok? <==> lp <= supply)
    ensures r.Ok? ==> lp <= supply && r.value.1 == []
    ensures r.Ok? ==> now + cfg.unbondTimeS < TWO_64
    ensures r.Ok? ==> AddToUnbondHistory(v, sender, UnbondEntry(withdraw, now, now + cfg.unbondTimeS)) == Ok(r.value.0)
  {
    var release :- Add64(now, cfg.unbondTimeS);
    var v' :- AddToUnbondHistory(v, sender, UnbondEntry(withdraw, now, release));
    var protocolFee :- MulDec128(withdraw, cfg.fees.protocolWithdrawFee);
    var receive :- CheckedSub(withdraw, protocolFee);
    var supplyAfter :- CheckedSub(supply, lp);
    Ok((v', []))
  }

  /**
   * `execute_unbond_user`: only the LP token may call it, with `lp` shares
   * of `sender`; their value is the vault total times `lp / supply`, paid
   * at once with the full pool fee factor and nothing taken from the
   * locked balance, or recorded for later. Either way the received shares
   * are burnt, last.
   */
  function UnbondUser(v: Vault, cfg: Config, ext: External, q: Queries, now: U64, caller: Addr, sender: Addr,
                      lp: U128, immediate: Option<bool>, checks: Outcome<Error>)
    : (r: Result<(Vault, seq<VaultMsg>), Error>)
    ensures checks.Fail? ==> r == Err(checks.error)
    ensures checks.Pass? && caller != cfg.lpAddr ==> r == Err(ExpectingLPToken(caller))
    ensures checks.Pass? && caller == cfg.lpAddr && q.lpSupply == 0 ==> r == Err(Panic(DivideByZero))
    ensures r.Ok? ==> caller == cfg.lpAddr && q.lpSupply != 0 && Quot(q.vaultTotal * lp, q.lpSupply) < TWO_128
    ensures r.Ok? ==> |r.value.1| >= 1 && r.value.1[|r.value.1| - 1] == Burn(cfg.lpAddr, lp)
    ensures r.Ok? && immediate == Some(true) ==>
              var paid := CreateWithdrawMsgs(v, cfg, ext, q, sender, Quot(q.vaultTotal * lp, q.lpSupply), ONE, 0);
              paid.Ok? && r.value == (paid.value.0, paid.value.1 + [Burn(cfg.lpAddr, lp)])
    ensures r.Ok? && immediate != Some(true) ==>
              && lp <= q.lpSupply
              && r.value.1 == [Burn(cfg.lpAddr, lp)]
              && now + cfg.unbondTimeS < TWO_64
              && History(r.value.0, sender) == History(v, sender) +
                   [Unbond(v.nextId, UnbondEntry(Quot(q.vaultTotal * lp, q.lpSupply), now, now + cfg.unbondTimeS))]
              && r.value.0.balanceLocked == v.balanceLocked + Quot(q.vaultTotal * lp, q.lpSupply)
  {
    if checks.Fail? then Err(checks.error)
    else if caller != cfg.lpAddr then Err(ExpectingLPToken(caller))
    else
      var withdraw :- MultiplyRatio128(q.vaultTotal, lp, q.lpSupply);
      var res :- if immediate == Some(true) then CreateWithdrawMsgs(v, cfg, ext, q, sender, withdraw, ONE, 0)
                 else UnbondLater(v, cfg, now, sender, withdraw, lp, q.lpSupply);
      Ok((res.0, res.1 + [Burn(cfg.lpAddr, lp)]))
  }

  /**
   * The guard of `execute_arbitrage`: a zero loan is refused before
   * anything else; once the remaining checks pass, the vault's balances
   * are saved as the checkpoint, the loan is sent to the given contract
   * (by default the sender) and the result assertion is queued after it.
   */
  function ExecuteArbitrage(v: Vault, cfg: Config, q: Queries, api: Api, self: Addr, sender: Addr, sub: SubMsg,
                            resultToken: AssetInfo, wantedProfit: Decimal, checks: Outcome<Error>)
    : (r: Result<(Vault, seq<VaultMsg>), Error>)
    ensures sub.fundsAmount == 0 ==> r == Err(InvalidZeroAmount)
    ensures sub.fundsAmount != 0 && checks.Fail? ==> r == Err(checks.error)
    ensures r.Ok? <==> sub.fundsAmount != 0 && checks.Pass? && (sub.contractAddr.Some? ==> sub.contractAddr.value in api.valid)
    ensures r.Ok? ==> r.value.0 == v.(checkpoint := Some(Checkpoint(q.vaultAvailable, q.tvlUtoken)))
    ensures r.Ok? ==> var target := if sub.contractAddr.Some? then sub.contractAddr.value else sender;
              r.value.1 == [WasmExecute(target, sub.msg, [Coin(cfg.utoken, sub.fundsAmount)]),
                            AssertResult(self, resultToken, wantedProfit)]
  {
    if sub.fundsAmount == 0 then Err(InvalidZeroAmount)
    else if checks.Fail? then Err(checks.error)
    else
      var target :- AddrOrSender(api, sub.contractAddr, sender);
      Ok((v.(checkpoint := Some(Checkpoint(q.vaultAvailable, q.tvlUtoken))),
          [WasmExecute(target, sub.msg, [Coin(cfg.utoken, sub.fundsAmount)]),
           AssertResult(self, resultToken, wantedProfit)]))
  }

  /** Unbonding, at once or deferred, keeps the vault's histories well formed. */
  lemma UnbondKeepsWellFormed(v: Vault, cfg: Config, ext: External, q: Queries, now: U64, caller: Addr,
                              sender: Addr, lp: U128, immediate: Option<bool>, checks: Outcome<Error>)
    requires WellFormed(v)
    ensures var r := UnbondUser(v, cfg, ext, q, now, caller, sender, lp, immediate, checks);
            r.Ok? ==> WellFormed(r.value.0)
  {
    var r := UnbondUser(v, cfg, ext, q, now, caller, sender, lp, immediate, checks);
    if r.Ok? && immediate != Some(true) {
      var s := History(r.value.0, sender);
      var h := History(v, sender);
      assert s == h + [s[|s| - 1]] && s[|s| - 1].id == v.nextId;
      assert r.value.0.nextId == v.nextId + 1;
      AscendingConcat(h, [s[|s| - 1]]);
      ReplaceHistory(v, r.value.0, sender, s);
    }
  }
}

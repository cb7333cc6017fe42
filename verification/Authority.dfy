/** Who can move what: nothing happens without the owner's signature, and only a redemption takes anything out of the
    pool's own accounts. */
module Authority {
  import opened Numbers
  import opened Bytes
  import opened Header
  import opened Layout
  import opened Tokens
  import opened Processor
  import opened Fees
  import opened Runs

  // ----- Signatures -----

  /** An instruction that spends someone's tokens without that owner's signature. */
  predicate Unsigned(step: Step) {
    (step.CreatePool? || step.DepositInto? || step.RedeemFrom?) && !step.signed
  }

  /** It is refused in every state and with every argument ... */
  lemma UnsignedIsRefused(a: Addresses, w: World, step: Step)
    requires Unsigned(step)
    ensures Attempt(a, w, step).Err? && Next(a, w, step) == w
  {
    hide UnpackHeader, FundFrom, BuyIn, CashOut, Image;
  }

  /** The steps of a run that are signed where they have to be. */
  function Authorised(steps: seq<Step>): seq<Step> {
    if steps == [] then [] else (if Unsigned(steps[0]) then [] else [steps[0]]) + Authorised(steps[1..])
  }

  /** ... so whatever anyone attempts without a signature, a run ends as if it had not been attempted. */
  lemma {:induction false} UnsignedStepsDropOut(a: Addresses, w: World, steps: seq<Step>)
    ensures Run(a, w, steps) == Run(a, w, Authorised(steps))
    decreases steps
  {
    hide Next, Unsigned;
    if steps != [] {
      if Unsigned(steps[0]) {
        UnsignedIsRefused(a, w, steps[0]);
        assert Authorised(steps) == Authorised(steps[1..]);
        UnsignedStepsDropOut(a, w, steps[1..]);
      } else {
        UnsignedStepsDropOut(a, Next(a, w, steps[0]), steps[1..]);
        assert Authorised(steps)[0] == steps[0] && Authorised(steps)[1..] == Authorised(steps[1..]);
      }
    }
  }

  // ----- The pool's own accounts -----

  predicate Owned(a: Addresses, x: TokenAccount) {
    x.Associated? && x.owner == a.pool
  }

  /** No account of the pool has lost anything. */
  ghost predicate PoolKeeps(a: Addresses, l: Ledger, l': Ledger) {
    l.Keys <= l'.Keys && forall x | x in l && Owned(a, x) :: l'[x] >= l[x]
  }

  lemma PoolKeepsTransitive(a: Addresses, l: Ledger, l1: Ledger, l2: Ledger)
    requires PoolKeeps(a, l, l1) && PoolKeeps(a, l1, l2)
    ensures PoolKeeps(a, l, l2)
  {
  }

  lemma UserTransferKeeps(a: Addresses, l: Ledger, from: TokenAccount, to: TokenAccount, amount: u64)
    requires UserTransfer(a, l, from, to, amount).Ok?
    ensures PoolKeeps(a, l, UserTransfer(a, l, from, to, amount).value)
  {
  }

  lemma MintToKeepsPool(a: Addresses, s: Supply, mint: Pubkey, to: TokenAccount, amount: u64)
    requires MintTo(s, mint, to, amount).Ok?
    ensures PoolKeeps(a, s.ledger, MintTo(s, mint, to, amount).value.ledger)
  {
  }

  lemma MintFeeKeepsPool(a: Addresses, s: Supply, provider: Pubkey, fee: u64)
    requires MintFee(a, s, provider, fee).Ok?
    ensures PoolKeeps(a, s.ledger, MintFee(a, s, provider, fee).value.ledger)
  {
    hide MintFee;
    MintFeeIsExact(a, s, provider, fee);
  }

  lemma {:induction false} FundKeeps(a: Addresses, l: Ledger, amounts: seq<u64>, accounts: seq<TokenAccount>, i: nat, mints: seq<Pubkey>)
    requires i <= |amounts| && 2 * |amounts| <= |accounts| && FundFrom(a, l, amounts, accounts, i, mints).Ok?
    ensures PoolKeeps(a, l, FundFrom(a, l, amounts, accounts, i, mints).value.0)
    decreases |amounts| - i
  {
    hide UserTransfer, PoolKeeps;
    if i == |amounts| {
      KeepsItself(a, l);
    } else if amounts[i] == 0 {
      FundKeeps(a, l, amounts, accounts, i + 1, mints);
    } else {
      var l1 := UserTransfer(a, l, accounts[|amounts| + i], accounts[i], amounts[i]).value;
      UserTransferKeeps(a, l, accounts[|amounts| + i], accounts[i], amounts[i]);
      FundKeeps(a, l1, amounts, accounts, i + 1, mints + [accounts[i].mint]);
      PoolKeepsTransitive(a, l, l1, FundFrom(a, l, amounts, accounts, i, mints).value.0);
    }
  }

  lemma KeepsItself(a: Addresses, l: Ledger)
    ensures PoolKeeps(a, l, l)
  {
  }

  lemma {:induction false} BuyInKeeps(a: Addresses, before: Ledger, l: Ledger, supply: u64, tokens: u64, assets: seq<Pubkey>,
                   accounts: seq<TokenAccount>, i: nat, allZero: bool)
    requires i <= |assets| && 2 * |assets| <= |accounts|
    requires forall k | 0 <= k < |assets| :: accounts[k] in before
    requires BuyInFrom(a, before, l, supply, tokens, assets, accounts, i, allZero).Ok?
    ensures PoolKeeps(a, l, BuyInFrom(a, before, l, supply, tokens, assets, accounts, i, allZero).value.0)
    decreases |assets| - i
  {
    hide UserTransfer, PoolKeeps, Share;
    if i == |assets| {
      KeepsItself(a, l);
    } else {
      var amount := Share(tokens, before[accounts[i]], supply);
      if amount == 0 {
        BuyInKeeps(a, before, l, supply, tokens, assets, accounts, i + 1, allZero);
      } else {
        var l1 := UserTransfer(a, l, accounts[|assets| + i], accounts[i], amount % TWO_64).value;
        UserTransferKeeps(a, l, accounts[|assets| + i], accounts[i], amount % TWO_64);
        BuyInKeeps(a, before, l1, supply, tokens, assets, accounts, i + 1, false);
        PoolKeepsTransitive(a, l, l1, BuyInFrom(a, before, l, supply, tokens, assets, accounts, i, allZero).value.0);
      }
    }
  }

  lemma CreateKeepsPool(a: Addresses, m: Machine, c: CreateArgs, accounts: seq<TokenAccount>, target: TokenAccount, signed: bool, now: u64)
    requires Create(a, m, c, accounts, target, signed, now).Ok?
    ensures PoolKeeps(a, m.tokens.ledger, Create(a, m, c, accounts, target, signed, now).value.tokens.ledger)
  {
    hide UnpackHeader, Image, FundFrom, MintTo, PoolKeeps;
    FundKeeps(a, m.tokens.ledger, c.amounts, accounts, 0, []);
    var l := FundFrom(a, m.tokens.ledger, c.amounts, accounts, 0, []).value.0;
    MintToKeepsPool(a, Supply(m.tokens.total, l), a.poolMint, target, FIRST_POOL_TOKENS);
    PoolKeepsTransitive(a, m.tokens.ledger, l, Create(a, m, c, accounts, target, signed, now).value.tokens.ledger);
  }

  lemma DepositKeepsPool(a: Addresses, m: Machine, request: u64, accounts: seq<TokenAccount>, target: TokenAccount, signed: bool)
    requires Deposit(a, m, request, accounts, target, signed).Ok?
    ensures PoolKeeps(a, m.tokens.ledger, Deposit(a, m, request, accounts, target, signed).value.tokens.ledger)
  {
    hide OpenHeader, OpenAssets, QuoteFrom, BuyInFrom, MintTo, MintFee, EntryFee, PoolKeeps;
    var h := OpenHeader(m.data).value;
    var assets, s := OpenAssets(m.data, h).value, m.tokens;
    var E := Min(request, QuoteFrom(s.ledger, s.total, |assets|, accounts, 0, MAX_U64).value);
    QuoteReadsAccounts(s.ledger, s.total, |assets|, accounts, 0, MAX_U64);
    BuyInKeeps(a, s.ledger, s.ledger, s.total, E, assets, accounts, 0, true);
    var l := BuyInFrom(a, s.ledger, s.ledger, s.total, E, assets, accounts, 0, true).value.0;
    var fee := EntryFee(h.feeRatio, E);
    MintToKeepsPool(a, s.(ledger := l), a.poolMint, target, E - fee);
    var s1 := MintTo(s.(ledger := l), a.poolMint, target, E - fee).value;
    MintFeeKeepsPool(a, s1, h.signalProvider, fee);
    PoolKeepsTransitive(a, s.ledger, l, s1.ledger);
    PoolKeepsTransitive(a, s.ledger, s1.ledger, Deposit(a, m, request, accounts, target, signed).value.tokens.ledger);
  }

  lemma CollectKeepsPool(a: Addresses, m: Machine, now: u64)
    requires CollectFees(a, m, now).Ok?
    ensures PoolKeeps(a, m.tokens.ledger, CollectFees(a, m, now).value.tokens.ledger)
  {
    hide OpenHeader, MintFee, FeelessRatio, FeeCycles, Dilution, PoolKeeps, WithHeader;
    var h := OpenHeader(m.data).value;
    MintFeeKeepsPool(a, m.tokens, h.signalProvider, Dilution(FeelessRatio(h.feeRatio, FeeCycles(h, now)), m.tokens.total));
  }

  lemma SettleKeepsPool(a: Addresses, m: Machine, s: SettleArgs)
    requires Settle(a, m, s).Ok?
    ensures PoolKeeps(a, m.tokens.ledger, Settle(a, m, s).value.tokens.ledger)
  {
    hide UnpackHeader, PackHeader, SlotAt, SetSlot, ToU64, UserTransfer, PoolKeeps;
    var l1 := UserTransfer(a, m.tokens.ledger, s.coinVault, s.coinWallet, s.payout.value.0).value;
    UserTransferKeeps(a, m.tokens.ledger, s.coinVault, s.coinWallet, s.payout.value.0);
    UserTransferKeeps(a, l1, s.pcVault, s.pcWallet, s.payout.value.1);
    PoolKeepsTransitive(a, m.tokens.ledger, l1, Settle(a, m, s).value.tokens.ledger);
  }

  /** In every state, only a signed redemption takes anything out of an account of the pool. */
  lemma OnlyRedeemTakesOut(a: Addresses, w: World, step: Step)
    requires !(step.RedeemFrom? && step.signed)
    ensures PoolKeeps(a, w.m.tokens.ledger, Next(a, w, step).m.tokens.ledger)
  {
    hide Create, Deposit, Redeem, CollectFees, Settle, UserTransfer;
    KeepsItself(a, w.m.tokens.ledger);
    if Attempt(a, w, step).Ok? {
      match step
      case CreatePool(c, accounts, target, signed) => CreateKeepsPool(a, w.m, c, accounts, target, signed, w.clock);
      case DepositInto(request, accounts, target, signed) => DepositKeepsPool(a, w.m, request, accounts, target, signed);
      case RedeemFrom(_, _, _, _) => UnsignedIsRefused(a, w, step);
      case Collect => CollectKeepsPool(a, w.m, w.clock);
      case SettleFunds(s) => SettleKeepsPool(a, w.m, s);
      case Send(from, to, amount) => UserTransferKeeps(a, w.m.tokens.ledger, from, to, amount);
      case _ =>
    }
  }

  /** Over every run without a signed redemption no account of the pool ends with less than it had. */
  lemma {:induction false} RunKeepsPool(a: Addresses, w: World, steps: seq<Step>)
    requires forall i | 0 <= i < |steps| :: !(steps[i].RedeemFrom? && steps[i].signed)
    ensures PoolKeeps(a, w.m.tokens.ledger, Run(a, w, steps).m.tokens.ledger)
    decreases steps
  {
    hide Next, PoolKeeps;
    if steps == [] {
      KeepsItself(a, w.m.tokens.ledger);
    } else {
      var w1 := Next(a, w, steps[0]);
      OnlyRedeemTakesOut(a, w, steps[0]);
      RunKeepsPool(a, w1, steps[1..]);
      PoolKeepsTransitive(a, w.m.tokens.ledger, w1.m.tokens.ledger, Run(a, w, steps).m.tokens.ledger);
    }
  }
}

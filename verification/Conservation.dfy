/** No instruction creates or destroys asset tokens, and the pool-token supply always equals what is held. */
module Conservation {
  import opened Numbers
  import opened Bytes
  import opened Header
  import opened Tokens
  import opened Processor

  /** Tokens only changed hands: every mint has the same total as before. */
  ghost predicate SameTotals(l: Ledger, l': Ledger) {
    forall mint :: Total(l', mint) == Total(l, mint)
  }

  lemma TransferSameTotals(l: Ledger, from: TokenAccount, to: TokenAccount, amount: u64)
    requires Transfer(l, from, to, amount).Ok?
    ensures SameTotals(l, Transfer(l, from, to, amount).value)
  {
    hide Transfer, Total;
    forall mint ensures Total(Transfer(l, from, to, amount).value, mint) == Total(l, mint) {
      TransferConserves(l, from, to, amount, mint);
    }
  }

  lemma {:induction false} FundSameTotals(a: Addresses, l: Ledger, amounts: seq<u64>, accounts: seq<TokenAccount>, i: nat, mints: seq<Pubkey>)
    requires i <= |amounts| && 2 * |amounts| <= |accounts|
    requires FundFrom(a, l, amounts, accounts, i, mints).Ok?
    ensures SameTotals(l, FundFrom(a, l, amounts, accounts, i, mints).value.0)
    decreases |amounts| - i
  {
    hide Total, Transfer;
    if i < |amounts| {
      if amounts[i] == 0 {
        FundSameTotals(a, l, amounts, accounts, i + 1, mints);
      } else {
        TransferSameTotals(l, accounts[|amounts| + i], accounts[i], amounts[i]);
        var l1 := Transfer(l, accounts[|amounts| + i], accounts[i], amounts[i]).value;
        FundSameTotals(a, l1, amounts, accounts, i + 1, mints + [accounts[i].mint]);
      }
    }
  }

  lemma {:induction false} BuyInSameTotals(a: Addresses, before: Ledger, l: Ledger, supply: u64, tokens: u64, assets: seq<Pubkey>,
                        accounts: seq<TokenAccount>, i: nat, allZero: bool)
    requires i <= |assets| && 2 * |assets| <= |accounts|
    requires forall k | 0 <= k < |assets| :: accounts[k] in before
    requires BuyInFrom(a, before, l, supply, tokens, assets, accounts, i, allZero).Ok?
    ensures SameTotals(l, BuyInFrom(a, before, l, supply, tokens, assets, accounts, i, allZero).value.0)
    decreases |assets| - i
  {
    hide Total, Transfer, Share;
    if i < |assets| {
      var amount := Share(tokens, before[accounts[i]], supply);
      if amount == 0 {
        BuyInSameTotals(a, before, l, supply, tokens, assets, accounts, i + 1, allZero);
      } else {
        TransferSameTotals(l, accounts[|assets| + i], accounts[i], amount % TWO_64);
        var l1 := Transfer(l, accounts[|assets| + i], accounts[i], amount % TWO_64).value;
        BuyInSameTotals(a, before, l1, supply, tokens, assets, accounts, i + 1, false);
      }
    }
  }

  lemma {:induction false} PayOutSameTotals(a: Addresses, l: Ledger, supply: u64, tokens: u64, assets: seq<Pubkey>,
                         accounts: seq<TokenAccount>, i: nat)
    requires i <= |assets| && 2 * |assets| <= |accounts|
    requires PayOutFrom(a, l, supply, tokens, assets, accounts, i).Ok?
    ensures SameTotals(l, PayOutFrom(a, l, supply, tokens, assets, accounts, i).value)
    decreases |assets| - i
  {
    hide Total, Transfer, Share;
    if i < |assets| {
      var amount := Share(tokens, l[accounts[i]], supply);
      if amount == 0 {
        PayOutSameTotals(a, l, supply, tokens, assets, accounts, i + 1);
      } else {
        TransferSameTotals(l, accounts[i], accounts[|assets| + i], amount);
        var l1 := Transfer(l, accounts[i], accounts[|assets| + i], amount).value;
        PayOutSameTotals(a, l1, supply, tokens, assets, accounts, i + 1);
      }
    }
  }

  lemma DexSameTotals(a: Addresses, l: Ledger, s: SettleArgs)
    requires DexPays(a, l, s).Ok?
    ensures SameTotals(l, DexPays(a, l, s).value)
  {
    hide Total, Transfer;
    TransferSameTotals(l, s.coinVault, s.coinWallet, s.payout.value.0);
    var l1 := Transfer(l, s.coinVault, s.coinWallet, s.payout.value.0).value;
    TransferSameTotals(l1, s.pcVault, s.pcWallet, s.payout.value.1);
  }

  /** Asset tokens conserved; pool tokens backed before means backed after. */
  ghost predicate Conserved(a: Addresses, s: Supply, s': Supply) {
    && (forall mint | mint != a.poolMint :: Total(s'.ledger, mint) == Total(s.ledger, mint))
    && (Backed(s, a.poolMint) ==> Backed(s', a.poolMint))
  }

  lemma MintToConserved(a: Addresses, s: Supply, to: TokenAccount, amount: u64)
    requires MintTo(s, a.poolMint, to, amount).Ok?
    ensures Conserved(a, s, MintTo(s, a.poolMint, to, amount).value)
    ensures MintTo(s, a.poolMint, to, amount).value.total == s.total + amount
  {
    hide MintTo, Total;
    forall other ensures other != a.poolMint ==> Total(MintTo(s, a.poolMint, to, amount).value.ledger, other) == Total(s.ledger, other) {
      MintToKeepsBacking(s, a.poolMint, to, amount, other);
    }
    MintToKeepsBacking(s, a.poolMint, to, amount, a.poolMint);
  }

  lemma MintFeeConserved(a: Addresses, s: Supply, provider: Pubkey, fee: u64)
    requires MintFee(a, s, provider, fee).Ok?
    ensures Conserved(a, s, MintFee(a, s, provider, fee).value)
    ensures MintFee(a, s, provider, fee).value.total == s.total + fee
  {
    hide MintTo, Total;
    MintToConserved(a, s, Associated(provider, a.poolMint), fee / 2);
    var s1 := MintTo(s, a.poolMint, Associated(provider, a.poolMint), fee / 2).value;
    MintToConserved(a, s1, Associated(a.feeOwner, a.poolMint), fee / 4);
    var s2 := MintTo(s1, a.poolMint, Associated(a.feeOwner, a.poolMint), fee / 4).value;
    MintToConserved(a, s2, Associated(a.bnbOwner, a.poolMint), fee - fee / 4 - fee / 2);
  }

  lemma BuyInConserved(a: Addresses, h: PoolHeader, assets: seq<Pubkey>, s: Supply, request: u64, accounts: seq<TokenAccount>, target: TokenAccount)
    requires 2 * |assets| <= |accounts| && BuyIn(a, h, assets, s, request, accounts, target).Ok?
    ensures Conserved(a, s, BuyIn(a, h, assets, s, request, accounts, target).value)
    ensures BuyIn(a, h, assets, s, request, accounts, target).value.total >= s.total
  {
    hide QuoteFrom, BuyInFrom, MintTo, MintFee, EntryFee, Total;
    var E := Min(request, QuoteFrom(s.ledger, s.total, |assets|, accounts, 0, MAX_U64).value);
    QuoteReadsAccounts(s.ledger, s.total, |assets|, accounts, 0, MAX_U64);
    BuyInSameTotals(a, s.ledger, s.ledger, s.total, E, assets, accounts, 0, true);
    var l := BuyInFrom(a, s.ledger, s.ledger, s.total, E, assets, accounts, 0, true).value.0;
    var fee := EntryFee(h.feeRatio, E);
    MintToConserved(a, s.(ledger := l), target, E - fee);
    MintFeeConserved(a, MintTo(s.(ledger := l), a.poolMint, target, E - fee).value, h.signalProvider, fee);
  }

  lemma CashOutConserved(a: Addresses, assets: seq<Pubkey>, s: Supply, tokens: u64, accounts: seq<TokenAccount>, source: TokenAccount)
    requires 2 * |assets| <= |accounts| && CashOut(a, assets, s, tokens, accounts, source).Ok?
    ensures Conserved(a, s, CashOut(a, assets, s, tokens, accounts, source).value)
    ensures tokens <= s.total && CashOut(a, assets, s, tokens, accounts, source).value.total == s.total - tokens
  {
    hide PayOutFrom, Total, Burn;
    PayOutSameTotals(a, s.ledger, s.total, tokens, assets, accounts, 0);
    var l := PayOutFrom(a, s.ledger, s.total, tokens, assets, accounts, 0).value;
    BurnKeepsBacking(s.(ledger := l), a.poolMint, source, tokens, a.poolMint);
    BurnWithinSupply(s.(ledger := l), a.poolMint, source, tokens);
    forall other ensures other != a.poolMint ==>
        Total(Burn(s.(ledger := l), a.poolMint, source, tokens).value.ledger, other) == Total(s.ledger, other) {
      BurnKeepsBacking(s.(ledger := l), a.poolMint, source, tokens, other);
    }
  }

  lemma BurnWithinSupply(s: Supply, mint: Pubkey, from: TokenAccount, amount: u64)
    requires Burn(s, mint, from, amount).Ok?
    ensures amount <= s.total
  {
  }
}

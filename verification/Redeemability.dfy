/** The promise of the pool: a holder can redeem whenever the fee gate is open. */
module Redeemability {
  import opened Wrappers
  import opened Numbers
  import opened Bytes
  import opened Header
  import opened Tokens
  import opened Processor
  import opened Shares
  import opened Trading
  import opened Runs

  /** Accounts that the instruction asks for: the vaults in order, then an existing target of each mint that
      has room for what the vault holds. */
  ghost predicate ProperAccounts(a: Addresses, l: Ledger, assets: seq<Pubkey>, accounts: seq<TokenAccount>, i: nat)
    requires 2 * |assets| <= |accounts|
  {
    forall k | i <= k < |assets| ::
      && accounts[k] == Vault(a, assets[k]) && accounts[k] in l
      && accounts[|assets|..][k] in l && accounts[|assets|..][k].mint == assets[k]
      && l[accounts[|assets|..][k]] + l[accounts[k]] < TWO_64
  }

  lemma {:induction false} PayOutSucceeds(a: Addresses, l: Ledger, supply: u64, tokens: u64, assets: seq<Pubkey>,
                       accounts: seq<TokenAccount>, i: nat)
    requires i <= |assets| && 2 * |assets| <= |accounts| && Distinct(assets) && 0 < supply && tokens <= supply
    requires ProperAccounts(a, l, assets, accounts, i)
    ensures PayOutFrom(a, l, supply, tokens, assets, accounts, i).Ok?
    decreases |assets| - i
  {
    hide Share;
    if i < |assets| {
      var vault, target := accounts[i], accounts[|assets|..][i];
      var amount := Share(tokens, l[vault], supply);
      ShareAtMostVault(tokens, l[vault], supply);
      var l1 := l;
      if amount > 0 {
        l1 := Transfer(l, vault, target, amount).value;
        TransferMoves(l, vault, target, amount);
        forall k | i < k < |assets| ensures
            l1[accounts[k]] == l[accounts[k]] && l1[accounts[|assets|..][k]] == l[accounts[|assets|..][k]] {
          assert Untouched(l, l1, assets[k]);
        }
      }
      PayOutSucceeds(a, l1, supply, tokens, assets, accounts, i + 1);
    }
  }

  lemma CashOutSucceeds(a: Addresses, assets: seq<Pubkey>, s: Supply, tokens: u64, accounts: seq<TokenAccount>, source: TokenAccount)
    requires 2 * |assets| <= |accounts| && Separate(a, assets) && s.total > 0 && Backed(s, a.poolMint)
    requires ProperAccounts(a, s.ledger, assets, accounts, 0)
    requires source in s.ledger && source.mint == a.poolMint && !(source.Associated? && source.owner == a.pool)
    requires tokens <= s.ledger[source]
    ensures CashOut(a, assets, s, tokens, accounts, source).Ok?
  {
    hide Share, PayOutFrom, Total, ProperAccounts;
    BalanceAtMostTotal(s.ledger, source);
    PayOutSucceeds(a, s.ledger, s.total, tokens, assets, accounts, 0);
    var l := PayOutFrom(a, s.ledger, s.total, tokens, assets, accounts, 0).value;
    PayOutVaults(a, s.ledger, s.total, tokens, assets, accounts, 0);
    AreTheVaults(a, s.ledger, assets, accounts);
    PayOutMoves(a, s.ledger, s.ledger, s.total, tokens, assets, accounts, 0);
    assert Untouched(s.ledger, l, a.poolMint);
  }

  lemma AreTheVaults(a: Addresses, l: Ledger, assets: seq<Pubkey>, accounts: seq<TokenAccount>)
    requires 2 * |assets| <= |accounts| && ProperAccounts(a, l, assets, accounts, 0)
    ensures forall k | 0 <= k < |assets| :: accounts[k] in l
  {
  }

  /** Whatever the state of the pool: with proper accounts a redemption succeeds if and only if the owner of the source
      signed, no order is pending, the fee gate is open (the clock difference is that of 64-bit words), and the source
      holds the tokens and is not the pool's own. */
  lemma RedeemSucceedsIff(a: Addresses, m: Machine, h: PoolHeader, assets: seq<Pubkey>, tokens: u64, accounts: seq<TokenAccount>,
                          source: TokenAccount, signed: bool, now: u64)
    requires Decodes(m.data, h, assets) && h.status != Uninitialized && Separate(a, assets)
    requires 2 * |assets| <= |accounts| && m.tokens.total > 0 && Backed(m.tokens, a.poolMint)
    requires ProperAccounts(a, m.tokens.ledger, assets, accounts, 0)
    requires source in m.tokens.ledger && source.mint == a.poolMint
    ensures var idle, elapsed := h.status == Unlocked || h.status == Locked, (now + TWO_64 - h.lastFeeCollection) % TWO_64;
            var pools := source.Associated? && source.owner == a.pool;
            var r := Redeem(a, m, tokens, accounts, source, signed, now);
            && (r.Ok? <==> signed && idle && elapsed <= h.feeCollectionPeriod && tokens <= m.tokens.ledger[source] && !pools)
            && (!signed ==> r == Err(InvalidArgument))
            && (signed && !(idle && elapsed <= h.feeCollectionPeriod) ==> r == Err(LockedOperation))
            && (signed && idle && elapsed <= h.feeCollectionPeriod && tokens > m.tokens.ledger[source] ==> r == Err(InsufficientFunds))
  {
    hide PayOutFrom, Separate, Backed, ProperAccounts, OpenHeader, OpenAssets, Decodes, ResetData, Burn, WrapSub;
    OpensIff(m.data, h, assets);
    WrapSubIsModular(now, h.lastFeeCollection);
    if tokens <= m.tokens.ledger[source] && !(source.Associated? && source.owner == a.pool) {
      CashOutSucceeds(a, assets, m.tokens, tokens, accounts, source);
    }
  }

  /** In every reachable state of an open pool a holder who signs and passes the right accounts can redeem any
      part of what he holds if and only if no more than one period has passed since the last collection. */
  lemma RedeemableIff(a: Addresses, w: World, h: PoolHeader, assets: seq<Pubkey>, tokens: u64, accounts: seq<TokenAccount>,
                      source: TokenAccount)
    requires Good(a, w) && OpenHeader(w.m.data) == Ok(h) && OpenAssets(w.m.data, h) == Ok(assets) && Separate(a, assets)
    requires 2 * |assets| <= |accounts| && ProperAccounts(a, w.m.tokens.ledger, assets, accounts, 0)
    requires source in w.m.tokens.ledger && source.mint == a.poolMint && !(source.Associated? && source.owner == a.pool)
    requires tokens <= w.m.tokens.ledger[source]
    ensures Redeem(a, w.m, tokens, accounts, source, true, w.clock).Ok? <==> w.clock <= h.lastFeeCollection + h.feeCollectionPeriod
  {
    hide CashOut, UnpackHeader, ProperAccounts, Separate, Total, ResetData;
    CashOutSucceeds(a, assets, w.m.tokens, tokens, accounts, source);
  }
}

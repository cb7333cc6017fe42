/** Redeem as the inverse of Deposit, and runs of redemptions. */
module RoundTrips {
  import opened Wrappers
  import opened Numbers
  import opened Bytes
  import opened Header
  import opened Tokens
  import opened Processor
  import opened Shares
  import opened Fees
  import opened Trading

  // ----- Redeem -----

  /** Everything a redemption of `tokens` does: each vault pays share(tokens) to its target, the source loses
      the tokens and the supply shrinks by them; nothing else moves. */
  lemma CashOutEffect(a: Addresses, assets: seq<Pubkey>, s: Supply, tokens: u64, accounts: seq<TokenAccount>,
                      source: TokenAccount, s': Supply)
    requires 2 * |assets| <= |accounts| && s.total > 0 && Separate(a, assets)
    requires CashOut(a, assets, s, tokens, accounts, source) == Ok(s')
    ensures tokens <= s.total && s'.total == s.total - tokens
    ensures AreVaults(a, assets, accounts, 0) && forall k | 0 <= k < |assets| :: accounts[k] in s.ledger
    ensures s'.ledger.Keys == s.ledger.Keys
    ensures var amounts := Amounts(s.ledger, s.total, tokens, |assets|, accounts);
            forall k | 0 <= k < |assets| :: Moved(s.ledger, s'.ledger, assets[k], accounts[k], accounts[|assets|..][k], amounts[k])
    ensures forall x | x in s.ledger && x.mint == a.poolMint ::
              s'.ledger[x] == s.ledger[x] - (if x == source then tokens else 0)
    ensures forall mint | mint != a.poolMint && mint !in assets :: Untouched(s.ledger, s'.ledger, mint)
  {
    hide PayOutFrom, Share;
    PayOutVaults(a, s.ledger, s.total, tokens, assets, accounts, 0);
    PayOutMoves(a, s.ledger, s.ledger, s.total, tokens, assets, accounts, 0);
    var l := PayOutFrom(a, s.ledger, s.total, tokens, assets, accounts, 0).value;
    assert Untouched(s.ledger, l, a.poolMint);
    assert forall x | x in s.ledger && x.mint != a.poolMint :: s'.ledger[x] == l[x];
    forall mint | mint != a.poolMint && mint !in assets ensures Untouched(s.ledger, s'.ledger, mint) {
      assert Untouched(s.ledger, l, mint);
    }
  }

  // ----- Deposit, then Redeem -----

  /** A transfer that happened had a source of the right mint that the pool does not own. */
  ghost predicate ProperSources(a: Addresses, l: Ledger, assets: seq<Pubkey>, sources: seq<TokenAccount>, amounts: seq<nat>, i: nat)
    requires |assets| <= |sources| && |assets| <= |amounts|
  {
    forall k | i <= k < |assets| && amounts[k] > 0 ::
      sources[k] in l && sources[k].mint == assets[k] && sources[k] != Vault(a, assets[k])
  }

  lemma {:induction false} BuyInSources(a: Addresses, before: Ledger, l: Ledger, supply: u64, tokens: u64, assets: seq<Pubkey>,
                     accounts: seq<TokenAccount>, i: nat, allZero: bool)
    requires i <= |assets| && 2 * |assets| <= |accounts| && supply > 0
    requires forall k | 0 <= k < |assets| :: accounts[k] in before
    requires forall k | 0 <= k < |assets| :: Share(tokens, before[accounts[k]], supply) < TWO_64
    requires BuyInFrom(a, before, l, supply, tokens, assets, accounts, i, allZero).Ok?
    ensures ProperSources(a, l, assets, accounts[|assets|..], Amounts(before, supply, tokens, |assets|, accounts), i)
    decreases |assets| - i
  {
    hide Share, Transfer, Moved, Untouched;
    var n := |assets|;
    if i < n {
      var amount := Share(tokens, before[accounts[i]], supply);
      NoWrap(amount);
      var l1 := if amount == 0 then l else UserTransfer(a, l, accounts[n + i], accounts[i], amount).value;
      if amount > 0 {
        TransferMoves(l, accounts[n + i], accounts[i], amount);
      }
      BuyInSources(a, before, l1, supply, tokens, assets, accounts, i + 1, allZero && amount == 0);
      assert accounts[n..][i] == accounts[n + i];
      hide BuyInFrom;
    }
  }

  /** Each vault gives back exactly what it received. */
  ghost predicate GivesBack(l: Ledger, supply: nat, tokens: nat, assets: seq<Pubkey>, accounts: seq<TokenAccount>, amounts: seq<nat>)
    requires |assets| <= |accounts| && |assets| <= |amounts| && supply > 0
  {
    forall k | 0 <= k < |assets| :: accounts[k] in l && Share(tokens, l[accounts[k]] + amounts[k], supply) == amounts[k]
  }

  lemma UndoOne(base: Ledger, cur: Ledger, assets: seq<Pubkey>, from: seq<TokenAccount>, to: seq<TokenAccount>, amounts: seq<nat>, i: nat)
    returns (next: Ledger)
    requires i < |assets| && |assets| <= |from| && |assets| <= |to| && |assets| <= |amounts| && Distinct(assets)
    requires AllMoved(base, cur, assets, from, to, amounts, i)
    requires 0 < amounts[i] < TWO_64 && from[i] in base && to[i] in base && from[i] != to[i]
    requires from[i].mint == assets[i] && to[i].mint == assets[i]
    ensures cur[to[i]] == base[to[i]] + amounts[i]
    ensures Transfer(cur, to[i], from[i], amounts[i]) == Ok(next)
    ensures AllMoved(base, next, assets, from, to, amounts, i + 1)
  {
    assert Moved(base, cur, assets[i], from[i], to[i], amounts[i]);
    assert cur[from[i]] == base[from[i]] - amounts[i];
    next := Transfer(cur, to[i], from[i], amounts[i]).value;
    TransferMoves(cur, to[i], from[i], amounts[i]);
    assert Moved(cur, next, assets[i], to[i], from[i], amounts[i]);
    assert Untouched(base, next, assets[i]);
    forall k | i < k < |assets| ensures Moved(base, next, assets[k], from[k], to[k], amounts[k]) {
      assert Moved(base, cur, assets[k], from[k], to[k], amounts[k]);
      assert Untouched(cur, next, assets[k]);
    }
    forall mint | (forall k | i < k < |assets| :: assets[k] != mint) ensures Untouched(base, next, mint) {
      if mint != assets[i] {
        assert forall k | i <= k < |assets| :: assets[k] != mint;
        assert Untouched(base, cur, mint);
        assert Untouched(cur, next, mint);
      }
    }
  }

  lemma SkipZero(base: Ledger, cur: Ledger, assets: seq<Pubkey>, from: seq<TokenAccount>, to: seq<TokenAccount>, amounts: seq<nat>, i: nat)
    requires i < |assets| && |assets| <= |from| && |assets| <= |to| && |assets| <= |amounts|
    requires AllMoved(base, cur, assets, from, to, amounts, i) && amounts[i] == 0
    ensures AllMoved(base, cur, assets, from, to, amounts, i + 1)
    ensures to[i] in base && to[i].mint == assets[i] ==> cur[to[i]] == base[to[i]]
  {
    assert Moved(base, cur, assets[i], from[i], to[i], amounts[i]);
    assert Untouched(base, cur, assets[i]);
    forall mint | (forall k | i < k < |assets| :: assets[k] != mint) ensures Untouched(base, cur, mint) {
      if mint != assets[i] {
        assert forall k | i <= k < |assets| :: assets[k] != mint;
      }
    }
  }

  /** The pay-out loop with the accounts of the buy-in puts every token back where it came from. */
  lemma {:induction false} PayOutUndoes(a: Addresses, base: Ledger, cur: Ledger, supply: u64, tokens: u64, assets: seq<Pubkey>,
                     accounts: seq<TokenAccount>, amounts: seq<nat>, i: nat)
    requires i <= |assets| && 2 * |assets| <= |accounts| && |assets| <= |amounts| && Distinct(assets) && supply > 0
    requires AreVaults(a, assets, accounts, 0)
    requires forall k | 0 <= k < |assets| :: amounts[k] < TWO_64
    requires ProperSources(a, base, assets, accounts[|assets|..], amounts, 0)
    requires GivesBack(base, supply, tokens, assets, accounts, amounts)
    requires AllMoved(base, cur, assets, accounts[|assets|..], accounts, amounts, i)
    ensures PayOutFrom(a, cur, supply, tokens, assets, accounts, i) == Ok(base)
    decreases |assets| - i
  {
    hide Share, Transfer, Moved;
    var n := |assets|;
    if i == n {
      forall x | x in base ensures cur[x] == base[x] {
        assert Untouched(base, cur, x.mint);
      }
      assert cur == base;
    } else if amounts[i] == 0 {
      SkipZero(base, cur, assets, accounts[n..], accounts, amounts, i);
      PayOutUndoes(a, base, cur, supply, tokens, assets, accounts, amounts, i + 1);
    } else {
      var next := UndoOne(base, cur, assets, accounts[n..], accounts, amounts, i);
      PayOutUndoes(a, base, next, supply, tokens, assets, accounts, amounts, i + 1);
    }
  }

  /** Seen from a ledger that differs from l in one account of another mint, the same assets moved. */
  lemma MovedFromBase(l: Ledger, l1: Ledger, base: Ledger, other: Pubkey, assets: seq<Pubkey>, from: seq<TokenAccount>,
                      to: seq<TokenAccount>, amounts: seq<nat>)
    requires |assets| <= |from| && |assets| <= |to| && |assets| <= |amounts| && other !in assets
    requires base.Keys == l.Keys == l1.Keys
    requires forall x | x in l :: base[x] == if x.mint == other then l1[x] else l[x]
    requires forall k | 0 <= k < |assets| :: Moved(l, l1, assets[k], from[k], to[k], amounts[k])
    requires forall mint | mint != other && mint !in assets :: Untouched(l, l1, mint)
    ensures AllMoved(base, l1, assets, from, to, amounts, 0)
  {
    forall k | 0 <= k < |assets| ensures Moved(base, l1, assets[k], from[k], to[k], amounts[k]) {
      assert Moved(l, l1, assets[k], from[k], to[k], amounts[k]);
    }
    forall mint | (forall k | 0 <= k < |assets| :: assets[k] != mint) ensures Untouched(base, l1, mint) {
      if mint != other {
        assert Untouched(l, l1, mint);
      }
    }
  }

  /** The sources of a successful buy-in are in order. */
  lemma BuyInProperSources(a: Addresses, h: PoolHeader, assets: seq<Pubkey>, s: Supply, request: u64, accounts: seq<TokenAccount>,
                           target: TokenAccount, E: u64)
    requires 2 * |assets| <= |accounts| && s.total > 0
    requires Effective(s, request, |assets|, accounts) == Ok(E)
    requires BuyIn(a, h, assets, s, request, accounts, target).Ok?
    ensures forall k | 0 <= k < |assets| :: accounts[k] in s.ledger
    ensures var amounts := Amounts(s.ledger, s.total, E, |assets|, accounts);
            && ProperSources(a, s.ledger, assets, accounts[|assets|..], amounts, 0)
            && forall k | 0 <= k < |assets| :: amounts[k] < TWO_64
  {
    hide BuyIn, Effective, BuyInFrom, MintTo, MintFee, EntryFee, Share, ProperSources;
    var _, _, _ := BuyInStages(a, h, assets, s, request, accounts, target);
    SharesFit(s, request, |assets|, accounts, E);
    BuyInSources(a, s.ledger, s.ledger, s.total, E, assets, accounts, 0, true);
  }

  /** The ledger after a buy-in without fee, seen from the ledger in which only the new pool tokens were added. */
  lemma BuyInFromBase(a: Addresses, h: PoolHeader, assets: seq<Pubkey>, s: Supply, request: u64, accounts: seq<TokenAccount>,
                      target: TokenAccount, E: u64, s1: Supply)
    returns (base: Ledger)
    requires 2 * |assets| <= |accounts| && s.total > 0 && Separate(a, assets)
    requires Effective(s, request, |assets|, accounts) == Ok(E) && EntryFee(h.feeRatio, E) == 0
    requires BuyIn(a, h, assets, s, request, accounts, target) == Ok(s1)
    ensures s1.total == s.total + E
    ensures target in s.ledger && target.mint == a.poolMint && s.ledger[target] + E < TWO_64
    ensures base == s.ledger[target := s.ledger[target] + E]
    ensures AreVaults(a, assets, accounts, 0) && forall k | 0 <= k < |assets| :: accounts[k] in s.ledger
    ensures var amounts := Amounts(s.ledger, s.total, E, |assets|, accounts);
            && AllMoved(base, s1.ledger, assets, accounts[|assets|..], accounts, amounts, 0)
            && ProperSources(a, base, assets, accounts[|assets|..], amounts, 0)
            && forall k | 0 <= k < |assets| :: amounts[k] < TWO_64
  {
    hide EntryFee, Share, BuyIn, Effective, FeePart, Moved, Untouched, AllMoved, AreVaults;
    FeePartIsZero(a, h.signalProvider, 0);
    BuyInEffect(a, h, assets, s, request, accounts, target, E, s1);
    BuyInTarget(a, h, assets, s, request, accounts, target, E);
    BuyInProperSources(a, h, assets, s, request, accounts, target, E);
    base := s.ledger[target := s.ledger[target] + E];
    var amounts := Amounts(s.ledger, s.total, E, |assets|, accounts);
    PoolTokensDiffer(a, s.ledger, s1.ledger, base, target, E);
    MovedFromBase(s.ledger, s1.ledger, base, a.poolMint, assets, accounts[|assets|..], accounts, amounts);
    assert forall k | 0 <= k < |assets| && amounts[k] > 0 :: accounts[|assets|..][k] in base;
  }

  lemma PoolTokensDiffer(a: Addresses, l: Ledger, l1: Ledger, base: Ledger, target: TokenAccount, E: u64)
    requires target in l && target.mint == a.poolMint && l[target] + E < TWO_64 && base == l[target := l[target] + E]
    requires l1.Keys == l.Keys
    requires forall x | x in l && x.mint == a.poolMint :: l1[x] == l[x] + if x == target then E else 0
    ensures base.Keys == l.Keys && forall x | x in l :: base[x] == if x.mint == a.poolMint then l1[x] else l[x]
  {
  }

  lemma BuyInTarget(a: Addresses, h: PoolHeader, assets: seq<Pubkey>, s: Supply, request: u64, accounts: seq<TokenAccount>,
                    target: TokenAccount, E: u64)
    requires 2 * |assets| <= |accounts| && s.total > 0 && Separate(a, assets)
    requires Effective(s, request, |assets|, accounts) == Ok(E) && EntryFee(h.feeRatio, E) == 0
    requires BuyIn(a, h, assets, s, request, accounts, target).Ok?
    ensures target in s.ledger && target.mint == a.poolMint && s.ledger[target] + E < TWO_64
  {
    hide EntryFee, Share, BuyIn, Effective, FeePart, MintFee, BuyInFrom, Moved, Untouched, AllMoved;
    FeePartIsZero(a, h.signalProvider, 0);
    var E1, l, s2 := BuyInStages(a, h, assets, s, request, accounts, target);
    var s1 := BuyIn(a, h, assets, s, request, accounts, target).value;
    BuyInEffect(a, h, assets, s, request, accounts, target, E, s1);
    SharesFit(s, request, |assets|, accounts, E);
    BuyInFromKeys(a, assets, s, accounts, E, l);
    var _: u64 := s1.ledger[target];
  }

  lemma BuyInFromKeys(a: Addresses, assets: seq<Pubkey>, s: Supply, accounts: seq<TokenAccount>, E: u64, l: Ledger)
    requires 2 * |assets| <= |accounts| && s.total > 0 && Separate(a, assets)
    requires forall k | 0 <= k < |assets| :: accounts[k] in s.ledger
    requires forall k | 0 <= k < |assets| :: Share(E, s.ledger[accounts[k]], s.total) < TWO_64
    requires BuyInFrom(a, s.ledger, s.ledger, s.total, E, assets, accounts, 0, true) == Ok((l, false))
    ensures l.Keys == s.ledger.Keys
  {
    hide Share, BuyInFrom, Moved, Untouched, AreVaults;
    BuyInMoves(a, s.ledger, s.ledger, s.total, E, assets, accounts, 0, true);
  }

  /** Redeem undoes Deposit: if the entry fee of the effective amount E rounds to zero, redeeming E with the
      accounts of the deposit restores the supply and every single balance. */
  lemma CashOutUndoesBuyIn(a: Addresses, h: PoolHeader, assets: seq<Pubkey>, s: Supply, request: u64, accounts: seq<TokenAccount>,
                           target: TokenAccount, E: u64, s1: Supply)
    requires 2 * |assets| <= |accounts| && s.total > 0 && Separate(a, assets)
    requires !(target.Associated? && target.owner == a.pool)
    requires Effective(s, request, |assets|, accounts) == Ok(E) && EntryFee(h.feeRatio, E) == 0
    requires BuyIn(a, h, assets, s, request, accounts, target) == Ok(s1)
    ensures CashOut(a, assets, s1, E, accounts, target) == Ok(s)
  {
    hide QuoteFrom, BuyInFrom, MintFee, EntryFee, Share, BuyIn, Effective, PayOutFrom;
    var base := BuyInFromBase(a, h, assets, s, request, accounts, target, E, s1);
    var amounts := Amounts(s.ledger, s.total, E, |assets|, accounts);
    assert GivesBack(base, s1.total, E, assets, accounts, amounts) by {
      forall k | 0 <= k < |assets| ensures accounts[k] in base && Share(E, base[accounts[k]] + amounts[k], s1.total) == amounts[k] {
        assert base[accounts[k]] == s.ledger[accounts[k]];
        RoundTrip(E, s.ledger[accounts[k]], s.total, E);
      }
    }
    PayOutUndoes(a, base, s1.ledger, s1.total, E, assets, accounts, amounts, 0);
    assert s1.ledger[target] >= E by {
      assert Untouched(base, s1.ledger, a.poolMint);
    }
    assert base[target := base[target] - E] == s.ledger;
  }

  /** On the machine: below 65536 / fee_ratio tokens Deposit and then Redeem is the identity, while the fee gate
      is open. */
  lemma RedeemUndoesDeposit(a: Addresses, m: Machine, request: u64, accounts: seq<TokenAccount>, target: TokenAccount,
                            h: PoolHeader, assets: seq<Pubkey>, E: u64, now: u64)
    requires OpenHeader(m.data) == Ok(h) && OpenAssets(m.data, h) == Ok(assets) && Separate(a, assets)
    requires m.tokens.total > 0 && !(target.Associated? && target.owner == a.pool) && !FeesOverdue(h, now)
    requires Deposit(a, m, request, accounts, target, true).Ok?
    requires 2 * |assets| <= |accounts| && Effective(m.tokens, request, |assets|, accounts) == Ok(E) && h.feeRatio * E < TWO_16
    ensures Redeem(a, Deposit(a, m, request, accounts, target, true).value, E, accounts, target, true, now) == Ok(m)
  {
    hide BuyIn, CashOut, Effective, EntryFee, FeesOverdue;
    NoEntryFeeIff(h.feeRatio, E);
    var s1 := BuyIn(a, h, assets, m.tokens, request, accounts, target).value;
    CashOutUndoesBuyIn(a, h, assets, m.tokens, request, accounts, target, E, s1);
    BuyInEffect(a, h, assets, m.tokens, request, accounts, target, E, s1);
  }

  /** The balance of vault k after a buy-in ... */
  lemma VaultAfterBuyIn(a: Addresses, h: PoolHeader, assets: seq<Pubkey>, s: Supply, request: u64, accounts: seq<TokenAccount>,
                        target: TokenAccount, E: u64, s1: Supply, k: nat)
    requires 2 * |assets| <= |accounts| && s.total > 0 && Separate(a, assets) && k < |assets|
    requires Effective(s, request, |assets|, accounts) == Ok(E)
    requires BuyIn(a, h, assets, s, request, accounts, target) == Ok(s1)
    ensures s1.total == s.total + E
    ensures var v := Vault(a, assets[k]);
            v in s.ledger && v in s1.ledger && s1.ledger[v] == s.ledger[v] + Share(E, s.ledger[v], s.total)
  {
    hide QuoteFrom, BuyInFrom, MintFee, EntryFee, Share, BuyIn, Effective;
    BuyInEffect(a, h, assets, s, request, accounts, target, E, s1);
    var _, l, _ := BuyInStages(a, h, assets, s, request, accounts, target);
    SharesFit(s, request, |assets|, accounts, E);
    BuyInSources(a, s.ledger, s.ledger, s.total, E, assets, accounts, 0, true);
    var paid := Amounts(s.ledger, s.total, E, |assets|, accounts)[k];
    assert Moved(s.ledger, s1.ledger, assets[k], accounts[|assets|..][k], accounts[k], paid);
  }

  /** ... and after a cash-out: it loses its share, unless the target is the vault itself. */
  lemma VaultAfterCashOut(a: Addresses, assets: seq<Pubkey>, s: Supply, tokens: u64, accounts: seq<TokenAccount>,
                          source: TokenAccount, s': Supply, k: nat)
    requires 2 * |assets| <= |accounts| && s.total > 0 && Separate(a, assets) && k < |assets|
    requires CashOut(a, assets, s, tokens, accounts, source) == Ok(s')
    ensures tokens <= s.total && s'.total == s.total - tokens
    ensures var v := Vault(a, assets[k]);
            && v in s.ledger && v in s'.ledger
            && s'.ledger[v] == s.ledger[v] - if accounts[|assets| + k] == v then 0 else Share(tokens, s.ledger[v], s.total)
  {
    hide CashOut, Share;
    CashOutEffect(a, assets, s, tokens, accounts, source, s');
    var paid := Amounts(s.ledger, s.total, tokens, |assets|, accounts)[k];
    assert Moved(s.ledger, s'.ledger, assets[k], accounts[k], accounts[|assets|..][k], paid);
  }

  /** A deposit leaves the backing of every pool token within one base unit of what it was: p' / S' against p / S. */
  lemma DepositKeepsBacking(a: Addresses, h: PoolHeader, assets: seq<Pubkey>, s: Supply, request: u64, accounts: seq<TokenAccount>,
                            target: TokenAccount, s1: Supply, k: nat)
    requires 2 * |assets| <= |accounts| && s.total > 0 && Separate(a, assets) && k < |assets|
    requires BuyIn(a, h, assets, s, request, accounts, target) == Ok(s1)
    ensures var v := Vault(a, assets[k]);
            && v in s.ledger && v in s1.ledger
            && s.ledger[v] * s1.total - s.total < s1.ledger[v] * s.total <= s.ledger[v] * s1.total
  {
    hide BuyIn, Effective, Share;
    var E, _, _ := BuyInStages(a, h, assets, s, request, accounts, target);
    VaultAfterBuyIn(a, h, assets, s, request, accounts, target, E, s1, k);
    BackingAfterDeposit(E, s.ledger[Vault(a, assets[k])], s.total);
  }

  /** No profit: whoever redeems at most the E tokens that a deposit has just minted, from any accounts and
      whatever the fee, leaves every vault with at least what it held before the deposit. */
  lemma DepositThenRedeemNeverDrains(a: Addresses, h: PoolHeader, assets: seq<Pubkey>, s: Supply, request: u64,
                                     accounts: seq<TokenAccount>, target: TokenAccount, E: u64, s1: Supply,
                                     tokens: u64, accounts2: seq<TokenAccount>, source: TokenAccount, s2: Supply)
    requires 2 * |assets| <= |accounts| && 2 * |assets| <= |accounts2| && s.total > 0 && Separate(a, assets)
    requires Effective(s, request, |assets|, accounts) == Ok(E)
    requires BuyIn(a, h, assets, s, request, accounts, target) == Ok(s1)
    requires tokens <= E && CashOut(a, assets, s1, tokens, accounts2, source) == Ok(s2)
    ensures forall k | 0 <= k < |assets| ::
              var v := Vault(a, assets[k]);
              v in s.ledger && v in s2.ledger && s2.ledger[v] >= s.ledger[v]
  {
    hide Share, BuyIn, Effective, CashOut;
    forall k | 0 <= k < |assets|
      ensures var v := Vault(a, assets[k]); v in s.ledger && v in s2.ledger && s2.ledger[v] >= s.ledger[v]
    {
      VaultAfterBuyIn(a, h, assets, s, request, accounts, target, E, s1, k);
      VaultAfterCashOut(a, assets, s1, tokens, accounts2, source, s2, k);
      RoundTrip(E, s.ledger[Vault(a, assets[k])], s.total, tokens);
    }
  }

  // ----- Runs of deposits -----

  datatype DepositCall = DepositCall(request: u64, accounts: seq<TokenAccount>, target: TokenAccount)

  /** A sequence of deposits by anyone, each of which succeeds. */
  function DepositAll(a: Addresses, m: Machine, calls: seq<DepositCall>): Result<Machine> {
    if calls == [] then Ok(m)
    else
      var last := calls[|calls| - 1];
      var m' :- DepositAll(a, m, calls[..|calls| - 1]);
      Deposit(a, m', last.request, last.accounts, last.target, true)
  }

  lemma DepositIsBuyIn(a: Addresses, m: Machine, call: DepositCall, h: PoolHeader, assets: seq<Pubkey>, m': Machine)
    requires OpenHeader(m.data) == Ok(h) && OpenAssets(m.data, h) == Ok(assets)
    requires Deposit(a, m, call.request, call.accounts, call.target, true) == Ok(m')
    ensures 2 * |assets| <= |call.accounts|
    ensures BuyIn(a, h, assets, m.tokens, call.request, call.accounts, call.target) == Ok(m'.tokens) && m'.data == m.data
  {
    hide BuyIn;
  }

  /** Any number of deposits: the bytes stay, the supply and the vault grow, and the vault stays in proportion
      to within one unit per call. */
  lemma {:induction false} DepositRun(a: Addresses, m: Machine, calls: seq<DepositCall>, h: PoolHeader, assets: seq<Pubkey>, k: nat, m': Machine)
    requires OpenHeader(m.data) == Ok(h) && OpenAssets(m.data, h) == Ok(assets) && Separate(a, assets) && k < |assets|
    requires m.tokens.total > 0 && Vault(a, assets[k]) in m.tokens.ledger
    requires DepositAll(a, m, calls) == Ok(m')
    ensures m'.data == m.data && m'.tokens.total >= m.tokens.total
    ensures var v := Vault(a, assets[k]);
            && v in m'.tokens.ledger && m'.tokens.ledger[v] >= m.tokens.ledger[v]
            && GrownAfter(m.tokens.ledger[v], m.tokens.total, m'.tokens.ledger[v], m'.tokens.total, |calls|)
  {
    hide Share, BuyIn, Deposit, GrownAfter, Separate, OpenHeader, OpenAssets, Effective;
    var v := Vault(a, assets[k]);
    if calls == [] {
      GrownAtStart(m.tokens.ledger[v], m.tokens.total);
    } else {
      var last, before := calls[|calls| - 1], calls[..|calls| - 1];
      var m1 := DepositAll(a, m, before).value;
      DepositRun(a, m, before, h, assets, k, m1);
      DepositIsBuyIn(a, m1, last, h, assets, m');
      var E, _, _ := BuyInStages(a, h, assets, m1.tokens, last.request, last.accounts, last.target);
      VaultAfterBuyIn(a, h, assets, m1.tokens, last.request, last.accounts, last.target, E, m'.tokens, k);
      DepositOnce(m.tokens.ledger[v], m.tokens.total, m1.tokens.ledger[v], m1.tokens.total, |before|, E);
      ShareBounds(E, m1.tokens.ledger[v], m1.tokens.total);
    }
  }

  lemma GrownAtStart(p: nat, S: nat)
    ensures GrownAfter(p, S, p, S, 0)
  {
  }

  /** No profit beyond rounding: whoever redeems at most all the tokens that m successive deposits have minted
      is paid, in every asset, less than m base units more than those deposits paid in. */
  lemma SeveralDepositsThenRedeem(a: Addresses, m: Machine, calls: seq<DepositCall>, h: PoolHeader, assets: seq<Pubkey>, k: nat,
                                  m1: Machine, last: RedeemCall, m2: Machine)
    requires OpenHeader(m.data) == Ok(h) && OpenAssets(m.data, h) == Ok(assets) && Separate(a, assets) && k < |assets|
    requires m.tokens.total > 0 && Vault(a, assets[k]) in m.tokens.ledger && calls != [] && PaysOut(a, last, |assets|)
    requires DepositAll(a, m, calls) == Ok(m1)
    requires Redeem(a, m1, last.tokens, last.accounts, last.source, true, last.now) == Ok(m2)
    requires last.tokens <= m1.tokens.total - m.tokens.total
    ensures var v := Vault(a, assets[k]);
            && v in m1.tokens.ledger && v in m2.tokens.ledger
            && m1.tokens.ledger[v] - m2.tokens.ledger[v] < m1.tokens.ledger[v] - m.tokens.ledger[v] + |calls|
  {
    hide Share, Redeem, Deposit, GrownAfter, Separate, OpenHeader, OpenAssets, ResetData, PaysOut;
    var v := Vault(a, assets[k]);
    DepositRun(a, m, calls, h, assets, k, m1);
    RedeemPaysShare(a, m1, last, h, assets, k, m2);
    GainBelow(m.tokens.ledger[v], m.tokens.total, m1.tokens.ledger[v], m1.tokens.total - m.tokens.total, |calls|);
    ShareMonotone(last.tokens, m1.tokens.total - m.tokens.total, m1.tokens.ledger[v], m1.tokens.total);
  }

  lemma ShareMonotone(t: nat, u: nat, p: nat, S: nat)
    requires S > 0 && t <= u
    ensures Share(t, p, S) <= Share(u, p, S)
  {
    ShareBounds(t, p, S);
    MulMonotone(t, u, p, p);
    ShareIff(u, p, S, Share(t, p, S));
  }

  // ----- Runs of redemptions -----

  datatype RedeemCall = RedeemCall(tokens: u64, accounts: seq<TokenAccount>, source: TokenAccount, now: u64)

  /** A sequence of redemptions by any holders, each of which succeeds. */
  function RedeemAll(a: Addresses, m: Machine, calls: seq<RedeemCall>): Result<Machine> {
    if calls == [] then Ok(m)
    else
      var last := calls[|calls| - 1];
      var m' :- RedeemAll(a, m, calls[..|calls| - 1]);
      Redeem(a, m', last.tokens, last.accounts, last.source, true, last.now)
  }

  ghost function TotalTokens(calls: seq<RedeemCall>): nat {
    if calls == [] then 0 else TotalTokens(calls[..|calls| - 1]) + calls[|calls| - 1].tokens
  }

  /** Redemptions are paid out of the pool, not back into its own accounts. */
  predicate PaysOut(a: Addresses, call: RedeemCall, n: nat) {
    forall i | n <= i < |call.accounts| && i < 2 * n :: !(call.accounts[i].Associated? && call.accounts[i].owner == a.pool)
  }

  lemma RedeemIsCashOut(a: Addresses, m: Machine, call: RedeemCall, h: PoolHeader, assets: seq<Pubkey>, m': Machine)
    requires OpenHeader(m.data) == Ok(h) && OpenAssets(m.data, h) == Ok(assets)
    requires Redeem(a, m, call.tokens, call.accounts, call.source, true, call.now) == Ok(m')
    ensures 2 * |assets| <= |call.accounts|
    ensures CashOut(a, assets, m.tokens, call.tokens, call.accounts, call.source) == Ok(m'.tokens)
    ensures m'.data == if call.tokens == m.tokens.total then ResetData(m.data, h) else m.data
  {
    hide CashOut, ResetData;
  }

  /** After a full redemption the pool is closed. */
  lemma ResetCloses(data: seq<byte>, h: PoolHeader)
    requires |data| >= HEADER_LENGTH
    ensures OpenHeader(ResetData(data, h)) == Err(UninitializedAccount)
    ensures UnpackHeader(ResetData(data, h)) == h.(status := Uninitialized)
  {
    HeaderRoundTrip(h.(status := Uninitialized), Zeros(|data| - HEADER_LENGTH));
  }

  /** One call of a run, on vault k: what it pays is its share of what is there. */
  lemma RedeemPaysShare(a: Addresses, m: Machine, call: RedeemCall, h: PoolHeader, assets: seq<Pubkey>, k: nat, m': Machine)
    requires OpenHeader(m.data) == Ok(h) && OpenAssets(m.data, h) == Ok(assets) && Separate(a, assets) && k < |assets|
    requires m.tokens.total > 0 && PaysOut(a, call, |assets|)
    requires Redeem(a, m, call.tokens, call.accounts, call.source, true, call.now) == Ok(m')
    ensures call.tokens <= m.tokens.total && m'.tokens.total == m.tokens.total - call.tokens
    ensures m'.data == if call.tokens == m.tokens.total then ResetData(m.data, h) else m.data
    ensures var v := Vault(a, assets[k]);
            && v in m.tokens.ledger && v in m'.tokens.ledger
            && m'.tokens.ledger[v] == m.tokens.ledger[v] - Share(call.tokens, m.tokens.ledger[v], m.tokens.total)
  {
    hide Share, CashOut, Redeem, ResetData, PackHeader, OpenHeader, OpenAssets;
    RedeemIsCashOut(a, m, call, h, assets, m');
    VaultAfterCashOut(a, assets, m.tokens, call.tokens, call.accounts, call.source, m'.tokens, k);
    assert call.accounts[|assets| + k] != Vault(a, assets[k]);
  }

  /** The state between two redemptions of a run: the account bytes are those of the start while tokens are
      left, and vault k is in proportion to within one unit per call. */
  lemma {:induction false} RedeemRun(a: Addresses, m: Machine, calls: seq<RedeemCall>, h: PoolHeader, assets: seq<Pubkey>, k: nat, m': Machine)
    requires OpenHeader(m.data) == Ok(h) && OpenAssets(m.data, h) == Ok(assets) && Separate(a, assets) && k < |assets|
    requires m.tokens.total > 0 && Vault(a, assets[k]) in m.tokens.ledger
    requires forall c | c in calls :: PaysOut(a, c, |assets|)
    requires RedeemAll(a, m, calls) == Ok(m')
    ensures TotalTokens(calls) <= m.tokens.total && m'.tokens.total == m.tokens.total - TotalTokens(calls)
    ensures m'.tokens.total > 0 ==> m'.data == m.data
    ensures m'.tokens.total == 0 ==> OpenHeader(m'.data).Err?
    ensures var v := Vault(a, assets[k]);
            && v in m'.tokens.ledger && m'.tokens.ledger[v] <= m.tokens.ledger[v]
            && LeftAfter(m.tokens.ledger[v], m.tokens.total, m'.tokens.ledger[v], m'.tokens.total, |calls|)
    ensures m'.tokens.total == 0 ==> m'.tokens.ledger[Vault(a, assets[k])] == 0
  {
    hide Share, CashOut, Redeem, ResetData, LeftAfter, PackHeader, PaysOut, OpenHeader, OpenAssets, Separate;
    var v := Vault(a, assets[k]);
    if calls == [] {
      ProportionAtStart(m.tokens.ledger[v], m.tokens.total);
    } else {
      var last, before := calls[|calls| - 1], calls[..|calls| - 1];
      var m1 := RedeemAll(a, m, before).value;
      RedeemRun(a, m, before, h, assets, k, m1);
      ClosedStaysClosed(a, m1, last);
      RedeemPaysShare(a, m1, last, h, assets, k, m');
      RedeemOnce(m.tokens.ledger[v], m.tokens.total, m1.tokens.ledger[v], m1.tokens.total, |before|, last.tokens);
      ShareAtMostVault(last.tokens, m1.tokens.ledger[v], m1.tokens.total);
      HeaderIsThere(m1.data);
      ResetCloses(m1.data, h);
    }
  }

  lemma HeaderIsThere(data: seq<byte>)
    requires OpenHeader(data).Ok?
    ensures |data| >= HEADER_LENGTH
  {
  }

  lemma ProportionAtStart(p: nat, S: nat)
    ensures LeftAfter(p, S, p, S, 0)
  {
  }

  lemma ClosedStaysClosed(a: Addresses, m: Machine, call: RedeemCall)
    requires Redeem(a, m, call.tokens, call.accounts, call.source, true, call.now).Ok?
    ensures OpenHeader(m.data).Ok?
  {
    hide CashOut, ResetData;
  }

  /** Runs of redemptions: whatever the order, the holders and the split into m calls, the T tokens redeemed
      are paid the share of T in every asset, less at most m - 1 base units; and redeeming the whole supply
      empties every vault. */
  lemma RedemptionsArePaidFairly(a: Addresses, m: Machine, calls: seq<RedeemCall>, h: PoolHeader, assets: seq<Pubkey>, k: nat, m': Machine)
    requires OpenHeader(m.data) == Ok(h) && OpenAssets(m.data, h) == Ok(assets) && Separate(a, assets) && k < |assets|
    requires m.tokens.total > 0 && Vault(a, assets[k]) in m.tokens.ledger
    requires forall c | c in calls :: PaysOut(a, c, |assets|)
    requires calls != [] && RedeemAll(a, m, calls) == Ok(m')
    ensures TotalTokens(calls) <= m.tokens.total
    ensures var v, T, p := Vault(a, assets[k]), TotalTokens(calls), m.tokens.ledger[Vault(a, assets[k])];
            && v in m'.tokens.ledger
            && Share(T, p, m.tokens.total) - (|calls| - 1) <= p - m'.tokens.ledger[v] <= Share(T, p, m.tokens.total)
            && (T == m.tokens.total ==> m'.tokens.ledger[v] == 0 && m'.tokens.total == 0)
  {
    hide Share, Redeem, LeftAfter, PackHeader;
    RedeemRun(a, m, calls, h, assets, k, m');
    var v := Vault(a, assets[k]);
    TotalPaid(m.tokens.ledger[v], m.tokens.total, m'.tokens.ledger[v], TotalTokens(calls), |calls|);
  }

  /** And no call in such a run is paid less for its tokens than it would have been at the start. */
  lemma EveryCallIsPaidItsShare(a: Addresses, m: Machine, before: seq<RedeemCall>, last: RedeemCall, h: PoolHeader, assets: seq<Pubkey>,
                                k: nat, m1: Machine, m2: Machine)
    requires OpenHeader(m.data) == Ok(h) && OpenAssets(m.data, h) == Ok(assets) && Separate(a, assets) && k < |assets|
    requires m.tokens.total > 0 && Vault(a, assets[k]) in m.tokens.ledger
    requires forall c | c in before + [last] :: PaysOut(a, c, |assets|)
    requires RedeemAll(a, m, before) == Ok(m1)
    requires Redeem(a, m1, last.tokens, last.accounts, last.source, true, last.now) == Ok(m2)
    ensures var v := Vault(a, assets[k]);
            && v in m1.tokens.ledger && v in m2.tokens.ledger
            && m1.tokens.ledger[v] - m2.tokens.ledger[v] >= Share(last.tokens, m.tokens.ledger[v], m.tokens.total)
  {
    hide Share, CashOut, Redeem, ResetData, PackHeader, PaysOut, OpenHeader, OpenAssets, Separate;
    assert forall c | c in before :: c in before + [last];
    assert last in before + [last];
    RedeemRun(a, m, before, h, assets, k, m1);
    ClosedStaysClosed(a, m1, last);
    RedeemPaysShare(a, m1, last, h, assets, k, m2);
    var v := Vault(a, assets[k]);
    LaterIsNoWorse(m.tokens.ledger[v], m.tokens.total, m1.tokens.ledger[v], m1.tokens.total, last.tokens);
  }
}

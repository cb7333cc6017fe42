/** What Deposit and Redeem do to the ledger, and what one undoes of the other. */
module Trading {
  import opened Wrappers
  import opened Numbers
  import opened Bytes
  import opened Header
  import opened Layout
  import opened Tokens
  import opened Processor
  import opened Shares
  import opened Fees

  // ----- The bytes of a pool -----

  /** The bytes hold this header and, behind its markets, these assets. */
  ghost predicate Decodes(data: seq<byte>, h: PoolHeader, assets: seq<Pubkey>) {
    && 117 <= |data| && h == UnpackHeader(data)
    && 117 + 32 * h.numberOfMarkets <= |data| && assets == AssetsIn(data[117 + 32 * h.numberOfMarkets..])
  }

  /** Which bytes the program takes for an open pool, and what it answers on the others. */
  lemma OpensIff(data: seq<byte>, h: PoolHeader, assets: seq<Pubkey>)
    ensures OpenHeader(data) == Ok(h) && OpenAssets(data, h) == Ok(assets) <==> Decodes(data, h, assets) && h.status != Uninitialized
    ensures Decodes(data, h, assets) && h.status == Uninitialized ==> OpenHeader(data) == Err(UninitializedAccount)
    ensures |data| < 117 ==> OpenHeader(data) == Err(Panic)
    ensures 117 <= |data| < 117 + 32 * UnpackHeader(data).numberOfMarkets ==> OpenAssets(data, UnpackHeader(data)) == Err(Panic)
  {
    hide UnpackHeader, AssetsIn;
  }

  // ----- The effective amount of a deposit -----

  /** The first n accounts are vaults, the next n the sources; E tokens can be bought if every source
      holds its exact proportion. */
  ghost predicate Feasible(l: Ledger, supply: u64, n: nat, accounts: seq<TokenAccount>, E: nat)
    requires 2 * n <= |accounts|
    requires forall k | 0 <= k < 2 * n :: accounts[k] in l
  {
    forall k: nat | k < n :: E * l[accounts[k]] <= l[accounts[n + k]] * supply
  }

  /** No quotient is cut to 64 bits. */
  ghost predicate Uncut(l: Ledger, supply: u64, n: nat, accounts: seq<TokenAccount>)
    requires 2 * n <= |accounts|
    requires forall k | 0 <= k < 2 * n :: accounts[k] in l
  {
    forall k: nat | k < n && l[accounts[k]] > 0 :: l[accounts[n + k]] * supply < TWO_64 * l[accounts[k]]
  }

  /** The cut only ever lowers what a source can buy. */
  lemma AffordableIsAfforded(source: u64, vault: u64, supply: u64, E: u64)
    requires E <= Affordable(source, vault, supply)
    ensures E * vault <= source * supply
    ensures vault > 0 && source * supply < TWO_64 * vault ==> Affordable(source, vault, supply) == source * supply / vault
  {
    MulMonotone(0, source, 0, supply);
    if vault > 0 {
      var q := source * supply / vault;
      assert q % TWO_64 <= q;
      FloorIff(source * supply, vault, E);
      FloorIff(source * supply, vault, TWO_64);
    }
  }

  /** The running minimum is the minimum. */
  lemma {:induction false} QuoteIsMinimum(l: Ledger, supply: u64, n: nat, accounts: seq<TokenAccount>, i: nat, best: u64)
    requires i <= n && 2 * n <= |accounts|
    requires QuoteFrom(l, supply, n, accounts, i, best).Ok?
    ensures forall k | i <= k < n :: accounts[k] in l
    ensures forall k | n + i <= k < 2 * n :: accounts[k] in l
    ensures var q := QuoteFrom(l, supply, n, accounts, i, best).value;
            && q <= best
            && (forall k: nat | i <= k < n :: q <= Affordable(l[accounts[n + k]], l[accounts[k]], supply))
            && (q == best || exists k: nat :: i <= k < n && q == Affordable(l[accounts[n + k]], l[accounts[k]], supply))
    decreases n - i
  {
    hide Affordable;
    QuoteReadsAccounts(l, supply, n, accounts, i, best);
    if i < n {
      var next := Min(Affordable(l[accounts[n + i]], l[accounts[i]], supply), best);
      QuoteIsMinimum(l, supply, n, accounts, i + 1, next);
    }
  }

  /** The effective amount is always affordable, cut or not, so no transfer can exceed its source. */
  lemma EffectiveIsFeasible(l: Ledger, supply: u64, n: nat, accounts: seq<TokenAccount>, E: u64)
    requires 2 * n <= |accounts| && QuoteFrom(l, supply, n, accounts, 0, MAX_U64).Ok?
    requires E <= QuoteFrom(l, supply, n, accounts, 0, MAX_U64).value
    ensures forall k | 0 <= k < 2 * n :: accounts[k] in l
    ensures Feasible(l, supply, n, accounts, E)
    ensures supply > 0 ==> forall k: nat | k < n :: Share(E, l[accounts[k]], supply) <= l[accounts[n + k]]
  {
    hide Affordable;
    QuoteIsMinimum(l, supply, n, accounts, 0, MAX_U64);
    forall k: nat | k < n
      ensures E * l[accounts[k]] <= l[accounts[n + k]] * supply
      ensures supply > 0 ==> Share(E, l[accounts[k]], supply) <= l[accounts[n + k]]
    {
      AffordableIsAfforded(l[accounts[n + k]], l[accounts[k]], supply, E);
      if supply > 0 {
        ShareBounds(E, l[accounts[k]], supply);
        CancelFactor(Share(E, l[accounts[k]], supply), l[accounts[n + k]], supply);
      }
    }
  }

  /** Source k cannot pay for E + 1 tokens. */
  ghost predicate Limits(l: Ledger, supply: u64, n: nat, accounts: seq<TokenAccount>, E: nat, k: nat)
    requires 2 * n <= |accounts|
    requires forall k | 0 <= k < 2 * n :: accounts[k] in l
  {
    k < n && l[accounts[k]] > 0 && l[accounts[n + k]] * supply < (E + 1) * l[accounts[k]]
  }

  ghost predicate SomeLimit(l: Ledger, supply: u64, n: nat, accounts: seq<TokenAccount>, E: nat)
    requires 2 * n <= |accounts|
    requires forall k | 0 <= k < 2 * n :: accounts[k] in l
  {
    exists j: nat :: Limits(l, supply, n, accounts, E, j)
  }

  /** What the caller can check beforehand: every quotient, after the cut to 64 bits, still allows the request
      or at least as much as some source truly limits. */
  ghost predicate CutHarmless(l: Ledger, supply: u64, n: nat, accounts: seq<TokenAccount>, request: u64)
    requires 2 * n <= |accounts|
    requires forall k | 0 <= k < 2 * n :: accounts[k] in l
  {
    forall k: nat | k < n && l[accounts[k]] > 0 ::
      || request <= Affordable(l[accounts[n + k]], l[accounts[k]], supply)
      || SomeLimit(l, supply, n, accounts, Affordable(l[accounts[n + k]], l[accounts[k]], supply))
  }

  ghost predicate IsGreatest(l: Ledger, supply: u64, n: nat, accounts: seq<TokenAccount>, request: u64, E: u64)
    requires 2 * n <= |accounts|
    requires forall k | 0 <= k < 2 * n :: accounts[k] in l
  {
    forall e: u64 | e <= request && Feasible(l, supply, n, accounts, e) :: e <= E
  }

  lemma LimitedIsGreatest(l: Ledger, supply: u64, n: nat, accounts: seq<TokenAccount>, request: u64, E: u64, j: nat)
    requires 2 * n <= |accounts|
    requires forall k | 0 <= k < 2 * n :: accounts[k] in l
    requires Limits(l, supply, n, accounts, E, j)
    ensures IsGreatest(l, supply, n, accounts, request, E)
  {
    forall e: u64 | Feasible(l, supply, n, accounts, e) ensures e <= E {
      CancelFactor(E + 1, e, l[accounts[j]]);
    }
  }

  lemma GreatestIsLimited(l: Ledger, supply: u64, n: nat, accounts: seq<TokenAccount>, request: u64, E: u64) returns (j: nat)
    requires 2 * n <= |accounts|
    requires forall k | 0 <= k < 2 * n :: accounts[k] in l
    requires E < request && IsGreatest(l, supply, n, accounts, request, E)
    ensures Limits(l, supply, n, accounts, E, j)
  {
    assert !Feasible(l, supply, n, accounts, E + 1);
    j :| j < n && (E + 1) * l[accounts[j]] > l[accounts[n + j]] * supply;
    MulMonotone(0, l[accounts[n + j]], 0, supply);
  }

  lemma LimitsMore(l: Ledger, supply: u64, n: nat, accounts: seq<TokenAccount>, E: nat, F: nat, j: nat)
    requires 2 * n <= |accounts|
    requires forall k | 0 <= k < 2 * n :: accounts[k] in l
    requires E <= F && Limits(l, supply, n, accounts, E, j)
    ensures Limits(l, supply, n, accounts, F, j)
  {
    MulMonotone(E + 1, F + 1, l[accounts[j]], l[accounts[j]]);
  }

  /** An effective amount below the request is the quotient of some vault that holds anything. */
  lemma LowestQuotient(l: Ledger, supply: u64, n: nat, accounts: seq<TokenAccount>, E: u64) returns (k: nat)
    requires 2 * n <= |accounts| && QuoteFrom(l, supply, n, accounts, 0, MAX_U64) == Ok(E) && E < MAX_U64
    ensures forall k | 0 <= k < 2 * n :: accounts[k] in l
    ensures k < n && l[accounts[k]] > 0 && E == Affordable(l[accounts[n + k]], l[accounts[k]], supply)
  {
    hide QuoteFrom;
    QuoteIsMinimum(l, supply, n, accounts, 0, MAX_U64);
    k :| k < n && E == Affordable(l[accounts[n + k]], l[accounts[k]], supply);
  }

  /** The effective amount is the greatest affordable one that was asked for if and only if no cut is harmful. */
  lemma EffectiveIsGreatestIff(l: Ledger, supply: u64, n: nat, accounts: seq<TokenAccount>, request: u64, E: u64)
    requires 2 * n <= |accounts| && QuoteFrom(l, supply, n, accounts, 0, MAX_U64).Ok?
    requires E == Min(request, QuoteFrom(l, supply, n, accounts, 0, MAX_U64).value)
    ensures forall k | 0 <= k < 2 * n :: accounts[k] in l
    ensures IsGreatest(l, supply, n, accounts, request, E) <==> CutHarmless(l, supply, n, accounts, request)
  {
    hide QuoteFrom, Limits, IsGreatest, Feasible, Affordable;
    QuoteIsMinimum(l, supply, n, accounts, 0, MAX_U64);
    assert E <= request;
    if E == request {
      GreatestAtRequest(l, supply, n, accounts, request);
    } else if CutHarmless(l, supply, n, accounts, request) {
      var k := LowestQuotient(l, supply, n, accounts, E);
      var j: nat :| Limits(l, supply, n, accounts, E, j);
      LimitedIsGreatest(l, supply, n, accounts, request, E, j);
    } else if IsGreatest(l, supply, n, accounts, request, E) {
      var j := GreatestIsLimited(l, supply, n, accounts, request, E);
      forall k: nat | k < n && l[accounts[k]] > 0
        ensures Limits(l, supply, n, accounts, Affordable(l[accounts[n + k]], l[accounts[k]], supply), j)
      {
        LimitsMore(l, supply, n, accounts, E, Affordable(l[accounts[n + k]], l[accounts[k]], supply), j);
      }
    }
  }

  lemma GreatestAtRequest(l: Ledger, supply: u64, n: nat, accounts: seq<TokenAccount>, request: u64)
    requires 2 * n <= |accounts|
    requires forall k | 0 <= k < 2 * n :: accounts[k] in l
    ensures IsGreatest(l, supply, n, accounts, request, request)
  {
  }

  lemma UncutBinds(source: u64, vault: u64, supply: u64, E: u64)
    requires E == Affordable(source, vault, supply) && vault > 0
    requires source * supply < TWO_64 * vault
    ensures source * supply < (E + 1) * vault
  {
    AffordableIsAfforded(source, vault, supply, E);
    FloorBounds(source * supply, vault);
  }

  /** In particular nothing is lost when no quotient exceeds 64 bits. */
  lemma UncutIsHarmless(l: Ledger, supply: u64, n: nat, accounts: seq<TokenAccount>, request: u64)
    requires 2 * n <= |accounts|
    requires forall k | 0 <= k < 2 * n :: accounts[k] in l
    requires Uncut(l, supply, n, accounts)
    ensures CutHarmless(l, supply, n, accounts, request)
  {
    hide Affordable;
    forall k: nat | k < n && l[accounts[k]] > 0
      ensures Limits(l, supply, n, accounts, Affordable(l[accounts[n + k]], l[accounts[k]], supply), k)
    {
      UncutBinds(l[accounts[n + k]], l[accounts[k]], supply, Affordable(l[accounts[n + k]], l[accounts[k]], supply));
    }
  }

  /** The quotient 2^63 * 2 / 1 is cut to zero. */
  lemma CutToZero(source: u64)
    requires source == 0x8000_0000_0000_0000
    ensures Affordable(source, 1, 2) == 0
  {
    assert source * 2 / 1 == TWO_64;
  }

  /** A harmful cut makes Deposit refuse a request that the source could well pay for. */
  lemma CutCanRefuse(a: Addresses, m: Machine, h: PoolHeader, mint: Pubkey, source: TokenAccount, target: TokenAccount)
    requires OpenHeader(m.data) == Ok(h) && h.status == Unlocked && OpenAssets(m.data, h) == Ok([mint])
    requires Vault(a, mint) in m.tokens.ledger && source in m.tokens.ledger
    requires m.tokens.total == 2 && m.tokens.ledger[Vault(a, mint)] == 1 && m.tokens.ledger[source] == 0x8000_0000_0000_0000
    ensures Deposit(a, m, 1_000_000, [Vault(a, mint), source], target, true) == Err(InvalidArgument)
    ensures Feasible(m.tokens.ledger, 2, 1, [Vault(a, mint), source], 1_000_000)
    ensures !CutHarmless(m.tokens.ledger, 2, 1, [Vault(a, mint), source], 1_000_000)
  {
    hide Affordable, OpenHeader, OpenAssets, MintTo, MintFee, EntryFee;
    CutToZero(m.tokens.ledger[source]);
    var l, accounts := m.tokens.ledger, [Vault(a, mint), source];
    assert QuoteFrom(l, 2, 1, accounts, 1, 0) == Ok(0);
    assert QuoteFrom(l, 2, 1, accounts, 0, MAX_U64) == Ok(0);
    assert Share(0, 1, 2) == 0;
    assert BuyInFrom(a, l, l, 2, 0, [mint], accounts, 1, true) == Ok((l, true));
    assert BuyIn(a, h, [mint], m.tokens, 1_000_000, accounts, target) == Err(InvalidArgument);
    assert l[accounts[1]] as int * 2 >= 1_000_000;
  }

  // ----- Moving tokens of one mint -----

  predicate Distinct(assets: seq<Pubkey>) {
    forall i, j | 0 <= i < j < |assets| :: assets[i] != assets[j]
  }

  /** Among the accounts of one mint, `amount` went from one account to another and nothing else changed. */
  ghost predicate Moved(l: Ledger, l': Ledger, mint: Pubkey, from: TokenAccount, to: TokenAccount, amount: nat) {
    forall x | x in l && x in l' && x.mint == mint ::
      l'[x] == l[x] - (if x == from then amount else 0) + (if x == to then amount else 0)
  }

  ghost predicate Untouched(l: Ledger, l': Ledger, mint: Pubkey) {
    forall x | x in l && x in l' && x.mint == mint :: l'[x] == l[x]
  }

  lemma TransferMoves(l: Ledger, from: TokenAccount, to: TokenAccount, amount: u64)
    requires Transfer(l, from, to, amount).Ok?
    ensures var l' := Transfer(l, from, to, amount).value;
            && l'.Keys == l.Keys && from in l && to in l && from.mint == to.mint
            && Moved(l, l', from.mint, from, to, amount)
            && (forall mint | mint != from.mint :: Untouched(l, l', mint))
  {
  }

  lemma MovedThenUntouched(l: Ledger, l1: Ledger, l2: Ledger, mint: Pubkey, from: TokenAccount, to: TokenAccount, amount: nat)
    requires l1.Keys == l.Keys && l2.Keys == l.Keys
    requires (Moved(l, l1, mint, from, to, amount) && Untouched(l1, l2, mint)) || (Untouched(l, l1, mint) && Moved(l1, l2, mint, from, to, amount))
    ensures Moved(l, l2, mint, from, to, amount)
  {
  }

  lemma UntouchedTwice(l: Ledger, l1: Ledger, l2: Ledger, mint: Pubkey)
    requires l1.Keys == l.Keys && l2.Keys == l.Keys
    requires Untouched(l, l1, mint) && Untouched(l1, l2, mint)
    ensures Untouched(l, l2, mint)
  {
  }

  lemma NothingMoves(l: Ledger, from: TokenAccount, to: TokenAccount)
    ensures forall mint :: Moved(l, l, mint, from, to, 0) && Untouched(l, l, mint)
  {
  }

  /** From position i on, the assets' vaults received (or paid) these amounts and no other mint was touched. */
  ghost predicate AllMoved(l: Ledger, l': Ledger, assets: seq<Pubkey>, from: seq<TokenAccount>, to: seq<TokenAccount>,
                           amounts: seq<nat>, i: nat)
    requires |assets| <= |from| && |assets| <= |to| && |assets| <= |amounts|
  {
    && l'.Keys == l.Keys
    && (forall k | i <= k < |assets| :: Moved(l, l', assets[k], from[k], to[k], amounts[k]))
    && (forall mint | (forall k | i <= k < |assets| :: assets[k] != mint) :: Untouched(l, l', mint))
  }

  /** One asset moves, then the later ones do. */
  lemma AllMovedStep(l: Ledger, l1: Ledger, l2: Ledger, assets: seq<Pubkey>, from: seq<TokenAccount>, to: seq<TokenAccount>,
                     amounts: seq<nat>, i: nat)
    requires i < |assets| && |assets| <= |from| && |assets| <= |to| && |assets| <= |amounts| && Distinct(assets)
    requires l1.Keys == l.Keys
    requires Moved(l, l1, assets[i], from[i], to[i], amounts[i])
    requires forall mint | mint != assets[i] :: Untouched(l, l1, mint)
    requires AllMoved(l1, l2, assets, from, to, amounts, i + 1)
    ensures AllMoved(l, l2, assets, from, to, amounts, i)
  {
    hide Moved, Untouched;
    assert Untouched(l1, l2, assets[i]);
    MovedThenUntouched(l, l1, l2, assets[i], from[i], to[i], amounts[i]);
    forall k | i < k < |assets| ensures Moved(l, l2, assets[k], from[k], to[k], amounts[k]) {
      assert Untouched(l, l1, assets[k]);
      MovedThenUntouched(l, l1, l2, assets[k], from[k], to[k], amounts[k]);
    }
    forall mint | (forall k | i <= k < |assets| :: assets[k] != mint) ensures Untouched(l, l2, mint) {
      assert mint != assets[i];
      UntouchedTwice(l, l1, l2, mint);
    }
  }

  /** The n amounts that `tokens` out of `supply` stand for, one per vault. */
  ghost function Amounts(l: Ledger, supply: u64, tokens: u64, n: nat, accounts: seq<TokenAccount>): (r: seq<nat>)
    requires n <= |accounts| && supply > 0
    requires forall k | 0 <= k < n :: accounts[k] in l
    ensures |r| == n
    ensures forall k | 0 <= k < n :: r[k] == Share(tokens, l[accounts[k]], supply)
  {
    seq(n, k requires 0 <= k < n => Share(tokens, l[accounts[k]], supply))
  }

  /** The accounts passed are the pool's own vaults, in the order of the assets. */
  ghost predicate AreVaults(a: Addresses, assets: seq<Pubkey>, accounts: seq<TokenAccount>, i: nat)
    requires |assets| <= |accounts|
  {
    forall k | i <= k < |assets| :: accounts[k] == Vault(a, assets[k])
  }

  /** The buy-in loop, asset by asset: the share of each vault moves from its source into it. */
  lemma {:induction false} BuyInMoves(a: Addresses, before: Ledger, l: Ledger, supply: u64, tokens: u64, assets: seq<Pubkey>,
                   accounts: seq<TokenAccount>, i: nat, allZero: bool)
    requires i <= |assets| && 2 * |assets| <= |accounts| && Distinct(assets) && supply > 0
    requires forall k | 0 <= k < |assets| :: accounts[k] in before
    requires forall k | 0 <= k < |assets| :: Share(tokens, before[accounts[k]], supply) < TWO_64
    requires BuyInFrom(a, before, l, supply, tokens, assets, accounts, i, allZero).Ok?
    ensures var n, l' := |assets|, BuyInFrom(a, before, l, supply, tokens, assets, accounts, i, allZero).value.0;
            && AreVaults(a, assets, accounts, i)
            && AllMoved(l, l', assets, accounts[n..], accounts, Amounts(before, supply, tokens, n, accounts), i)
    decreases |assets| - i
  {
    hide Share, Transfer, Moved, Untouched;
    var n := |assets|;
    if i < n {
      var amount := Share(tokens, before[accounts[i]], supply);
      NoWrap(amount);
      var l1 := if amount == 0 then l else UserTransfer(a, l, accounts[n + i], accounts[i], amount).value;
      if amount > 0 {
        TransferMoves(l, accounts[n + i], accounts[i], amount);
      } else {
        NothingMoves(l, accounts[n + i], accounts[i]);
      }
      BuyInMoves(a, before, l1, supply, tokens, assets, accounts, i + 1, allZero && amount == 0);
      var l' := BuyInFrom(a, before, l, supply, tokens, assets, accounts, i, allZero).value.0;
      AllMovedStep(l, l1, l', assets, accounts[n..], accounts, Amounts(before, supply, tokens, n, accounts), i);
    } else {
      NothingMoves(l, Vault(a, a.poolMint), Vault(a, a.poolMint));
    }
  }

  lemma {:induction false} PayOutVaults(a: Addresses, l: Ledger, supply: u64, tokens: u64, assets: seq<Pubkey>,
                    accounts: seq<TokenAccount>, i: nat)
    requires i <= |assets| && 2 * |assets| <= |accounts|
    requires PayOutFrom(a, l, supply, tokens, assets, accounts, i).Ok?
    ensures AreVaults(a, assets, accounts, i)
    ensures forall k | i <= k < |assets| :: accounts[k] in l
    ensures i < |assets| ==> supply > 0
    decreases |assets| - i
  {
    hide Share, Transfer;
    if i < |assets| {
      var amount := Share(tokens, l[accounts[i]], supply);
      var l1 := if amount == 0 then l else Transfer(l, accounts[i], accounts[|assets| + i], amount).value;
      if amount > 0 {
        TransferMoves(l, accounts[i], accounts[|assets| + i], amount);
      }
      PayOutVaults(a, l1, supply, tokens, assets, accounts, i + 1);
    }
  }

  /** The pay-out loop, asset by asset: the share of each vault moves out of it to its target. `amounts` are
      computed from the balances `before` the loop: with distinct assets each vault still has its starting
      balance when its turn comes. */
  lemma {:induction false} PayOutMoves(a: Addresses, before: Ledger, l: Ledger, supply: u64, tokens: u64, assets: seq<Pubkey>,
                    accounts: seq<TokenAccount>, i: nat)
    requires i <= |assets| && 2 * |assets| <= |accounts| && Distinct(assets) && supply > 0
    requires PayOutFrom(a, l, supply, tokens, assets, accounts, i).Ok?
    requires AreVaults(a, assets, accounts, 0)
    requires l.Keys == before.Keys && forall k | 0 <= k < |assets| :: accounts[k] in before
    requires forall k | i <= k < |assets| :: l[accounts[k]] == before[accounts[k]]
    ensures var n, l' := |assets|, PayOutFrom(a, l, supply, tokens, assets, accounts, i).value;
            AllMoved(l, l', assets, accounts, accounts[n..], Amounts(before, supply, tokens, n, accounts), i)
    decreases |assets| - i
  {
    hide Share, Transfer, Moved;
    var n := |assets|;
    if i < n {
      var amount := Share(tokens, l[accounts[i]], supply);
      var l1 := if amount == 0 then l else Transfer(l, accounts[i], accounts[n + i], amount).value;
      if amount > 0 {
        TransferMoves(l, accounts[i], accounts[n + i], amount);
      } else {
        NothingMoves(l, accounts[i], accounts[n + i]);
      }
      forall k | i < k < n ensures l1[accounts[k]] == l[accounts[k]] {
        assert Untouched(l, l1, assets[k]);
      }
      PayOutMoves(a, before, l1, supply, tokens, assets, accounts, i + 1);
      var l' := PayOutFrom(a, l, supply, tokens, assets, accounts, i).value;
      AllMovedStep(l, l1, l', assets, accounts, accounts[n..], Amounts(before, supply, tokens, n, accounts), i);
    }
  }

  // ----- Deposit -----

  /** The pool tokens a buy-in really buys. */
  function Effective(s: Supply, request: u64, n: nat, accounts: seq<TokenAccount>): Result<u64>
    requires 2 * n <= |accounts|
  {
    var quote :- QuoteFrom(s.ledger, s.total, n, accounts, 0, MAX_U64);
    Ok(Min(request, quote))
  }

  /** Assets whose loops do not interfere: pairwise different, and none of them the pool token itself. */
  predicate Separate(a: Addresses, assets: seq<Pubkey>) {
    Distinct(assets) && a.poolMint !in assets
  }

  lemma SharesFit(s: Supply, request: u64, n: nat, accounts: seq<TokenAccount>, E: u64)
    requires 2 * n <= |accounts| && s.total > 0 && Effective(s, request, n, accounts) == Ok(E)
    ensures E <= request
    ensures forall k | 0 <= k < 2 * n :: accounts[k] in s.ledger
    ensures forall k | 0 <= k < n :: Share(E, s.ledger[accounts[k]], s.total) < TWO_64
  {
    hide QuoteFrom, Share;
    var l := s.ledger;
    EffectiveIsFeasible(l, s.total, n, accounts, E);
    forall k: nat | k < n ensures Share(E, l[accounts[k]], s.total) < TWO_64 {
      assert Share(E, l[accounts[k]], s.total) <= l[accounts[n + k]];
    }
  }

  /** The buy-in taken apart: the ledger after the transfers, then the mint to the target, then the fee. */
  lemma BuyInStages(a: Addresses, h: PoolHeader, assets: seq<Pubkey>, s: Supply, request: u64, accounts: seq<TokenAccount>,
                    target: TokenAccount) returns (E: u64, l: Ledger, s1: Supply)
    requires 2 * |assets| <= |accounts| && s.total > 0
    requires BuyIn(a, h, assets, s, request, accounts, target).Ok?
    ensures Effective(s, request, |assets|, accounts) == Ok(E)
    ensures forall k | 0 <= k < 2 * |assets| :: accounts[k] in s.ledger
    ensures BuyInFrom(a, s.ledger, s.ledger, s.total, E, assets, accounts, 0, true) == Ok((l, false))
    ensures MintTo(s.(ledger := l), a.poolMint, target, E - EntryFee(h.feeRatio, E)) == Ok(s1)
    ensures BuyIn(a, h, assets, s, request, accounts, target) == MintFee(a, s1, h.signalProvider, EntryFee(h.feeRatio, E))
  {
    hide QuoteFrom, BuyInFrom, MintTo, MintFee, EntryFee;
    E := Effective(s, request, |assets|, accounts).value;
    SharesFit(s, request, |assets|, accounts, E);
    l := BuyInFrom(a, s.ledger, s.ledger, s.total, E, assets, accounts, 0, true).value.0;
    s1 := MintTo(s.(ledger := l), a.poolMint, target, E - EntryFee(h.feeRatio, E)).value;
  }

  /** The four mints of a deposit change pool tokens only. */
  lemma DepositMints(a: Addresses, s: Supply, provider: Pubkey, target: TokenAccount, amount: u64, fee: u64, s1: Supply, s': Supply)
    requires MintTo(s, a.poolMint, target, amount) == Ok(s1) && MintFee(a, s1, provider, fee) == Ok(s')
    ensures s'.total == s.total + amount + fee && s'.ledger.Keys == s.ledger.Keys
    ensures forall x | x in s.ledger && x.mint == a.poolMint ::
              s'.ledger[x] == s.ledger[x] + (if x == target then amount else 0) + FeePart(a, provider, fee, x)
    ensures forall mint | mint != a.poolMint :: Untouched(s.ledger, s'.ledger, mint)
  {
    hide MintFee, FeePart;
    MintFeeIsExact(a, s1, provider, fee);
    FeePartIsZero(a, provider, fee);
  }

  /** Everything a deposit of effective amount E does: each vault receives share(E) from its source; the target
      and the fee receivers get exactly E new pool tokens between them; nothing else moves. */
  lemma BuyInEffect(a: Addresses, h: PoolHeader, assets: seq<Pubkey>, s: Supply, request: u64, accounts: seq<TokenAccount>,
                    target: TokenAccount, E: u64, s': Supply)
    requires 2 * |assets| <= |accounts| && s.total > 0 && Separate(a, assets)
    requires Effective(s, request, |assets|, accounts) == Ok(E)
    requires BuyIn(a, h, assets, s, request, accounts, target) == Ok(s')
    ensures E <= request && s'.total == s.total + E
    ensures AreVaults(a, assets, accounts, 0) && forall k | 0 <= k < |assets| :: accounts[k] in s.ledger
    ensures s'.ledger.Keys == s.ledger.Keys
    ensures var amounts := Amounts(s.ledger, s.total, E, |assets|, accounts);
            forall k | 0 <= k < |assets| :: Moved(s.ledger, s'.ledger, assets[k], accounts[|assets|..][k], accounts[k], amounts[k])
    ensures forall x | x in s.ledger && x.mint == a.poolMint ::
              s'.ledger[x] == s.ledger[x] + (if x == target then E - EntryFee(h.feeRatio, E) else 0)
                              + FeePart(a, h.signalProvider, EntryFee(h.feeRatio, E), x)
    ensures forall mint | mint != a.poolMint && mint !in assets :: Untouched(s.ledger, s'.ledger, mint)
  {
    hide QuoteFrom, BuyInFrom, MintFee, MintTo, EntryFee, Share, BuyIn, Effective, FeePart, Moved;
    var E1, l, s1 := BuyInStages(a, h, assets, s, request, accounts, target);
    SharesFit(s, request, |assets|, accounts, E);
    BuyInMoves(a, s.ledger, s.ledger, s.total, E, assets, accounts, 0, true);
    DepositMints(a, s.(ledger := l), h.signalProvider, target, E - EntryFee(h.feeRatio, E), EntryFee(h.feeRatio, E), s1, s');
    assert Untouched(s.ledger, l, a.poolMint);
    hide Untouched;
    var amounts := Amounts(s.ledger, s.total, E, |assets|, accounts);
    forall k | 0 <= k < |assets|
      ensures Moved(s.ledger, s'.ledger, assets[k], accounts[|assets|..][k], accounts[k], amounts[k])
    {
      MovedThenUntouched(s.ledger, l, s'.ledger, assets[k], accounts[|assets|..][k], accounts[k], amounts[k]);
    }
    forall mint | mint != a.poolMint && mint !in assets ensures Untouched(s.ledger, s'.ledger, mint) {
      assert Untouched(s.ledger, l, mint);
      UntouchedTwice(s.ledger, l, s'.ledger, mint);
    }
  }

  /** The entry fee is the floor of fee_ratio * amount / 65536. */
  lemma EntryFeeIsFloor(feeRatio: u16, amount: u64)
    ensures EntryFee(feeRatio, amount) * 65536 <= feeRatio * amount < (EntryFee(feeRatio, amount) + 1) * 65536
  {
    ScaledDown(feeRatio, amount);
    MulMonotone(0, feeRatio, 0, amount);
    FloorBounds(feeRatio * amount, 65536);
  }

  /** The entry fee rounds to nothing exactly for deposits below 65536 / fee_ratio tokens. */
  lemma NoEntryFeeIff(feeRatio: u16, amount: u64)
    ensures EntryFee(feeRatio, amount) == 0 <==> feeRatio * amount < TWO_16
  {
    ScaledDown(feeRatio, amount);
    MulMonotone(0, feeRatio, 0, amount);
    FloorIff(feeRatio * amount, TWO_16, 1);
  }

  // ----- Create -----

  /** The mints of the vaults passed to Create, one per amount. */
  function VaultMints(amounts: seq<u64>, accounts: seq<TokenAccount>): (r: seq<Pubkey>)
    requires |amounts| <= |accounts|
    ensures |r| == |amounts| && forall k | 0 <= k < |r| :: r[k] == accounts[k].mint
  {
    seq(|amounts|, k requires 0 <= k < |amounts| => accounts[k].mint)
  }

  /** The funding loop, asset by asset: every amount moves from its source into its vault. */
  lemma {:induction false} FundMoves(a: Addresses, l: Ledger, amounts: seq<u64>, accounts: seq<TokenAccount>, i: nat, mints: seq<Pubkey>)
    requires i <= |amounts| && 2 * |amounts| <= |accounts| && Distinct(VaultMints(amounts, accounts))
    requires FundFrom(a, l, amounts, accounts, i, mints).Ok?
    ensures var n, l' := |amounts|, FundFrom(a, l, amounts, accounts, i, mints).value.0;
            && (forall k | i <= k < n && amounts[k] > 0 :: accounts[k] == Vault(a, accounts[k].mint))
            && AllMoved(l, l', VaultMints(amounts, accounts), accounts[n..], accounts, amounts, i)
    decreases |amounts| - i
  {
    hide Transfer, Moved, Untouched;
    var n, assets := |amounts|, VaultMints(amounts, accounts);
    if i < n {
      var l1 := if amounts[i] == 0 then l else UserTransfer(a, l, accounts[n + i], accounts[i], amounts[i]).value;
      var mints1 := if amounts[i] == 0 then mints else mints + [accounts[i].mint];
      if amounts[i] > 0 {
        TransferMoves(l, accounts[n + i], accounts[i], amounts[i]);
      } else {
        NothingMoves(l, accounts[n + i], accounts[i]);
      }
      FundMoves(a, l1, amounts, accounts, i + 1, mints1);
      var l' := FundFrom(a, l, amounts, accounts, i, mints).value.0;
      AllMovedStep(l, l1, l', assets, accounts[n..], accounts, amounts, i);
    } else {
      NothingMoves(l, Vault(a, a.poolMint), Vault(a, a.poolMint));
    }
  }

  /** Creating a pool moves exactly the given amounts into its vaults and mints the first million of pool
      tokens, one whole token at six decimals, to the target alone. */
  lemma CreateEffect(a: Addresses, m: Machine, c: CreateArgs, accounts: seq<TokenAccount>, target: TokenAccount, signed: bool,
                     now: u64, m': Machine)
    requires Create(a, m, c, accounts, target, signed, now) == Ok(m')
    requires |c.amounts| <= |accounts| && Separate(a, VaultMints(c.amounts, accounts))
    ensures var n, l, l' := |c.amounts|, m.tokens.ledger, m'.tokens.ledger;
            && 2 * n <= |accounts| && signed && ONE_WEEK <= c.period
            && l'.Keys == l.Keys && m'.tokens.total == m.tokens.total + FIRST_POOL_TOKENS
            && (forall k | 0 <= k < n && c.amounts[k] > 0 :: accounts[k] == Vault(a, accounts[k].mint))
            && (forall k | 0 <= k < n :: Moved(l, l', VaultMints(c.amounts, accounts)[k], accounts[n..][k], accounts[k], c.amounts[k]))
            && (forall x | x in l && x.mint == a.poolMint :: l'[x] == l[x] + if x == target then FIRST_POOL_TOKENS else 0)
            && (forall mint | mint != a.poolMint && mint !in VaultMints(c.amounts, accounts) :: Untouched(l, l', mint))
  {
    hide FundFrom, UnpackHeader, PackHeader, Image;
    var assets := VaultMints(c.amounts, accounts);
    FundMoves(a, m.tokens.ledger, c.amounts, accounts, 0, []);
    var l := FundFrom(a, m.tokens.ledger, c.amounts, accounts, 0, []).value.0;
    assert Untouched(m.tokens.ledger, l, a.poolMint);
    assert forall x | x in m.tokens.ledger && x.mint != a.poolMint :: m'.tokens.ledger[x] == l[x];
    forall mint | mint != a.poolMint && mint !in assets ensures Untouched(m.tokens.ledger, m'.tokens.ledger, mint) {
      assert Untouched(m.tokens.ledger, l, mint);
    }
  }
}

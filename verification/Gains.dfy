/** When a deposit succeeds, and exactly when several deposits followed by a redemption gain nothing. */
module Gains {
  import opened Wrappers
  import opened Numbers
  import opened Bytes
  import opened Header
  import opened Layout
  import opened Tokens
  import opened Processor
  import opened Shares
  import opened Fees
  import opened Trading
  import opened RoundTrips
  import opened Conservation
  import opened Redeemability
  import opened Waiting

  // ----- When a deposit succeeds -----

  /** The accounts that follow the vaults belong to users. */
  predicate UserOwned(a: Addresses, accounts: seq<TokenAccount>) {
    forall k | 0 <= k < |accounts| :: !(accounts[k].Associated? && accounts[k].owner == a.pool)
  }

  lemma {:induction false} QuoteSucceeds(l: Ledger, supply: u64, n: nat, accounts: seq<TokenAccount>, i: nat, best: u64)
    requires i <= n && 2 * n <= |accounts| && forall k | 0 <= k < 2 * n :: accounts[k] in l
    ensures QuoteFrom(l, supply, n, accounts, i, best).Ok?
    decreases n - i
  {
    hide Affordable;
    if i < n {
      QuoteSucceeds(l, supply, n, accounts, i + 1, Min(Affordable(l[accounts[n + i]], l[accounts[i]], supply), best));
    }
  }

  lemma ProperAccountsExist(a: Addresses, l: Ledger, assets: seq<Pubkey>, accounts: seq<TokenAccount>)
    requires 2 * |assets| <= |accounts| && ProperAccounts(a, l, assets, accounts, 0)
    ensures forall k | 0 <= k < 2 * |assets| :: accounts[k] in l
  {
    forall k | |assets| <= k < 2 * |assets| ensures accounts[k] in l {
      assert accounts[|assets|..][k - |assets|] in l;
    }
  }

  /** With enough in every source the loop of transfers goes through, and reports whether anything moved. */
  lemma {:induction false} BuyInSucceeds(a: Addresses, before: Ledger, l: Ledger, supply: u64, tokens: u64, assets: seq<Pubkey>,
                      accounts: seq<TokenAccount>, i: nat, allZero: bool)
    requires i <= |assets| && 2 * |assets| <= |accounts| && Distinct(assets) && supply > 0
    requires forall k | 0 <= k < |assets| :: accounts[k] in before
    requires ProperAccounts(a, l, assets, accounts, i) && UserOwned(a, accounts[|assets|..])
    requires forall k | i <= k < |assets| :: Share(tokens, before[accounts[k]], supply) <= l[accounts[|assets|..][k]]
    ensures BuyInFrom(a, before, l, supply, tokens, assets, accounts, i, allZero).Ok?
    ensures BuyInFrom(a, before, l, supply, tokens, assets, accounts, i, allZero).value.1
       <==> allZero && forall k | i <= k < |assets| :: Share(tokens, before[accounts[k]], supply) == 0
    decreases |assets| - i
  {
    hide Share;
    if i < |assets| {
      var vault, source := accounts[i], accounts[|assets|..][i];
      var amount := Share(tokens, before[vault], supply);
      NoWrap(amount);
      var l1 := l;
      if amount > 0 {
        l1 := Transfer(l, source, vault, amount).value;
        TransferMoves(l, source, vault, amount);
        forall k | i < k < |assets| ensures
            l1[accounts[k]] == l[accounts[k]] && l1[accounts[|assets|..][k]] == l[accounts[|assets|..][k]] {
          assert Untouched(l, l1, assets[k]);
        }
      }
      BuyInSucceeds(a, before, l1, supply, tokens, assets, accounts, i + 1, allZero && amount == 0);
    }
  }

  /** The four mints of a deposit on a backed supply fail only when the supply overflows. */
  lemma MintsSucceedIff(a: Addresses, s: Supply, provider: Pubkey, target: TokenAccount, E: u64, fee: u64)
    requires Backed(s, a.poolMint) && target in s.ledger && target.mint == a.poolMint && fee <= E
    requires HasReceivers(a, s.ledger, provider)
    ensures (&& MintTo(s, a.poolMint, target, E - fee).Ok?
             && MintFee(a, MintTo(s, a.poolMint, target, E - fee).value, provider, fee).Ok?) <==> s.total + E < TWO_64
  {
    hide MintTo, MintFee, Total;
    MintToSucceedsIff(s, a.poolMint, target, E - fee);
    if MintTo(s, a.poolMint, target, E - fee).Ok? {
      var s1 := MintTo(s, a.poolMint, target, E - fee).value;
      MintToConserved(a, s, target, E - fee);
      MintToKeepsKeys(s, a.poolMint, target, E - fee);
      MintFeeSucceedsIff(a, s1, provider, fee);
    }
  }

  lemma MintToKeepsKeys(s: Supply, mint: Pubkey, to: TokenAccount, amount: u64)
    requires MintTo(s, mint, to, amount).Ok?
    ensures MintTo(s, mint, to, amount).value.ledger.Keys == s.ledger.Keys
  {
  }

  /** With proper accounts, buying in succeeds exactly when some vault is owed something and the new tokens keep
      the supply in 64 bits. */
  lemma BuyInSucceedsIff(a: Addresses, h: PoolHeader, assets: seq<Pubkey>, s: Supply, request: u64, accounts: seq<TokenAccount>,
                         target: TokenAccount, E: u64)
    requires 2 * |assets| <= |accounts| && s.total > 0 && Separate(a, assets) && Backed(s, a.poolMint)
    requires ProperAccounts(a, s.ledger, assets, accounts, 0) && UserOwned(a, accounts[|assets|..])
    requires target in s.ledger && target.mint == a.poolMint && HasReceivers(a, s.ledger, h.signalProvider)
    requires Effective(s, request, |assets|, accounts) == Ok(E)
    ensures forall k | 0 <= k < |assets| :: accounts[k] in s.ledger
    ensures BuyIn(a, h, assets, s, request, accounts, target).Ok?
       <==> s.total + E < TWO_64 && exists k :: 0 <= k < |assets| && Share(E, s.ledger[accounts[k]], s.total) > 0
  {
    hide QuoteFrom, BuyInFrom, MintTo, MintFee, EntryFee, Share, Total, ProperAccounts;
    var n := |assets|;
    ProperAccountsExist(a, s.ledger, assets, accounts);
    EffectiveIsFeasible(s.ledger, s.total, n, accounts, E);
    forall k | 0 <= k < n ensures Share(E, s.ledger[accounts[k]], s.total) <= s.ledger[accounts[n..][k]] {
      assert accounts[n..][k] == accounts[n + k];
    }
    SharesFit(s, request, n, accounts, E);
    BuyInSucceeds(a, s.ledger, s.ledger, s.total, E, assets, accounts, 0, true);
    BuyInMoves(a, s.ledger, s.ledger, s.total, E, assets, accounts, 0, true);
    BuyInSameTotals(a, s.ledger, s.ledger, s.total, E, assets, accounts, 0, true);
    var (l, allZero) := BuyInFrom(a, s.ledger, s.ledger, s.total, E, assets, accounts, 0, true).value;
    MintsSucceedIff(a, s.(ledger := l), h.signalProvider, target, E, EntryFee(h.feeRatio, E));
  }

  /** On the machine: with proper accounts a deposit succeeds if and only if its owner signed, the pool is unlocked, some
      vault is owed something, and the new tokens keep the supply in 64 bits. */
  lemma DepositSucceedsIff(a: Addresses, m: Machine, h: PoolHeader, assets: seq<Pubkey>, request: u64, accounts: seq<TokenAccount>,
                           target: TokenAccount, signed: bool, E: u64)
    requires Decodes(m.data, h, assets) && h.status != Uninitialized && Separate(a, assets)
    requires 2 * |assets| <= |accounts| && m.tokens.total > 0 && Backed(m.tokens, a.poolMint)
    requires ProperAccounts(a, m.tokens.ledger, assets, accounts, 0) && UserOwned(a, accounts[|assets|..])
    requires target in m.tokens.ledger && target.mint == a.poolMint && HasReceivers(a, m.tokens.ledger, h.signalProvider)
    requires Effective(m.tokens, request, |assets|, accounts) == Ok(E)
    ensures forall k | 0 <= k < |assets| :: accounts[k] in m.tokens.ledger
    ensures Deposit(a, m, request, accounts, target, signed).Ok?
       <==> && signed && h.status == Unlocked && m.tokens.total + E < TWO_64
            && exists k :: 0 <= k < |assets| && Share(E, m.tokens.ledger[accounts[k]], m.tokens.total) > 0
    ensures !signed ==> Deposit(a, m, request, accounts, target, signed) == Err(InvalidArgument)
    ensures signed && h.status != Unlocked ==> Deposit(a, m, request, accounts, target, signed) == Err(LockedOperation)
  {
    hide BuyIn, Effective, Share, Separate, Backed, ProperAccounts, UserOwned, HasReceivers, OpenHeader, OpenAssets, Decodes;
    OpensIff(m.data, h, assets);
    BuyInSucceedsIff(a, h, assets, m.tokens, request, accounts, target, E);
  }

  // ----- When nothing is gained -----

  /** When redeeming t of S + T tokens leaves a vault of p1 with at least p. */
  lemma NoGainIff(p: nat, S: nat, p1: nat, T: nat, t: nat)
    requires S > 0 && p <= p1
    ensures p1 - Share(t, p1, S + T) >= p <==> t * p1 < (p1 - p + 1) * (S + T)
    ensures p1 - Share(T, p1, S + T) >= p <==> p * (S + T) < p1 * S + (S + T)
  {
    var S1 := S + T;
    ShareIff(t, p1, S1, p1 - p + 1);
    ShareIff(T, p1, S1, p1 - p + 1);
    GapIff(p, S, p1, T, S1);
  }

  lemma GapIff(p: nat, S: nat, p1: nat, T: nat, S1: nat)
    requires S1 == S + T && p <= p1
    ensures T * p1 < (p1 - p + 1) * S1 <==> p * S1 < p1 * S + S1
  {
    assert (p1 - p + 1) * S1 == p1 * S1 - p * S1 + S1;
    assert p1 * S1 == p1 * S + T * p1;
  }

  /** Any number of deposits and then a redemption: a vault ends with at least what it held before the deposits if
      and only if, for the t redeemed tokens, t p1 < (p1 - p + 1) S1. When everything the deposits minted is
      redeemed, this says that the first S tokens still own more than p - 1 of the vault: p - 1 < p1 S / S1. All of
      these numbers are known before the redemption. */
  lemma SeveralDepositsGainNothingIff(a: Addresses, m: Machine, calls: seq<DepositCall>, h: PoolHeader, assets: seq<Pubkey>, k: nat,
                                      m1: Machine, last: RedeemCall, m2: Machine)
    requires OpenHeader(m.data) == Ok(h) && OpenAssets(m.data, h) == Ok(assets) && Separate(a, assets) && k < |assets|
    requires m.tokens.total > 0 && Vault(a, assets[k]) in m.tokens.ledger && PaysOut(a, last, |assets|)
    requires DepositAll(a, m, calls) == Ok(m1)
    requires Redeem(a, m1, last.tokens, last.accounts, last.source, true, last.now) == Ok(m2)
    ensures var v, S, S1 := Vault(a, assets[k]), m.tokens.total, m1.tokens.total;
            && v in m1.tokens.ledger && v in m2.tokens.ledger && S <= S1
            && var p, p1 := m.tokens.ledger[v], m1.tokens.ledger[v];
            && p <= p1
            && (m2.tokens.ledger[v] >= p <==> last.tokens * p1 < (p1 - p + 1) * S1)
            && (last.tokens == S1 - S ==> (m2.tokens.ledger[v] >= p <==> p * S1 < p1 * S + S1))
  {
    hide Share, Redeem, Deposit, GrownAfter, Separate, OpenHeader, OpenAssets, ResetData, PaysOut;
    var v := Vault(a, assets[k]);
    DepositRun(a, m, calls, h, assets, k, m1);
    RedeemPaysShare(a, m1, last, h, assets, k, m2);
    NoGainIff(m.tokens.ledger[v], m.tokens.total, m1.tokens.ledger[v], m1.tokens.total - m.tokens.total, last.tokens);
  }

  // ----- A gain -----

  /** An open pool without fee on two assets, with 3 units of the first and as many of the second as pool tokens,
      and a user with 10 units of the first. */
  ghost predicate Sample(a: Addresses, m: Machine, h: PoolHeader, assets: seq<Pubkey>, accounts: seq<TokenAccount>, target: TokenAccount,
                         supply: u64, second: u64)
  {
    && OpenHeader(m.data) == Ok(h) && h.status == Unlocked && h.feeRatio == 0
    && OpenAssets(m.data, h) == Ok(assets) && |assets| == 2 && Separate(a, assets)
    && m.tokens.total == supply && Backed(m.tokens, a.poolMint)
    && |accounts| == 4 && ProperAccounts(a, m.tokens.ledger, assets, accounts, 0) && UserOwned(a, accounts[2..])
    && target in m.tokens.ledger && target.mint == a.poolMint && !(target.Associated? && target.owner == a.pool)
    && HasReceivers(a, m.tokens.ledger, h.signalProvider)
    && m.tokens.ledger[accounts[0]] == 3 && m.tokens.ledger[accounts[1]] == supply
    && accounts[2] in m.tokens.ledger && accounts[3] in m.tokens.ledger
    && m.tokens.ledger[accounts[2]] == 10 && m.tokens.ledger[accounts[3]] == second
  }

  lemma SampleAffordable(supply: u64, second: u64, request: u64)
    requires 0 < supply < TWO_32 && 3 * request <= 10 * supply
    ensures Affordable(10, 3, supply) >= request && Affordable(second, supply, supply) == second
  {
    FloorIff(10 * supply, 3, request);
    FloorUnique(second * supply, supply, second) by { assert (second + 1) * supply == second * supply + supply; }
  }

  lemma SampleEffective(l: Ledger, supply: u64, accounts: seq<TokenAccount>, second: u64, request: u64)
    requires |accounts| == 4 && forall k | 0 <= k < 4 :: accounts[k] in l
    requires l[accounts[0]] == 3 && l[accounts[1]] == supply && l[accounts[2]] == 10 && l[accounts[3]] == second
    requires 0 < supply < TWO_32 && request <= second && 3 * request <= 10 * supply
    ensures Effective(Supply(supply, l), request, 2, accounts) == Ok(request)
  {
    hide QuoteFrom, Affordable;
    SampleAffordable(supply, second, request);
    QuoteSucceeds(l, supply, 2, accounts, 0, MAX_U64);
    QuoteIsMinimum(l, supply, 2, accounts, 0, MAX_U64);
  }

  /** Such a deposit asks for nothing of the first asset and for its own amount of the second. */
  lemma SampleShares(supply: u64, request: u64)
    requires 0 < request && 3 * request < supply
    ensures Share(request, 3, supply) == 0 && Share(request, supply, supply) == request
  {
    FloorUnique(request * 3, supply, 0);
    FloorUnique(request * supply, supply, request) by { assert (request + 1) * supply == request * supply + supply; }
  }

  lemma NoFeeAtZero(amount: u64)
    ensures EntryFee(0, amount) == 0
  {
    NoEntryFeeIff(0, amount);
  }

  lemma SampleMoves(a: Addresses, m: Machine, h: PoolHeader, assets: seq<Pubkey>, accounts: seq<TokenAccount>, target: TokenAccount,
                    supply: u64, second: u64, request: u64, s1: Supply)
    requires Sample(a, m, h, assets, accounts, target, supply, second)
    requires 0 < request <= second && 3 * request < supply
    requires Effective(m.tokens, request, 2, accounts) == Ok(request)
    requires BuyIn(a, h, assets, m.tokens, request, accounts, target) == Ok(s1)
    ensures Sample(a, m.(tokens := s1), h, assets, accounts, target, supply + request, second - request)
    ensures target in m.tokens.ledger && s1.ledger[target] == m.tokens.ledger[target] + request
  {
    hide BuyIn, Effective, EntryFee, Share, Total, FeePart, OpenHeader, OpenAssets;
    var l, l1 := m.tokens.ledger, s1.ledger;
    SampleShares(supply, request);
    NoFeeAtZero(request);
    FeePartIsZero(a, h.signalProvider, 0);
    BuyInEffect(a, h, assets, m.tokens, request, accounts, target, request, s1);
    BuyInConserved(a, h, assets, m.tokens, request, accounts, target);
    assert Moved(l, l1, assets[0], accounts[2..][0], accounts[0], 0);
    assert Moved(l, l1, assets[1], accounts[2..][1], accounts[1], request);
    assert accounts[2..][0] == accounts[2] && accounts[2..][1] == accounts[3];
  }

  /** A deposit so small that nothing of the first asset is asked for. */
  lemma SampleDeposit(a: Addresses, m: Machine, h: PoolHeader, assets: seq<Pubkey>, accounts: seq<TokenAccount>, target: TokenAccount,
                      supply: u64, second: u64, request: u64) returns (m1: Machine)
    requires Sample(a, m, h, assets, accounts, target, supply, second)
    requires supply < TWO_32 && 0 < request <= second && 3 * request < supply
    ensures Deposit(a, m, request, accounts, target, true) == Ok(m1)
    ensures Sample(a, m1, h, assets, accounts, target, supply + request, second - request)
    ensures target in m.tokens.ledger && m1.tokens.ledger[target] == m.tokens.ledger[target] + request
  {
    hide BuyIn, Effective, Share, Total, Deposit, OpenHeader, OpenAssets, ProperAccounts, UserOwned, Separate, HasReceivers;
    var l := m.tokens.ledger;
    ProperAccountsExist(a, l, assets, accounts);
    SampleEffective(l, supply, accounts, second, request);
    assert m.tokens == Supply(supply, l);
    SampleShares(supply, request);
    OpensIff(m.data, h, assets);
    DepositSucceedsIff(a, m, h, assets, request, accounts, target, true, request);
    assert Share(request, l[accounts[1]], supply) > 0;
    m1 := Deposit(a, m, request, accounts, target, true).value;
    DepositIsBuyIn(a, m, DepositCall(request, accounts, target), h, assets, m1);
    SampleMoves(a, m, h, assets, accounts, target, supply, second, request, m1.tokens);
    assert m1 == m.(tokens := m1.tokens);
  }

  lemma PutKeepsTotal(l: Ledger, x: TokenAccount, v: u64, mint: Pubkey)
    requires x.mint != mint
    ensures Total(l[x := v], mint) == Total(l, mint)
  {
    assert OfMint(l[x := v], mint) == OfMint(l, mint);
  }

  /** Such pools exist, for any two assets. */
  lemma SampleExists(a: Addresses, h: PoolHeader, x: Pubkey, y: Pubkey) returns (m: Machine, accounts: seq<TokenAccount>, target: TokenAccount)
    requires x != y && x != NO_KEY && y != NO_KEY && x != a.poolMint && y != a.poolMint
    requires h.status == Unlocked && h.feeRatio == 0 && h.numberOfMarkets == 0
    ensures Sample(a, m, h, [x, y], accounts, target, 1_000_000, 2_000_000)
  {
    hide Total, PackHeader, UnpackHeader, OpenHeader, OpenAssets, Image;
    var s := SomeSupply(a, h.signalProvider, 1_000_000);
    target := Plain(a.pool, a.poolMint);
    accounts := [Vault(a, x), Vault(a, y), Plain(a.pool, x), Plain(a.pool, y)];
    OpenedKeepsTotal(s.ledger, target, a.poolMint);
    var l := Opened(s.ledger, target);
    PutKeepsTotal(l, accounts[0], 3, a.poolMint);
    var l0 := l[accounts[0] := 3];
    PutKeepsTotal(l0, accounts[1], 1_000_000, a.poolMint);
    var l1 := l0[accounts[1] := 1_000_000];
    PutKeepsTotal(l1, accounts[2], 10, a.poolMint);
    var l2 := l1[accounts[2] := 10];
    PutKeepsTotal(l2, accounts[3], 2_000_000, a.poolMint);
    var l3 := l2[accounts[3] := 2_000_000];
    m := Machine(Image(h, [], [x, y], []), Supply(1_000_000, l3));
    SampleBytes(h, x, y);
  }

  lemma SampleBytes(h: PoolHeader, x: Pubkey, y: Pubkey)
    requires x != NO_KEY && y != NO_KEY && h.status == Unlocked && h.numberOfMarkets == 0
    ensures var data := Image(h, [], [x, y], []);
            OpenHeader(data) == Ok(h) && OpenAssets(data, h) == Ok([x, y])
  {
    hide PackHeader, UnpackHeader;
    ImageReadsBack(h, [], [x, y], []);
    hide Image;
    assert [x, y][1..] == [y] && [y][1..] == [];
    assert Initialized([y]) == [y] + Initialized([]) == [y];
    assert Initialized([x, y]) == [x] + Initialized([y]) == [x, y];
    assert AssetsIn([]) == [];
    assert [x, y] + [] == [x, y];
  }

  /** A gain: two deposits that pay nothing of the first asset, and a redemption of what they bought that is paid
      one unit of it. */
  lemma TwoDepositsCanGain(a: Addresses, m: Machine, h: PoolHeader, assets: seq<Pubkey>, accounts: seq<TokenAccount>,
                           target: TokenAccount, now: u64) returns (m1: Machine, m2: Machine)
    requires Sample(a, m, h, assets, accounts, target, 1_000_000, 2_000_000) && !FeesOverdue(h, now)
    ensures DepositAll(a, m, [DepositCall(333_333, accounts, target), DepositCall(444_444, accounts, target)]) == Ok(m1)
    ensures m1.tokens.total == m.tokens.total + 777_777
    ensures Redeem(a, m1, 777_777, accounts, target, true, now) == Ok(m2)
    ensures accounts[0] in m.tokens.ledger && accounts[0] in m1.tokens.ledger && accounts[0] in m2.tokens.ledger
    ensures m.tokens.ledger[accounts[0]] == 3 && m1.tokens.ledger[accounts[0]] == 3 && m2.tokens.ledger[accounts[0]] == 2
  {
    hide Deposit, CashOut, Share, Total, OpenHeader, OpenAssets, ProperAccounts, Separate, HasReceivers, FeesOverdue, ResetData;
    var first, second := DepositCall(333_333, accounts, target), DepositCall(444_444, accounts, target);
    var mid := SampleDeposit(a, m, h, assets, accounts, target, 1_000_000, 2_000_000, 333_333);
    m1 := SampleDeposit(a, mid, h, assets, accounts, target, 1_333_333, 1_666_667, 444_444);
    SampleRun(a, m, first, mid, second, m1);
    CashOutSucceeds(a, assets, m1.tokens, 777_777, accounts, target);
    m2 := Redeem(a, m1, 777_777, accounts, target, true, now).value;
    PaysUsers(a, accounts, RedeemCall(777_777, accounts, target, now));
    RedeemPaysShare(a, m1, RedeemCall(777_777, accounts, target, now), h, assets, 0, m2);
    FirstVault(a, m.tokens.ledger, assets, accounts);
    FirstVault(a, m1.tokens.ledger, assets, accounts);
    FloorUnique(777_777 * 3, 1_777_777, 1);
    assert Share(777_777, 3, 1_777_777) == 777_777 * 3 / 1_777_777 == 1 by {
      ShareIsFloor(777_777, 3, 1_777_777);
    }
  }

  lemma ShareIsFloor(t: nat, p: nat, S: nat)
    requires S > 0
    ensures Share(t, p, S) == t * p / S
  {
  }

  lemma SampleRun(a: Addresses, m: Machine, first: DepositCall, mid: Machine, second: DepositCall, m1: Machine)
    requires Deposit(a, m, first.request, first.accounts, first.target, true) == Ok(mid)
    requires Deposit(a, mid, second.request, second.accounts, second.target, true) == Ok(m1)
    ensures DepositAll(a, m, [first, second]) == Ok(m1)
  {
    hide Deposit;
    assert [first, second][..1] == [first] && [first][..0] == [];
    assert DepositAll(a, m, []) == Ok(m);
    assert DepositAll(a, m, [first]) == Ok(mid);
  }

  lemma PaysUsers(a: Addresses, accounts: seq<TokenAccount>, call: RedeemCall)
    requires |accounts| == 4 && call.accounts == accounts && UserOwned(a, accounts[2..])
    ensures PaysOut(a, call, 2)
  {
    forall i | 2 <= i < 4 ensures !(accounts[i].Associated? && accounts[i].owner == a.pool) {
      assert accounts[2..][i - 2] == accounts[i];
    }
  }

  lemma FirstVault(a: Addresses, l: Ledger, assets: seq<Pubkey>, accounts: seq<TokenAccount>)
    requires |assets| == 2 && |accounts| == 4 && ProperAccounts(a, l, assets, accounts, 0)
    ensures accounts[0] == Vault(a, assets[0]) && accounts[0] in l
  {
  }
}

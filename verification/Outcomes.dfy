/** When Create and CollectFees succeed, in any state, and what Create, Deposit and CollectFees then leave, in plain
    numbers. */
module Outcomes {
  import opened Wrappers
  import opened Numbers
  import opened Bytes
  import opened Header
  import opened Layout
  import opened Tokens
  import opened FixedPoint
  import opened Processor
  import opened Fees
  import opened Trading
  import opened RoundTrips
  import opened Conservation
  import opened Runs

  // ----- Create -----

  /** For every funded asset: the pool's own vault, and a user's source that holds the amount. */
  ghost predicate ProperFunding(a: Addresses, l: Ledger, amounts: seq<u64>, accounts: seq<TokenAccount>, i: nat)
    requires 2 * |amounts| <= |accounts|
  {
    forall k | i <= k < |amounts| && amounts[k] > 0 ::
      && accounts[k] == Vault(a, accounts[k].mint) && accounts[k] in l
      && accounts[|amounts|..][k] in l && accounts[|amounts|..][k].mint == accounts[k].mint
      && !(accounts[|amounts|..][k].Associated? && accounts[|amounts|..][k].owner == a.pool)
      && amounts[k] <= l[accounts[|amounts|..][k]] && l[accounts[k]] + amounts[k] < TWO_64
  }

  lemma {:induction false} FundSucceeds(a: Addresses, l: Ledger, amounts: seq<u64>, accounts: seq<TokenAccount>, i: nat, mints: seq<Pubkey>)
    requires i <= |amounts| && 2 * |amounts| <= |accounts| && Distinct(VaultMints(amounts, accounts))
    requires ProperFunding(a, l, amounts, accounts, i)
    ensures FundFrom(a, l, amounts, accounts, i, mints).Ok?
    decreases |amounts| - i
  {
    if i < |amounts| {
      if amounts[i] == 0 {
        FundSucceeds(a, l, amounts, accounts, i + 1, mints);
      } else {
        var vault, source := accounts[i], accounts[|amounts|..][i];
        var l1 := Transfer(l, source, vault, amounts[i]).value;
        TransferMoves(l, source, vault, amounts[i]);
        forall k | i < k < |amounts| && amounts[k] > 0 ensures
            l1[accounts[k]] == l[accounts[k]] && l1[accounts[|amounts|..][k]] == l[accounts[|amounts|..][k]] {
          assert VaultMints(amounts, accounts)[k] != VaultMints(amounts, accounts)[i];
          assert Untouched(l, l1, accounts[k].mint);
        }
        FundSucceeds(a, l1, amounts, accounts, i + 1, mints + [vault.mint]);
      }
    }
  }

  /** With proper accounts a pool is created if and only if there is none yet, the owner of the sources signed, the
      markets can be counted in 16 bits, a period lasts at least 604800 seconds, the account has room for the header,
      the markets and the funded assets, and a million tokens more keep the supply in 64 bits. */
  lemma CreateSucceedsIff(a: Addresses, m: Machine, c: CreateArgs, accounts: seq<TokenAccount>, target: TokenAccount, signed: bool, now: u64)
    requires 2 * |c.amounts| <= |accounts| && Separate(a, VaultMints(c.amounts, accounts)) && Backed(m.tokens, a.poolMint)
    requires ProperFunding(a, m.tokens.ledger, c.amounts, accounts, 0)
    requires target in m.tokens.ledger && target.mint == a.poolMint
    ensures Create(a, m, c, accounts, target, signed, now).Ok?
       <==> && 117 <= |m.data| && UnpackHeader(m.data).status == Uninitialized
            && signed && |c.markets| < 65536 && 604_800 <= c.period
            && 117 + 32 * |c.markets| + 32 * |FundedMints(c.amounts, accounts)| <= |m.data|
            && m.tokens.total + 1_000_000 < TWO_64
    ensures 117 <= |m.data| && UnpackHeader(m.data).status == Uninitialized && signed && |c.markets| < 65536 && 604_800 <= c.period
            && m.tokens.total + 1_000_000 < TWO_64 && |m.data| < 117 + 32 * |c.markets| + 32 * |FundedMints(c.amounts, accounts)| ==>
              Create(a, m, c, accounts, target, signed, now) == Err(Panic)
  {
    hide UnpackHeader, PackHeader, Image, FundFrom, MintTo, Total, Separate;
    var l0 := m.tokens.ledger;
    DistinctMints(a, c.amounts, accounts);
    FundSucceeds(a, l0, c.amounts, accounts, 0, []);
    FundSameTotals(a, l0, c.amounts, accounts, 0, []);
    FundMoves(a, l0, c.amounts, accounts, 0, []);
    FundsTheFunded(a, l0, c.amounts, accounts, 0, []);
    assert c.amounts[0..] == c.amounts && accounts[0..] == accounts;
    var (l, mints) := FundFrom(a, l0, c.amounts, accounts, 0, []).value;
    assert mints == FundedMints(c.amounts, accounts);
    MintToSucceedsIff(Supply(m.tokens.total, l), a.poolMint, target, 1_000_000);
  }

  lemma DistinctMints(a: Addresses, amounts: seq<u64>, accounts: seq<TokenAccount>)
    requires |amounts| <= |accounts| && Separate(a, VaultMints(amounts, accounts))
    ensures Distinct(VaultMints(amounts, accounts))
  {
  }

  /** What stops a creation before any account is looked at. */
  lemma CreateRefusals(a: Addresses, m: Machine, c: CreateArgs, accounts: seq<TokenAccount>, target: TokenAccount, signed: bool, now: u64)
    requires 2 * |c.amounts| <= |accounts|
    ensures |m.data| < 117 ==> Create(a, m, c, accounts, target, signed, now) == Err(Panic)
    ensures 117 <= |m.data| && (UnpackHeader(m.data).status != Uninitialized || !signed || |c.markets| >= 65536 || c.period < 604_800) ==>
              Create(a, m, c, accounts, target, signed, now) == Err(InvalidArgument)
  {
    hide UnpackHeader, FundFrom, Image;
  }

  /** The clock of a new pool starts now: nothing is due yet, and the gate is open for one period. */
  lemma CreateStartsTheClock(a: Addresses, w: World, c: CreateArgs, accounts: seq<TokenAccount>, target: TokenAccount, signed: bool,
                             m': Machine, later: u64)
    requires Good(a, w) && Create(a, w.m, c, accounts, target, signed, w.clock) == Ok(m') && w.clock <= later
    ensures OpenHeader(m'.data).Ok?
    ensures FeesOverdue(OpenHeader(m'.data).value, later) <==> later > w.clock + c.period
    ensures CollectFees(a, m', later) == Err(LockedOperation) <==> later < w.clock + c.period
  {
    hide Create, UnpackHeader, OpenHeader, FeelessRatio, Dilution, MintFee, Good, FeeCycles;
    CreateReadsBack(a, w, c, accounts, target, signed, m');
    CreatePeriod(a, w.m, c, accounts, target, signed, w.clock);
    var h := OpenHeader(m'.data).value;
    NothingDueIff(h, later);
    var n := FeeCycles(h, later);
    if n > 0 && FeelessRatio(h.feeRatio, n) > 0 {
      CollectUnfolds(a, h, m'.tokens, later, n, FeelessRatio(h.feeRatio, n));
      MintFeeErrors(a, m'.tokens, h.signalProvider, Dilution(FeelessRatio(h.feeRatio, n), m'.tokens.total));
    }
  }

  lemma CreatePeriod(a: Addresses, m: Machine, c: CreateArgs, accounts: seq<TokenAccount>, target: TokenAccount, signed: bool, now: u64)
    requires Create(a, m, c, accounts, target, signed, now).Ok?
    ensures c.period >= 604_800
  {
    hide UnpackHeader, PackHeader, Image, FundFrom, MintTo;
  }

  lemma MintFeeErrors(a: Addresses, s: Supply, provider: Pubkey, fee: u64)
    ensures MintFee(a, s, provider, fee) != Err(LockedOperation) && MintFee(a, s, provider, fee) != Err(Panic)
  {
  }

  // ----- Deposit -----

  /** Who gets how many of the E tokens that a deposit mints: the fee is the floor of fee_ratio * E / 65536, the target
      gets the rest, the signal provider half the fee, the fee account a quarter, and buy-and-burn what is left. */
  lemma DepositCredits(a: Addresses, m: Machine, h: PoolHeader, assets: seq<Pubkey>, request: u64, accounts: seq<TokenAccount>,
                       target: TokenAccount, E: u64, m': Machine) returns (fee: u64)
    requires Decodes(m.data, h, assets) && h.status != Uninitialized && Separate(a, assets)
    requires m.tokens.total > 0 && 2 * |assets| <= |accounts| && Effective(m.tokens, request, |assets|, accounts) == Ok(E)
    requires Deposit(a, m, request, accounts, target, true) == Ok(m')
    ensures fee * 65536 <= h.feeRatio * E < (fee + 1) * 65536 && fee <= E <= request
    ensures m'.data == m.data && m'.tokens.total == m.tokens.total + E && m'.tokens.ledger.Keys == m.tokens.ledger.Keys
    ensures forall x | x in m.tokens.ledger && x.mint == a.poolMint ::
              m'.tokens.ledger[x] == m.tokens.ledger[x]
                + (if x == target then E - fee else 0)
                + (if x == Associated(h.signalProvider, a.poolMint) then fee / 2 else 0)
                + (if x == Associated(a.feeOwner, a.poolMint) then fee / 4 else 0)
                + (if x == Associated(a.bnbOwner, a.poolMint) then fee - fee / 2 - fee / 4 else 0)
  {
    hide BuyIn, Effective, EntryFee, Deposit, OpenHeader, OpenAssets, Decodes, Share, Moved, Untouched;
    OpensIff(m.data, h, assets);
    DepositIsBuyIn(a, m, DepositCall(request, accounts, target), h, assets, m');
    BuyInEffect(a, h, assets, m.tokens, request, accounts, target, E, m'.tokens);
    EntryFeeIsFloor(h.feeRatio, E);
    fee := EntryFee(h.feeRatio, E);
  }

  // ----- CollectFees -----

  /** Whole periods since the time stamp, in 64-bit arithmetic. */
  function Periods(h: PoolHeader, now: u64): nat
    requires h.feeCollectionPeriod > 0
  {
    (now + TWO_64 - h.lastFeeCollection) % TWO_64 / h.feeCollectionPeriod
  }

  lemma PeriodsAreCycles(h: PoolHeader, now: u64)
    requires h.feeCollectionPeriod > 0
    ensures Periods(h, now) == FeeCycles(h, now) && Periods(h, now) < TWO_64
    ensures Periods(h, now) * h.feeCollectionPeriod < TWO_64
  {
    hide WrapSub;
    WrapSubIsModular(now, h.lastFeeCollection);
    FloorBounds((now + TWO_64 - h.lastFeeCollection) % TWO_64, h.feeCollectionPeriod);
  }

  /** The ratio of n periods, and the tokens minted on a supply S at a ratio f. */
  function Ratio(h: PoolHeader, n: u64): nat {
    PowFixed(65535 - h.feeRatio, n)
  }

  function Minted(f: nat, S: nat): nat
    requires f > 0
  {
    (65535 - f) * S / f % TWO_64
  }

  lemma MintedIsDilution(f: u16, S: u64)
    requires f > 0
    ensures Minted(f, S) == Dilution(f, S) < TWO_64
  {
  }

  /** When a collection succeeds, in any state of an open pool and at any clock, and what it answers otherwise. */
  lemma CollectOutcome(a: Addresses, m: Machine, h: PoolHeader, now: u64)
    requires 117 <= |m.data| && h == UnpackHeader(m.data) && h.status != Uninitialized
    requires Backed(m.tokens, a.poolMint) && HasReceivers(a, m.tokens.ledger, h.signalProvider)
    ensures h.feeCollectionPeriod == 0 ==> CollectFees(a, m, now) == Err(Panic)
    ensures h.feeCollectionPeriod > 0 && Periods(h, now) == 0 ==> CollectFees(a, m, now) == Err(LockedOperation)
    ensures h.feeCollectionPeriod > 0 && Periods(h, now) > 0 ==>
              && Periods(h, now) < TWO_64
              && var f := Ratio(h, Periods(h, now));
              && (f == 0 ==> CollectFees(a, m, now) == Err(Panic))
              && (f > 0 ==> (CollectFees(a, m, now).Ok? <==> m.tokens.total + Minted(f, m.tokens.total) < TWO_64))
  {
    hide UnpackHeader, PackHeader, MintFee, PowFixed, Dilution, Minted, Total, HasReceivers, FeeCycles, Periods;
    if h.feeCollectionPeriod > 0 {
      PeriodsAreCycles(h, now);
      var n := FeeCycles(h, now);
      RatioIsPower(h.feeRatio, n);
      var f := FeelessRatio(h.feeRatio, n);
      if n > 0 && f > 0 {
        MintedIsDilution(f, m.tokens.total);
        CollectUnfolds(a, h, m.tokens, now, n, f);
        MintFeeSucceedsIff(a, m.tokens, h.signalProvider, Dilution(f, m.tokens.total));
      }
    }
  }

  /** What a successful collection leaves: the stamp moved by the whole periods, modulo 2^64, every other header field
      and every other byte as it was, and the minted tokens shared out as above. */
  lemma CollectEffect(a: Addresses, m: Machine, h: PoolHeader, now: u64, m': Machine) returns (fee: nat)
    requires 117 <= |m.data| && h == UnpackHeader(m.data) && CollectFees(a, m, now) == Ok(m')
    ensures h.feeCollectionPeriod > 0 && 1 <= Periods(h, now) < TWO_64 && Ratio(h, Periods(h, now)) > 0
    ensures fee == Minted(Ratio(h, Periods(h, now)), m.tokens.total)
    ensures |m'.data| == |m.data| && m'.data[117..] == m.data[117..]
    ensures var h' := UnpackHeader(m'.data);
            && h'.lastFeeCollection == (h.lastFeeCollection + Periods(h, now) * h.feeCollectionPeriod) % TWO_64
            && h'.serumProgramId == h.serumProgramId && h'.seed == h.seed && h'.signalProvider == h.signalProvider
            && h'.status == h.status && h'.numberOfMarkets == h.numberOfMarkets && h'.feeRatio == h.feeRatio
            && h'.feeCollectionPeriod == h.feeCollectionPeriod
    ensures m'.tokens.total == m.tokens.total + fee && m'.tokens.ledger.Keys == m.tokens.ledger.Keys
    ensures forall x | x in m.tokens.ledger ::
              m'.tokens.ledger[x] == m.tokens.ledger[x]
                + (if x == Associated(h.signalProvider, a.poolMint) then fee / 2 else 0)
                + (if x == Associated(a.feeOwner, a.poolMint) then fee / 4 else 0)
                + (if x == Associated(a.bnbOwner, a.poolMint) then fee - fee / 2 - fee / 4 else 0)
  {
    hide UnpackHeader, PackHeader, MintFee, PowFixed, Dilution, Minted, FeeCycles, Periods;
    CollectFeesEffect(a, m, now);
    var n := FeeCycles(h, now);
    PeriodsAreCycles(h, now);
    RatioIsPower(h.feeRatio, n);
    var f := FeelessRatio(h.feeRatio, n);
    MintedIsDilution(f, m.tokens.total);
    fee := Dilution(f, m.tokens.total);
    CollectUnfolds(a, h, m.tokens, now, n, f);
    MintFeeIsExact(a, m.tokens, h.signalProvider, fee);
    NoWrap(n * h.feeCollectionPeriod);
  }
}

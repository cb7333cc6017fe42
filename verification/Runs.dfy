/** Whole runs: any instructions, by anyone, in any order, with the clock moving forward. */
module Runs {
  import opened Wrappers
  import opened Numbers
  import opened Bytes
  import opened Header
  import opened Layout
  import opened Tokens
  import opened Processor
  import opened Fees
  import opened Settlement
  import opened Conservation

  /** The pool together with the chain's clock. */
  datatype World = World(m: Machine, clock: u64)

  /** What can happen next: an instruction of the program, or something outside it - a transfer between
      accounts the pool does not own the source of, a new empty token account, or the passing of time. */
  datatype Step =
    | CreatePool(args: CreateArgs, accounts: seq<TokenAccount>, target: TokenAccount, signed: bool)
    | DepositInto(request: u64, accounts: seq<TokenAccount>, target: TokenAccount, signed: bool)
    | RedeemFrom(tokens: u64, accounts: seq<TokenAccount>, source: TokenAccount, signed: bool)
    | Collect
    | SettleFunds(settlement: SettleArgs)
    | Send(from: TokenAccount, to: TokenAccount, amount: u64)
    | OpenAccount(account: TokenAccount)
    | Wait(duration: nat)

  /** The result of attempting a step. */
  function Attempt(a: Addresses, w: World, step: Step): Result<Machine> {
    match step
    case CreatePool(c, accounts, target, signed) => Create(a, w.m, c, accounts, target, signed, w.clock)
    case DepositInto(request, accounts, target, signed) => Deposit(a, w.m, request, accounts, target, signed)
    case RedeemFrom(tokens, accounts, source, signed) => Redeem(a, w.m, tokens, accounts, source, signed, w.clock)
    case Collect => CollectFees(a, w.m, w.clock)
    case SettleFunds(s) => Settle(a, w.m, s)
    case Send(from, to, amount) =>
      var l :- UserTransfer(a, w.m.tokens.ledger, from, to, amount);
      Ok(w.m.(tokens := w.m.tokens.(ledger := l)))
    case OpenAccount(x) =>
      if x in w.m.tokens.ledger then Err(InvalidAccountData)
      else Ok(w.m.(tokens := w.m.tokens.(ledger := w.m.tokens.ledger[x := 0])))
    case Wait(_) => Ok(w.m)
  }

  /** A failed step changes nothing; time only moves forward. */
  function Next(a: Addresses, w: World, step: Step): World {
    var r := Attempt(a, w, step);
    World(if r.Ok? then r.value else w.m,
          if step.Wait? && w.clock + step.duration < TWO_64 then w.clock + step.duration else w.clock)
  }

  function Run(a: Addresses, w: World, steps: seq<Step>): World
    decreases steps
  {
    if steps == [] then w else Run(a, Next(a, w, steps[0]), steps[1..])
  }

  /** What Init leaves: a zeroed account of the requested size and a mint without supply. */
  function Fresh(maxAssets: u32, markets: u16, ledger: Ledger, clock: u64): World {
    World(Machine(Zeros(HEADER_LENGTH + KEY_LENGTH * markets + KEY_LENGTH * maxAssets), Supply(0, ledger)), clock)
  }

  // ----- The invariant -----

  /** The account bytes agree with the supply and the clock: uninitialized and empty without supply, or
      Unlocked with a supply, a period of at least a week and a time stamp that is not in the future. */
  ghost predicate GoodData(data: seq<byte>, supply: u64, clock: u64) {
    && |data| >= HEADER_LENGTH
    && var h := UnpackHeader(data);
    if supply == 0 then h.status == Uninitialized && data[HEADER_LENGTH..] == Zeros(|data| - HEADER_LENGTH)
    else
      && h.status == Unlocked
      && AssetOffset(h) <= |data|
      && ONE_WEEK <= h.feeCollectionPeriod
      && h.lastFeeCollection <= clock
  }

  ghost predicate Good(a: Addresses, w: World) {
    GoodData(w.m.data, w.m.tokens.total, w.clock) && Backed(w.m.tokens, a.poolMint)
  }

  lemma ZeroHeader(n: nat)
    requires n >= HEADER_LENGTH
    ensures UnpackHeader(Zeros(n)).status == Uninitialized
    ensures Zeros(n)[HEADER_LENGTH..] == Zeros(n - HEADER_LENGTH)
  {
  }

  lemma FreshIsGood(a: Addresses, maxAssets: u32, markets: u16, ledger: Ledger, clock: u64)
    requires Total(ledger, a.poolMint) == 0
    ensures Good(a, Fresh(maxAssets, markets, ledger, clock))
  {
    ZeroHeader(HEADER_LENGTH + KEY_LENGTH * markets + KEY_LENGTH * maxAssets);
  }

  lemma CreateKeeps(a: Addresses, m: Machine, c: CreateArgs, accounts: seq<TokenAccount>, target: TokenAccount, signed: bool,
                    now: u64, m': Machine)
    requires Create(a, m, c, accounts, target, signed, now) == Ok(m') && m.tokens.total == 0
    ensures GoodData(m'.data, m'.tokens.total, now) && Conserved(a, m.tokens, m'.tokens)
    ensures |m'.data| == |m.data|
  {
    hide FundFrom, MintTo, PackHeader, UnpackHeader, Total;
    FundSameTotals(a, m.tokens.ledger, c.amounts, accounts, 0, []);
    var (l, mints) := FundFrom(a, m.tokens.ledger, c.amounts, accounts, 0, []).value;
    MintToConserved(a, Supply(0, l), target, FIRST_POOL_TOKENS);
    var h := CreatedHeader(c, now);
    ImageReadsBack(h, c.markets, mints, m.data[HEADER_LENGTH + KEY_LENGTH * |c.markets| + KEY_LENGTH * |mints|..]);
  }

  lemma DepositKeeps(a: Addresses, m: Machine, request: u64, accounts: seq<TokenAccount>, target: TokenAccount, signed: bool, now: u64, m': Machine)
    requires Deposit(a, m, request, accounts, target, signed) == Ok(m') && GoodData(m.data, m.tokens.total, now)
    ensures GoodData(m'.data, m'.tokens.total, now) && Conserved(a, m.tokens, m'.tokens)
    ensures m'.data == m.data
  {
    hide BuyIn, Total;
    var h := OpenHeader(m.data).value;
    BuyInConserved(a, h, OpenAssets(m.data, h).value, m.tokens, request, accounts, target);
  }

  lemma RedeemKeeps(a: Addresses, m: Machine, tokens: u64, accounts: seq<TokenAccount>, source: TokenAccount, signed: bool, now: u64, m': Machine)
    requires Redeem(a, m, tokens, accounts, source, signed, now) == Ok(m') && GoodData(m.data, m.tokens.total, now)
    ensures GoodData(m'.data, m'.tokens.total, now) && Conserved(a, m.tokens, m'.tokens)
    ensures m'.data == m.data || m'.tokens.total == 0
    ensures |m'.data| == |m.data|
  {
    hide CashOut, PackHeader, Total;
    var h := OpenHeader(m.data).value;
    CashOutConserved(a, OpenAssets(m.data, h).value, m.tokens, tokens, accounts, source);
    HeaderRoundTrip(h.(status := Uninitialized), Zeros(|m.data| - HEADER_LENGTH));
    assert ResetData(m.data, h)[HEADER_LENGTH..] == Zeros(|m.data| - HEADER_LENGTH);
  }

  lemma CollectKeeps(a: Addresses, m: Machine, now: u64, m': Machine)
    requires CollectFees(a, m, now) == Ok(m') && GoodData(m.data, m.tokens.total, now)
    ensures GoodData(m'.data, m'.tokens.total, now) && Conserved(a, m.tokens, m'.tokens)
    ensures var h := UnpackHeader(m.data);
            && UnpackHeader(m'.data) == h.(lastFeeCollection := UnpackHeader(m'.data).lastFeeCollection)
            && UnpackHeader(m'.data).lastFeeCollection == h.lastFeeCollection + FeeCycles(h, now) * h.feeCollectionPeriod
    ensures |m'.data| == |m.data|
  {
    hide MintFee, PackHeader, UnpackHeader, Total, FeeCycles, AdvanceClock, Dilution, FeelessRatio;
    var h := OpenHeader(m.data).value;
    var n := FeeCycles(h, now);
    CollectFeesEffect(a, m, now);
    CollectMovesClock(a, h, m.tokens, now, n);
    MintFeeConserved(a, m.tokens, h.signalProvider, Dilution(FeelessRatio(h.feeRatio, n), m.tokens.total));
  }

  lemma SettleKeeps(a: Addresses, m: Machine, s: SettleArgs, now: u64, m': Machine)
    requires Settle(a, m, s) == Ok(m') && GoodData(m.data, m.tokens.total, now)
    ensures GoodData(m'.data, m'.tokens.total, now) && Conserved(a, m.tokens, m'.tokens)
    ensures UnpackHeader(m'.data) == UnpackHeader(m.data) && |m'.data| == |m.data|
  {
    var h := OpenHeader(m.data).value;
    var region := m.data[AssetOffset(h)..];
    assert Laid(m, h, region);
    hide PackHeader, Total, DexPays, Settle, SlotAt, Patch;
    var h', region' := SettleEffect(a, m, s, m', h, region);
    DexSameTotals(a, m.tokens.ledger, s);
  }

  lemma OutsideKeeps(a: Addresses, w: World, step: Step)
    requires step.Send? || step.OpenAccount? || step.Wait?
    requires Attempt(a, w, step).Ok?
    ensures var m' := Attempt(a, w, step).value;
            m'.data == w.m.data && m'.tokens.total == w.m.tokens.total && Conserved(a, w.m.tokens, m'.tokens)
  {
    hide Total, Transfer;
    match step
    case Send(from, to, amount) => TransferSameTotals(w.m.tokens.ledger, from, to, amount);
    case OpenAccount(x) =>
      forall mint ensures Total(w.m.tokens.ledger[x := 0], mint) == Total(w.m.tokens.ledger, mint) {
        OpenConserves(w.m.tokens.ledger, x, mint);
      }
    case Wait(_) =>
  }

  /** One step keeps the invariant, the total of every asset mint and the size of the account. */
  lemma StepKeeps(a: Addresses, w: World, step: Step)
    requires Good(a, w)
    ensures Good(a, Next(a, w, step)) && w.clock <= Next(a, w, step).clock
    ensures Conserved(a, w.m.tokens, Next(a, w, step).m.tokens)
    ensures |Next(a, w, step).m.data| == |w.m.data|
  {
    hide Create, Deposit, Redeem, CollectFees, Settle, UnpackHeader, Total, UserTransfer;
    var r := Attempt(a, w, step);
    if r.Ok? {
      match step
      case CreatePool(c, accounts, target, signed) =>
        CreateNeedsEmpty(a, w.m, c, accounts, target, signed, w.clock);
        CreateKeeps(a, w.m, c, accounts, target, signed, w.clock, r.value);
      case DepositInto(request, accounts, target, signed) =>
        DepositKeeps(a, w.m, request, accounts, target, signed, w.clock, r.value);
      case RedeemFrom(tokens, accounts, source, signed) =>
        RedeemKeeps(a, w.m, tokens, accounts, source, signed, w.clock, r.value);
      case Collect => CollectKeeps(a, w.m, w.clock, r.value);
      case SettleFunds(s) => SettleKeeps(a, w.m, s, w.clock, r.value);
      case _ => OutsideKeeps(a, w, step);
    }
  }

  lemma CreateNeedsEmpty(a: Addresses, m: Machine, c: CreateArgs, accounts: seq<TokenAccount>, target: TokenAccount, signed: bool, now: u64)
    requires Create(a, m, c, accounts, target, signed, now).Ok?
    ensures |m.data| >= HEADER_LENGTH && UnpackHeader(m.data).status == Uninitialized
  {
  }

  /** Every run keeps the invariant and every asset's tokens. */
  lemma {:induction false} RunKeeps(a: Addresses, w: World, steps: seq<Step>)
    requires Good(a, w)
    ensures Good(a, Run(a, w, steps)) && w.clock <= Run(a, w, steps).clock
    ensures forall mint | mint != a.poolMint :: Total(Run(a, w, steps).m.tokens.ledger, mint) == Total(w.m.tokens.ledger, mint)
    ensures |Run(a, w, steps).m.data| == |w.m.data|
    decreases steps
  {
    hide Good, Next, Total;
    if steps != [] {
      StepKeeps(a, w, steps[0]);
      RunKeeps(a, Next(a, w, steps[0]), steps[1..]);
    }
  }

  /** The whole-run theorem. From a fresh Init, after any steps: the pool-token supply is what the accounts
      hold; the status is Uninitialized exactly when there is no supply and Unlocked otherwise; and every asset
      mint has as many tokens, over all accounts, as at the start. */
  lemma EveryRunIsSound(a: Addresses, maxAssets: u32, markets: u16, ledger: Ledger, clock: u64, steps: seq<Step>)
    requires Total(ledger, a.poolMint) == 0
    ensures var w := Run(a, Fresh(maxAssets, markets, ledger, clock), steps);
            && |w.m.data| == HEADER_LENGTH + KEY_LENGTH * markets + KEY_LENGTH * maxAssets
            && w.m.tokens.total == Total(w.m.tokens.ledger, a.poolMint)
            && UnpackHeader(w.m.data).status == (if w.m.tokens.total == 0 then Uninitialized else Unlocked)
            && (forall mint | mint != a.poolMint :: Total(w.m.tokens.ledger, mint) == Total(ledger, mint))
  {
    hide UnpackHeader, Run, Total;
    FreshIsGood(a, maxAssets, markets, ledger, clock);
    RunKeeps(a, Fresh(maxAssets, markets, ledger, clock), steps);
  }

  // ----- No panic -----

  lemma {:induction false} BuyInNeverPanics(a: Addresses, before: Ledger, l: Ledger, supply: u64, tokens: u64, assets: seq<Pubkey>,
                         accounts: seq<TokenAccount>, i: nat, allZero: bool)
    requires i <= |assets| && 2 * |assets| <= |accounts| && supply > 0
    requires forall k | 0 <= k < |assets| :: accounts[k] in before
    ensures BuyInFrom(a, before, l, supply, tokens, assets, accounts, i, allZero) != Err(Panic)
    decreases |assets| - i
  {
    hide Share;
    if i < |assets| {
      var amount := Share(tokens, before[accounts[i]], supply);
      var r := if amount == 0 then Ok(l) else UserTransfer(a, l, accounts[|assets| + i], accounts[i], amount % TWO_64);
      if r.Ok? {
        BuyInNeverPanics(a, before, r.value, supply, tokens, assets, accounts, i + 1, allZero && amount == 0);
      }
    }
  }

  lemma {:induction false} PayOutNeverPanics(a: Addresses, l: Ledger, supply: u64, tokens: u64, assets: seq<Pubkey>,
                          accounts: seq<TokenAccount>, i: nat)
    requires i <= |assets| && 2 * |assets| <= |accounts| && supply > 0
    ensures PayOutFrom(a, l, supply, tokens, assets, accounts, i) != Err(Panic)
    decreases |assets| - i
  {
    hide Share;
    if i < |assets| && accounts[i] in l {
      var amount := Share(tokens, l[accounts[i]], supply);
      if amount < TWO_64 {
        var r := if amount == 0 then Ok(l) else Transfer(l, accounts[i], accounts[|assets| + i], amount);
        if r.Ok? {
          PayOutNeverPanics(a, r.value, supply, tokens, assets, accounts, i + 1);
        }
      }
    }
  }

  lemma {:induction false} QuoteNeverPanics(l: Ledger, supply: u64, n: nat, accounts: seq<TokenAccount>, i: nat, best: u64)
    requires i <= n && 2 * n <= |accounts|
    ensures QuoteFrom(l, supply, n, accounts, i, best) != Err(Panic)
    decreases n - i
  {
    hide Affordable;
    if i < n && accounts[i] in l && accounts[n + i] in l {
      QuoteNeverPanics(l, supply, n, accounts, i + 1, Min(Affordable(l[accounts[n + i]], l[accounts[i]], supply), best));
    }
  }

  lemma DepositNeverPanics(a: Addresses, w: World, request: u64, accounts: seq<TokenAccount>, target: TokenAccount, signed: bool)
    requires Good(a, w)
    ensures Deposit(a, w.m, request, accounts, target, signed) != Err(Panic)
  {
    hide EntryFee, Affordable, Share;
    var s := w.m.tokens;
    if OpenHeader(w.m.data).Ok? {
      var h := OpenHeader(w.m.data).value;
      var assets := OpenAssets(w.m.data, h).value;
      if 2 * |assets| <= |accounts| {
        QuoteNeverPanics(s.ledger, s.total, |assets|, accounts, 0, MAX_U64);
        var q := QuoteFrom(s.ledger, s.total, |assets|, accounts, 0, MAX_U64);
        if q.Ok? {
          QuoteReadsAccounts(s.ledger, s.total, |assets|, accounts, 0, MAX_U64);
          BuyInNeverPanics(a, s.ledger, s.ledger, s.total, Min(request, q.value), assets, accounts, 0, true);
        }
      }
    }
  }

  lemma RedeemNeverPanics(a: Addresses, w: World, tokens: u64, accounts: seq<TokenAccount>, source: TokenAccount, signed: bool)
    requires Good(a, w)
    ensures Redeem(a, w.m, tokens, accounts, source, signed, w.clock) != Err(Panic)
  {
    hide Share;
    if OpenHeader(w.m.data).Ok? {
      var assets := OpenAssets(w.m.data, OpenHeader(w.m.data).value).value;
      if 2 * |assets| <= |accounts| {
        PayOutNeverPanics(a, w.m.tokens.ledger, w.m.tokens.total, tokens, assets, accounts, 0);
      }
    }
  }

  /** In every reachable state Deposit and Redeem, given the pool's own seed, never hit a failed slice or a
      division by the supply; Settle panics exactly when the market account is too short for its two mints,
      and CollectFees exactly when there is a cycle to collect and its ratio is zero. */
  lemma WhenInstructionsPanic(a: Addresses, w: World, step: Step)
    requires Good(a, w)
    ensures step.DepositInto? || step.RedeemFrom? ==> Attempt(a, w, step) != Err(Panic)
    ensures step.SettleFunds? ==> (Attempt(a, w, step) == Err(Panic) <==> |step.settlement.market| < MARKET_MINTS_END)
    ensures step.Collect? ==>
              (Attempt(a, w, step) == Err(Panic) <==>
               && OpenHeader(w.m.data).Ok?
               && var h := OpenHeader(w.m.data).value;
               && h.feeCollectionPeriod > 0
               && FeeCycles(h, w.clock) >= 1 && FeelessRatio(h.feeRatio, FeeCycles(h, w.clock)) == 0)
  {
    hide Deposit, Redeem, FeelessRatio, FeeCycles, UnpackHeader, PackHeader, SlotAt, Patch, Dilution, ToU64;
    match step
    case DepositInto(request, accounts, target, signed) => DepositNeverPanics(a, w, request, accounts, target, signed);
    case RedeemFrom(tokens, accounts, source, signed) => RedeemNeverPanics(a, w, tokens, accounts, source, signed);
    case _ =>
  }

  // ----- The fee schedule of a whole run -----

  /** Never back to Uninitialized along the run. */
  ghost predicate StaysOpen(a: Addresses, w: World, steps: seq<Step>)
    decreases steps
  {
    w.m.tokens.total > 0 && (steps == [] || StaysOpen(a, Next(a, w, steps[0]), steps[1..]))
  }

  /** The periods charged by one step and by a run. */
  ghost function StepCycles(a: Addresses, w: World, step: Step): nat {
    if step.Collect? && Attempt(a, w, step).Ok? && OpenHeader(w.m.data).Ok? && OpenHeader(w.m.data).value.feeCollectionPeriod > 0
    then FeeCycles(OpenHeader(w.m.data).value, w.clock) else 0
  }

  ghost function Cycles(a: Addresses, w: World, steps: seq<Step>): nat
    decreases steps
  {
    if steps == [] then 0 else StepCycles(a, w, steps[0]) + Cycles(a, Next(a, w, steps[0]), steps[1..])
  }

  /** On an open pool a step changes nothing in the header but the time stamp, which moves by the periods charged. */
  lemma StepMovesStamp(a: Addresses, w: World, step: Step)
    requires Good(a, w) && w.m.tokens.total > 0 && Next(a, w, step).m.tokens.total > 0
    ensures |w.m.data| >= HEADER_LENGTH && |Next(a, w, step).m.data| >= HEADER_LENGTH
    ensures var h, h' := UnpackHeader(w.m.data), UnpackHeader(Next(a, w, step).m.data);
            && h' == h.(lastFeeCollection := h'.lastFeeCollection)
            && h'.lastFeeCollection == h.lastFeeCollection + StepCycles(a, w, step) * h.feeCollectionPeriod
  {
    hide Create, Deposit, Redeem, CollectFees, Settle, UnpackHeader, Total, UserTransfer, FeeCycles;
    var r := Attempt(a, w, step);
    StepKeeps(a, w, step);
    if r.Ok? {
      match step
      case CreatePool(c, accounts, target, signed) =>
        CreateNeedsEmpty(a, w.m, c, accounts, target, signed, w.clock);
      case DepositInto(request, accounts, target, signed) =>
        DepositKeeps(a, w.m, request, accounts, target, signed, w.clock, r.value);
      case RedeemFrom(tokens, accounts, source, signed) =>
        RedeemKeeps(a, w.m, tokens, accounts, source, signed, w.clock, r.value);
      case Collect => CollectKeeps(a, w.m, w.clock, r.value);
      case SettleFunds(s) => SettleKeeps(a, w.m, s, w.clock, r.value);
      case _ => OutsideKeeps(a, w, step);
    }
  }

  lemma {:induction false} RunMovesStamp(a: Addresses, w: World, steps: seq<Step>)
    requires Good(a, w) && StaysOpen(a, w, steps)
    ensures Good(a, Run(a, w, steps)) && Run(a, w, steps).m.tokens.total > 0
    ensures |w.m.data| >= HEADER_LENGTH && |Run(a, w, steps).m.data| >= HEADER_LENGTH
    ensures var h, h' := UnpackHeader(w.m.data), UnpackHeader(Run(a, w, steps).m.data);
            && h' == h.(lastFeeCollection := h'.lastFeeCollection)
            && h'.lastFeeCollection == h.lastFeeCollection + Cycles(a, w, steps) * h.feeCollectionPeriod
    decreases steps
  {
    hide Good, Next, UnpackHeader, StepCycles;
    HasHeader(a, w);
    if steps != [] {
      var w1 := Next(a, w, steps[0]);
      StepKeeps(a, w, steps[0]);
      assert StaysOpen(a, w1, steps[1..]);
      StepMovesStamp(a, w, steps[0]);
      RunMovesStamp(a, w1, steps[1..]);
      var p := UnpackHeader(w.m.data).feeCollectionPeriod;
      var c0, c1 := StepCycles(a, w, steps[0]), Cycles(a, w1, steps[1..]);
      StampAdds(c0, c1, p);
    }
  }

  lemma StampAdds(c0: nat, c1: nat, p: nat)
    ensures (c0 + c1) * p == c0 * p + c1 * p
  {
  }

  lemma HasHeader(a: Addresses, w: World)
    requires Good(a, w)
    ensures |w.m.data| >= HEADER_LENGTH
  {
  }

  /** Fee-cycle conservation. Take any run on an open pool, with any instructions, transfers, waits and even
      aborted collections in it, that ends with a collection which succeeds or finds nothing to collect. The
      periods charged over the whole run are the whole periods elapsed since the time stamp at its start, and
      the time stamp trails the clock by less than one period. */
  lemma CyclesChargedOnce(a: Addresses, w: World, steps: seq<Step>)
    requires Good(a, w) && StaysOpen(a, w, steps + [Collect])
    requires Attempt(a, Run(a, w, steps), Collect).Ok? || Attempt(a, Run(a, w, steps), Collect) == Err(LockedOperation)
    ensures var w', h := Run(a, w, steps + [Collect]), UnpackHeader(w.m.data);
            && |w'.m.data| >= HEADER_LENGTH && h.lastFeeCollection <= w'.clock && h.feeCollectionPeriod > 0
            && Cycles(a, w, steps + [Collect]) == (w'.clock - h.lastFeeCollection) / h.feeCollectionPeriod
            && UnpackHeader(w'.m.data).lastFeeCollection <= w'.clock
            && w'.clock < UnpackHeader(w'.m.data).lastFeeCollection + h.feeCollectionPeriod
  {
    hide UnpackHeader, StaysOpen, Next, Cycles, StepCycles, Run, Good, FeeCycles, CollectFees;
    RunAppend(a, w, steps, Collect);
    RunMovesStamp(a, w, steps + [Collect]);
    RunKeeps(a, w, steps);
    AfterCollect(a, Run(a, w, steps));
    var w' := Run(a, w, steps + [Collect]);
    StampInPast(a, w');
    var h, n := UnpackHeader(w.m.data), Cycles(a, w, steps + [Collect]);
    var np := n * h.feeCollectionPeriod;
    assert (n + 1) * h.feeCollectionPeriod == np + h.feeCollectionPeriod;
    FloorUnique(w'.clock - h.lastFeeCollection, h.feeCollectionPeriod, n);
  }

  lemma {:induction false} RunAppend(a: Addresses, w: World, steps: seq<Step>, last: Step)
    ensures Run(a, w, steps + [last]) == Next(a, Run(a, w, steps), last)
    decreases steps
  {
    hide Next;
    if steps != [] {
      assert (steps + [last])[1..] == steps[1..] + [last];
      RunAppend(a, Next(a, w, steps[0]), steps[1..], last);
    } else {
      assert [last][1..] == [];
    }
  }

  lemma StampInPast(a: Addresses, w: World)
    requires Good(a, w) && w.m.tokens.total > 0
    ensures |w.m.data| >= HEADER_LENGTH && OpenHeader(w.m.data) == Ok(UnpackHeader(w.m.data))
    ensures Ticking(UnpackHeader(w.m.data), w.clock)
  {
  }

  lemma AfterCollect(a: Addresses, w: World)
    requires Good(a, w)
    requires Attempt(a, w, Collect).Ok? || Attempt(a, w, Collect) == Err(LockedOperation)
    requires Next(a, w, Collect).m.tokens.total > 0
    ensures var w' := Next(a, w, Collect);
            && |w'.m.data| >= HEADER_LENGTH
            && w'.clock < UnpackHeader(w'.m.data).lastFeeCollection + UnpackHeader(w'.m.data).feeCollectionPeriod
  {
    hide UnpackHeader, FeelessRatio, MintFee, FeeCycles, WithHeader, Good, Total;
    StepKeeps(a, w, Collect);
    var w' := Next(a, w, Collect);
    StampInPast(a, w');
    if Attempt(a, w, Collect).Ok? {
      OpenIsTicking(a, w);
      var h := OpenHeader(w.m.data).value;
      CollectFeesEffect(a, w.m, w.clock);
      CollectMovesClock(a, h, w.m.tokens, w.clock, FeeCycles(h, w.clock));
    } else {
      LockedMeansNothingDue(a, w);
      NothingDueIff(UnpackHeader(w'.m.data), w.clock);
    }
  }

  lemma OpenIsTicking(a: Addresses, w: World)
    requires Good(a, w) && OpenHeader(w.m.data).Ok?
    ensures OpenHeader(w.m.data) == Ok(UnpackHeader(w.m.data)) && Ticking(OpenHeader(w.m.data).value, w.clock)
  {
  }

  lemma LockedMeansNothingDue(a: Addresses, w: World)
    requires Good(a, w) && w.m.tokens.total > 0 && Attempt(a, w, Collect) == Err(LockedOperation)
    ensures OpenHeader(w.m.data).Ok? && Ticking(OpenHeader(w.m.data).value, w.clock)
    ensures FeeCycles(OpenHeader(w.m.data).value, w.clock) == 0
  {
    hide FeelessRatio, FeeCycles, Dilution;
  }

  // ----- The layout along a run -----

  /** The same markets at the same place, and every initialized asset slot as it was. */
  ghost predicate KeepsLayout(data: seq<byte>, data': seq<byte>) {
    && HEADER_LENGTH <= |data| == |data'|
    && var at := AssetOffset(UnpackHeader(data));
    && at <= |data| && AssetOffset(UnpackHeader(data')) == at
    && data'[HEADER_LENGTH..at] == data[HEADER_LENGTH..at]
    && Preserves(data[at..], data'[at..])
  }

  lemma SameLayout(data: seq<byte>, data': seq<byte>)
    requires HEADER_LENGTH <= |data| == |data'| && AssetOffset(UnpackHeader(data)) <= |data|
    requires UnpackHeader(data').numberOfMarkets == UnpackHeader(data).numberOfMarkets
    requires data'[HEADER_LENGTH..] == data[HEADER_LENGTH..]
    ensures KeepsLayout(data, data')
  {
    hide UnpackHeader;
    var at := AssetOffset(UnpackHeader(data));
    assert data[HEADER_LENGTH..at] == data[HEADER_LENGTH..][..at - HEADER_LENGTH];
    assert data'[HEADER_LENGTH..at] == data'[HEADER_LENGTH..][..at - HEADER_LENGTH];
    assert data[at..] == data[HEADER_LENGTH..][at - HEADER_LENGTH..];
    assert data'[at..] == data'[HEADER_LENGTH..][at - HEADER_LENGTH..];
    PreservesItself(data[at..]);
  }

  lemma SettleKeepsLayout(a: Addresses, m: Machine, s: SettleArgs, m': Machine)
    requires Settle(a, m, s) == Ok(m')
    ensures KeepsLayout(m.data, m'.data)
  {
    hide PackHeader, UnpackHeader, DexPays, Settle, SlotAt, Patch, Preserves, ToU64;
    SettleIsLaid(a, m, s);
    var h := OpenHeader(m.data).value;
    var region := m.data[AssetOffset(h)..];
    var h', region' := SettleEffect(a, m, s, m', h, region);
  }

  lemma SettleIsLaid(a: Addresses, m: Machine, s: SettleArgs)
    requires Settle(a, m, s).Ok?
    ensures OpenHeader(m.data).Ok? && AssetOffset(OpenHeader(m.data).value) <= |m.data|
  {
    hide SlotAt, SetSlot, ToU64, UnpackHeader, PackHeader;
  }

  lemma OpenLayout(a: Addresses, w: World)
    requires Good(a, w) && w.m.tokens.total > 0
    ensures HEADER_LENGTH <= |w.m.data| && OpenHeader(w.m.data) == Ok(UnpackHeader(w.m.data))
    ensures AssetOffset(UnpackHeader(w.m.data)) <= |w.m.data|
  {
    hide UnpackHeader, Total;
  }

  lemma StepKeepsLayout(a: Addresses, w: World, step: Step)
    requires Good(a, w) && w.m.tokens.total > 0 && Next(a, w, step).m.tokens.total > 0
    ensures KeepsLayout(w.m.data, Next(a, w, step).m.data)
  {
    hide Good, Create, Deposit, Redeem, CollectFees, Settle, UnpackHeader, Total, UserTransfer, Preserves, KeepsLayout;
    OpenLayout(a, w);
    SameLayout(w.m.data, w.m.data);
    var r := Attempt(a, w, step);
    if r.Ok? {
      GoodIsGoodData(a, w);
      match step
      case CreatePool(c, accounts, target, signed) =>
        CreateNeedsEmpty(a, w.m, c, accounts, target, signed, w.clock);
      case DepositInto(request, accounts, target, signed) =>
        DepositKeeps(a, w.m, request, accounts, target, signed, w.clock, r.value);
      case RedeemFrom(tokens, accounts, source, signed) =>
        RedeemKeeps(a, w.m, tokens, accounts, source, signed, w.clock, r.value);
      case Collect =>
        CollectKeeps(a, w.m, w.clock, r.value);
        CollectFeesEffect(a, w.m, w.clock);
        SameLayout(w.m.data, r.value.data);
      case SettleFunds(s) => SettleKeepsLayout(a, w.m, s, r.value);
      case _ => OutsideKeeps(a, w, step);
    }
  }

  lemma GoodIsGoodData(a: Addresses, w: World)
    requires Good(a, w)
    ensures GoodData(w.m.data, w.m.tokens.total, w.clock)
    ensures w.m.tokens.total > 0 ==> |w.m.data| >= HEADER_LENGTH && UnpackHeader(w.m.data).status == Unlocked
  {
  }

  lemma LayoutTransitive(a: seq<byte>, b: seq<byte>, c: seq<byte>)
    requires KeepsLayout(a, b) && KeepsLayout(b, c)
    ensures KeepsLayout(a, c)
  {
    hide UnpackHeader, Preserves;
    var at := AssetOffset(UnpackHeader(a));
    PreservesTransitive(a[at..], b[at..], c[at..]);
  }

  /** Over every run of an open pool, with deposits, redemptions, collections and settlements in any order: the
      markets never change, an initialized asset slot keeps its key for ever, and the asset list only grows. */
  lemma {:induction false} RunKeepsLayout(a: Addresses, w: World, steps: seq<Step>)
    requires Good(a, w) && StaysOpen(a, w, steps)
    ensures var data, data' := w.m.data, Run(a, w, steps).m.data;
            && KeepsLayout(data, data')
            && OpenHeader(data).Ok? && OpenHeader(data').Ok?
            && OpenAssets(data, OpenHeader(data).value).Ok? && OpenAssets(data', OpenHeader(data').value).Ok?
            && IsSubsequence(OpenAssets(data, OpenHeader(data).value).value, OpenAssets(data', OpenHeader(data').value).value)
    decreases steps
  {
    hide Good, Next, UnpackHeader, KeepsLayout, IsSubsequence, AssetsIn;
    OpenLayout(a, w);
    SameLayout(w.m.data, w.m.data);
    if steps != [] {
      var w1 := Next(a, w, steps[0]);
      StepKeeps(a, w, steps[0]);
      assert StaysOpen(a, w1, steps[1..]);
      StepKeepsLayout(a, w, steps[0]);
      RunKeepsLayout(a, w1, steps[1..]);
      LayoutTransitive(w.m.data, w1.m.data, Run(a, w, steps).m.data);
    }
    RunMovesStamp(a, w, steps);
    OpenLayout(a, Run(a, w, steps));
    LayoutSubsequence(w.m.data, Run(a, w, steps).m.data);
  }

  lemma LayoutSubsequence(data: seq<byte>, data': seq<byte>)
    requires KeepsLayout(data, data')
    ensures IsSubsequence(AssetsIn(data[AssetOffset(UnpackHeader(data))..]), AssetsIn(data'[AssetOffset(UnpackHeader(data'))..]))
  {
    hide UnpackHeader, AssetsIn, IsSubsequence;
    PreservesSubsequence(data[AssetOffset(UnpackHeader(data))..], data'[AssetOffset(UnpackHeader(data'))..]);
  }

  // ----- Account bytes -----

  /** A pool created on a sound account reads back: every field of the header, every market and, in order, the mint of every
      asset that was funded; all of it inside the account. */
  lemma CreateReadsBack(a: Addresses, w: World, c: CreateArgs, accounts: seq<TokenAccount>, target: TokenAccount, signed: bool, m': Machine)
    requires Good(a, w) && Create(a, w.m, c, accounts, target, signed, w.clock) == Ok(m')
    ensures 2 * |c.amounts| <= |accounts| && OpenHeader(m'.data).Ok?
    ensures var h := OpenHeader(m'.data).value;
            && h.serumProgramId == c.serumProgram && h.seed == c.seed && h.signalProvider == c.signalProvider
            && h.status == Unlocked && h.numberOfMarkets == |c.markets| && h.feeRatio == c.feeRatio
            && h.lastFeeCollection == w.clock && h.feeCollectionPeriod == c.period
            && (forall i: u16 | i < |c.markets| :: UnpackMarket(m'.data[HEADER_LENGTH..], i) == Some(c.markets[i]))
            && OpenAssets(m'.data, h) == Ok(Initialized(FundedMints(c.amounts, accounts)))
            && HEADER_LENGTH + KEY_LENGTH * |c.markets| + KEY_LENGTH * |FundedMints(c.amounts, accounts)| <= |m'.data| == |w.m.data|
  {
    hide MintTo, PackHeader, UnpackHeader, Total, UserTransfer, FundFrom, Initialized, FundedMints;
    CreateNeedsEmpty(a, w.m, c, accounts, target, signed, w.clock);
    var (l, mints) := FundFrom(a, w.m.tokens.ledger, c.amounts, accounts, 0, []).value;
    FundsTheFunded(a, w.m.tokens.ledger, c.amounts, accounts, 0, []);
    assert c.amounts[0..] == c.amounts && accounts[0..] == accounts;
    var end := HEADER_LENGTH + KEY_LENGTH * |c.markets| + KEY_LENGTH * |mints|;
    var rest := w.m.data[end..];
    assert rest == Zeros(|w.m.data| - end) by {
      assert rest == w.m.data[HEADER_LENGTH..][end - HEADER_LENGTH..];
    }
    NoAssetsInZeros(|rest|);
    assert mints == FundedMints(c.amounts, accounts);
    var h := CreatedHeader(c, w.clock);
    assert m'.data == Image(h, c.markets, mints, rest);
    ImageReadsBack(h, c.markets, mints, rest);
    assert AssetsIn(m'.data[AssetOffset(h)..]) == Initialized(mints);
  }

  /** The mints of the assets with a non-zero amount, in order. */
  function FundedMints(amounts: seq<u64>, accounts: seq<TokenAccount>): seq<Pubkey>
    requires |amounts| <= |accounts|
  {
    if amounts == [] then []
    else (if amounts[0] == 0 then [] else [accounts[0].mint]) + FundedMints(amounts[1..], accounts[1..])
  }

  lemma {:induction false} FundsTheFunded(a: Addresses, l: Ledger, amounts: seq<u64>, accounts: seq<TokenAccount>, i: nat, mints: seq<Pubkey>)
    requires i <= |amounts| && 2 * |amounts| <= |accounts|
    requires FundFrom(a, l, amounts, accounts, i, mints).Ok?
    ensures FundFrom(a, l, amounts, accounts, i, mints).value.1 == mints + FundedMints(amounts[i..], accounts[i..])
    decreases |amounts| - i
  {
    hide UserTransfer;
    if i < |amounts| {
      assert amounts[i..][1..] == amounts[i + 1..] && accounts[i..][1..] == accounts[i + 1..];
      if amounts[i] == 0 {
        FundsTheFunded(a, l, amounts, accounts, i + 1, mints);
      } else {
        var l1 := UserTransfer(a, l, accounts[|amounts| + i], accounts[i], amounts[i]).value;
        FundsTheFunded(a, l1, amounts, accounts, i + 1, mints + [accounts[i].mint]);
      }
    }
  }

  /** A pool emptied by redemption is as good as new: creating on it yields, byte for byte, what creating on
      a freshly zeroed account of the same size yields. */
  lemma RecreateAsNew(a: Addresses, w: World, c: CreateArgs, accounts: seq<TokenAccount>, target: TokenAccount, signed: bool)
    requires Good(a, w) && w.m.tokens.total == 0
    ensures Create(a, w.m, c, accounts, target, signed, w.clock)
         == Create(a, w.m.(data := Zeros(|w.m.data|)), c, accounts, target, signed, w.clock)
  {
    hide MintTo, FundFrom, PackHeader, Total;
    var data := w.m.data;
    ZeroHeader(|data|);
    forall end | HEADER_LENGTH <= end <= |data| ensures data[end..] == Zeros(|data|)[end..] {
      assert data[end..] == data[HEADER_LENGTH..][end - HEADER_LENGTH..];
      assert Zeros(|data|)[end..] == Zeros(|data|)[HEADER_LENGTH..][end - HEADER_LENGTH..];
    }
  }
}

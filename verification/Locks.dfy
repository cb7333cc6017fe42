/** The redemption lock: when the fee gate can still be opened, and when it never opens again. */
module Locks {
  import opened Wrappers
  import opened Numbers
  import opened Bytes
  import opened Header
  import opened Layout
  import opened Tokens
  import opened FixedPoint
  import opened Processor
  import opened Fees
  import opened Runs

  /** An open pool whose fees are overdue. */
  ghost predicate Overdue(a: Addresses, w: World, h: PoolHeader) {
    Good(a, w) && OpenHeader(w.m.data) == Ok(h) && FeesOverdue(h, w.clock)
  }

  /** Neither a collection nor a redemption, by anyone and of any amount, succeeds here. */
  ghost predicate Refused(a: Addresses, w: World) {
    && Attempt(a, w, Collect).Err?
    && (forall step: Step | step.RedeemFrom? :: Attempt(a, w, step).Err?)
  }

  /** A collection at this moment would divide by a ratio that is not zero and keep the supply in 64 bits. */
  predicate Collectable(h: PoolHeader, supply: u64, now: u64)
    requires h.feeCollectionPeriod > 0
  {
    var f := FeelessRatio(h.feeRatio, FeeCycles(h, now));
    f > 0 && supply + Dilution(f, supply) < TWO_64
  }

  lemma OverdueTicks(a: Addresses, w: World, h: PoolHeader)
    requires Overdue(a, w, h)
    ensures w.m.tokens.total > 0 && Ticking(h, w.clock) && |w.m.data| >= HEADER_LENGTH && UnpackHeader(w.m.data) == h
    ensures FeeCycles(h, w.clock) >= 1
    ensures forall later: u64 | w.clock <= later :: FeesOverdue(h, later)
  {
    hide UnpackHeader, Total;
    FloorIff(w.clock - h.lastFeeCollection, h.feeCollectionPeriod, 1);
  }

  lemma CyclesGrow(h: PoolHeader, now: u64, later: u64)
    requires Ticking(h, now) && now <= later
    ensures FeeCycles(h, now) <= FeeCycles(h, later)
  {
    FloorMonotone(now - h.lastFeeCollection, later - h.lastFeeCollection, h.feeCollectionPeriod);
  }

  lemma OverdueRefuses(a: Addresses, w: World, h: PoolHeader, step: Step)
    requires Overdue(a, w, h) && step.RedeemFrom?
    ensures Attempt(a, w, step).Err?
  {
    hide CashOut, UnpackHeader, Good;
  }

  /** The collection panics exactly when the ratio is zero, and cannot succeed unless it is collectable. */
  lemma OverdueCollects(a: Addresses, w: World, h: PoolHeader)
    requires Overdue(a, w, h)
    ensures h.feeCollectionPeriod > 0
    ensures Attempt(a, w, Collect) == Err(Panic) <==> FeelessRatio(h.feeRatio, FeeCycles(h, w.clock)) == 0
    ensures Attempt(a, w, Collect).Ok? ==> Collectable(h, w.m.tokens.total, w.clock)
  {
    hide FeelessRatio, FeeCycles, Dilution, UnpackHeader, PackHeader, Good, MintFee;
    OverdueTicks(a, w, h);
    var n := FeeCycles(h, w.clock);
    var f := FeelessRatio(h.feeRatio, n);
    if f > 0 {
      CollectUnfolds(a, h, w.m.tokens, w.clock, n, f);
      var fee := Dilution(f, w.m.tokens.total);
      MintFeeNeverPanics(a, w.m.tokens, h.signalProvider, fee);
      if Attempt(a, w, Collect).Ok? {
        MintFeeIsExact(a, w.m.tokens, h.signalProvider, fee);
      }
    }
  }

  lemma MintFeeNeverPanics(a: Addresses, s: Supply, provider: Pubkey, fee: u64)
    ensures MintFee(a, s, provider, fee) != Err(Panic)
  {
  }

  /** While no collection succeeds, nothing that anyone does removes the lock; only a deposit changes the supply. */
  lemma StaysOverdue(a: Addresses, w: World, h: PoolHeader, step: Step)
    requires Overdue(a, w, h) && Attempt(a, w, Collect).Err?
    ensures Overdue(a, Next(a, w, step), h) && w.clock <= Next(a, w, step).clock
    ensures !step.DepositInto? ==> Next(a, w, step).m.tokens.total == w.m.tokens.total
  {
    hide Create, Deposit, Redeem, CollectFees, Settle, UnpackHeader, Total, UserTransfer, FeesOverdue;
    OverdueTicks(a, w, h);
    StepKeeps(a, w, step);
    var r := Attempt(a, w, step);
    if r.Ok? {
      match step
      case CreatePool(c, accounts, target, signed) =>
        CreateNeedsEmpty(a, w.m, c, accounts, target, signed, w.clock);
      case DepositInto(request, accounts, target, signed) =>
        DepositKeeps(a, w.m, request, accounts, target, signed, w.clock, r.value);
      case RedeemFrom(_, _, _, _) => OverdueRefuses(a, w, h, step);
      case Collect =>
      case SettleFunds(s) =>
        SettleKeeps(a, w.m, s, w.clock, r.value);
        SettleKeepsSupply(a, w.m, s, r.value);
      case _ => OutsideKeeps(a, w, step);
    }
  }

  lemma SettleKeepsSupply(a: Addresses, m: Machine, s: SettleArgs, m': Machine)
    requires Settle(a, m, s) == Ok(m')
    ensures m'.tokens.total == m.tokens.total
  {
    hide SlotAt, SetSlot, ToU64, UnpackHeader, PackHeader;
  }

  // ----- The ratio has run out -----

  /** If the remaining ratio is zero from now on, then after any steps whatsoever - deposits and settlements
      included - the collection panics and every redemption is refused. */
  lemma {:induction false} LockedAfterAnyRun(a: Addresses, w: World, h: PoolHeader, steps: seq<Step>)
    requires Overdue(a, w, h) && h.feeCollectionPeriod > 0
    requires forall later: u64 | w.clock <= later :: FeelessRatio(h.feeRatio, FeeCycles(h, later)) == 0
    ensures Refused(a, Run(a, w, steps)) && Attempt(a, Run(a, w, steps), Collect) == Err(Panic)
    decreases steps
  {
    hide Overdue, Attempt, Next, FeelessRatio, FeeCycles;
    OverdueCollects(a, w, h);
    if steps == [] {
      forall step: Step | step.RedeemFrom? ensures Attempt(a, w, step).Err? {
        OverdueRefuses(a, w, h, step);
      }
    } else {
      StaysOverdue(a, w, h, steps[0]);
      LockedAfterAnyRun(a, Next(a, w, steps[0]), h, steps[1..]);
    }
  }

  /** The collection panics after every run if and only if the ratio is zero at every later moment. */
  lemma PanicsForeverIff(a: Addresses, w: World, h: PoolHeader)
    requires Overdue(a, w, h)
    ensures h.feeCollectionPeriod > 0
    ensures (forall steps: seq<Step> :: Attempt(a, Run(a, w, steps), Collect) == Err(Panic))
       <==> forall later: u64 | w.clock <= later :: FeelessRatio(h.feeRatio, FeeCycles(h, later)) == 0
  {
    hide Overdue, Attempt, FeelessRatio, FeeCycles, Run;
    OverdueCollects(a, w, h);
    if forall later: u64 | w.clock <= later :: FeelessRatio(h.feeRatio, FeeCycles(h, later)) == 0 {
      forall steps: seq<Step> ensures Attempt(a, Run(a, w, steps), Collect) == Err(Panic) {
        LockedAfterAnyRun(a, w, h, steps);
      }
    } else {
      var later: u64 :| w.clock <= later && FeelessRatio(h.feeRatio, FeeCycles(h, later)) > 0;
      var wait := [Wait(later - w.clock)];
      WaitUntil(a, w, h, later);
      OverdueCollects(a, Run(a, w, wait), h);
    }
  }

  lemma WaitUntil(a: Addresses, w: World, h: PoolHeader, later: u64)
    requires Overdue(a, w, h) && w.clock <= later
    ensures Run(a, w, [Wait(later - w.clock)]) == World(w.m, later)
    ensures Overdue(a, World(w.m, later), h)
  {
    hide UnpackHeader, Total;
    var step := Wait(later - w.clock);
    assert [step][1..] == [];
    assert Next(a, w, step) == World(w.m, later);
    OverdueTicks(a, w, h);
    StepKeeps(a, w, step);
  }

  /** This is the case at once for fee ratio 65535, and for every fee ratio after 2^32 uncollected periods. */
  lemma LockedForGood(a: Addresses, w: World, h: PoolHeader, steps: seq<Step>)
    requires Overdue(a, w, h) && h.feeCollectionPeriod > 0
    requires h.feeRatio == 65535 || FeeCycles(h, w.clock) >= TWO_32
    ensures Refused(a, Run(a, w, steps)) && Attempt(a, Run(a, w, steps), Collect) == Err(Panic)
  {
    hide Overdue, Attempt, Run, FeelessRatio, FeeCycles, Refused, PowFixed;
    OverdueTicks(a, w, h);
    forall later: u64 | w.clock <= later ensures FeelessRatio(h.feeRatio, FeeCycles(h, later)) == 0 {
      CyclesGrow(h, w.clock, later);
      RatioIsPower(h.feeRatio, FeeCycles(h, later));
      if h.feeRatio != 65535 {
        VanishesEventually(65535 - h.feeRatio, FeeCycles(h, later));
      }
    }
    LockedAfterAnyRun(a, w, h, steps);
  }

  // ----- The exact condition -----

  predicate NoDeposits(steps: seq<Step>) {
    forall i | 0 <= i < |steps| :: !steps[i].DepositInto?
  }

  lemma {:induction false} LockedWithoutDeposits(a: Addresses, w: World, h: PoolHeader, steps: seq<Step>)
    requires Overdue(a, w, h) && h.feeCollectionPeriod > 0 && NoDeposits(steps)
    requires forall later: u64 | w.clock <= later :: !Collectable(h, w.m.tokens.total, later)
    ensures Refused(a, Run(a, w, steps))
    decreases steps
  {
    hide Overdue, Attempt, Next, Collectable;
    OverdueCollects(a, w, h);
    assert !Collectable(h, w.m.tokens.total, w.clock);
    if steps == [] {
      forall step: Step | step.RedeemFrom? ensures Attempt(a, w, step).Err? {
        OverdueRefuses(a, w, h, step);
      }
    } else {
      StaysOverdue(a, w, h, steps[0]);
      LockedWithoutDeposits(a, Next(a, w, steps[0]), h, steps[1..]);
    }
  }

  /** The steps that open a gate which can still be opened: the fee accounts, and then waiting for the moment. */
  function Unlocking(a: Addresses, h: PoolHeader, duration: nat): seq<Step> {
    [OpenAccount(Associated(h.signalProvider, a.poolMint)), OpenAccount(Associated(a.feeOwner, a.poolMint)),
     OpenAccount(Associated(a.bnbOwner, a.poolMint)), Wait(duration)]
  }

  lemma OpensAccount(a: Addresses, w: World, h: PoolHeader, x: TokenAccount)
    requires Overdue(a, w, h)
    ensures var w' := Next(a, w, OpenAccount(x));
            && Overdue(a, w', h) && w'.clock == w.clock && w'.m.tokens.total == w.m.tokens.total
            && w'.m.tokens.ledger.Keys == w.m.tokens.ledger.Keys + {x}
  {
    hide UnpackHeader, Total;
    StepKeeps(a, w, OpenAccount(x));
  }

  lemma UnlockingPrepares(a: Addresses, w: World, h: PoolHeader, later: u64)
    requires Overdue(a, w, h) && w.clock <= later
    ensures var w' := Run(a, w, Unlocking(a, h, later - w.clock));
            && Overdue(a, w', h) && w'.clock == later && w'.m.tokens.total == w.m.tokens.total
            && HasReceivers(a, w'.m.tokens.ledger, h.signalProvider)
  {
    hide Overdue, Next;
    var steps := Unlocking(a, h, later - w.clock);
    OpensAccount(a, w, h, steps[0].account);
    var w1 := Next(a, w, steps[0]);
    OpensAccount(a, w1, h, steps[1].account);
    var w2 := Next(a, w1, steps[1]);
    OpensAccount(a, w2, h, steps[2].account);
    var w3 := Next(a, w2, steps[2]);
    WaitUntil(a, w3, h, later);
    assert steps[1..][1..][1..] == [Wait(later - w.clock)];
    assert Run(a, w, steps) == Run(a, w1, steps[1..]);
    assert Run(a, w1, steps[1..]) == Run(a, w2, steps[1..][1..]);
    assert Run(a, w2, steps[1..][1..]) == Run(a, w3, [Wait(later - w.clock)]);
  }

  lemma CollectableSucceeds(a: Addresses, w: World, h: PoolHeader)
    requires Overdue(a, w, h) && HasReceivers(a, w.m.tokens.ledger, h.signalProvider)
    requires h.feeCollectionPeriod > 0 && Collectable(h, w.m.tokens.total, w.clock)
    ensures Attempt(a, w, Collect).Ok?
  {
    hide FeelessRatio, FeeCycles, Dilution, UnpackHeader, PackHeader, Total, HasReceivers, CollectFrom;
    OverdueTicks(a, w, h);
    CollectSucceedsIff(a, h, w.m.tokens, w.clock, FeelessRatio(h.feeRatio, FeeCycles(h, w.clock)));
  }

  /** Unless somebody deposits, an overdue pool is locked for ever if and only if at no later moment the ratio is
      non-zero and the minted amount keeps the supply in 64 bits. In every other case waiting for such a moment,
      opening the fee accounts and collecting opens the gate. */
  lemma LockedIff(a: Addresses, w: World, h: PoolHeader)
    requires Overdue(a, w, h)
    ensures h.feeCollectionPeriod > 0
    ensures (forall steps | NoDeposits(steps) :: Refused(a, Run(a, w, steps)))
       <==> forall later: u64 | w.clock <= later :: !Collectable(h, w.m.tokens.total, later)
  {
    hide Overdue, Attempt, Run, Collectable, HasReceivers;
    OverdueCollects(a, w, h);
    if forall later: u64 | w.clock <= later :: !Collectable(h, w.m.tokens.total, later) {
      forall steps | NoDeposits(steps) ensures Refused(a, Run(a, w, steps)) {
        LockedWithoutDeposits(a, w, h, steps);
      }
    } else {
      var later: u64 :| w.clock <= later && Collectable(h, w.m.tokens.total, later);
      var steps := Unlocking(a, h, later - w.clock);
      UnlockingPrepares(a, w, h, later);
      CollectableSucceeds(a, Run(a, w, steps), h);
      assert NoDeposits(steps);
    }
  }

  /** The supply can lock the gate where the ratio would not: at ratio 1 the minted amount is 65534 times the
      supply, and one period later the ratio is zero. */
  lemma LockedBySupply(a: Addresses, w: World, h: PoolHeader, steps: seq<Step>)
    requires Overdue(a, w, h) && h.feeCollectionPeriod > 0
    requires h.feeRatio == 65534 && FeeCycles(h, w.clock) == 1 && w.m.tokens.total == 281_479_271_743_490
    requires NoDeposits(steps)
    ensures FeelessRatio(h.feeRatio, FeeCycles(h, w.clock)) == 1
    ensures Refused(a, Run(a, w, steps))
  {
    hide Overdue, Refused, Run, FeeCycles, PowFixed, Dilution;
    OverdueTicks(a, w, h);
    assert FeelessRatio(65534, 1) == 1 by {
      PowerOfOne(1);
    }
    forall later: u64 | w.clock <= later ensures !Collectable(h, w.m.tokens.total, later) {
      CyclesGrow(h, w.clock, later);
      var n := FeeCycles(h, later);
      RatioIsPower(h.feeRatio, n);
      if n >= 2 {
        PowerDecreases(1, n);
      } else {
        MintsTooMuch(w.m.tokens.total);
      }
    }
    LockedWithoutDeposits(a, w, h, steps);
  }

  lemma MintsTooMuch(S: u64)
    requires S == 281_479_271_743_490
    ensures S + Dilution(1, S) >= TWO_64
  {
    assert ExactDilution(1, S) == 65534 * 281_479_271_743_490;
  }
}

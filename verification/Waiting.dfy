/** Collecting often, collecting rarely, and what a wait costs the holders. */
module Waiting {
  import opened Wrappers
  import opened Numbers
  import opened Bytes
  import opened Header
  import opened Tokens
  import opened FixedPoint
  import opened Processor
  import opened Fees
  import opened Conservation

  // ----- Waiting -----

  /** k collections in a row, each exactly one period after the one before. */
  function CollectEachPeriod(a: Addresses, h: PoolHeader, s: Supply, k: nat): Result<(PoolHeader, Supply)> {
    if k == 0 then Ok((h, s))
    else
      var (h', s') :- CollectEachPeriod(a, h, s, k - 1);
      if h'.lastFeeCollection + h'.feeCollectionPeriod >= TWO_64 then Err(Overflow)
      else CollectFrom(a, h', s', h'.lastFeeCollection + h'.feeCollectionPeriod)
  }

  lemma OnePeriod(a: Addresses, h: PoolHeader, s: Supply, now: u64)
    requires 0 < h.feeCollectionPeriod && now == h.lastFeeCollection + h.feeCollectionPeriod
    requires CollectFrom(a, h, s, now).Ok?
    ensures var (h', s') := CollectFrom(a, h, s, now).value;
            h' == h.(lastFeeCollection := now) && s'.total * (65535 - h.feeRatio) <= 65535 * s.total
  {
    hide MintFee, CollectFrom;
    var p, x := h.feeCollectionPeriod, 65535 - h.feeRatio;
    FloorUnique(p, p, 1);
    CollectMovesClock(a, h, s, now, 1);
    CollectMints(a, h, s, now, 1, x);
    DilutionIsExact(x, s.total);
    var T := CollectFrom(a, h, s, now).value.1.total;
    FloorIff(65535 * s.total, x, T);
  }

  /** Period-by-period collection compounds: S_k x^k <= S 65535^k. */
  lemma {:induction false} PeriodicSupply(a: Addresses, h: PoolHeader, s: Supply, k: nat)
    requires 0 < h.feeCollectionPeriod && CollectEachPeriod(a, h, s, k).Ok?
    ensures var (h', s') := CollectEachPeriod(a, h, s, k).value;
            && h' == h.(lastFeeCollection := h'.lastFeeCollection)
            && h'.lastFeeCollection == h.lastFeeCollection + k * h.feeCollectionPeriod
            && s'.total * Pow(65535 - h.feeRatio, k) <= s.total * Pow(65535, k)
  {
    hide MintFee, CollectFrom;
    if k > 0 {
      PeriodicSupply(a, h, s, k - 1);
      var (h1, s1) := CollectEachPeriod(a, h, s, k - 1).value;
      var p, x := h.feeCollectionPeriod, 65535 - h.feeRatio;
      var now := h1.lastFeeCollection + p;
      OnePeriod(a, h1, s1, now);
      assert k * p == (k - 1) * p + p;
      var T := CollectEachPeriod(a, h, s, k).value.1.total;
      CompoundStep(T, s1.total, x, s.total, Pow(x, k - 1), Pow(65535, k - 1));
    }
  }

  lemma CompoundStep(T: nat, S: nat, x: nat, S0: nat, xs: nat, full: nat)
    requires T * x <= 65535 * S
    requires S * xs <= S0 * full
    ensures T * (x * xs) <= S0 * (65535 * full)
  {
    MulMonotone(T * x, 65535 * S, xs, xs);
    assert (T * x) * xs == T * (x * xs);
    assert (65535 * S) * xs == 65535 * (S * xs);
    assert S0 * (65535 * full) == 65535 * (S0 * full);
  }

  lemma AtOnceAtLeast(S: nat, Sk: nat, f: nat, xk: nat, D: nat, rest: nat)
    requires f > 0 && D > 0 && f * D <= xk && rest <= D
    requires Sk * xk <= S * (65535 * rest)
    ensures Sk <= 65535 * S / f
  {
    MulMonotone(Sk, Sk, f * D, xk);
    MulMonotone(S, S, 65535 * rest, 65535 * D);
    assert S * (65535 * D) == (65535 * S) * D;
    assert Sk * (f * D) == (Sk * f) * D;
    CancelFactor(Sk * f, 65535 * S, D);
    FloorIff(65535 * S, f, Sk);
  }

  lemma RatioBelowPower(x: u16, k: u64, f: u16, S: nat, Sk: nat)
    requires k >= 1 && f == PowFixed(x, k) && f > 0
    requires Sk * Pow(x, k) <= S * Pow(65535, k)
    ensures Sk <= 65535 * S / f
  {
    ErrorBound(x, k);
    PowMonotone(65535, TWO_16, k - 1);
    PowPositive(TWO_16, k - 1);
    AtOnceAtLeast(S, Sk, f, Pow(x, k), Pow(TWO_16, k - 1), Pow(65535, k - 1));
  }

  /** Waiting never reduces the fee: from the same pool, collecting k periods at once leaves at least the
      supply that collecting after every single one of them leaves, and both end at the same stored time. */
  lemma WaitingNeverReducesTheFee(a: Addresses, h: PoolHeader, s: Supply, k: u64, now: u64, f: u16)
    requires k >= 1 && 0 < h.feeCollectionPeriod && now == h.lastFeeCollection + k * h.feeCollectionPeriod
    requires CollectFrom(a, h, s, now).Ok? && CollectEachPeriod(a, h, s, k).Ok?
    requires f == FeelessRatio(h.feeRatio, k) && (65535 - f) * s.total < TWO_64 * f
    ensures CollectFrom(a, h, s, now).value.1.total >= CollectEachPeriod(a, h, s, k).value.1.total
    ensures CollectFrom(a, h, s, now).value.0 == CollectEachPeriod(a, h, s, k).value.0
  {
    hide MintFee, Dilution, PowFixed, CollectFrom, CollectEachPeriod;
    var p, x := h.feeCollectionPeriod, 65535 - h.feeRatio;
    var kp := k * p;
    FloorUnique(kp, p, k) by { assert (k + 1) * p == kp + p; }
    assert FeeCycles(h, now) == k;
    CollectMovesClock(a, h, s, now, k);
    CollectDilutesExactlyIff(a, h, s, now, f);
    PeriodicSupply(a, h, s, k);
    RatioIsPower(h.feeRatio, k);
    RatioBelowPower(x, k, f, s.total, CollectEachPeriod(a, h, s, k).value.1.total);
  }

  // ----- Splitting -----

  /** k periods after the time stamp a collection covers exactly k periods. */
  lemma CyclesAfter(h: PoolHeader, k: u64, now: u64)
    requires 0 < h.feeCollectionPeriod && now == h.lastFeeCollection + k * h.feeCollectionPeriod
    ensures Ticking(h, now) && FeeCycles(h, now) == k
  {
    var p := h.feeCollectionPeriod;
    var kp := k * p;
    MulMonotone(0, k, 0, p);
    FloorUnique(kp, p, k) by { assert (k + 1) * p == kp + p; }
  }

  lemma CollectAfter(a: Addresses, h: PoolHeader, s: Supply, k: u64, now: u64, f: u16)
    requires 0 < h.feeCollectionPeriod && now == h.lastFeeCollection + k * h.feeCollectionPeriod
    requires f == FeelessRatio(h.feeRatio, k) && CollectFrom(a, h, s, now).Ok?
    ensures f > 0
    ensures var (h', s') := CollectFrom(a, h, s, now).value;
            && h' == h.(lastFeeCollection := now)
            && s'.total == s.total + Dilution(f, s.total) <= 65535 * s.total / f
            && ((65535 - f) * s.total < TWO_64 * f ==> s'.total == 65535 * s.total / f)
  {
    hide MintFee, CollectFrom, Dilution, ExactDilution, FeelessRatio, FeeCycles;
    CyclesAfter(h, k, now);
    CollectMovesClock(a, h, s, now, k);
    CollectMints(a, h, s, now, k, f);
    CutIff(f, s.total);
    DilutionIsExact(f, s.total);
    DilutionAtMost(f, s.total);
  }

  lemma DilutionAtMost(f: u16, S: u64)
    requires f > 0
    ensures Dilution(f, S) <= ExactDilution(f, S)
  {
  }

  /** Two collections, one after the other. */
  function CollectTwice(a: Addresses, h: PoolHeader, s: Supply, t1: u64, t2: u64): Result<(PoolHeader, Supply)> {
    var (h1, s1) :- CollectFrom(a, h, s, t1);
    CollectFrom(a, h1, s1, t2)
  }

  lemma SplitBound(S: nat, S1: nat, S2: nat, f1: nat, f2: nat, f: nat)
    requires f1 > 0 && f2 > 0 && f > 0 && 65535 * f <= f1 * f2
    requires S1 <= 65535 * S / f1 && S2 <= 65535 * S1 / f2
    ensures S2 <= 65535 * S / f
  {
    FloorIff(65535 * S, f1, S1);
    FloorIff(65535 * S1, f2, S2);
    CompoundStep(S2, S1, f2, S, f1, 65535);
    MulMonotone(S2, S2, 65535 * f, f2 * f1);
    assert S2 * (65535 * f) == 65535 * (S2 * f);
    FloorIff(65535 * S, f, S2);
  }

  /** Where two collections end that split k1 + k2 periods, and where a single one does. */
  lemma SplitAndWhole(a: Addresses, h: PoolHeader, s: Supply, k1: u64, k2: u64, t1: u64, t2: u64, f1: u16, f2: u16, f: u16)
    returns (S1: u64)
    requires 0 < h.feeCollectionPeriod && k1 + k2 < TWO_64
    requires t1 == h.lastFeeCollection + k1 * h.feeCollectionPeriod && t2 == h.lastFeeCollection + (k1 + k2) * h.feeCollectionPeriod
    requires f1 == FeelessRatio(h.feeRatio, k1) && f2 == FeelessRatio(h.feeRatio, k2) && f == FeelessRatio(h.feeRatio, k1 + k2)
    requires CollectTwice(a, h, s, t1, t2).Ok? && CollectFrom(a, h, s, t2).Ok?
    ensures f1 > 0 && f2 > 0 && f > 0
    ensures CollectTwice(a, h, s, t1, t2).value.0 == CollectFrom(a, h, s, t2).value.0
    ensures S1 <= 65535 * s.total / f1 && CollectTwice(a, h, s, t1, t2).value.1.total <= 65535 * S1 / f2
    ensures (65535 - f) * s.total < TWO_64 * f ==> CollectFrom(a, h, s, t2).value.1.total == 65535 * s.total / f
  {
    hide CollectFrom, Dilution, FeelessRatio;
    var p := h.feeCollectionPeriod;
    assert (k1 + k2) * p == k1 * p + k2 * p;
    CollectAfter(a, h, s, k1, t1, f1);
    var (h1, s1) := CollectFrom(a, h, s, t1).value;
    CollectAfter(a, h1, s1, k2, t2, f2);
    CollectAfter(a, h, s, k1 + k2, t2, f);
    S1 := s1.total;
  }

  /** If the ratios satisfy 65535 f(k1 + k2) <= f(k1) f(k2), collecting k1 and then k2 periods never leaves a
      larger supply than collecting them at once, and both end with the same header. */
  lemma SplittingNeverCostsMore(a: Addresses, h: PoolHeader, s: Supply, k1: u64, k2: u64, t1: u64, t2: u64, f1: u16, f2: u16, f: u16)
    requires 0 < h.feeCollectionPeriod && k1 + k2 < TWO_64
    requires t1 == h.lastFeeCollection + k1 * h.feeCollectionPeriod && t2 == h.lastFeeCollection + (k1 + k2) * h.feeCollectionPeriod
    requires f1 == FeelessRatio(h.feeRatio, k1) && f2 == FeelessRatio(h.feeRatio, k2) && f == FeelessRatio(h.feeRatio, k1 + k2)
    requires 65535 * f <= f1 * f2 && (65535 - f) * s.total < TWO_64 * f
    requires CollectTwice(a, h, s, t1, t2).Ok? && CollectFrom(a, h, s, t2).Ok?
    ensures CollectTwice(a, h, s, t1, t2).value.1.total <= CollectFrom(a, h, s, t2).value.1.total
    ensures CollectTwice(a, h, s, t1, t2).value.0 == CollectFrom(a, h, s, t2).value.0
  {
    hide *;
    var S1 := SplitAndWhole(a, h, s, k1, k2, t1, t2, f1, f2, f);
    SplitBound(s.total, S1, CollectTwice(a, h, s, t1, t2).value.1.total, f1, f2, f);
  }

  // ----- When splitting costs more -----

  function Opened(l: Ledger, x: TokenAccount): Ledger {
    if x in l then l else l[x := 0]
  }

  lemma OpenedKeepsTotal(l: Ledger, x: TokenAccount, mint: Pubkey)
    ensures Total(Opened(l, x), mint) == Total(l, mint)
  {
    if x !in l {
      OpenConserves(l, x, mint);
    }
  }

  /** A pool token of any supply S, all held by one account, with every fee receiver open. */
  lemma SomeSupply(a: Addresses, provider: Pubkey, S: u64) returns (s: Supply)
    ensures s.total == S && Backed(s, a.poolMint) && HasReceivers(a, s.ledger, provider)
  {
    var holder := Plain(a.pool, a.poolMint);
    var l0: Ledger := map[];
    assert OfMint(l0, a.poolMint) == map[];
    OpenedKeepsTotal(l0, holder, a.poolMint);
    var l1 := Opened(l0, holder);
    OpenedKeepsTotal(l1, Associated(provider, a.poolMint), a.poolMint);
    var l2 := Opened(l1, Associated(provider, a.poolMint));
    OpenedKeepsTotal(l2, Associated(a.feeOwner, a.poolMint), a.poolMint);
    var l3 := Opened(l2, Associated(a.feeOwner, a.poolMint));
    OpenedKeepsTotal(l3, Associated(a.bnbOwner, a.poolMint), a.poolMint);
    var l4 := Opened(l3, Associated(a.bnbOwner, a.poolMint));
    TotalUpdate(l4, holder, S, a.poolMint);
    s := Supply(S, l4[holder := S]);
  }

  /** A collection whose minted amount is known goes through and keeps the pool's bookkeeping intact. */
  lemma CollectGoesThrough(a: Addresses, h: PoolHeader, s: Supply, k: u64, now: u64, f: u16, S': u64)
    requires 0 < h.feeCollectionPeriod && k >= 1 && now == h.lastFeeCollection + k * h.feeCollectionPeriod
    requires f == FeelessRatio(h.feeRatio, k) && f > 0
    requires S' * f <= 65535 * s.total < (S' + 1) * f
    requires Backed(s, a.poolMint) && HasReceivers(a, s.ledger, h.signalProvider)
    ensures CollectFrom(a, h, s, now).Ok?
    ensures var (h', s') := CollectFrom(a, h, s, now).value;
            && h' == h.(lastFeeCollection := now) && s'.total == S'
            && Backed(s', a.poolMint) && HasReceivers(a, s'.ledger, h.signalProvider)
  {
    hide MintFee, Dilution, ExactDilution, FeelessRatio, FeeCycles, Total;
    CyclesAfter(h, k, now);
    FloorUnique(65535 * s.total, f, S');
    DilutionIsExact(f, s.total);
    DilutionFits(f, s.total);
    CollectSucceedsIff(a, h, s, now, f);
    CollectUnfolds(a, h, s, now, k, f);
    MintFeeConserved(a, s, h.signalProvider, Dilution(f, s.total));
    MintFeeIsExact(a, s, h.signalProvider, Dilution(f, s.total));
    ClockAdvances(h, now, k);
  }

  lemma DilutionFits(f: u16, S: u64)
    requires f > 0 && S + ExactDilution(f, S) < TWO_64
    ensures Dilution(f, S) == ExactDilution(f, S)
  {
  }

  lemma GapNumbers(f1: u16, f2: u16, f: u16) returns (S: u64, S1: u64, S2: u64, S0: u64)
    requires f1 > 0 && f2 > 0 && f > 0 && 65535 * f > f1 * f2
    ensures S1 * f1 <= 65535 * S < (S1 + 1) * f1
    ensures S2 * f2 <= 65535 * S1 < (S2 + 1) * f2
    ensures S0 * f <= 65535 * S < (S0 + 1) * f
    ensures (65535 - f) * S < TWO_64 * f && S2 > S0
  {
    var q, r := f1 * f2, f2 * f;
    MulMonotone(f1, 65535, f2, 65535);
    MulMonotone(f2, 65535, f, 65535);
    MulMonotone(q, 65535 * 65535, f, 65535);
    S, S1, S2, S0 := q * f, 65535 * r, 65535 * 65535 * f, 65535 * q;
    assert 65535 * S == S1 * f1 by { assert q * f == r * f1; }
    assert 65535 * S1 == S2 * f2 by { assert r == f * f2; }
    assert 65535 * S == S0 * f;
    assert (S1 + 1) * f1 == S1 * f1 + f1;
    assert (S2 + 1) * f2 == S2 * f2 + f2;
    assert (S0 + 1) * f == S0 * f + f;
    MulMonotone(65535 - f, 65535, S, S);
    MulMonotone(65535 * q, TWO_64 - 1, f, f);
  }

  /** Nobody pays more by splitting a wait of k1 + k2 periods into two collections, whatever the supply, if and
      only if 65535 f(k1 + k2) <= f(k1) f(k2). */
  lemma SplittingNeverCostsMoreIff(a: Addresses, h: PoolHeader, k1: u64, k2: u64, t1: u64, t2: u64, f1: u16, f2: u16, f: u16)
    requires 0 < h.feeCollectionPeriod && k1 >= 1 && k2 >= 1 && k1 + k2 < TWO_64
    requires t1 == h.lastFeeCollection + k1 * h.feeCollectionPeriod && t2 == h.lastFeeCollection + (k1 + k2) * h.feeCollectionPeriod
    requires f1 == FeelessRatio(h.feeRatio, k1) && f2 == FeelessRatio(h.feeRatio, k2) && f == FeelessRatio(h.feeRatio, k1 + k2)
    requires f1 > 0 && f2 > 0 && f > 0
    ensures (forall s: Supply | Backed(s, a.poolMint) && (65535 - f) * s.total < TWO_64 * f
                             && CollectTwice(a, h, s, t1, t2).Ok? && CollectFrom(a, h, s, t2).Ok? ::
               CollectTwice(a, h, s, t1, t2).value.1.total <= CollectFrom(a, h, s, t2).value.1.total)
       <==> 65535 * f <= f1 * f2
  {
    hide CollectFrom, FeelessRatio, Total;
    if 65535 * f <= f1 * f2 {
      forall s: Supply | (65535 - f) * s.total < TWO_64 * f && CollectTwice(a, h, s, t1, t2).Ok? && CollectFrom(a, h, s, t2).Ok?
        ensures CollectTwice(a, h, s, t1, t2).value.1.total <= CollectFrom(a, h, s, t2).value.1.total
      {
        SplittingNeverCostsMore(a, h, s, k1, k2, t1, t2, f1, f2, f);
      }
    } else {
      var S, S1, S2, S0 := GapNumbers(f1, f2, f);
      var s := SomeSupply(a, h.signalProvider, S);
      SplitGap(a, h, s, k1, k2, t1, t2, f1, f2, f, S1, S2, S0);
    }
  }

  /** Both ways of collecting, evaluated. */
  lemma SplitGap(a: Addresses, h: PoolHeader, s: Supply, k1: u64, k2: u64, t1: u64, t2: u64, f1: u16, f2: u16, f: u16,
                 S1: u64, S2: u64, S0: u64)
    requires 0 < h.feeCollectionPeriod && k1 >= 1 && k2 >= 1 && k1 + k2 < TWO_64
    requires t1 == h.lastFeeCollection + k1 * h.feeCollectionPeriod && t2 == h.lastFeeCollection + (k1 + k2) * h.feeCollectionPeriod
    requires f1 == FeelessRatio(h.feeRatio, k1) && f2 == FeelessRatio(h.feeRatio, k2) && f == FeelessRatio(h.feeRatio, k1 + k2)
    requires f1 > 0 && f2 > 0 && f > 0 && Backed(s, a.poolMint) && HasReceivers(a, s.ledger, h.signalProvider)
    requires S1 * f1 <= 65535 * s.total < (S1 + 1) * f1
    requires S2 * f2 <= 65535 * S1 < (S2 + 1) * f2
    requires S0 * f <= 65535 * s.total < (S0 + 1) * f
    ensures CollectTwice(a, h, s, t1, t2).Ok? && CollectTwice(a, h, s, t1, t2).value.1.total == S2
    ensures CollectFrom(a, h, s, t2).Ok? && CollectFrom(a, h, s, t2).value.1.total == S0
  {
    hide CollectFrom, FeelessRatio, Total;
    var p := h.feeCollectionPeriod;
    assert (k1 + k2) * p == k1 * p + k2 * p;
    CollectGoesThrough(a, h, s, k1, t1, f1, S1);
    var (h1, s1) := CollectFrom(a, h, s, t1).value;
    CollectGoesThrough(a, h1, s1, k2, t2, f2, S2);
    CollectGoesThrough(a, h, s, k1 + k2, t2, f, S0);
  }

  /** It can cost more: on 64516 tokens with no fee at all, collecting 1023 periods and then one more leaves a
      supply of 65535, collecting 1024 at once one of 65533. */
  lemma SplittingCanCostMore(a: Addresses, h: PoolHeader, s: Supply, t1: u64, t2: u64)
    requires h.feeRatio == 0 && 0 < h.feeCollectionPeriod
    requires t1 == h.lastFeeCollection + 1023 * h.feeCollectionPeriod && t2 == t1 + h.feeCollectionPeriod
    requires s.total == 64516 && Backed(s, a.poolMint) && HasReceivers(a, s.ledger, h.signalProvider)
    ensures CollectTwice(a, h, s, t1, t2).Ok? && CollectTwice(a, h, s, t1, t2).value.1.total == 65535
    ensures CollectFrom(a, h, s, t2).Ok? && CollectFrom(a, h, s, t2).value.1.total == 65533
  {
    hide CollectFrom, CollectTwice, PowFixed, Total;
    NotMonotoneInExponent(65535, 1023);
    RatioIsPower(0, 1023);
    RatioIsPower(0, 1);
    RatioIsPower(0, 1024);
    PowerOfOne(65535);
    SplitGap(a, h, s, 1023, 1, t1, t2, 64516, 65535, 64517, 65535, 65535, 65533);
  }

  // ----- Collections that cost nothing -----

  /** A collection leaves the supply as it is if and only if the fee of its ratio rounds to nothing. */
  lemma CollectionIsFreeIff(a: Addresses, h: PoolHeader, s: Supply, now: u64, f: u16)
    requires Ticking(h, now) && CollectFrom(a, h, s, now).Ok?
    requires f == FeelessRatio(h.feeRatio, FeeCycles(h, now)) && (65535 - f) * s.total < TWO_64 * f
    ensures CollectFrom(a, h, s, now).value.1.total == s.total <==> (65535 - f) * s.total < f
  {
    hide CollectFrom, FeelessRatio, FeeCycles;
    CollectMints(a, h, s, now, FeeCycles(h, now), f);
    FloorIff((65535 - f) * s.total, f, TWO_64);
    FloorIff((65535 - f) * s.total, f, 1);
  }

  /** With fee ratio 0, n periods cost nothing at any supply if and only if n = 1: from two periods on, truncation
      alone leaves a ratio below 65535. */
  lemma ZeroFeeIsFreeIff(n: u64, f: u16)
    requires n >= 1 && f == FeelessRatio(0, n) && f > 0
    ensures (forall S: u64 :: Dilution(f, S) == 0) <==> n == 1
  {
    hide Dilution, FeelessRatio, PowFixed;
    RatioIsPower(0, n);
    if n == 1 {
      PowerOfOne(65535);
      forall S: u64 ensures Dilution(f, S) == 0 {
        FullRatioMintsNothing(S);
      }
    } else {
      PowerDecreases(65535, n);
      MintsOnFullSupply(f);
    }
  }

  lemma FullRatioMintsNothing(S: u64)
    ensures Dilution(65535, S) == 0
  {
  }

  lemma MintsOnFullSupply(f: u16)
    requires 0 < f < 65535
    ensures Dilution(f, 65535) > 0
  {
    FloorIff((65535 - f) * 65535, f, 1);
    FloorIff((65535 - f) * 65535, f, TWO_64);
  }

  /** Two periods at once without any fee ratio are free exactly for supplies below 65534. */
  lemma TwoPeriodsAtZeroFee(a: Addresses, h: PoolHeader, s: Supply, now: u64)
    requires Ticking(h, now) && h.feeRatio == 0 && FeeCycles(h, now) == 2 && CollectFrom(a, h, s, now).Ok?
    ensures CollectFrom(a, h, s, now).value.1.total == s.total <==> s.total < 65534
  {
    hide CollectFrom, FeeCycles;
    assert FeelessRatio(0, 2) == 65534 by {
      PowerOfOne(65535);
      assert MulShift(65535, 65535) == 65534;
    }
    CollectionIsFreeIff(a, h, s, now, 65534);
  }
}

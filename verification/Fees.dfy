/** Fee collection: dilution, schedules and the redemption lock. */
module Fees {
  import opened Wrappers
  import opened Numbers
  import opened Bytes
  import opened Header
  import opened Tokens
  import opened FixedPoint
  import opened Processor

  // ----- Dilution -----

  /** Minting M tokens on a supply S at ratio f leaves the holders f / 65535 of the pool, to within one
      token: the receivers' part M is c / 65535 of the new supply, c = 65535 - f. */
  lemma DilutionIsExact(f: u16, S: u64)
    requires f > 0
    ensures var c, M := 65535 - f, ExactDilution(f, S);
            && c * (S + M) - f < 65535 * M <= c * (S + M)
            && S + M == 65535 * S / f
  {
    var c, M := 65535 - f, ExactDilution(f, S);
    FloorBounds(c * S, f);
    assert c * (S + M) == c * S + c * M;
    assert 65535 * M == c * M + M * f;
    assert (M + 1) * f == M * f + f;
    assert 65535 * S == c * S + S * f;
    assert (S + M) * f == S * f + M * f;
    assert (S + M + 1) * f == (S + M) * f + f;
    FloorUnique(65535 * S, f, S + M);
  }

  /** How much of a fee one account receives; the three receivers may be the same account. */
  function FeePart(a: Addresses, provider: Pubkey, fee: u64, x: TokenAccount): nat {
    (if x == Associated(provider, a.poolMint) then fee / 2 else 0)
    + (if x == Associated(a.feeOwner, a.poolMint) then fee / 4 else 0)
    + (if x == Associated(a.bnbOwner, a.poolMint) then fee - fee / 4 - fee / 2 else 0)
  }

  lemma FeePartIsZero(a: Addresses, provider: Pubkey, fee: u64)
    ensures forall x: TokenAccount | x.mint != a.poolMint :: FeePart(a, provider, fee, x) == 0
    ensures fee == 0 ==> forall x :: FeePart(a, provider, fee, x) == 0
  {
  }

  predicate HasReceivers(a: Addresses, l: Ledger, provider: Pubkey) {
    Associated(provider, a.poolMint) in l && Associated(a.feeOwner, a.poolMint) in l && Associated(a.bnbOwner, a.poolMint) in l
  }

  /** The fee is minted in full, each receiver gets its part, and nobody else's balance changes. */
  lemma MintFeeIsExact(a: Addresses, s: Supply, provider: Pubkey, fee: u64)
    requires MintFee(a, s, provider, fee).Ok?
    ensures var s' := MintFee(a, s, provider, fee).value;
            && s'.total == s.total + fee
            && s'.ledger.Keys == s.ledger.Keys
            && (forall x | x in s.ledger :: s'.ledger[x] == s.ledger[x] + FeePart(a, provider, fee, x))
  {
  }

  lemma MintToSucceedsIff(s: Supply, mint: Pubkey, to: TokenAccount, amount: u64)
    requires Backed(s, mint) && to in s.ledger && to.mint == mint
    ensures MintTo(s, mint, to, amount).Ok? <==> s.total + amount < TWO_64
  {
    BalanceAtMostTotal(s.ledger, to);
  }

  /** With the supply backed by the accounts, minting a fee fails only when the supply itself overflows. */
  lemma MintFeeSucceedsIff(a: Addresses, s: Supply, provider: Pubkey, fee: u64)
    requires Backed(s, a.poolMint) && HasReceivers(a, s.ledger, provider)
    ensures MintFee(a, s, provider, fee).Ok? <==> s.total + fee < TWO_64
  {
    var p1, p2, p3 := Associated(provider, a.poolMint), Associated(a.feeOwner, a.poolMint), Associated(a.bnbOwner, a.poolMint);
    MintToSucceedsIff(s, a.poolMint, p1, fee / 2);
    if s.total + fee / 2 < TWO_64 {
      MintToKeepsBacking(s, a.poolMint, p1, fee / 2, a.poolMint);
      var s1 := MintTo(s, a.poolMint, p1, fee / 2).value;
      MintToSucceedsIff(s1, a.poolMint, p2, fee / 4);
      if s1.total + fee / 4 < TWO_64 {
        MintToKeepsBacking(s1, a.poolMint, p2, fee / 4, a.poolMint);
        var s2 := MintTo(s1, a.poolMint, p2, fee / 4).value;
        MintToSucceedsIff(s2, a.poolMint, p3, fee - fee / 4 - fee / 2);
      }
    }
  }

  // ----- One collection -----

  /** A sound fee clock. */
  predicate Ticking(h: PoolHeader, now: u64) {
    0 < h.feeCollectionPeriod && h.lastFeeCollection <= now
  }

  lemma NoWrap(n: nat)
    requires n < TWO_64
    ensures n % TWO_64 == n
  {
  }

  /** The clock arithmetic never wraps on a sound clock: the stored time moves forward by whole
      periods, stays at or before the clock, and ends less than one period behind it. */
  lemma ClockAdvances(h: PoolHeader, now: u64, n: u64)
    requires Ticking(h, now) && n == FeeCycles(h, now)
    ensures h.lastFeeCollection + n * h.feeCollectionPeriod <= now
    ensures now < h.lastFeeCollection + n * h.feeCollectionPeriod + h.feeCollectionPeriod
    ensures AdvanceClock(h, n) == h.(lastFeeCollection := h.lastFeeCollection + n * h.feeCollectionPeriod)
  {
    var d, p := now - h.lastFeeCollection, h.feeCollectionPeriod;
    FloorIff(d, p, n);
    FloorIff(d, p, n + 1);
    var np := n * p;
    assert (n + 1) * p == np + p;
    NoWrap(np);
    NoWrap(h.lastFeeCollection + np);
  }

  /** Right after a collection, and until a whole period has passed, there is nothing to collect. */
  lemma NothingDueIff(h: PoolHeader, now: u64)
    requires Ticking(h, now)
    ensures FeeCycles(h, now) == 0 <==> now < h.lastFeeCollection + h.feeCollectionPeriod
  {
    FloorIff(now - h.lastFeeCollection, h.feeCollectionPeriod, 1);
  }

  lemma RatioIsPower(feeRatio: u16, n: u64)
    ensures FeelessRatio(feeRatio, n) == PowFixed(65535 - feeRatio, n) <= 65535 - feeRatio
  {
    AtMostBase(65535 - feeRatio, n);
  }

  /** What a collection is, once the clock arithmetic is known not to wrap. */
  lemma CollectUnfolds(a: Addresses, h: PoolHeader, s: Supply, now: u64, n: u64, f: u16)
    requires 0 < h.feeCollectionPeriod && n == FeeCycles(h, now) && n >= 1
    requires f == FeelessRatio(h.feeRatio, n) && f > 0
    ensures CollectFrom(a, h, s, now) ==
              var r := MintFee(a, s, h.signalProvider, Dilution(f, s.total));
              if r.Err? then Err(r.error) else Ok((AdvanceClock(h, n), r.value))
  {
  }

  lemma CollectNeedsRatio(a: Addresses, h: PoolHeader, s: Supply, now: u64, n: u64)
    requires Ticking(h, now) && n == FeeCycles(h, now)
    requires CollectFrom(a, h, s, now).Ok?
    ensures n >= 1 && FeelessRatio(h.feeRatio, n) > 0
  {
  }

  /** A successful collection moves the header's time stamp to the last whole period before the clock ... */
  lemma CollectMovesClock(a: Addresses, h: PoolHeader, s: Supply, now: u64, n: u64)
    requires Ticking(h, now) && n == FeeCycles(h, now)
    requires CollectFrom(a, h, s, now).Ok?
    ensures var h' := CollectFrom(a, h, s, now).value.0;
            && h' == h.(lastFeeCollection := h'.lastFeeCollection)
            && h'.lastFeeCollection == h.lastFeeCollection + n * h.feeCollectionPeriod
            && h'.lastFeeCollection <= now < h'.lastFeeCollection + h.feeCollectionPeriod
            && FeeCycles(h', now) == 0
  {
    hide FeelessRatio, MintFee, Dilution, FeeCycles, CollectFrom, AdvanceClock;
    CollectNeedsRatio(a, h, s, now, n);
    var f := FeelessRatio(h.feeRatio, n);
    CollectUnfolds(a, h, s, now, n, f);
    assert CollectFrom(a, h, s, now).value.0 == AdvanceClock(h, n);
    ClockAdvances(h, now, n);
    NothingDueIff(AdvanceClock(h, n), now);
  }

  /** ... and mints the dilution. */
  lemma CollectMints(a: Addresses, h: PoolHeader, s: Supply, now: u64, n: u64, f: u16)
    requires Ticking(h, now) && n == FeeCycles(h, now) && f == FeelessRatio(h.feeRatio, n)
    requires CollectFrom(a, h, s, now).Ok?
    ensures n >= 1 && f > 0
    ensures var s' := CollectFrom(a, h, s, now).value.1;
            s'.total == s.total + Dilution(f, s.total) && s'.ledger.Keys == s.ledger.Keys
  {
    CollectNeedsRatio(a, h, s, now, n);
    CollectUnfolds(a, h, s, now, n, f);
    MintFeeIsExact(a, s, h.signalProvider, Dilution(f, s.total));
  }

  lemma CutIff(f: u16, S: u64)
    requires f > 0
    ensures S + Dilution(f, S) == 65535 * S / f <==> (65535 - f) * S < TWO_64 * f
  {
    DilutionIsExact(f, S);
    FloorIff((65535 - f) * S, f, TWO_64);
  }

  /** After a collection the supply is the exact floor(65535 S / f) if and only if the minted amount
      was not cut to 64 bits, which the caller can see from the supply and the ratio. */
  lemma CollectDilutesExactlyIff(a: Addresses, h: PoolHeader, s: Supply, now: u64, f: u16)
    requires Ticking(h, now) && CollectFrom(a, h, s, now).Ok?
    requires f == FeelessRatio(h.feeRatio, FeeCycles(h, now))
    ensures f > 0
    ensures CollectFrom(a, h, s, now).value.1.total == 65535 * s.total / f <==> (65535 - f) * s.total < TWO_64 * f
  {
    CollectMints(a, h, s, now, FeeCycles(h, now), f);
    CutIff(f, s.total);
  }

  /** The cut can happen: half the 64-bit range at the smallest ratio mints nothing at all. */
  lemma DilutionCanBeCut(S: u64)
    requires S == 0x8000_0000_0000_0000
    ensures ExactDilution(1, S) > 0 && Dilution(1, S) == 0
  {
    assert ExactDilution(1, S) == 65534 * S / 1;
    assert 65534 * S == 32767 * TWO_64;
  }

  /** When a collection with something to collect goes through. */
  lemma CollectSucceedsIff(a: Addresses, h: PoolHeader, s: Supply, now: u64, f: u16)
    requires Ticking(h, now) && FeeCycles(h, now) >= 1 && f == FeelessRatio(h.feeRatio, FeeCycles(h, now))
    requires Backed(s, a.poolMint) && HasReceivers(a, s.ledger, h.signalProvider)
    ensures CollectFrom(a, h, s, now).Ok? <==> f > 0 && s.total + Dilution(f, s.total) < TWO_64
  {
    if f > 0 {
      MintFeeSucceedsIff(a, s, h.signalProvider, Dilution(f, s.total));
    }
  }

  /** On the account: the header is replaced, the rest of the bytes stay, and the new header reads back. */
  lemma CollectFeesEffect(a: Addresses, m: Machine, now: u64)
    requires OpenHeader(m.data).Ok? && CollectFees(a, m, now).Ok?
    ensures var m', (h', s') := CollectFees(a, m, now).value, CollectFrom(a, OpenHeader(m.data).value, m.tokens, now).value;
            && OpenHeader(m'.data) == Ok(h') && m'.tokens == s'
            && |m'.data| == |m.data| && m'.data[HEADER_LENGTH..] == m.data[HEADER_LENGTH..]
  {
    var h := OpenHeader(m.data).value;
    var (h', s') := CollectFrom(a, h, m.tokens, now).value;
    DecodedRepresentable(m.data);
    HeaderRoundTrip(h', m.data[HEADER_LENGTH..]);
  }

  lemma DecodedRepresentable(data: seq<byte>)
    requires |data| >= HEADER_LENGTH
    ensures Representable(UnpackHeader(data).status)
  {
  }

  // ----- The redemption lock -----

  /** Whenever the fee gate refuses redemption there is a cycle to collect; collecting it opens the gate
      at that same moment, and a second collection finds nothing. */
  lemma CollectingOpensTheGate(a: Addresses, h: PoolHeader, s: Supply, now: u64)
    requires Ticking(h, now) && FeesOverdue(h, now)
    ensures FeeCycles(h, now) >= 1
    ensures CollectFrom(a, h, s, now).Ok? ==>
              var (h', s') := CollectFrom(a, h, s, now).value;
              !FeesOverdue(h', now) && CollectFrom(a, h', s', now) == Err(LockedOperation)
  {
    FloorIff(now - h.lastFeeCollection, h.feeCollectionPeriod, 1);
    if CollectFrom(a, h, s, now).Ok? {
      CollectMovesClock(a, h, s, now, FeeCycles(h, now));
    }
  }
}

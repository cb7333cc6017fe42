/** Settlement: the countdown of pending orders and the write-once asset slots. */
module Settlement {
  import opened Wrappers
  import opened Numbers
  import opened Bytes
  import opened Header
  import opened Layout
  import opened Tokens
  import opened Processor

  function Pending(status: PoolStatus): nat {
    if status.PendingOrder? || status.LockedPendingOrder? then status.pending else 0
  }

  predicate LockHalf(status: PoolStatus) {
    status.Locked? || status.LockedPendingOrder?
  }

  /** The four balances of the open-orders account. */
  function FreeCoin(s: SettleArgs): u64
    requires |s.openOrders| >= 109
  {
    ToU64(s.openOrders[77..85])
  }

  function TotalCoin(s: SettleArgs): u64
    requires |s.openOrders| >= 109
  {
    ToU64(s.openOrders[85..93])
  }

  function FreePc(s: SettleArgs): u64
    requires |s.openOrders| >= 109
  {
    ToU64(s.openOrders[93..101])
  }

  function TotalPc(s: SettleArgs): u64
    requires |s.openOrders| >= 109
  {
    ToU64(s.openOrders[101..109])
  }

  /** Nothing of the order is left in the dex but what this settlement takes out. */
  predicate Completes(s: SettleArgs) {
    |s.openOrders| >= 109 && FreeCoin(s) == TotalCoin(s) && FreePc(s) == TotalPc(s)
  }

  /** A pool whose asset region is inside the account. */
  ghost predicate Laid(m: Machine, h: PoolHeader, region: seq<byte>) {
    OpenHeader(m.data) == Ok(h) && AssetOffset(h) <= |m.data| && region == m.data[AssetOffset(h)..]
  }

  /** Slots other than the two named ones keep their key, even across the wrap-around of their offsets. */
  ghost predicate OthersUntouched(before: seq<byte>, after: seq<byte>, i: u64, j: u64) {
    && |before| == |after|
    && forall k: nat | 32 * k + 32 <= |before| && k != SlotOf(i) && k != SlotOf(j) :: Slot(after, k) == Slot(before, k)
  }

  /** The two slot writes of a settlement: an initialized slot keeps its key. */
  lemma SlotWrites(region: seq<byte>, i: u64, j: u64, coin: Pubkey, pc: Pubkey)
    requires SlotInRange(region, i) && SlotInRange(region, j)
    requires Claim(SlotAt(region, i), coin).Ok? && Claim(SlotAt(region, j), pc).Ok?
    ensures var after := SetSlot(SetSlot(region, i, coin), j, pc);
            && Preserves(region, after) && OthersUntouched(region, after, i, j)
            && Slot(after, SlotOf(j)) == pc && (SlotOf(i) != SlotOf(j) ==> Slot(after, SlotOf(i)) == coin)
  {
    SlotOffsetWraps(i);
    SlotOffsetWraps(j);
    var mid := SetSlot(region, i, coin);
    var after := SetSlot(mid, j, pc);
    assert SlotAt(region, i) == Slot(region, SlotOf(i)) && SlotAt(region, j) == Slot(region, SlotOf(j));
    forall k: nat | 32 * k + 32 <= |region|
      ensures Slot(after, k) == if k == SlotOf(j) then pc else if k == SlotOf(i) then coin else Slot(region, k)
    {
      PatchSlot(region, i, coin, k);
      PatchSlot(mid, j, pc, k);
    }
  }

  lemma HeaderSwap(data: seq<byte>, h: PoolHeader, h': PoolHeader, slots: seq<byte>)
    requires |data| >= AssetOffset(h) && h' == h.(status := h'.status) && Representable(h'.status)
    requires |slots| == |data| - AssetOffset(h)
    ensures var data' := WithHeader(data, h')[..AssetOffset(h)] + slots;
            && |data'| == |data| && UnpackHeader(data') == h' && data'[AssetOffset(h')..] == slots
            && data'[HEADER_LENGTH..AssetOffset(h)] == data[HEADER_LENGTH..AssetOffset(h)]
  {
    var at := AssetOffset(h);
    var data' := WithHeader(data, h')[..at] + slots;
    var tail := data[HEADER_LENGTH..at] + slots;
    assert data' == PackHeader(h') + tail;
    HeaderRoundTrip(h', tail);
  }

  lemma NotThePools(a: Addresses, l: Ledger, from: TokenAccount, to: TokenAccount, amount: u64)
    requires UserTransfer(a, l, from, to, amount).Ok?
    ensures !(from.Associated? && from.owner == a.pool) && UserTransfer(a, l, from, to, amount) == Transfer(l, from, to, amount)
  {
  }

  /** What the invoked program pays: each wallet gains its amount, each vault loses it, and no other account changes. */
  lemma DexMoves(a: Addresses, l: Ledger, s: SettleArgs)
    requires DexPays(a, l, s).Ok?
    ensures s.payout.Some?
    ensures var l', coin, pc := DexPays(a, l, s).value, s.payout.value.0, s.payout.value.1;
            && l'.Keys == l.Keys
            && forall x | x in l :: l'[x] == l[x] + (if x == s.coinWallet then coin else 0) - (if x == s.coinVault then coin else 0)
                                            + (if x == s.pcWallet then pc else 0) - (if x == s.pcVault then pc else 0)
  {
    var l1 := UserTransfer(a, l, s.coinVault, s.coinWallet, s.payout.value.0).value;
    NotThePools(a, l, s.coinVault, s.coinWallet, s.payout.value.0);
    NotThePools(a, l1, s.pcVault, s.pcWallet, s.payout.value.1);
  }

  /** Dex vaults that can pay what is asked of them into wallets with room for it. */
  ghost predicate DexCanPay(a: Addresses, l: Ledger, s: SettleArgs) {
    && s.payout.Some? && s.coinVault != s.pcVault
    && s.coinVault in l && s.coinVault.mint == s.coinWallet.mint && s.payout.value.0 <= l[s.coinVault]
    && s.pcVault in l && s.pcVault.mint == s.pcWallet.mint && s.payout.value.1 <= l[s.pcVault]
    && !(s.coinVault.Associated? && s.coinVault.owner == a.pool) && !(s.pcVault.Associated? && s.pcVault.owner == a.pool)
    && (s.coinWallet in l ==> l[s.coinWallet] + s.payout.value.0 + s.payout.value.1 < TWO_64)
    && (s.pcWallet in l ==> l[s.pcWallet] + s.payout.value.0 + s.payout.value.1 < TWO_64)
  }

  lemma DexPaysWhenItCan(a: Addresses, l: Ledger, s: SettleArgs)
    requires DexCanPay(a, l, s) && s.coinWallet in l && s.pcWallet in l
    requires s.coinWallet.Associated? && s.coinWallet.owner == a.pool && s.pcWallet.Associated? && s.pcWallet.owner == a.pool
    ensures DexPays(a, l, s).Ok?
  {
    hide Transfer;
    TransferSucceedsIff(l, s.coinVault, s.coinWallet, s.payout.value.0);
    TransferMovesOnly(l, s.coinVault, s.coinWallet, s.payout.value.0);
    var l1 := Transfer(l, s.coinVault, s.coinWallet, s.payout.value.0).value;
    TransferSucceedsIff(l1, s.pcVault, s.pcWallet, s.payout.value.1);
  }

  lemma TransferMovesOnly(l: Ledger, from: TokenAccount, to: TokenAccount, amount: u64)
    requires Transfer(l, from, to, amount).Ok? && from != to
    ensures var l' := Transfer(l, from, to, amount).value;
            && l'.Keys == l.Keys && from in l && to in l
            && forall x | x in l :: l'[x] == l[x] - (if x == from then amount else 0) + (if x == to then amount else 0)
  {
  }

  /** A slot that exists and is free or holds this mint already. */
  ghost predicate SlotAccepts(region: seq<byte>, index: u64, mint: seq<byte>) {
    && 32 * SlotOf(index) + 32 <= |region|
    && (Slot(region, SlotOf(index)) == NO_KEY || Slot(region, SlotOf(index)) == mint)
  }

  /** The pool's own wallets for the two mints that the market's bytes name. */
  ghost predicate OwnWallets(a: Addresses, l: Ledger, s: SettleArgs)
    requires |s.market| >= 117
  {
    && s.coinWallet == Associated(a.pool, s.market[53..85]) && s.coinWallet in l
    && s.pcWallet == Associated(a.pool, s.market[85..117]) && s.pcWallet in l
  }

  /** When a settlement goes through, given a dex that pays: the bytes of the market name the pool's own wallets and
      fit the two slots, the open-orders account has something free, and if that completes the order one is pending. */
  lemma SettleSucceedsIff(a: Addresses, m: Machine, s: SettleArgs, h: PoolHeader, region: seq<byte>)
    requires Laid(m, h, region) && DexCanPay(a, m.tokens.ledger, s)
    ensures Settle(a, m, s).Ok? <==>
              && |s.market| >= 117 && OwnWallets(a, m.tokens.ledger, s)
              && SlotAccepts(region, s.coinIndex, s.market[53..85]) && SlotAccepts(region, s.pcIndex, s.market[85..117])
              && |s.openOrders| >= 109 && (FreePc(s) > 0 || FreeCoin(s) > 0)
              && (FreePc(s) == TotalPc(s) && FreeCoin(s) == TotalCoin(s) ==> Pending(h.status) > 0)
  {
    hide UnpackHeader, PackHeader, ToU64, DexPays, SetSlot, WithHeader, DexCanPay;
    SlotOffsetWraps(s.coinIndex);
    SlotOffsetWraps(s.pcIndex);
    if |s.market| >= 117 && OwnWallets(a, m.tokens.ledger, s) {
      DexPaysWhenItCan(a, m.tokens.ledger, s);
    }
  }

  /** The two refusals that depend on the orders: nothing free, and a completed order that nobody waits for. */
  lemma SettleRefusals(a: Addresses, m: Machine, s: SettleArgs, h: PoolHeader, region: seq<byte>)
    requires Laid(m, h, region) && |s.market| >= 117 && OwnWallets(a, m.tokens.ledger, s) && |s.openOrders| >= 109
    requires SlotAccepts(region, s.coinIndex, s.market[53..85]) && SlotAccepts(region, s.pcIndex, s.market[85..117])
    ensures Completes(s) && Pending(h.status) == 0 ==> Settle(a, m, s) == Err(InvalidAccountData)
    ensures !(Completes(s) && Pending(h.status) == 0) && FreePc(s) == FreeCoin(s) == 0 ==> Settle(a, m, s) == Err(LockedOperation)
  {
    hide UnpackHeader, PackHeader, ToU64, DexPays, SetSlot, WithHeader;
    SlotOffsetWraps(s.coinIndex);
    SlotOffsetWraps(s.pcIndex);
  }

  /** Everything a settlement does to the account bytes and to the ledger. */
  lemma SettleEffect(a: Addresses, m: Machine, s: SettleArgs, m': Machine, h: PoolHeader, region: seq<byte>)
    returns (h': PoolHeader, region': seq<byte>)
    requires Laid(m, h, region) && Settle(a, m, s) == Ok(m')
    ensures Laid(m', h', region') && |m'.data| == |m.data|
    ensures h' == h.(status := h'.status) && LockHalf(h'.status) == LockHalf(h.status)
    ensures Pending(h'.status) == Pending(h.status) - if Completes(s) then 1 else 0
    ensures Completes(s) || h' == h
    ensures |s.market| >= 117 && |s.openOrders| >= 109 && (FreePc(s) > 0 || FreeCoin(s) > 0)
    ensures m'.data[HEADER_LENGTH..AssetOffset(h)] == m.data[HEADER_LENGTH..AssetOffset(h)]
    ensures Preserves(region, region') && OthersUntouched(region, region', s.coinIndex, s.pcIndex)
    ensures 32 * SlotOf(s.pcIndex) + 32 <= |region'| && Slot(region', SlotOf(s.pcIndex)) == s.market[85..117]
    ensures 32 * SlotOf(s.coinIndex) + 32 <= |region'|
    ensures SlotOf(s.coinIndex) != SlotOf(s.pcIndex) ==> Slot(region', SlotOf(s.coinIndex)) == s.market[53..85]
    ensures OwnWallets(a, m.tokens.ledger, s) && s.payout.Some? && m'.tokens.ledger.Keys == m.tokens.ledger.Keys
    ensures var l, l', coin, pc := m.tokens.ledger, m'.tokens.ledger, s.payout.value.0, s.payout.value.1;
            forall x | x in l :: l'[x] == l[x] + (if x == s.coinWallet then coin else 0) - (if x == s.coinVault then coin else 0)
                                         + (if x == s.pcWallet then pc else 0) - (if x == s.pcVault then pc else 0)
    ensures DexPays(a, m.tokens.ledger, s) == Ok(m'.tokens.ledger) && m'.tokens.total == m.tokens.total
  {
    hide PackHeader, UnpackHeader, DexPays, SlotAt, SetSlot, Patch, WithHeader, ToU64;
    DexMoves(a, m.tokens.ledger, s);
    h' := h.(status := (if Completes(s) then CountDown(h.status) else Some(h.status)).value);
    region' := SetSlot(SetSlot(region, s.coinIndex, s.market[53..85]), s.pcIndex, s.market[85..117]);
    DecodedStatus(m.data);
    SlotOffsetWraps(s.coinIndex);
    SlotOffsetWraps(s.pcIndex);
    SlotWrites(region, s.coinIndex, s.pcIndex, s.market[53..85], s.market[85..117]);
    HeaderSwap(m.data, h, h', region');
  }

  lemma DecodedStatus(data: seq<byte>)
    requires |data| >= HEADER_LENGTH
    ensures Representable(UnpackHeader(data).status)
  {
  }

  /** A complete settlement is refused when no order is pending, and nothing is written. */
  lemma NothingPending(a: Addresses, m: Machine, s: SettleArgs, h: PoolHeader, region: seq<byte>)
    requires Laid(m, h, region) && Completes(s) && Pending(h.status) == 0
    ensures Settle(a, m, s).Err?
  {
  }

  // ----- Runs of settlements -----

  /** A settlement that fails leaves everything as it was, although the program had already packed the header. */
  function SettleOrKeep(a: Addresses, m: Machine, s: SettleArgs): Machine {
    var r := Settle(a, m, s);
    if r.Ok? then r.value else m
  }

  function SettleAll(a: Addresses, m: Machine, run: seq<SettleArgs>): Machine
    decreases run
  {
    if run == [] then m else SettleAll(a, SettleOrKeep(a, m, run[0]), run[1..])
  }

  /** How many of the settlements in a run complete an order. */
  function Completed(a: Addresses, m: Machine, run: seq<SettleArgs>): nat
    decreases run
  {
    if run == [] then 0
    else
      (if Settle(a, m, run[0]).Ok? && Completes(run[0]) then 1 else 0)
      + Completed(a, SettleOrKeep(a, m, run[0]), run[1..])
  }

  /** Along any run of settlements the lock half of the status never changes, the pending count drops by
      exactly one per completed order (so never below zero), nothing but the status changes in the header,
      the markets stay, no initialized slot changes, and the earlier asset list is a subsequence of the later. */
  lemma {:induction false} SettlementRun(a: Addresses, m: Machine, run: seq<SettleArgs>, h: PoolHeader, region: seq<byte>)
    returns (h': PoolHeader, region': seq<byte>)
    requires Laid(m, h, region)
    ensures Laid(SettleAll(a, m, run), h', region')
    ensures h' == h.(status := h'.status) && LockHalf(h'.status) == LockHalf(h.status)
    ensures Completed(a, m, run) <= Pending(h.status)
    ensures Pending(h'.status) == Pending(h.status) - Completed(a, m, run)
    ensures Preserves(region, region')
    ensures IsSubsequence(AssetsIn(region), AssetsIn(region'))
    decreases run
  {
    hide Settle, Preserves, Laid, Pending, LockHalf, Completes;
    if run == [] {
      h', region' := h, region;
      PreservesItself(region);
    } else {
      var h1, region1 := h, region;
      if Settle(a, m, run[0]).Ok? {
        h1, region1 := SettleEffect(a, m, run[0], Settle(a, m, run[0]).value, h, region);
      } else {
        PreservesItself(region);
      }
      h', region' := SettlementRun(a, SettleOrKeep(a, m, run[0]), run[1..], h1, region1);
      PreservesTransitive(region, region1, region');
    }
    PreservesSubsequence(region, region');
  }

  lemma PreservesItself(region: seq<byte>)
    ensures Preserves(region, region)
  {
  }

  /** After as many completed orders as were pending the pool is Unlocked, or Locked if it was locked, and
      the next complete settlement is refused. */
  lemma CountdownReachesRest(a: Addresses, m: Machine, run: seq<SettleArgs>, h: PoolHeader, region: seq<byte>, next: SettleArgs)
    requires Laid(m, h, region) && Completed(a, m, run) == Pending(h.status) && Completes(next)
    ensures OpenHeader(SettleAll(a, m, run).data).Ok?
    ensures OpenHeader(SettleAll(a, m, run).data).value.status == if LockHalf(h.status) then Locked else Unlocked
    ensures Settle(a, SettleAll(a, m, run), next).Err?
  {
    hide Settle, Preserves, AssetsIn;
    var h', region' := SettlementRun(a, m, run, h, region);
    NothingPending(a, SettleAll(a, m, run), next, h', region');
  }
}

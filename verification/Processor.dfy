/** What each instruction of program/src/processor.rs does, as a function on the state it works on:
    `Ok` carries the new state; an error or a panic leaves the state as it was. */
module Processor {
  import opened Wrappers
  import opened Numbers
  import opened Bytes
  import opened Header
  import opened Layout
  import opened Tokens
  import opened FixedPoint

  const FIRST_POOL_TOKENS: u64 := 1_000_000
  const ONE_WEEK: u64 := 604_800

  /** The fixed keys of a pool: the pool account, its token mint, and the owners of the two Bonfida fee accounts. */
  datatype Addresses = Addresses(pool: Pubkey, poolMint: Pubkey, feeOwner: Pubkey, bnbOwner: Pubkey)

  /** The pool account's bytes, the pool-token supply and every token account. */
  datatype Machine = Machine(data: seq<byte>, tokens: Supply)

  function Vault(a: Addresses, mint: Pubkey): TokenAccount {
    Associated(a.pool, mint)
  }

  /** `PoolHeader::unpack(&data[..LEN])`. */
  function OpenHeader(data: seq<byte>): Result<PoolHeader> {
    if |data| < HEADER_LENGTH then Err(Panic)
    else
      var h := UnpackHeader(data);
      if h.status.Uninitialized? then Err(UninitializedAccount) else Ok(h)
  }

  /** `unpack_assets(&data[asset_offset..])`. */
  function OpenAssets(data: seq<byte>, h: PoolHeader): Result<seq<Pubkey>> {
    if |data| < AssetOffset(h) then Err(Panic) else Ok(AssetsIn(data[AssetOffset(h)..]))
  }

  function WithHeader(data: seq<byte>, h: PoolHeader): (r: seq<byte>)
    requires |data| >= HEADER_LENGTH
    ensures |r| == |data|
  {
    PackHeader(h) + data[HEADER_LENGTH..]
  }

  /** A transfer authorised by the user who signs; the pool itself does not sign, so its accounts cannot be a source. */
  function UserTransfer(a: Addresses, l: Ledger, from: TokenAccount, to: TokenAccount, amount: u64): Result<Ledger> {
    if from.Associated? && from.owner == a.pool then Err(OwnerMismatch) else Transfer(l, from, to, amount)
  }

  /** Half to the signal provider, a quarter to Bonfida's fee account, what is left to buy-and-burn. */
  function MintFee(a: Addresses, s: Supply, provider: Pubkey, fee: u64): Result<Supply> {
    var s1 :- MintTo(s, a.poolMint, Associated(provider, a.poolMint), fee / 2);
    var s2 :- MintTo(s1, a.poolMint, Associated(a.feeOwner, a.poolMint), fee / 4);
    MintTo(s2, a.poolMint, Associated(a.bnbOwner, a.poolMint), fee - fee / 4 - fee / 2)
  }

  // ----- Create -----

  datatype CreateArgs = CreateArgs(
    serumProgram: Pubkey, seed: Pubkey, signalProvider: Pubkey,
    amounts: seq<u64>, markets: seq<Pubkey>, period: u64, feeRatio: u16)

  /** The funding loop from asset i on: `accounts` holds the vaults, then the sources. */
  function FundFrom(a: Addresses, l: Ledger, amounts: seq<u64>, accounts: seq<TokenAccount>, i: nat, mints: seq<Pubkey>)
    : Result<(Ledger, seq<Pubkey>)>
    requires i <= |amounts| && 2 * |amounts| <= |accounts|
    decreases |amounts| - i
  {
    if i == |amounts| then Ok((l, mints))
    else if amounts[i] == 0 then FundFrom(a, l, amounts, accounts, i + 1, mints)
    else
      var vault := accounts[i];
      if vault !in l then Err(InvalidAccountData)
      else if vault != Vault(a, vault.mint) then Err(InvalidArgument)
      else
        var l' :- UserTransfer(a, l, accounts[|amounts| + i], vault, amounts[i]);
        FundFrom(a, l', amounts, accounts, i + 1, mints + [vault.mint])
  }

  function CreatedHeader(c: CreateArgs, now: u64): PoolHeader
    requires |c.markets| < TWO_16
  {
    PoolHeader(c.serumProgram, c.seed, c.signalProvider, Unlocked, |c.markets|, c.feeRatio, now, c.period)
  }

  function Create(a: Addresses, m: Machine, c: CreateArgs, accounts: seq<TokenAccount>, target: TokenAccount,
                  signed: bool, now: u64): Result<Machine>
  {
    if |accounts| < 2 * |c.amounts| then Err(NotEnoughAccountKeys)
    else if |m.data| < HEADER_LENGTH then Err(Panic)
    else if UnpackHeader(m.data).status != Uninitialized then Err(InvalidArgument)
    else if !signed || |c.markets| >= TWO_16 || c.period < ONE_WEEK then Err(InvalidArgument)
    else
      var (l, mints) :- FundFrom(a, m.tokens.ledger, c.amounts, accounts, 0, []);
      var s :- MintTo(Supply(m.tokens.total, l), a.poolMint, target, FIRST_POOL_TOKENS);
      var end := HEADER_LENGTH + KEY_LENGTH * |c.markets| + KEY_LENGTH * |mints|;
      if |m.data| < end then Err(Panic)
      else Ok(Machine(Image(CreatedHeader(c, now), c.markets, mints, m.data[end..]), s))
  }

  // ----- Deposit -----

  /** The pool tokens that one source balance can back: floor(source * supply / vault) cut to 64 bits,
      and no limit when the vault is empty. */
  function Affordable(source: u64, vault: u64, supply: u64): u64 {
    if vault == 0 then MAX_U64 else source * supply / vault % TWO_64
  }

  /** The loop that computes the effective amount: the running minimum from asset i on. */
  function QuoteFrom(l: Ledger, supply: u64, n: nat, accounts: seq<TokenAccount>, i: nat, best: u64): Result<u64>
    requires i <= n && 2 * n <= |accounts|
    decreases n - i
  {
    if i == n then Ok(best)
    else if accounts[i] !in l || accounts[n + i] !in l then Err(InvalidAccountData)
    else QuoteFrom(l, supply, n, accounts, i + 1, Min(Affordable(l[accounts[n + i]], l[accounts[i]], supply), best))
  }

  /** A holder of `tokens` out of `supply` owns this much of a vault. */
  function Share(tokens: nat, vault: nat, supply: nat): nat
    requires supply > 0
  {
    tokens * vault / supply
  }

  /** The buy-in loop from asset i on; amounts are computed from the balances `before` any transfer. */
  function BuyInFrom(a: Addresses, before: Ledger, l: Ledger, supply: u64, tokens: u64, assets: seq<Pubkey>,
                     accounts: seq<TokenAccount>, i: nat, allZero: bool): Result<(Ledger, bool)>
    requires i <= |assets| && 2 * |assets| <= |accounts|
    requires forall k | 0 <= k < |assets| :: accounts[k] in before
    decreases |assets| - i
  {
    if i == |assets| then Ok((l, allZero))
    else if accounts[i] != Vault(a, assets[i]) then Err(InvalidArgument)
    else if supply == 0 then Err(Panic)
    else
      var amount := Share(tokens, before[accounts[i]], supply);
      if amount == 0 then BuyInFrom(a, before, l, supply, tokens, assets, accounts, i + 1, allZero)
      else
        var l' :- UserTransfer(a, l, accounts[|assets| + i], accounts[i], amount % TWO_64);
        BuyInFrom(a, before, l', supply, tokens, assets, accounts, i + 1, false)
  }

  lemma {:induction false} QuoteReadsAccounts(l: Ledger, supply: u64, n: nat, accounts: seq<TokenAccount>, i: nat, best: u64)
    requires i <= n && 2 * n <= |accounts|
    requires QuoteFrom(l, supply, n, accounts, i, best).Ok?
    ensures forall k | i <= k < n :: accounts[k] in l
    ensures forall k | n + i <= k < 2 * n :: accounts[k] in l
    decreases n - i
  {
    if i < n {
      QuoteReadsAccounts(l, supply, n, accounts, i + 1, Min(Affordable(l[accounts[n + i]], l[accounts[i]], supply), best));
    }
  }

  lemma ScaledDown(r: nat, amount: nat)
    requires r <= TWO_16
    ensures 0 <= r * amount / TWO_16 <= amount
  {
    MulMonotone(0, r, 0, amount);
    MulMonotone(r, TWO_16, amount, amount);
    var product := r * amount;
    assert product <= TWO_16 * amount;
  }

  /** The part of the amount that goes to the fee receivers: `(fee_ratio * amount) >> 16`. */
  function EntryFee(feeRatio: u16, amount: u64): (fee: u64)
    ensures fee <= amount
  {
    ScaledDown(feeRatio, amount);
    feeRatio * amount / TWO_16
  }

  /** The buy-in on the decoded state: the amount, the transfers, then the four mints. */
  function BuyIn(a: Addresses, h: PoolHeader, assets: seq<Pubkey>, s: Supply, request: u64,
                 accounts: seq<TokenAccount>, target: TokenAccount): Result<Supply>
    requires 2 * |assets| <= |accounts|
  {
    var quote :- QuoteFrom(s.ledger, s.total, |assets|, accounts, 0, MAX_U64);
    QuoteReadsAccounts(s.ledger, s.total, |assets|, accounts, 0, MAX_U64);
    var tokens := Min(request, quote);
    var (l, allZero) :- BuyInFrom(a, s.ledger, s.ledger, s.total, tokens, assets, accounts, 0, true);
    if allZero then Err(InvalidArgument)
    else
      var fee := EntryFee(h.feeRatio, tokens);
      var s1 :- MintTo(s.(ledger := l), a.poolMint, target, tokens - fee);
      MintFee(a, s1, h.signalProvider, fee)
  }

  function Deposit(a: Addresses, m: Machine, request: u64, accounts: seq<TokenAccount>, target: TokenAccount,
                   signed: bool): Result<Machine>
  {
    var h :- OpenHeader(m.data);
    var assets :- OpenAssets(m.data, h);
    if |accounts| < 2 * |assets| then Err(NotEnoughAccountKeys)
    else if !signed then Err(InvalidArgument)
    else if !h.status.Unlocked? then Err(LockedOperation)
    else
      var s :- BuyIn(a, h, assets, m.tokens, request, accounts, target);
      Ok(m.(tokens := s))
  }

  // ----- Redeem -----

  /** Redemption is refused once more than a whole period has passed since the last fee collection. */
  predicate FeesOverdue(h: PoolHeader, now: u64) {
    WrapSub(now, h.lastFeeCollection) > h.feeCollectionPeriod
  }

  /** The pay-out loop from asset i on; each vault is read when its turn comes. */
  function PayOutFrom(a: Addresses, l: Ledger, supply: u64, tokens: u64, assets: seq<Pubkey>,
                      accounts: seq<TokenAccount>, i: nat): Result<Ledger>
    requires i <= |assets| && 2 * |assets| <= |accounts|
    decreases |assets| - i
  {
    if i == |assets| then Ok(l)
    else if accounts[i] != Vault(a, assets[i]) then Err(InvalidArgument)
    else if accounts[i] !in l then Err(InvalidAccountData)
    else if supply == 0 then Err(Panic)
    else
      var amount := Share(tokens, l[accounts[i]], supply);
      if amount >= TWO_64 then Err(Overflow)
      else if amount == 0 then PayOutFrom(a, l, supply, tokens, assets, accounts, i + 1)
      else
        var l' :- Transfer(l, accounts[i], accounts[|assets| + i], amount);
        PayOutFrom(a, l', supply, tokens, assets, accounts, i + 1)
  }

  /** The cash-out on the decoded state: the pay-outs, then the burn. */
  function CashOut(a: Addresses, assets: seq<Pubkey>, s: Supply, tokens: u64, accounts: seq<TokenAccount>,
                   source: TokenAccount): Result<Supply>
    requires 2 * |assets| <= |accounts|
  {
    if source !in s.ledger then Err(InvalidAccountData)
    else if s.ledger[source] < tokens then Err(InsufficientFunds)
    else
      var l :- PayOutFrom(a, s.ledger, s.total, tokens, assets, accounts, 0);
      if source.Associated? && source.owner == a.pool then Err(OwnerMismatch)
      else Burn(s.(ledger := l), a.poolMint, source, tokens)
  }

  /** The reset after the last token is gone: only the header stays, marked uninitialized. */
  function ResetData(data: seq<byte>, h: PoolHeader): (r: seq<byte>)
    requires |data| >= HEADER_LENGTH
    ensures |r| == |data|
  {
    PackHeader(h.(status := Uninitialized)) + Zeros(|data| - HEADER_LENGTH)
  }

  function Redeem(a: Addresses, m: Machine, tokens: u64, accounts: seq<TokenAccount>, source: TokenAccount,
                  signed: bool, now: u64): Result<Machine>
  {
    var h :- OpenHeader(m.data);
    var assets :- OpenAssets(m.data, h);
    if |accounts| < 2 * |assets| then Err(NotEnoughAccountKeys)
    else if !signed then Err(InvalidArgument)
    else if h.status.PendingOrder? || h.status.LockedPendingOrder? then Err(LockedOperation)
    else if FeesOverdue(h, now) then Err(LockedOperation)
    else
      var s :- CashOut(a, assets, m.tokens, tokens, accounts, source);
      Ok(Machine(if tokens == m.tokens.total then ResetData(m.data, h) else m.data, s))
  }

  // ----- Collect fees -----

  function FeeCycles(h: PoolHeader, now: u64): u64
    requires h.feeCollectionPeriod > 0
  {
    WrapSub(now, h.lastFeeCollection) / h.feeCollectionPeriod
  }

  /** The ratio that stays with the holders after n periods, out of 65535: `!fee_ratio` to the power n. */
  function FeelessRatio(feeRatio: u16, n: u64): u16 {
    PowFixed(65535 - feeRatio, n) % TWO_16
  }

  /** What the fee would be without the final cast to 64 bits. */
  function ExactDilution(ratio: u16, supply: u64): nat
    requires ratio > 0
  {
    MulMonotone(0, 65535 - ratio, 0, supply);
    (65535 - ratio) * supply / ratio
  }

  function Dilution(ratio: u16, supply: u64): u64
    requires ratio > 0
  {
    ExactDilution(ratio, supply) % TWO_64
  }

  function AdvanceClock(h: PoolHeader, cycles: u64): PoolHeader {
    h.(lastFeeCollection := (h.lastFeeCollection + cycles * h.feeCollectionPeriod % TWO_64) % TWO_64)
  }

  /** Fee collection on the decoded header and the supply. */
  function CollectFrom(a: Addresses, h: PoolHeader, s: Supply, now: u64): Result<(PoolHeader, Supply)> {
    if h.feeCollectionPeriod == 0 then Err(Panic)
    else
      var cycles := FeeCycles(h, now);
      if cycles == 0 then Err(LockedOperation)
      else
        var ratio := FeelessRatio(h.feeRatio, cycles);
        if ratio == 0 then Err(Panic)
        else
          var s' :- MintFee(a, s, h.signalProvider, Dilution(ratio, s.total));
          Ok((AdvanceClock(h, cycles), s'))
  }

  function CollectFees(a: Addresses, m: Machine, now: u64): Result<Machine> {
    var h :- OpenHeader(m.data);
    var (h', s') :- CollectFrom(a, h, m.tokens, now);
    Ok(Machine(WithHeader(m.data, h'), s'))
  }

  // ----- Settle -----

  /** A settlement: the bytes of the market and of the open-orders account, the pool wallets and dex vaults
      passed in, the slot indices, and what the dex pays out (`None` when the dex refuses). */
  datatype SettleArgs = SettleArgs(
    market: seq<byte>, openOrders: seq<byte>,
    coinWallet: TokenAccount, pcWallet: TokenAccount, coinVault: TokenAccount, pcVault: TokenAccount,
    coinIndex: u64, pcIndex: u64, payout: Option<(u64, u64)>)

  const MARKET_MINTS_END: nat := 117
  const OPEN_ORDERS_END: nat := 109

  function CoinMint(market: seq<byte>): Pubkey
    requires |market| >= MARKET_MINTS_END
  {
    market[53..85]
  }

  function PcMint(market: seq<byte>): Pubkey
    requires |market| >= MARKET_MINTS_END
  {
    market[85..117]
  }

  /** The balances read from the open-orders account. */
  datatype OpenOrders = OpenOrders(freeCoin: u64, totalCoin: u64, freePc: u64, totalPc: u64)

  function ReadOrders(input: seq<byte>): Result<OpenOrders> {
    if |input| < OPEN_ORDERS_END then Err(InvalidAccountData)
    else Ok(OpenOrders(ToU64(input[77..85]), ToU64(input[85..93]), ToU64(input[93..101]), ToU64(input[101..109])))
  }

  predicate FullySettled(o: OpenOrders) {
    o.freePc == o.totalPc && o.freeCoin == o.totalCoin
  }

  /** The status after one order has been settled entirely; `None` when no order is pending. */
  function CountDown(status: PoolStatus): Option<PoolStatus> {
    match status
    case PendingOrder(n) => Some(if n == 1 then Unlocked else PendingOrder(n - 1))
    case LockedPendingOrder(n) => Some(if n == 1 then Locked else LockedPendingOrder(n - 1))
    case _ => None
  }

  /** The key a slot holds afterwards: its own if it is initialized (it must then match), else the mint. */
  function Claim(slot: Pubkey, mint: Pubkey): Result<Pubkey> {
    if slot != NO_KEY && slot != mint then Err(InvalidArgument) else Ok(mint)
  }

  function SetSlot(input: seq<byte>, index: u64, key: Pubkey): (r: seq<byte>)
    requires SlotInRange(input, index)
    ensures |r| == |input|
  {
    Patch(input, SlotOffset(index), key)
  }

  function Settle(a: Addresses, m: Machine, s: SettleArgs): Result<Machine> {
    if |s.market| < MARKET_MINTS_END then Err(Panic)
    else if s.coinWallet != Vault(a, CoinMint(s.market)) || s.pcWallet != Vault(a, PcMint(s.market)) then Err(InvalidArgument)
    else if s.coinWallet !in m.tokens.ledger || s.pcWallet !in m.tokens.ledger then Err(InvalidAccountData)
    else
      var h :- OpenHeader(m.data);
      var at := AssetOffset(h);
      if |m.data| < at then Err(Panic)
      else
        var region := m.data[at..];
        if !SlotInRange(region, s.coinIndex) || !SlotInRange(region, s.pcIndex) then Err(InvalidArgument)
        else
          var coin :- Claim(SlotAt(region, s.coinIndex), CoinMint(s.market));
          var pc :- Claim(SlotAt(region, s.pcIndex), PcMint(s.market));
          var orders :- ReadOrders(s.openOrders);
          var status := if FullySettled(orders) then CountDown(h.status) else Some(h.status);
          if status.None? then Err(InvalidAccountData)
          else if orders.freePc == 0 && orders.freeCoin == 0 then Err(LockedOperation)
          else
            var header := WithHeader(m.data, h.(status := status.value))[..at];
            var slots := SetSlot(SetSlot(region, s.coinIndex, coin), s.pcIndex, pc);
            var l :- DexPays(a, m.tokens.ledger, s);
            Ok(Machine(header + slots, m.tokens.(ledger := l)))
  }

  /** The invoked program moves the settled funds into the pool's wallets. Settle does not compare that program
      with the one named in the header; that it only pays in is an assumption about the caller's choice. */
  function DexPays(a: Addresses, l: Ledger, s: SettleArgs): Result<Ledger> {
    if s.payout.None? then Err(InvalidAccountData)
    else
      var l' :- UserTransfer(a, l, s.coinVault, s.coinWallet, s.payout.value.0);
      UserTransfer(a, l', s.pcVault, s.pcWallet, s.payout.value.1)
  }
}

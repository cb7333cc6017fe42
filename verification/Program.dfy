/** The instruction processor as it runs: methods that change the account bytes and the token state in place,
    proved against the functions of Processor. */
module Program {
  import opened Wrappers
  import opened Numbers
  import opened Bytes
  import opened Header
  import opened Layout
  import opened Tokens
  import opened Processor
  import opened Runs

  datatype Outcome = Done | Failed(error: Error) {
    predicate IsFailure() {
      Failed?
    }

    function PropagateFailure(): Outcome
      requires Failed?
    {
      this
    }
  }

  /** A method's outcome and the state it leaves agree with the specified result; after a failure the state is
      left open, because the runtime discards it. */
  predicate Agrees(r: Outcome, after: Machine, spec: Result<Machine>) {
    match spec
    case Ok(m) => r == Done && after == m
    case Err(e) => r == Failed(e)
  }

  class PoolProgram {
    const addresses: Addresses
    const data: array<byte>
    var tokens: Supply

    ghost function State(): Machine
      reads this, data
    {
      Machine(data[..], tokens)
    }

    /** `process_init`: a zeroed pool account of the requested size and a mint without supply. */
    constructor Init(addresses: Addresses, maxAssets: u32, markets: u16, ledger: Ledger)
      ensures this.addresses == addresses && fresh(data)
      ensures data.Length == 117 + 32 * markets + 32 * maxAssets && forall i | 0 <= i < data.Length :: data[i] == 0
      ensures tokens.total == 0 && tokens.ledger == ledger
      ensures State() == Fresh(maxAssets, markets, ledger, 0).m
    {
      this.addresses := addresses;
      data := new byte[HEADER_LENGTH + KEY_LENGTH * markets + KEY_LENGTH * maxAssets](_ => 0);
      tokens := Supply(0, ledger);
      new;
      assert data[..] == Zeros(data.Length);
    }

    // ----- Invoked token instructions -----

    method InvokeTransfer(from: TokenAccount, to: TokenAccount, amount: u64) returns (r: Outcome)
      modifies this`tokens
      ensures match Transfer(old(tokens.ledger), from, to, amount)
              case Ok(l) => r == Done && tokens == old(tokens).(ledger := l)
              case Err(e) => r == Failed(e) && tokens == old(tokens)
    {
      var t := Transfer(tokens.ledger, from, to, amount);
      if t.Err? {
        return Failed(t.error);
      }
      tokens := tokens.(ledger := t.value);
      return Done;
    }

    method InvokeUserTransfer(from: TokenAccount, to: TokenAccount, amount: u64) returns (r: Outcome)
      modifies this`tokens
      ensures match UserTransfer(addresses, old(tokens.ledger), from, to, amount)
              case Ok(l) => r == Done && tokens == old(tokens).(ledger := l)
              case Err(e) => r == Failed(e) && tokens == old(tokens)
    {
      if from.Associated? && from.owner == addresses.pool {
        return Failed(OwnerMismatch);
      }
      r := InvokeTransfer(from, to, amount);
    }

    method InvokeMintTo(to: TokenAccount, amount: u64) returns (r: Outcome)
      modifies this`tokens
      ensures match MintTo(old(tokens), addresses.poolMint, to, amount)
              case Ok(s) => r == Done && tokens == s
              case Err(e) => r == Failed(e) && tokens == old(tokens)
    {
      var t := MintTo(tokens, addresses.poolMint, to, amount);
      if t.Err? {
        return Failed(t.error);
      }
      tokens := t.value;
      return Done;
    }

    /** The three fee mints that end a deposit and make up a collection. */
    method InvokeMintFee(provider: Pubkey, fee: u64) returns (r: Outcome)
      modifies this`tokens
      ensures match MintFee(addresses, old(tokens), provider, fee)
              case Ok(s) => r == Done && tokens == s
              case Err(e) => r == Failed(e)
    {
      var providerAccount := Associated(provider, addresses.poolMint);
      :- InvokeMintTo(providerAccount, fee / 2);
      :- InvokeMintTo(Associated(addresses.feeOwner, addresses.poolMint), fee / 4);
      r := InvokeMintTo(Associated(addresses.bnbOwner, addresses.poolMint), fee - fee / 4 - fee / 2);
    }

    // ----- Instructions -----

    method ProcessCreate(c: CreateArgs, accounts: seq<TokenAccount>, target: TokenAccount, signed: bool, now: u64) returns (r: Outcome)
      modifies this`tokens, data
      ensures Agrees(r, State(), Create(addresses, old(State()), c, accounts, target, signed, now))
    {
      hide UnpackHeader, PackHeader, UserTransfer, MintTo, Image;
      var n := |c.amounts|;
      if |accounts| < 2 * n {
        return Failed(NotEnoughAccountKeys);
      }
      if data.Length < HEADER_LENGTH {
        return Failed(Panic);
      }
      if UnpackHeader(data[..]).status != Uninitialized {
        return Failed(InvalidArgument);
      }
      if !signed || |c.markets| >= TWO_16 || c.period < ONE_WEEK {
        return Failed(InvalidArgument);
      }
      var mints: seq<Pubkey> := [];
      ghost var funded := FundFrom(addresses, tokens.ledger, c.amounts, accounts, 0, []);
      for i := 0 to n
        invariant data[..] == old(data[..]) && tokens.total == old(tokens.total)
        invariant FundFrom(addresses, tokens.ledger, c.amounts, accounts, i, mints) == funded
      {
        if c.amounts[i] != 0 {
          var vault := accounts[i];
          if vault !in tokens.ledger {
            return Failed(InvalidAccountData);
          }
          if vault != Vault(addresses, vault.mint) {
            return Failed(InvalidArgument);
          }
          :- InvokeUserTransfer(accounts[n + i], vault, c.amounts[i]);
          mints := mints + [vault.mint];
        }
      }
      :- InvokeMintTo(target, FIRST_POOL_TOKENS);
      r := WriteImage(CreatedHeader(c, now), c.markets, mints);
    }

    /** Header, markets and assets written one after the other; a write that does not fit panics half way. */
    method WriteImage(h: PoolHeader, markets: seq<Pubkey>, mints: seq<Pubkey>) returns (r: Outcome)
      requires data.Length >= HEADER_LENGTH
      modifies data
      ensures var end := HEADER_LENGTH + KEY_LENGTH * |markets| + KEY_LENGTH * |mints|;
              if data.Length < end then r == Failed(Panic)
              else r == Done && data[..] == Image(h, markets, mints, old(data[..])[end..])
    {
      ghost var was := data[..];
      ghost var done := PackHeader(h);
      PackIntoSlice(data, h);
      if data.Length < HEADER_LENGTH + KEY_LENGTH * |markets| {
        return Failed(Panic);
      }
      PackKeys(data, HEADER_LENGTH, markets);
      PatchNext(done, was, Concat(markets));
      done := done + Concat(markets);
      var offset := HEADER_LENGTH + KEY_LENGTH * |markets|;
      if data.Length < offset + KEY_LENGTH * |mints| {
        return Failed(Panic);
      }
      PackKeys(data, offset, mints);
      PatchNext(done, was, Concat(mints));
      return Done;
    }

    method ProcessDeposit(request: u64, accounts: seq<TokenAccount>, target: TokenAccount, signed: bool) returns (r: Outcome)
      modifies this`tokens
      ensures Agrees(r, State(), Deposit(addresses, old(State()), request, accounts, target, signed))
    {
      var packed := OpenHeader(data[..]);
      if packed.Err? {
        return Failed(packed.error);
      }
      var h := packed.value;
      if data.Length < AssetOffset(h) {
        return Failed(Panic);
      }
      var assets := UnpackAssets(data[AssetOffset(h)..]);
      var n := |assets|;
      if |accounts| < 2 * n {
        return Failed(NotEnoughAccountKeys);
      }
      if !signed {
        return Failed(InvalidArgument);
      }
      if !h.status.Unlocked? {
        return Failed(LockedOperation);
      }
      r := BuyIntoPool(h, assets, request, accounts, target);
    }

    /** The loop over the source accounts: a running minimum, with the vault balances kept for later. */
    method QuoteAssets(n: nat, accounts: seq<TokenAccount>) returns (r: Outcome, effective: u64, vaultAmounts: seq<u64>)
      requires 2 * n <= |accounts|
      ensures match QuoteFrom(tokens.ledger, tokens.total, n, accounts, 0, MAX_U64)
              case Ok(q) => r == Done && effective == q && |vaultAmounts| == n
                            && forall k | 0 <= k < n :: accounts[k] in tokens.ledger && vaultAmounts[k] == tokens.ledger[accounts[k]]
              case Err(e) => r == Failed(e)
    {
      hide Affordable, Min;
      vaultAmounts := [];
      effective := MAX_U64;
      for i := 0 to n
        invariant |vaultAmounts| == i
        invariant forall k | 0 <= k < i :: accounts[k] in tokens.ledger && vaultAmounts[k] == tokens.ledger[accounts[k]]
        invariant QuoteFrom(tokens.ledger, tokens.total, n, accounts, i, effective)
               == QuoteFrom(tokens.ledger, tokens.total, n, accounts, 0, MAX_U64)
      {
        if accounts[i] !in tokens.ledger || accounts[n + i] !in tokens.ledger {
          return Failed(InvalidAccountData), effective, vaultAmounts;
        }
        vaultAmounts := vaultAmounts + [tokens.ledger[accounts[i]]];
        effective := Min(Affordable(tokens.ledger[accounts[n + i]], tokens.ledger[accounts[i]], tokens.total), effective);
      }
      return Done, effective, vaultAmounts;
    }

    /** The loop of transfers into the vaults. */
    method TransferIn(assets: seq<Pubkey>, effective: u64, accounts: seq<TokenAccount>, vaultAmounts: seq<u64>)
      returns (r: Outcome, allZero: bool)
      requires 2 * |assets| <= |accounts| && |vaultAmounts| == |assets|
      requires forall k | 0 <= k < |assets| :: accounts[k] in tokens.ledger && vaultAmounts[k] == tokens.ledger[accounts[k]]
      modifies this`tokens
      ensures match BuyInFrom(addresses, old(tokens.ledger), old(tokens.ledger), old(tokens.total), effective, assets, accounts, 0, true)
              case Ok((l, zero)) => r == Done && allZero == zero && tokens == old(tokens).(ledger := l)
              case Err(e) => r == Failed(e)
    {
      hide Share, UserTransfer;
      var n, supply := |assets|, tokens.total;
      allZero := true;
      ghost var before := tokens.ledger;
      ghost var bought := BuyInFrom(addresses, before, before, supply, effective, assets, accounts, 0, true);
      for i := 0 to n
        invariant tokens.total == supply
        invariant BuyInFrom(addresses, before, tokens.ledger, supply, effective, assets, accounts, i, allZero) == bought
      {
        if accounts[i] != Vault(addresses, assets[i]) {
          return Failed(InvalidArgument), allZero;
        }
        if supply == 0 {
          return Failed(Panic), allZero;
        }
        var amount := Share(effective, vaultAmounts[i], supply);
        if amount != 0 {
          allZero := false;
          r := InvokeUserTransfer(accounts[n + i], accounts[i], amount % TWO_64);
          if r.Failed? {
            return r, allZero;
          }
        }
      }
      return Done, allZero;
    }

    method BuyIntoPool(h: PoolHeader, assets: seq<Pubkey>, request: u64, accounts: seq<TokenAccount>, target: TokenAccount) returns (r: Outcome)
      requires 2 * |assets| <= |accounts|
      modifies this`tokens
      ensures match BuyIn(addresses, h, assets, old(tokens), request, accounts, target)
              case Ok(s) => r == Done && tokens == s
              case Err(e) => r == Failed(e)
    {
      hide QuoteFrom, BuyInFrom, MintTo, MintFee, EntryFee;
      var quoted, quote, vaultAmounts := QuoteAssets(|assets|, accounts);
      if quoted.Failed? {
        return quoted;
      }
      var effective := Min(request, quote);
      var moved, allZero := TransferIn(assets, effective, accounts, vaultAmounts);
      if moved.Failed? {
        return moved;
      }
      if allZero {
        return Failed(InvalidArgument);
      }
      var fee := EntryFee(h.feeRatio, effective);
      :- InvokeMintTo(target, effective - fee);
      r := InvokeMintFee(h.signalProvider, fee);
    }

    method ProcessRedeem(amount: u64, accounts: seq<TokenAccount>, source: TokenAccount, signed: bool, now: u64) returns (r: Outcome)
      modifies this`tokens, data
      ensures Agrees(r, State(), Redeem(addresses, old(State()), amount, accounts, source, signed, now))
    {
      var packed := OpenHeader(data[..]);
      if packed.Err? {
        return Failed(packed.error);
      }
      var h := packed.value;
      if data.Length < AssetOffset(h) {
        return Failed(Panic);
      }
      var assets := UnpackAssets(data[AssetOffset(h)..]);
      if |accounts| < 2 * |assets| {
        return Failed(NotEnoughAccountKeys);
      }
      if !signed {
        return Failed(InvalidArgument);
      }
      if h.status.PendingOrder? || h.status.LockedPendingOrder? || FeesOverdue(h, now) {
        return Failed(LockedOperation);
      }
      var supply := tokens.total;
      :- CashOutOfPool(assets, amount, accounts, source);
      if amount == supply {
        FillSlice(data, HEADER_LENGTH, 0);
        PackIntoSlice(data, h.(status := Uninitialized));
        assert data[..] == ResetData(old(data[..]), h);
      }
      return Done;
    }

    method CashOutOfPool(assets: seq<Pubkey>, amount: u64, accounts: seq<TokenAccount>, source: TokenAccount) returns (r: Outcome)
      requires 2 * |assets| <= |accounts|
      modifies this`tokens
      ensures match CashOut(addresses, assets, old(tokens), amount, accounts, source)
              case Ok(s) => r == Done && tokens == s
              case Err(e) => r == Failed(e)
    {
      var n, supply := |assets|, tokens.total;
      if source !in tokens.ledger {
        return Failed(InvalidAccountData);
      }
      if tokens.ledger[source] < amount {
        return Failed(InsufficientFunds);
      }
      ghost var paid := PayOutFrom(addresses, tokens.ledger, supply, amount, assets, accounts, 0);
      for i := 0 to n
        invariant tokens.total == supply
        invariant PayOutFrom(addresses, tokens.ledger, supply, amount, assets, accounts, i) == paid
      {
        if accounts[i] != Vault(addresses, assets[i]) {
          return Failed(InvalidArgument);
        }
        if accounts[i] !in tokens.ledger {
          return Failed(InvalidAccountData);
        }
        if supply == 0 {
          return Failed(Panic);
        }
        var share := Share(amount, tokens.ledger[accounts[i]], supply);
        if share >= TWO_64 {
          return Failed(Overflow);
        }
        if share != 0 {
          :- InvokeTransfer(accounts[i], accounts[n + i], share);
        }
      }
      if source.Associated? && source.owner == addresses.pool {
        return Failed(OwnerMismatch);
      }
      var burnt := Burn(tokens, addresses.poolMint, source, amount);
      if burnt.Err? {
        return Failed(burnt.error);
      }
      tokens := burnt.value;
      return Done;
    }

    method ProcessCollectFees(now: u64) returns (r: Outcome)
      modifies this`tokens, data
      ensures Agrees(r, State(), CollectFees(addresses, old(State()), now))
    {
      var packed := OpenHeader(data[..]);
      if packed.Err? {
        return Failed(packed.error);
      }
      var h := packed.value;
      if h.feeCollectionPeriod == 0 {
        return Failed(Panic);
      }
      var cycles := FeeCycles(h, now);
      if cycles == 0 {
        return Failed(LockedOperation);
      }
      var ratio := FeelessRatio(h.feeRatio, cycles);
      if ratio == 0 {
        return Failed(Panic);
      }
      :- InvokeMintFee(h.signalProvider, Dilution(ratio, tokens.total));
      PackIntoSlice(data, AdvanceClock(h, cycles));
      return Done;
    }

    /** The two slots of a settlement, one after the other: with equal slots the second one stays. */
    method WriteSlots(at: nat, i: u64, coin: Pubkey, j: u64, pc: Pubkey)
      requires at <= data.Length && SlotInRange(data[at..], i) && SlotInRange(data[at..], j)
      modifies data
      ensures data[..] == old(data[..at]) + SetSlot(SetSlot(old(data[at..]), i, coin), j, pc)
    {
      hide SlotOffset, Patch;
      ghost var front, region := data[..at], data[at..];
      assert data[..] == front + region;
      CopyFromSlice(data, at + SlotOffset(i), coin);
      PatchBehind(front, region, SlotOffset(i), coin);
      CopyFromSlice(data, at + SlotOffset(j), pc);
      PatchBehind(front, SetSlot(region, i, coin), SlotOffset(j), pc);
    }

    /** The header is packed before the check for funds: a failure there leaves it changed, and only the
        runtime's roll-back makes the instruction all-or-nothing. */
    method ProcessSettle(s: SettleArgs) returns (r: Outcome)
      modifies this`tokens, data
      ensures Agrees(r, State(), Settle(addresses, old(State()), s))
    {
      hide PackHeader, UnpackHeader, SetSlot, SlotAt, Patch, UserTransfer, ToU64;
      if |s.market| < MARKET_MINTS_END {
        return Failed(Panic);
      }
      var coinMint, pcMint := CoinMint(s.market), PcMint(s.market);
      if s.coinWallet != Vault(addresses, coinMint) || s.pcWallet != Vault(addresses, pcMint) {
        return Failed(InvalidArgument);
      }
      if s.coinWallet !in tokens.ledger || s.pcWallet !in tokens.ledger {
        return Failed(InvalidAccountData);
      }
      var packed := OpenHeader(data[..]);
      if packed.Err? {
        return Failed(packed.error);
      }
      var h := packed.value;
      var at := AssetOffset(h);
      if data.Length < at {
        return Failed(Panic);
      }
      var region := data[at..];
      if !SlotInRange(region, s.coinIndex) || !SlotInRange(region, s.pcIndex) {
        return Failed(InvalidArgument);
      }
      var coin := Claim(SlotAt(region, s.coinIndex), coinMint);
      if coin.Err? {
        return Failed(coin.error);
      }
      var pc := Claim(SlotAt(region, s.pcIndex), pcMint);
      if pc.Err? {
        return Failed(pc.error);
      }
      var orders := ReadOrders(s.openOrders);
      if orders.Err? {
        return Failed(orders.error);
      }
      var status := if FullySettled(orders.value) then CountDown(h.status) else Some(h.status);
      if status.None? {
        return Failed(InvalidAccountData);
      }
      var h' := h.(status := status.value);
      PackIntoSlice(data, h');
      assert data[..] == WithHeader(old(data[..]), h') && data[at..] == region;
      if orders.value.freePc == 0 && orders.value.freeCoin == 0 {
        return Failed(LockedOperation);
      }
      WriteSlots(at, s.coinIndex, coin.value, s.pcIndex, pc.value);
      if s.payout.None? {
        return Failed(InvalidAccountData);
      }
      :- InvokeUserTransfer(s.coinVault, s.coinWallet, s.payout.value.0);
      r := InvokeUserTransfer(s.pcVault, s.pcWallet, s.payout.value.1);
    }

    /** One step as the runtime executes it: dispatch, and roll everything back if the instruction failed. */
    method Execute(step: Step, now: u64) returns (r: Outcome)
      modifies this`tokens, data
      ensures State() == Next(addresses, World(old(State()), now), step).m
      ensures r.Done? <==> Attempt(addresses, World(old(State()), now), step).Ok?
    {
      var bytes, balances := data[..], tokens;
      match step {
        case CreatePool(c, accounts, target, signed) => r := ProcessCreate(c, accounts, target, signed, now);
        case DepositInto(request, accounts, target, signed) => r := ProcessDeposit(request, accounts, target, signed);
        case RedeemFrom(amount, accounts, source, signed) => r := ProcessRedeem(amount, accounts, source, signed, now);
        case Collect => r := ProcessCollectFees(now);
        case SettleFunds(s) => r := ProcessSettle(s);
        case Send(from, to, amount) => r := InvokeUserTransfer(from, to, amount);
        case OpenAccount(x) =>
          if x in tokens.ledger {
            r := Failed(InvalidAccountData);
          } else {
            tokens := tokens.(ledger := tokens.ledger[x := 0]);
            r := Done;
          }
        case Wait(_) => r := Done;
      }
      if r.Failed? {
        tokens := balances;
        CopyFromSlice(data, 0, bytes);
        assert data[..] == bytes;
      }
    }
  }

  lemma PatchBehind(front: seq<byte>, region: seq<byte>, at: nat, s: seq<byte>)
    requires at + |s| <= |region|
    ensures Patch(front + region, |front| + at, s) == front + Patch(region, at, s)
  {
  }
}

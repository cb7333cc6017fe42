/** The wire format of program/src/instruction.rs. */
module Instruction {
  import opened Wrappers
  import opened Numbers
  import opened Bytes

  type NonZeroU64 = n: nat | 1 <= n < 0x1_0000_0000_0000_0000 witness 1
  type NonZeroU16 = n: nat | 1 <= n < 0x1_0000 witness 1

  datatype Side = Bid | Ask
  datatype OrderType = Limit | ImmediateOrCancel | PostOnly
  datatype SelfTradeBehavior = DecrementTake | CancelProvide | AbortTransaction

  datatype PoolInstruction =
    | Init(seed: Pubkey, maxAssets: u32, numberOfMarkets: u16)
    | Create(seed: Pubkey, period: u64, feeRatio: u16, amounts: seq<u64>, markets: seq<Pubkey>)
    | Deposit(seed: Pubkey, poolTokens: u64)
    | CreateOrder(seed: Pubkey, side: Side, limitPrice: NonZeroU64, ratio: NonZeroU16, orderType: OrderType,
                  clientId: u64, selfTrade: SelfTradeBehavior, sourceIndex: u64, targetIndex: u64,
                  marketIndex: u16, coinLotSize: u64, pcLotSize: u64, targetMint: Pubkey, serumLimit: u16)
    | CancelOrder(seed: Pubkey, side: Side, orderId: u128)
    | SettleFunds(seed: Pubkey, pcIndex: u64, coinIndex: u64)
    | Redeem(seed: Pubkey, poolTokens: u64)
    | CollectFees(seed: Pubkey)

  function Tag(i: PoolInstruction): byte {
    match i
    case Init(_, _, _) => 0
    case Create(_, _, _, _, _) => 1
    case Deposit(_, _) => 2
    case CreateOrder(_, _, _, _, _, _, _, _, _, _, _, _, _, _) => 3
    case CancelOrder(_, _, _) => 4
    case SettleFunds(_, _, _) => 5
    case Redeem(_, _) => 6
    case CollectFees(_) => 7
  }

  function SideByte(s: Side): byte {
    if s.Bid? then 0 else 1
  }

  function OrderTypeByte(t: OrderType): byte {
    match t
    case Limit => 0
    case ImmediateOrCancel => 1
    case PostOnly => 2
  }

  function SelfTradeByte(t: SelfTradeBehavior): byte {
    match t
    case DecrementTake => 0
    case CancelProvide => 1
    case AbortTransaction => 2
  }

  // ----- Packing -----

  function PackAmounts(amounts: seq<u64>): (r: seq<byte>)
    ensures |r| == 8 * |amounts|
  {
    if amounts == [] then [] else ToLE(amounts[0], 8) + PackAmounts(amounts[1..])
  }

  /** The fields after the tag. The number of markets is cast to 16 bits. */
  function Body(i: PoolInstruction): seq<byte> {
    match i
    case Init(seed, maxAssets, n) => seed + ToLE(maxAssets, 4) + ToLE(n, 2)
    case Create(seed, period, feeRatio, amounts, markets) =>
      seed + ToLE(|markets| % TWO_16, 2) + ToLE(period, 8) + ToLE(feeRatio, 2) + Concat(markets) + PackAmounts(amounts)
    case Deposit(seed, t) => seed + ToLE(t, 8)
    case CreateOrder(seed, side, price, ratio, orderType, client, selfTrade, src, tgt, market, coinLot, pcLot, mint, limit) =>
      seed + [SideByte(side)] + ToLE(price, 8) + ToLE(ratio, 2) + [OrderTypeByte(orderType)] + ToLE(client, 8)
      + [SelfTradeByte(selfTrade)] + ToLE(src, 8) + ToLE(tgt, 8) + ToLE(market, 2) + ToLE(coinLot, 8) + ToLE(pcLot, 8)
      + mint + ToLE(limit, 2)
    case CancelOrder(seed, side, id) => seed + [SideByte(side)] + ToLE(id, 16)
    case SettleFunds(seed, pc, coin) => seed + ToLE(pc, 8) + ToLE(coin, 8)
    case Redeem(seed, t) => seed + ToLE(t, 8)
    case CollectFees(seed) => seed
  }

  function Pack(i: PoolInstruction): seq<byte> {
    [Tag(i)] + Body(i)
  }

  // ----- Unpacking -----

  /** `rest.get(at..at + 8)` and the like, with the error that a missing field raises. */
  function Field(rest: seq<byte>, at: nat, len: nat): Result<seq<byte>> {
    if at + len <= |rest| then Ok(rest[at..at + len]) else Err(InvalidInstruction)
  }

  function U16At(rest: seq<byte>, at: nat): Result<u16> {
    if at + 2 <= |rest| then Ok(ToU16(rest[at..at + 2])) else Err(InvalidInstruction)
  }

  function U32At(rest: seq<byte>, at: nat): Result<u32> {
    if at + 4 <= |rest| then Ok(ToU32(rest[at..at + 4])) else Err(InvalidInstruction)
  }

  function U64At(rest: seq<byte>, at: nat): Result<u64> {
    if at + 8 <= |rest| then Ok(ToU64(rest[at..at + 8])) else Err(InvalidInstruction)
  }

  function KeyAt(rest: seq<byte>, at: nat): Result<Pubkey> {
    if at + 32 <= |rest| then Ok(rest[at..at + 32]) else Err(InvalidInstruction)
  }

  function SideAt(rest: seq<byte>, at: nat): Result<Side> {
    if at >= |rest| then Err(InvalidInstruction)
    else if rest[at] == 0 then Ok(Bid)
    else if rest[at] == 1 then Ok(Ask)
    else Err(InvalidInstruction)
  }

  function OrderTypeAt(rest: seq<byte>, at: nat): Result<OrderType> {
    if at >= |rest| then Err(InvalidInstruction)
    else if rest[at] == 0 then Ok(Limit)
    else if rest[at] == 1 then Ok(ImmediateOrCancel)
    else if rest[at] == 2 then Ok(PostOnly)
    else Err(InvalidInstruction)
  }

  function SelfTradeAt(rest: seq<byte>, at: nat): Result<SelfTradeBehavior> {
    if at >= |rest| then Err(InvalidInstruction)
    else if rest[at] == 0 then Ok(DecrementTake)
    else if rest[at] == 1 then Ok(CancelProvide)
    else if rest[at] == 2 then Ok(AbortTransaction)
    else Err(InvalidInstruction)
  }

  /** `count` keys from position `at` on; the first one that is cut short is an error. */
  function KeysAt(rest: seq<byte>, at: nat, count: nat): Result<seq<Pubkey>>
    decreases count
  {
    if count == 0 then Ok([])
    else
      var key :- KeyAt(rest, at);
      var keys :- KeysAt(rest, at + 32, count - 1);
      Ok([key] + keys)
  }

  /** Amounts from position `at` for as long as eight bytes are left; up to seven bytes over are ignored. */
  function AmountsAt(rest: seq<byte>, at: nat): seq<u64>
    decreases |rest| - at
  {
    if at + 8 <= |rest| then [ToU64(rest[at..at + 8])] + AmountsAt(rest, at + 8) else []
  }

  const CREATE_LISTS: nat := 44

  function UnpackCreate(rest: seq<byte>): Result<PoolInstruction>
    requires |rest| >= 32
  {
    var n :- U16At(rest, 32);
    var period :- U64At(rest, 34);
    var feeRatio :- U16At(rest, 42);
    var markets :- KeysAt(rest, CREATE_LISTS, n);
    Ok(Create(rest[..32], period, feeRatio, AmountsAt(rest, CREATE_LISTS + 32 * n), markets))
  }

  function UnpackCreateOrder(rest: seq<byte>): Result<PoolInstruction> {
    var seed :- KeyAt(rest, 0);
    var side :- SideAt(rest, 32);
    var price :- U64At(rest, 33);
    if price == 0 then Err(InvalidInstruction)
    else
      var ratio :- U16At(rest, 41);
      if ratio == 0 then Err(InvalidInstruction)
      else
        var orderType :- OrderTypeAt(rest, 43);
        var client :- U64At(rest, 44);
        var selfTrade :- SelfTradeAt(rest, 52);
        var src :- U64At(rest, 53);
        var tgt :- U64At(rest, 61);
        var market :- U16At(rest, 69);
        var coinLot :- U64At(rest, 71);
        var pcLot :- U64At(rest, 79);
        var mint :- KeyAt(rest, 87);
        var limit :- U16At(rest, 119);
        Ok(CreateOrder(seed, side, price, ratio, orderType, client, selfTrade, src, tgt, market, coinLot, pcLot, mint, limit))
  }

  /** The other tags; a seed cut short is a panic in all of them. */
  function UnpackOther(tag: byte, rest: seq<byte>): Result<PoolInstruction>
    requires |rest| >= 32
  {
    var seed := rest[..32];
    match tag
    case 0 =>
      var maxAssets :- U32At(rest, 32);
      var n :- U16At(rest, 36);
      Ok(Init(seed, maxAssets, n))
    case 2 =>
      var t :- U64At(rest, 32);
      Ok(Deposit(seed, t))
    case 4 =>
      var side :- SideAt(rest, 32);
      var id :- Field(rest, 33, 16);
      Ok(CancelOrder(seed, side, ToU128(id)))
    case 5 =>
      var pc :- U64At(rest, 32);
      var coin :- U64At(rest, 40);
      Ok(SettleFunds(seed, pc, coin))
    case 6 =>
      var t :- U64At(rest, 32);
      Ok(Redeem(seed, t))
    case _ => Ok(CollectFees(seed))
  }

  function Unpack(input: seq<byte>): Result<PoolInstruction> {
    if input == [] then Err(InvalidInstruction)
    else
      var tag, rest := input[0], input[1..];
      if tag > 7 then Err(InvalidInstruction)
      else if tag == 3 then UnpackCreateOrder(rest)
      else if |rest| < 32 then Err(Panic)
      else if tag == 1 then UnpackCreate(rest)
      else UnpackOther(tag, rest)
  }

  // ----- The loops -----

  /** `pack`: the buffer grows field by field; the two lists of Create are appended in loops. */
  method PackInstruction(i: PoolInstruction) returns (buf: seq<byte>)
    ensures buf == Pack(i)
  {
    hide ToLE, Concat, PackAmounts;
    match i {
      case Init(seed, maxAssets, n) =>
        buf := [0];
        buf := buf + seed;
        buf := buf + ToLE(maxAssets, 4);
        buf := buf + ToLE(n, 2);
      case Create(_, _, _, _, _) =>
        buf := PackCreate(i);
      case Deposit(seed, t) =>
        buf := [2];
        buf := buf + seed;
        buf := buf + ToLE(t, 8);
      case CreateOrder(_, _, _, _, _, _, _, _, _, _, _, _, _, _) =>
        buf := PackOrder(i);
      case CancelOrder(seed, side, id) =>
        buf := [4];
        buf := buf + seed;
        buf := buf + [SideByte(side)];
        buf := buf + ToLE(id, 16);
      case SettleFunds(seed, pc, coin) =>
        buf := [5];
        buf := buf + seed;
        buf := buf + ToLE(pc, 8);
        buf := buf + ToLE(coin, 8);
      case Redeem(seed, t) =>
        buf := [6];
        buf := buf + seed;
        buf := buf + ToLE(t, 8);
      case CollectFees(seed) =>
        buf := [7];
        buf := buf + seed;
    }
  }

  /** The fields of Create before its two lists. */
  function CreateFields(i: PoolInstruction): seq<byte>
    requires i.Create?
  {
    i.seed + ToLE(|i.markets| % TWO_16, 2) + ToLE(i.period, 8) + ToLE(i.feeRatio, 2)
  }

  lemma CreateBody(i: PoolInstruction)
    requires i.Create?
    ensures Body(i) == CreateFields(i) + Concat(i.markets) + PackAmounts(i.amounts)
  {
    hide ToLE, Concat, PackAmounts;
  }

  lemma PackedCreate(i: PoolInstruction)
    requires i.Create?
    ensures Pack(i) == [1] + CreateFields(i) + Concat(i.markets) + PackAmounts(i.amounts)
  {
    hide CreateFields, Body, Concat, PackAmounts;
    CreateBody(i);
    var fields, keys, amounts := CreateFields(i), Concat(i.markets), PackAmounts(i.amounts);
    assert [1] + (fields + keys + amounts) == [1] + fields + keys + amounts;
  }

  method PackCreate(i: PoolInstruction) returns (buf: seq<byte>)
    requires i.Create?
    ensures buf == Pack(i)
  {
    hide ToLE, Concat, PackAmounts, Body, Pack;
    buf := [1];
    buf := buf + i.seed;
    buf := buf + ToLE(|i.markets| % TWO_16, 2);
    buf := buf + ToLE(i.period, 8);
    buf := buf + ToLE(i.feeRatio, 2);
    ghost var head := buf;
    assert head == [1] + CreateFields(i);
    PackedCreate(i);
    hide CreateFields;
    assert Concat([]) == [] && PackAmounts([]) == [] by {
      EmptyLists();
    }
    assert i.markets[..0] == [];
    for k := 0 to |i.markets|
      invariant buf == head + Concat(i.markets[..k])
    {
      ConcatAppend(i.markets[..k], i.markets[k]);
      assert i.markets[..k + 1] == i.markets[..k] + [i.markets[k]];
      buf := buf + i.markets[k];
    }
    assert i.markets[..|i.markets|] == i.markets;
    head := buf;
    assert i.amounts[..0] == [];
    for k := 0 to |i.amounts|
      invariant buf == head + PackAmounts(i.amounts[..k])
    {
      PackAmountsAppend(i.amounts[..k], i.amounts[k]);
      assert i.amounts[..k + 1] == i.amounts[..k] + [i.amounts[k]];
      buf := buf + ToLE(i.amounts[k], 8);
    }
    assert i.amounts[..|i.amounts|] == i.amounts;
  }

  /** A message whose first byte is the tag and whose fields so far are `fields`. */
  ghost predicate Tagged(buf: seq<byte>, tag: byte, fields: seq<byte>) {
    buf == [tag] + fields
  }

  method AppendField(buf: seq<byte>, field: seq<byte>, ghost tag: byte, ghost fields: seq<byte>)
    returns (longer: seq<byte>, ghost more: seq<byte>)
    requires Tagged(buf, tag, fields)
    ensures longer == buf + field && more == fields + field && Tagged(longer, tag, more)
  {
    longer, more := buf + field, fields + field;
    assert ([tag] + fields) + field == [tag] + (fields + field);
  }

  lemma TaggedSeed(tag: byte, seed: seq<byte>)
    ensures Tagged([tag] + seed, tag, seed)
  {
  }

  method PackOrder(i: PoolInstruction) returns (buf: seq<byte>)
    requires i.CreateOrder?
    ensures buf == Pack(i)
  {
    hide ToLE, Tagged, SideByte, OrderTypeByte, SelfTradeByte;
    ghost var fields := i.seed;
    buf := [3];
    buf := buf + i.seed;
    TaggedSeed(3, i.seed);
    buf, fields := AppendField(buf, [SideByte(i.side)], 3, fields);
    buf, fields := AppendField(buf, ToLE(i.limitPrice, 8), 3, fields);
    buf, fields := AppendField(buf, ToLE(i.ratio, 2), 3, fields);
    buf, fields := AppendField(buf, [OrderTypeByte(i.orderType)], 3, fields);
    buf, fields := AppendField(buf, ToLE(i.clientId, 8), 3, fields);
    buf, fields := AppendField(buf, [SelfTradeByte(i.selfTrade)], 3, fields);
    buf, fields := AppendField(buf, ToLE(i.sourceIndex, 8), 3, fields);
    buf, fields := AppendField(buf, ToLE(i.targetIndex, 8), 3, fields);
    buf, fields := AppendField(buf, ToLE(i.marketIndex, 2), 3, fields);
    buf, fields := AppendField(buf, ToLE(i.coinLotSize, 8), 3, fields);
    buf, fields := AppendField(buf, ToLE(i.pcLotSize, 8), 3, fields);
    buf, fields := AppendField(buf, i.targetMint, 3, fields);
    buf, fields := AppendField(buf, ToLE(i.serumLimit, 2), 3, fields);
    TaggedMeans(buf, 3, fields);
  }

  lemma TaggedMeans(buf: seq<byte>, tag: byte, fields: seq<byte>)
    requires Tagged(buf, tag, fields)
    ensures buf == [tag] + fields
  {
  }

  lemma EmptyLists()
    ensures Concat([]) == [] && PackAmounts([]) == []
  {
  }

  lemma {:induction false} PackAmountsAppend(amounts: seq<u64>, amount: u64)
    ensures PackAmounts(amounts + [amount]) == PackAmounts(amounts) + ToLE(amount, 8)
  {
    if amounts == [] {
      assert [amount][1..] == [];
    } else {
      assert (amounts + [amount])[1..] == amounts[1..] + [amount];
      PackAmountsAppend(amounts[1..], amount);
    }
  }

  /** The keys read so far and the keys still to come; both fail together. */
  ghost predicate KeysRead(rest: seq<byte>, count: nat, keys: seq<Pubkey>, i: nat)
    requires i <= count
  {
    match KeysAt(rest, CREATE_LISTS + 32 * i, count - i)
    case Ok(more) => KeysAt(rest, CREATE_LISTS, count) == Ok(keys + more)
    case Err(e) => KeysAt(rest, CREATE_LISTS, count) == Err(e)
  }

  lemma KeysReadStart(rest: seq<byte>, count: nat)
    ensures KeysRead(rest, count, [], 0)
  {
    if KeysAt(rest, CREATE_LISTS, count).Ok? {
      assert [] + KeysAt(rest, CREATE_LISTS, count).value == KeysAt(rest, CREATE_LISTS, count).value;
    }
  }

  lemma KeysReadStep(rest: seq<byte>, count: nat, keys: seq<Pubkey>, i: nat)
    requires i < count && KeysRead(rest, count, keys, i)
    ensures match KeyAt(rest, CREATE_LISTS + 32 * i)
            case Ok(key) => KeysRead(rest, count, keys + [key], i + 1)
            case Err(e) => KeysAt(rest, CREATE_LISTS, count) == Err(e)
  {
    var key, more := KeyAt(rest, CREATE_LISTS + 32 * i), KeysAt(rest, CREATE_LISTS + 32 * (i + 1), count - (i + 1));
    if key.Ok? && more.Ok? {
      assert keys + ([key.value] + more.value) == keys + [key.value] + more.value;
    }
  }

  lemma KeysReadEnd(rest: seq<byte>, count: nat, keys: seq<Pubkey>)
    requires KeysRead(rest, count, keys, count)
    ensures KeysAt(rest, CREATE_LISTS, count) == Ok(keys)
  {
    assert keys + [] == keys;
  }

  /** The amounts read so far and the amounts still to come. */
  ghost predicate AmountsRead(rest: seq<byte>, from: nat, amounts: seq<u64>, k: nat) {
    amounts + AmountsAt(rest, k) == AmountsAt(rest, from)
  }

  lemma AmountsReadStart(rest: seq<byte>, from: nat)
    ensures AmountsRead(rest, from, [], from)
  {
    assert [] + AmountsAt(rest, from) == AmountsAt(rest, from);
  }

  lemma AmountsReadStep(rest: seq<byte>, from: nat, amounts: seq<u64>, k: nat)
    requires AmountsRead(rest, from, amounts, k)
    ensures k + 8 <= |rest| ==> AmountsRead(rest, from, amounts + [ToU64(rest[k..k + 8])], k + 8)
    ensures k + 8 > |rest| ==> amounts == AmountsAt(rest, from)
  {
    hide ToU64;
    if k + 8 <= |rest| {
      var n, more := ToU64(rest[k..k + 8]), AmountsAt(rest, k + 8);
      assert amounts + ([n] + more) == amounts + [n] + more;
    } else {
      assert amounts + [] == amounts;
    }
  }

  /** The Create arm of `unpack`: a counted loop for the markets, then a loop that runs until its position is
      reset to zero by the first slice that does not exist. */
  method UnpackLists(rest: seq<byte>, count: u16) returns (r: Result<(seq<Pubkey>, seq<u64>)>)
    requires |rest| >= CREATE_LISTS
    ensures match KeysAt(rest, CREATE_LISTS, count)
            case Ok(keys) => r == Ok((keys, AmountsAt(rest, CREATE_LISTS + 32 * count)))
            case Err(e) => r == Err(e)
  {
    hide KeysAt, AmountsAt, KeysRead, AmountsRead, ToU64;
    var markets: seq<Pubkey> := [];
    var offset := CREATE_LISTS;
    KeysReadStart(rest, count);
    for i := 0 to count
      invariant offset == CREATE_LISTS + 32 * i && KeysRead(rest, count, markets, i)
    {
      KeysReadStep(rest, count, markets, i);
      var key := KeyAt(rest, offset);
      if key.Err? {
        return Err(key.error);
      }
      markets := markets + [key.value];
      offset := offset + 32;
    }
    KeysReadEnd(rest, count, markets);
    var k := offset;
    var amounts: seq<u64> := [];
    AmountsReadStart(rest, offset);
    while k != 0
      invariant k != 0 ==> AmountsRead(rest, offset, amounts, k)
      invariant k == 0 ==> amounts == AmountsAt(rest, offset)
      decreases if k == 0 then 0 else 1, |rest| - k
    {
      AmountsReadStep(rest, offset, amounts, k);
      if k + 8 <= |rest| {
        amounts := amounts + [ToU64(rest[k..k + 8])];
        k := k + 8;
      } else {
        k := 0;
      }
    }
    return Ok((markets, amounts));
  }

  // ----- Round trip -----

  lemma {:induction false} KeysReadBack(front: seq<byte>, keys: seq<Pubkey>, rest: seq<byte>)
    ensures KeysAt(front + Concat(keys) + rest, |front|, |keys|) == Ok(keys)
    decreases keys
  {
    var input := front + Concat(keys) + rest;
    if keys != [] {
      assert input[|front|..|front| + 32] == keys[0];
      assert input == (front + keys[0]) + Concat(keys[1..]) + rest;
      KeysReadBack(front + keys[0], keys[1..], rest);
      assert keys == [keys[0]] + keys[1..];
    }
  }

  /** Fewer than eight bytes after the amounts are ignored. */
  lemma {:induction false} AmountsReadBack(front: seq<byte>, amounts: seq<u64>, tail: seq<byte>)
    requires |tail| < 8
    ensures AmountsAt(front + PackAmounts(amounts) + tail, |front|) == amounts
    decreases amounts
  {
    var input := front + PackAmounts(amounts) + tail;
    if amounts != [] {
      assert input[|front|..|front| + 8] == ToLE(amounts[0], 8);
      U64RoundTrip(amounts[0]);
      assert input == (front + ToLE(amounts[0], 8)) + PackAmounts(amounts[1..]) + tail;
      AmountsReadBack(front + ToLE(amounts[0], 8), amounts[1..], tail);
    }
  }

  lemma CreateReadsBack(i: PoolInstruction, tail: seq<byte>)
    requires i.Create? && |i.markets| < TWO_16 && |tail| < 8
    ensures UnpackCreate(Body(i) + tail) == Ok(i)
  {
    hide ToLE, FromLE, Concat, PackAmounts, AmountsAt, KeysAt;
    var n, rest := |i.markets|, Body(i) + tail;
    var front := CreateFields(i);
    var keys, amounts := Concat(i.markets), PackAmounts(i.amounts);
    CreateBody(i);
    assert rest == front + keys + (amounts + tail);
    assert rest == (front + keys) + amounts + tail;
    assert rest[..32] == i.seed && rest[32..34] == ToLE(n, 2) && rest[34..42] == ToLE(i.period, 8) && rest[42..44] == ToLE(i.feeRatio, 2);
    U16RoundTrip(n);
    U64RoundTrip(i.period);
    U16RoundTrip(i.feeRatio);
    KeysReadBack(front, i.markets, amounts + tail);
    AmountsReadBack(front + keys, i.amounts, tail);
  }

  /** Where the fields of an order are. */
  lemma OrderFields(i: PoolInstruction)
    requires i.CreateOrder?
    ensures var b := Body(i);
            && |b| == 121
            && b[0..32] == i.seed && b[32] == SideByte(i.side) && b[43] == OrderTypeByte(i.orderType) && b[52] == SelfTradeByte(i.selfTrade)
            && b[33..41] == ToLE(i.limitPrice, 8) && b[41..43] == ToLE(i.ratio, 2)
            && b[44..52] == ToLE(i.clientId, 8)
            && b[53..61] == ToLE(i.sourceIndex, 8) && b[61..69] == ToLE(i.targetIndex, 8)
            && b[69..71] == ToLE(i.marketIndex, 2) && b[71..79] == ToLE(i.coinLotSize, 8) && b[79..87] == ToLE(i.pcLotSize, 8)
            && b[87..119] == i.targetMint && b[119..121] == ToLE(i.serumLimit, 2)
  {
    hide ToLE, Body;
    OrderBody(i);
    var x := i.seed + [SideByte(i.side)] + ToLE(i.limitPrice, 8) + ToLE(i.ratio, 2) + [OrderTypeByte(i.orderType)];
    var y := ToLE(i.clientId, 8) + [SelfTradeByte(i.selfTrade)] + ToLE(i.sourceIndex, 8) + ToLE(i.targetIndex, 8) + ToLE(i.marketIndex, 2);
    var z := ToLE(i.coinLotSize, 8) + ToLE(i.pcLotSize, 8) + i.targetMint + ToLE(i.serumLimit, 2);
    assert x[0..32] == i.seed && x[33..41] == ToLE(i.limitPrice, 8) && x[41..43] == ToLE(i.ratio, 2);
    assert y[0..8] == ToLE(i.clientId, 8) && y[9..17] == ToLE(i.sourceIndex, 8);
    assert y[17..25] == ToLE(i.targetIndex, 8) && y[25..27] == ToLE(i.marketIndex, 2);
    assert z[0..8] == ToLE(i.coinLotSize, 8) && z[8..16] == ToLE(i.pcLotSize, 8) && z[16..48] == i.targetMint && z[48..50] == ToLE(i.serumLimit, 2);
    ThreeSlices(x, y, z);
  }

  lemma ThreeSlices(x: seq<byte>, y: seq<byte>, z: seq<byte>)
    ensures forall i, j | 0 <= i <= j <= |x| :: (x + y + z)[i..j] == x[i..j]
    ensures forall i, j | 0 <= i <= j <= |y| :: (x + y + z)[|x| + i..|x| + j] == y[i..j]
    ensures forall i, j | 0 <= i <= j <= |z| :: (x + y + z)[|x| + |y| + i..|x| + |y| + j] == z[i..j]
  {
  }

  lemma CreateOrderReadsBack(i: PoolInstruction, tail: seq<byte>)
    requires i.CreateOrder?
    ensures UnpackCreateOrder(Body(i) + tail) == Ok(i)
  {
    hide ToLE, FromLE, Body;
    OrderFields(i);
    var b, rest := Body(i), Body(i) + tail;
    assert rest[0..32] == b[0..32] && rest[33..41] == b[33..41] && rest[41..43] == b[41..43] && rest[44..52] == b[44..52];
    assert rest[53..61] == b[53..61] && rest[61..69] == b[61..69] && rest[69..71] == b[69..71] && rest[71..79] == b[71..79];
    assert rest[79..87] == b[79..87] && rest[87..119] == b[87..119] && rest[119..121] == b[119..121];
    U64RoundTrip(i.limitPrice); U16RoundTrip(i.ratio); U64RoundTrip(i.clientId);
    U64RoundTrip(i.sourceIndex); U64RoundTrip(i.targetIndex); U16RoundTrip(i.marketIndex);
    U64RoundTrip(i.coinLotSize); U64RoundTrip(i.pcLotSize); U16RoundTrip(i.serumLimit);
  }

  lemma OtherReadsBack(i: PoolInstruction, tail: seq<byte>)
    requires !i.Create? && !i.CreateOrder?
    ensures UnpackOther(Tag(i), Body(i) + tail) == Ok(i)
  {
    var rest := Body(i) + tail;
    assert rest[..32] == i.seed;
    match i
    case Init(seed, maxAssets, n) =>
      assert rest[32..36] == ToLE(maxAssets, 4) && rest[36..38] == ToLE(n, 2);
      U32RoundTrip(maxAssets); U16RoundTrip(n);
    case Deposit(seed, t) =>
      assert rest[32..40] == ToLE(t, 8);
      U64RoundTrip(t);
    case CancelOrder(seed, side, id) =>
      assert rest[33..49] == ToLE(id, 16);
      U128RoundTrip(id);
    case SettleFunds(seed, pc, coin) =>
      assert rest[32..40] == ToLE(pc, 8) && rest[40..48] == ToLE(coin, 8);
      U64RoundTrip(pc); U64RoundTrip(coin);
    case Redeem(seed, t) =>
      assert rest[32..40] == ToLE(t, 8);
      U64RoundTrip(t);
    case CollectFees(_) =>
  }

  lemma {:induction false} KeysCount(rest: seq<byte>, at: nat, count: nat)
    requires KeysAt(rest, at, count).Ok?
    ensures |KeysAt(rest, at, count).value| == count
    ensures at <= |rest| ==> at + 32 * count <= |rest|
    ensures at <= |rest| ==> rest[at..at + 32 * count] == Concat(KeysAt(rest, at, count).value)
    decreases count
  {
    if count > 0 {
      KeysCount(rest, at + 32, count - 1);
      if at <= |rest| {
        assert rest[at..at + 32 * count] == rest[at..at + 32] + rest[at + 32..at + 32 + 32 * (count - 1)];
      }
    }
  }

  // ----- What is accepted is what was packed -----

  lemma {:induction false} AmountsPackedBack(rest: seq<byte>, at: nat)
    requires at <= |rest|
    ensures var r := PackAmounts(AmountsAt(rest, at));
            && at + |r| <= |rest| < at + |r| + 8 && rest[at..at + |r|] == r
    decreases |rest| - at
  {
    if at + 8 <= |rest| {
      AmountsPackedBack(rest, at + 8);
      var amounts := AmountsAt(rest, at);
      assert amounts[1..] == AmountsAt(rest, at + 8);
      var r := PackAmounts(AmountsAt(rest, at + 8));
      assert rest[at..at + 8 + |r|] == rest[at..at + 8] + rest[at + 8..at + 8 + |r|];
    }
  }

  lemma CreateFieldsBack(rest: seq<byte>) returns (n: nat)
    requires |rest| >= 32 && UnpackCreate(rest).Ok?
    ensures var i := UnpackCreate(rest).value;
            && i.Create? && KeysAt(rest, CREATE_LISTS, n) == Ok(i.markets)
            && i.amounts == AmountsAt(rest, CREATE_LISTS + 32 * n)
            && (|i.markets| == n ==> |rest| >= CREATE_LISTS && CreateFields(i) == rest[..CREATE_LISTS])
  {
    hide ToLE, FromLE, KeysAt, AmountsAt;
    n := U16At(rest, 32).value;
    assert n % TWO_16 == n;
    assert rest[..44] == rest[..32] + rest[32..34] + rest[34..42] + rest[42..44];
  }

  lemma CreatePackedBack(rest: seq<byte>)
    requires |rest| >= 32 && UnpackCreate(rest).Ok?
    ensures var body := Body(UnpackCreate(rest).value);
            |body| <= |rest| < |body| + 8 && rest[..|body|] == body
  {
    hide UnpackCreate, Body, CreateFields, KeysAt, AmountsAt, Concat, PackAmounts;
    var i := UnpackCreate(rest).value;
    var n := CreateFieldsBack(rest);
    KeysCount(rest, CREATE_LISTS, n);
    var at: nat := CREATE_LISTS + 32 * n;
    AmountsPackedBack(rest, at);
    CreateBody(i);
    ThreeParts(rest, CREATE_LISTS, at, at + |PackAmounts(i.amounts)|);
  }

  lemma ThreeParts(rest: seq<byte>, i: nat, j: nat, k: nat)
    requires i <= j <= k <= |rest|
    ensures rest[..k] == rest[..i] + rest[i..j] + rest[j..k]
  {
  }

  lemma CreateOrderPackedBack(rest: seq<byte>)
    requires UnpackCreateOrder(rest).Ok?
    ensures |rest| >= 121 && rest[..121] == Body(UnpackCreateOrder(rest).value)
  {
    hide ToLE, FromLE;
    var i := UnpackCreateOrder(rest).value;
    assert rest[..44] == rest[0..32] + [rest[32]] + rest[33..41] + rest[41..43] + [rest[43]];
    assert rest[44..71] == rest[44..52] + [rest[52]] + rest[53..61] + rest[61..69] + rest[69..71];
    assert rest[71..121] == rest[71..79] + rest[79..87] + rest[87..119] + rest[119..121];
    assert rest[..121] == rest[..44] + rest[44..71] + rest[71..121];
    OrderBody(i);
  }

  /** The order's body in three parts. */
  lemma OrderBody(i: PoolInstruction)
    requires i.CreateOrder?
    ensures Body(i) == (i.seed + [SideByte(i.side)] + ToLE(i.limitPrice, 8) + ToLE(i.ratio, 2) + [OrderTypeByte(i.orderType)])
      + (ToLE(i.clientId, 8) + [SelfTradeByte(i.selfTrade)] + ToLE(i.sourceIndex, 8) + ToLE(i.targetIndex, 8) + ToLE(i.marketIndex, 2))
      + (ToLE(i.coinLotSize, 8) + ToLE(i.pcLotSize, 8) + i.targetMint + ToLE(i.serumLimit, 2))
  {
    hide ToLE;
  }

  lemma OtherPackedBack(tag: byte, rest: seq<byte>)
    requires |rest| >= 32 && tag <= 7 && tag != 1 && tag != 3 && UnpackOther(tag, rest).Ok?
    ensures var i := UnpackOther(tag, rest).value;
            Tag(i) == tag && |Body(i)| <= |rest| && rest[..|Body(i)|] == Body(i)
  {
    match tag
    case 0 => assert rest[..38] == rest[..32] + rest[32..36] + rest[36..38];
    case 2 => assert rest[..40] == rest[..32] + rest[32..40];
    case 4 => assert rest[..49] == rest[..32] + [rest[32]] + rest[33..49];
    case 5 => assert rest[..48] == rest[..32] + rest[32..40] + rest[40..48];
    case 6 => assert rest[..40] == rest[..32] + rest[32..40];
    case _ =>
  }

  /** Whatever bytes are accepted start with the packing of the instruction they decode to; for Create fewer
      than eight bytes are left over. So two inputs decode to the same instruction only if one packing is a
      prefix of both. */
  lemma AcceptedIsPacked(input: seq<byte>)
    requires Unpack(input).Ok?
    ensures var i := Unpack(input).value;
            Pack(i) <= input && (i.Create? ==> |input| < |Pack(i)| + 8)
  {
    var tag, rest := input[0], input[1..];
    var i := Unpack(input).value;
    if tag == 3 {
      CreateOrderPackedBack(rest);
    } else if tag == 1 {
      CreatePackedBack(rest);
    } else {
      OtherPackedBack(tag, rest);
    }
    assert input == [tag] + rest[..|Body(i)|] + rest[|Body(i)|..];
  }

  // ----- The decoder, completely -----

  lemma ReadsBackWithTail(i: PoolInstruction, tail: seq<byte>)
    requires i.Create? ==> |i.markets| < TWO_16 && |tail| < 8
    ensures Unpack(Pack(i) + tail) == Ok(i)
  {
    var input := Pack(i) + tail;
    assert input[0] == Tag(i) && input[1..] == Body(i) + tail;
    hide ToLE, FromLE, UnpackCreate, UnpackCreateOrder;
    if i.Create? {
      CreateReadsBack(i, tail);
    } else if i.CreateOrder? {
      CreateOrderReadsBack(i, tail);
    } else {
      OtherReadsBack(i, tail);
    }
  }

  lemma AcceptedMarkets(input: seq<byte>)
    requires Unpack(input).Ok? && Unpack(input).value.Create?
    ensures |Unpack(input).value.markets| < TWO_16
  {
    hide AmountsAt, KeysAt, ToU64, ToLE, FromLE;
    var rest := input[1..];
    KeysCount(rest, CREATE_LISTS, U16At(rest, 32).value);
  }

  /** The decoder accepts exactly the packings: with anything after them, and for Create with fewer than 65536 markets
      and fewer than eight bytes after them. */
  lemma UnpackIff(input: seq<byte>, i: PoolInstruction)
    ensures Unpack(input) == Ok(i)
       <==> Pack(i) <= input && (i.Create? ==> |i.markets| < TWO_16 && |input| < |Pack(i)| + 8)
  {
    hide Unpack, Pack;
    if Unpack(input) == Ok(i) {
      AcceptedIsPacked(input);
      if i.Create? {
        AcceptedMarkets(input);
      }
    }
    if Pack(i) <= input && (i.Create? ==> |i.markets| < TWO_16 && |input| < |Pack(i)| + 8) {
      var tail := input[|Pack(i)|..];
      assert input == Pack(i) + tail;
      ReadsBackWithTail(i, tail);
    }
  }

  /** Everything else is refused as an invalid instruction, except that a seed cut short aborts the program: with
      every tag but that of CreateOrder. */
  lemma UnpackErrors(input: seq<byte>)
    ensures Unpack(input).Err? ==> Unpack(input).error == Panic || Unpack(input).error == InvalidInstruction
    ensures Unpack(input) == Err(Panic) <==> 1 <= |input| <= 32 && input[0] <= 7 && input[0] != 3
  {
    hide ToLE, FromLE, AmountsAt;
    if 33 <= |input| && input[0] == 1 {
      KeysErrors(input[1..], CREATE_LISTS, if U16At(input[1..], 32).Ok? then U16At(input[1..], 32).value else 0);
    }
  }

  lemma {:induction false} KeysErrors(rest: seq<byte>, at: nat, count: nat)
    ensures KeysAt(rest, at, count).Err? ==> KeysAt(rest, at, count).error == InvalidInstruction
    decreases count
  {
    if count > 0 {
      KeysErrors(rest, at + 32, count - 1);
    }
  }

  /** Decoding gives back exactly the instruction that was packed if and only if its market list fits the
      16-bit count; with more markets the count wraps and the rest of the keys is read as amounts. */
  lemma RoundTripIff(i: PoolInstruction)
    ensures Unpack(Pack(i)) == Ok(i) <==> (i.Create? ==> |i.markets| < TWO_16)
  {
    hide Unpack, Pack;
    UnpackIff(Pack(i), i);
  }
}

/** The second decoder of the same wire format, decodeInstruction in js/src/instructions.ts. */
module JsDecoder {
  import opened Wrappers
  import opened Numbers
  import opened Bytes
  import opened Instruction

  /** The parsed objects. Numbers are JavaScript numbers, seeds and ids stay bytes, and a byte read past the
      end is `None` (JavaScript's undefined). */
  datatype Parsed =
    | InitData(seed: seq<byte>, maxAssets: nat, numberOfMarkets: nat)
    | CreateData(seed: seq<byte>, period: nat, feeRatio: real, amounts: seq<nat>, markets: seq<Pubkey>)
    | DepositData(seed: seq<byte>, poolTokens: nat)
    | CreateOrderData(seed: seq<byte>, side: Option<byte>, limitPrice: nat, ratio: nat, orderType: Option<byte>,
                      clientId: nat, selfTrade: Option<byte>, sourceIndex: nat, targetIndex: nat,
                      marketIndex: nat, coinLotSize: nat, pcLotSize: nat, targetMint: Pubkey, serumLimit: nat)
    | CancelOrderData(seed: seq<byte>, side: Option<byte>, orderId: seq<byte>)
    | SettleFundsData(seed: seq<byte>, pcIndex: nat, coinIndex: nat)
    | RedeemData(seed: seq<byte>, poolTokens: nat)
    | CollectFeesData(seed: seq<byte>)

  /** The result of code that may throw. */
  datatype Thrown<+T> = Throws | Returns(value: T) {
    predicate IsFailure() {
      Throws?
    }

    function PropagateFailure<U>(): Thrown<U>
      requires Throws?
    {
      Throws
    }

    function Extract(): T
      requires Returns?
    {
      value
    }
  }

  /** `buffer.slice(from, from + len)`: clamped at the end of the buffer. */
  function Slice(buffer: seq<byte>, from: nat, len: nat): (r: seq<byte>)
    ensures |r| <= len
  {
    if from >= |buffer| then [] else if from + len <= |buffer| then buffer[from..from + len] else buffer[from..]
  }

  function ByteAt(buffer: seq<byte>, at: nat): Option<byte> {
    if at < |buffer| then Some(buffer[at]) else None
  }

  /** `new BN(slice, 'le').toNumber()`: throws above 53 bits. */
  function Num(buffer: seq<byte>, from: nat, len: nat): Thrown<nat> {
    var n := FromLE(Slice(buffer, from, len));
    if n < TWO_53 then Returns(n) else Throws
  }

  /** `new PublicKey(slice)`: a short slice is padded in front. */
  function Key(buffer: seq<byte>, from: nat): Pubkey {
    var s := Slice(buffer, from, 32);
    Zeros(32 - |s|) + s
  }

  /** `Buffer.alloc(16)` with the slice copied to its front. */
  function Id(buffer: seq<byte>, from: nat): seq<byte> {
    var s := Slice(buffer, from, 16);
    s + Zeros(16 - |s|)
  }

  function Keys(buffer: seq<byte>, from: nat, count: nat): seq<Pubkey>
    decreases count
  {
    if count == 0 then [] else [Key(buffer, from)] + Keys(buffer, from + 32, count - 1)
  }

  /** The amount loop runs to the end of the buffer, so a last chunk shorter than eight bytes counts as an amount. */
  function Amounts(buffer: seq<byte>, from: nat): Thrown<seq<nat>>
    decreases |buffer| - from
  {
    if from >= |buffer| then Returns([])
    else
      var n :- Num(buffer, from, 8);
      var ns :- Amounts(buffer, from + 8);
      Returns([n] + ns)
  }

  function DecodeCreate(buffer: seq<byte>): Thrown<Parsed> {
    var n :- Num(buffer, 33, 2);
    var period :- Num(buffer, 35, 8);
    var feeRatio :- Num(buffer, 43, 2);
    var amounts :- Amounts(buffer, 45 + 32 * n);
    Returns(CreateData(Slice(buffer, 1, 32), period, feeRatio as real / 65536.0, amounts, Keys(buffer, 45, n)))
  }

  function DecodeCreateOrder(buffer: seq<byte>): Thrown<Parsed> {
    var price :- Num(buffer, 34, 8);
    var ratio :- Num(buffer, 42, 2);
    var client :- Num(buffer, 45, 8);
    var src :- Num(buffer, 54, 8);
    var tgt :- Num(buffer, 62, 8);
    var market :- Num(buffer, 70, 2);
    var coinLot :- Num(buffer, 72, 8);
    var pcLot :- Num(buffer, 80, 8);
    var limit :- Num(buffer, 120, 2);
    Returns(CreateOrderData(Slice(buffer, 1, 32), ByteAt(buffer, 33), price, ratio, ByteAt(buffer, 44), client,
                            ByteAt(buffer, 53), src, tgt, market, coinLot, pcLot, Key(buffer, 88), limit))
  }

  function DecodeOther(buffer: seq<byte>, tag: nat): Thrown<Parsed> {
    var seed := Slice(buffer, 1, 32);
    match tag
    case 0 =>
      var maxAssets :- Num(buffer, 33, 4);
      var n :- Num(buffer, 37, 2);
      Returns(InitData(seed, maxAssets, n))
    case 2 =>
      var t :- Num(buffer, 33, 8);
      Returns(DepositData(seed, t))
    case 4 => Returns(CancelOrderData(seed, ByteAt(buffer, 33), Id(buffer, 34)))
    case 5 =>
      var pc :- Num(buffer, 33, 8);
      var coin :- Num(buffer, 41, 8);
      Returns(SettleFundsData(seed, pc, coin))
    case 6 =>
      var t :- Num(buffer, 33, 8);
      Returns(RedeemData(seed, t))
    case 7 => Returns(CollectFeesData(seed))
    case _ => Throws
  }

  function Decode(buffer: seq<byte>, tag: nat): Thrown<Parsed> {
    if ByteAt(buffer, 0) != Some(tag) then Throws
    else if tag == 1 then DecodeCreate(buffer)
    else if tag == 3 then DecodeCreateOrder(buffer)
    else DecodeOther(buffer, tag)
  }

  /** The Create case as the code runs it: one offset advanced through the fields and both loops. */
  method DecodeCreateLoop(buffer: seq<byte>) returns (r: Thrown<Parsed>)
    ensures r == DecodeCreate(buffer)
  {
    hide Num, Key, Slice, FromLE;
    var offset := 1;
    var seed := Slice(buffer, offset, 32);
    offset := offset + 32;
    var numberOfMarkets :- Num(buffer, offset, 2);
    offset := offset + 2;
    var period :- Num(buffer, offset, 8);
    offset := offset + 8;
    var feeRatio :- Num(buffer, offset, 2);
    offset := offset + 2;
    var markets: seq<Pubkey> := [];
    for i := 0 to numberOfMarkets
      invariant offset == 45 + 32 * i
      invariant markets + Keys(buffer, offset, numberOfMarkets - i) == Keys(buffer, 45, numberOfMarkets)
    {
      markets := markets + [Key(buffer, offset)];
      offset := offset + 32;
    }
    var amounts: seq<nat> := [];
    ghost var all := Amounts(buffer, offset);
    while offset < |buffer|
      invariant match (all, Amounts(buffer, offset))
                case (Returns(ns), Returns(more)) => ns == amounts + more
                case (Throws, Throws) => true
                case _ => false
      decreases |buffer| - offset
    {
      var amount :- Num(buffer, offset, 8);
      amounts := amounts + [amount];
      offset := offset + 8;
    }
    assert amounts + [] == amounts && markets + [] == markets;
    return Returns(CreateData(seed, period, feeRatio as real / 65536.0, amounts, markets));
  }

  // ----- Agreement with the Rust decoder -----

  /** The object that stands for an instruction. */
  function View(i: PoolInstruction): Parsed {
    match i
    case Init(seed, maxAssets, n) => InitData(seed, maxAssets, n)
    case Create(seed, period, feeRatio, amounts, markets) => CreateData(seed, period, feeRatio as real / 65536.0, amounts, markets)
    case Deposit(seed, t) => DepositData(seed, t)
    case CreateOrder(seed, side, price, ratio, orderType, client, selfTrade, src, tgt, market, coinLot, pcLot, mint, limit) =>
      CreateOrderData(seed, Some(SideByte(side)), price, ratio, Some(OrderTypeByte(orderType)), client,
                      Some(SelfTradeByte(selfTrade)), src, tgt, market, coinLot, pcLot, mint, limit)
    case CancelOrder(seed, side, id) => CancelOrderData(seed, Some(SideByte(side)), ToLE(id, 16))
    case SettleFunds(seed, pc, coin) => SettleFundsData(seed, pc, coin)
    case Redeem(seed, t) => RedeemData(seed, t)
    case CollectFees(seed) => CollectFeesData(seed)
  }

  /** Every 64-bit field is a safe JavaScript integer. */
  predicate Safe(i: PoolInstruction) {
    match i
    case Create(_, period, _, amounts, _) => period < TWO_53 && forall n | n in amounts :: n < TWO_53
    case Deposit(_, t) => t < TWO_53
    case CreateOrder(_, _, price, _, _, client, _, src, tgt, _, coinLot, pcLot, _, _) =>
      price < TWO_53 && client < TWO_53 && src < TWO_53 && tgt < TWO_53 && coinLot < TWO_53 && pcLot < TWO_53
    case SettleFunds(_, pc, coin) => pc < TWO_53 && coin < TWO_53
    case Redeem(_, t) => t < TWO_53
    case _ => true
  }

  lemma SliceInside(buffer: seq<byte>, at: nat, len: nat)
    requires buffer != [] && at + len < |buffer|
    ensures Slice(buffer, at + 1, len) == buffer[1..][at..at + len]
  {
    assert buffer[1..][at..at + len] == buffer[at + 1..at + 1 + len];
  }

  /** A 16-bit field reads the same in both decoders ... */
  lemma NumAgrees16(buffer: seq<byte>, at: nat) returns (n: u16)
    requires buffer != [] && U16At(buffer[1..], at).Ok?
    ensures U16At(buffer[1..], at) == Ok(n) && Num(buffer, at + 1, 2) == Returns(n)
  {
    hide FromLE, Slice;
    SliceInside(buffer, at, 2);
    n := U16At(buffer[1..], at).value;
    assert n == FromLE(Slice(buffer, at + 1, 2)) by {
      U16IsLE(buffer[1..], at);
    }
  }

  lemma U16IsLE(rest: seq<byte>, at: nat)
    requires U16At(rest, at).Ok?
    ensures at + 2 <= |rest| && U16At(rest, at).value == FromLE(rest[at..at + 2])
  {
    hide FromLE;
  }

  /** ... and a 64-bit field does if and only if it is a safe integer. */
  lemma NumAgrees64(buffer: seq<byte>, at: nat)
    requires buffer != [] && U64At(buffer[1..], at).Ok?
    ensures var n := U64At(buffer[1..], at).value;
            Num(buffer, at + 1, 8) == if n < TWO_53 then Returns(n) else Throws
  {
    hide FromLE, Slice;
    SliceInside(buffer, at, 8);
  }

  lemma KeyInside(buffer: seq<byte>, at: nat)
    requires buffer != [] && at + 32 < |buffer|
    ensures Key(buffer, at + 1) == buffer[1..][at..at + 32]
  {
    SliceInside(buffer, at, 32);
    var s := Slice(buffer, at + 1, 32);
    assert Zeros(0) + s == s;
  }

  lemma {:induction false} KeysAgree(buffer: seq<byte>, at: nat, count: nat)
    requires buffer != [] && KeysAt(buffer[1..], at, count).Ok?
    ensures Keys(buffer, at + 1, count) == KeysAt(buffer[1..], at, count).value
    decreases count
  {
    if count > 0 {
      KeyInside(buffer, at);
      KeysAgree(buffer, at + 32, count - 1);
    }
  }

  /** The two amount loops agree exactly when nothing is left over and every amount is safe. */
  lemma {:induction false} AmountsAgreeIff(buffer: seq<byte>, at: nat)
    requires buffer != [] && at <= |buffer| - 1
    ensures Amounts(buffer, at + 1) == Returns(AmountsAt(buffer[1..], at))
       <==> (|buffer| - 1 - at) % 8 == 0 && forall n | n in AmountsAt(buffer[1..], at) :: n < TWO_53
    decreases |buffer| - at
  {
    hide Num, FromLE, ToLE;
    var rest := buffer[1..];
    if at + 8 <= |rest| {
      NumAgrees64(buffer, at);
      AmountsAgreeIff(buffer, at + 8);
      var n, more, others := ToU64(rest[at..at + 8]), AmountsAt(rest, at + 8), Amounts(buffer, at + 9);
      assert AmountsAt(rest, at) == [n] + more;
      SameTail(n, others, more);
      assert (|buffer| - 1 - at) % 8 == (|buffer| - 1 - (at + 8)) % 8;
    } else if at < |rest| {
      assert Amounts(buffer, at + 9) == Returns([]);
    }
  }

  lemma SameTail(n: nat, others: Thrown<seq<nat>>, more: seq<u64>)
    ensures others.Returns? ==> ([n] + others.value == [n] + more <==> others.value == more)
    ensures (forall k | k in [n] + more :: k < TWO_53) <==> n < TWO_53 && forall k | k in more :: k < TWO_53
  {
    assert ([n] + more)[1..] == more;
    assert n in [n] + more;
    assert forall k | k in more :: k in [n] + more;
    if others.Returns? {
      assert ([n] + others.value)[1..] == others.value;
    }
  }

  lemma CreateAgreesIff(buffer: seq<byte>)
    requires |buffer| >= 33 && UnpackCreate(buffer[1..]).Ok?
    ensures var i := UnpackCreate(buffer[1..]).value;
            DecodeCreate(buffer) == Returns(View(i)) <==> Safe(i) && |buffer| == |Pack(i)|
  {
    hide FromLE, ToLE, Amounts, Keys, KeysAt, AmountsAt, Slice, Num, Concat, PackAmounts;
    var rest := buffer[1..];
    var i := UnpackCreate(rest).value;
    SliceInside(buffer, 0, 32);
    var n: nat := NumAgrees16(buffer, 32);
    var feeRatio := NumAgrees16(buffer, 42);
    NumAgrees64(buffer, 34);
    KeysCount(rest, CREATE_LISTS, n);
    KeysAgree(buffer, CREATE_LISTS, n);
    AmountsPackedBack(rest, CREATE_LISTS + 32 * n);
    AmountsAgreeIff(buffer, CREATE_LISTS + 32 * n);
    assert |Pack(i)| == 45 + 32 * n + 8 * |i.amounts|;
  }

  lemma CreateOrderAgreesIff(buffer: seq<byte>)
    requires buffer != [] && UnpackCreateOrder(buffer[1..]).Ok?
    ensures var i := UnpackCreateOrder(buffer[1..]).value;
            DecodeCreateOrder(buffer) == Returns(View(i)) <==> Safe(i)
  {
    hide FromLE, ToLE, Num, Slice, Key, U16At, U64At, KeyAt;
    var rest := buffer[1..];
    assert |rest| >= 121 && rest[0..32] == rest[..32] by {
      CreateOrderPackedBack(rest);
    }
    SeedAgrees(buffer);
    NumAgrees64(buffer, 33);
    var _ := NumAgrees16(buffer, 41);
    NumAgrees64(buffer, 44);
    NumAgrees64(buffer, 53);
    NumAgrees64(buffer, 61);
    var _ := NumAgrees16(buffer, 69);
    NumAgrees64(buffer, 71);
    NumAgrees64(buffer, 79);
    KeyAgrees(buffer, 87);
    var _ := NumAgrees16(buffer, 119);
  }

  lemma SeedAgrees(buffer: seq<byte>)
    requires |buffer| >= 33
    ensures KeyAt(buffer[1..], 0) == Ok(Slice(buffer, 1, 32))
  {
    SliceInside(buffer, 0, 32);
  }

  lemma KeyAgrees(buffer: seq<byte>, at: nat)
    requires buffer != [] && KeyAt(buffer[1..], at).Ok?
    ensures Key(buffer, at + 1) == KeyAt(buffer[1..], at).value
  {
    KeyInside(buffer, at);
  }

  lemma OtherAgreesIff(buffer: seq<byte>, tag: byte)
    requires |buffer| >= 33 && tag <= 7 && tag != 1 && tag != 3 && UnpackOther(tag, buffer[1..]).Ok?
    ensures var i := UnpackOther(tag, buffer[1..]).value;
            DecodeOther(buffer, tag) == Returns(View(i)) <==> Safe(i)
  {
    SliceInside(buffer, 0, 32);
    match tag
    case 0 =>
      SliceInside(buffer, 32, 4);
      SliceInside(buffer, 36, 2);
    case 4 =>
      SliceInside(buffer, 33, 16);
      assert Slice(buffer, 34, 16) + Zeros(0) == Slice(buffer, 34, 16);
    case 5 =>
      SliceInside(buffer, 32, 8);
      SliceInside(buffer, 40, 8);
    case 7 =>
    case _ => SliceInside(buffer, 32, 8);
  }

  /** On every byte string that the program accepts, the JavaScript decoder returns the same fields if and
      only if all 64-bit fields are safe integers and, for Create, no bytes are left over: the program ignores
      a last chunk of less than eight bytes, the JavaScript loop turns it into one more amount. */
  lemma DecodersAgreeIff(buffer: seq<byte>)
    requires Unpack(buffer).Ok?
    ensures var i := Unpack(buffer).value;
            Decode(buffer, Tag(i)) == Returns(View(i)) <==> Safe(i) && (i.Create? ==> |buffer| == |Pack(i)|)
  {
    hide Safe, View, FromLE, ToLE;
    var tag := buffer[0];
    AcceptedIsPacked(buffer);
    if tag == 1 {
      CreateAgreesIff(buffer);
    } else if tag == 3 {
      CreateOrderAgreesIff(buffer);
    } else {
      OtherAgreesIff(buffer, tag);
    }
  }

  /** In particular the two decoders agree on everything the program packs, up to 2^53 and 65535 markets. */
  lemma AgreeOnPacked(i: PoolInstruction)
    requires Safe(i) && (i.Create? ==> |i.markets| < TWO_16)
    ensures Unpack(Pack(i)) == Ok(i) && Decode(Pack(i), Tag(i)) == Returns(View(i))
  {
    RoundTripIff(i);
    DecodersAgreeIff(Pack(i));
  }

  // ----- The instruction type -----

  /** A returned object is of the kind that the first byte names, and the caller asked for that kind. */
  lemma ReturnsItsType(buffer: seq<byte>, tag: nat)
    requires Decode(buffer, tag).Returns?
    ensures |buffer| > 0 && buffer[0] == tag <= 7
    ensures match Decode(buffer, tag).value
            case InitData(_, _, _) => tag == 0
            case CreateData(_, _, _, _, _) => tag == 1
            case DepositData(_, _) => tag == 2
            case CreateOrderData(_, _, _, _, _, _, _, _, _, _, _, _, _, _) => tag == 3
            case CancelOrderData(_, _, _) => tag == 4
            case SettleFundsData(_, _, _) => tag == 5
            case RedeemData(_, _) => tag == 6
            case CollectFeesData(_) => tag == 7
  {
    hide Num, Slice, Key, Id, Keys, Amounts;
  }

  /** So an accepted message throws when it is decoded as any other type than its own. */
  lemma OtherTypesThrow(buffer: seq<byte>, tag: nat)
    requires Unpack(buffer).Ok? && tag != Tag(Unpack(buffer).value)
    ensures Decode(buffer, tag).Throws?
  {
    hide Unpack, Pack, Decode;
    AcceptedIsPacked(buffer);
    PackStartsWithTag(Unpack(buffer).value);
    if Decode(buffer, tag).Returns? {
      ReturnsItsType(buffer, tag);
    }
  }

  lemma PackStartsWithTag(i: PoolInstruction)
    ensures |Pack(i)| > 0 && Pack(i)[0] == Tag(i)
  {
    hide Body;
  }

  // ----- Messages that are cut short -----

  lemma {:induction false} ZerosAddNothing(s: seq<byte>, k: nat)
    ensures FromLE(s + Zeros(k)) == FromLE(s)
  {
    var z := s + Zeros(k);
    if s != [] {
      assert z[1..] == s[1..] + Zeros(k);
      ZerosAddNothing(s[1..], k);
    } else if k > 0 {
      assert z[1..] == [] + Zeros(k - 1);
      ZerosAddNothing([], k - 1);
    }
  }

  lemma SlicePadded(buffer: seq<byte>, k: nat, from: nat, len: nat) returns (j: nat)
    ensures Slice(buffer + Zeros(k), from, len) == Slice(buffer, from, len) + Zeros(j)
    ensures from + len <= |buffer| ==> j == 0
  {
    var a, b := Slice(buffer, from, len), Slice(buffer + Zeros(k), from, len);
    j := |b| - |a|;
    assert b == a + Zeros(j);
  }

  lemma NumPadded(buffer: seq<byte>, k: nat, from: nat, len: nat)
    ensures Num(buffer + Zeros(k), from, len) == Num(buffer, from, len)
  {
    hide Slice, FromLE;
    var j := SlicePadded(buffer, k, from, len);
    ZerosAddNothing(Slice(buffer, from, len), j);
  }

  lemma IdPadded(buffer: seq<byte>, k: nat, from: nat)
    ensures Id(buffer + Zeros(k), from) == Id(buffer, from)
  {
    hide Slice;
    var j := SlicePadded(buffer, k, from, 16);
    var s := Slice(buffer, from, 16);
    assert (s + Zeros(j)) + Zeros(16 - |s| - j) == s + Zeros(16 - |s|);
  }

  /** The value of the bytes of a field that are there. */
  function Word(buffer: seq<byte>, from: nat, len: nat): nat {
    FromLE((buffer + Zeros(from + len))[from..from + len])
  }

  lemma NumIsWord(buffer: seq<byte>, from: nat, len: nat)
    ensures Num(buffer, from, len) == if Word(buffer, from, len) < TWO_53 then Returns(Word(buffer, from, len)) else Throws
  {
    hide FromLE;
    NumPadded(buffer, from + len, from, len);
    var padded := buffer + Zeros(from + len);
    assert Slice(padded, from, len) == padded[from..from + len];
  }

  /** Two bytes and four bytes never exceed 53 bits. */
  lemma SmallWord(buffer: seq<byte>, from: nat, len: nat)
    requires len == 2 || len == 4
    ensures Word(buffer, from, len) < TWO_53
  {
    FromLEBound((buffer + Zeros(from + len))[from..from + len]);
    PowersOf256();
  }

  lemma {:induction false} AmountsThrowIff(buffer: seq<byte>, from: nat)
    ensures Amounts(buffer, from).Throws? <==> exists i: nat :: from + 8 * i < |buffer| && Word(buffer, from + 8 * i, 8) >= TWO_53
    decreases |buffer| - from
  {
    hide Num, Word;
    if from < |buffer| {
      NumIsWord(buffer, from, 8);
      AmountsThrowIff(buffer, from + 8);
      if Amounts(buffer, from + 8).Throws? {
        var i: nat :| from + 8 + 8 * i < |buffer| && Word(buffer, from + 8 + 8 * i, 8) >= TWO_53;
        assert from + 8 * (i + 1) == from + 8 + 8 * i;
      }
      if Word(buffer, from, 8) >= TWO_53 {
        assert from + 8 * 0 == from;
      }
      if i: nat :| from + 8 * i < |buffer| && Word(buffer, from + 8 * i, 8) >= TWO_53 {
        if i > 0 {
          assert from + 8 + 8 * (i - 1) == from + 8 * i;
        }
      }
    }
  }

  /** The 64-bit fields of a message that is not Create. */
  function WordFields(tag: nat): seq<nat> {
    match tag
    case 2 => [33]
    case 3 => [34, 45, 54, 62, 72, 80]
    case 5 => [33, 41]
    case 6 => [33]
    case _ => []
  }

  /** The decoder throws for another instruction type and for a number above 53 bits, never because a message is
      too short. */
  lemma ThrowsIff(buffer: seq<byte>, tag: nat)
    ensures Decode(buffer, tag).Throws?
       <==> || buffer == [] || buffer[0] != tag || tag > 7
            || (exists at :: at in WordFields(tag) && Word(buffer, at, 8) >= TWO_53)
            || (tag == 1 && (Word(buffer, 35, 8) >= TWO_53 || Amounts(buffer, 45 + 32 * Word(buffer, 33, 2)).Throws?))
  {
    hide Num, Slice, Key, Id, Keys, Amounts, Word;
    if buffer != [] && buffer[0] == tag && tag <= 7 {
      if tag == 1 {
        CreateThrowsIff(buffer);
      } else if tag == 3 {
        OrderThrowsIff(buffer);
      } else {
        OtherThrowsIff(buffer, tag);
      }
    }
  }

  lemma CreateThrowsIff(buffer: seq<byte>)
    ensures DecodeCreate(buffer).Throws?
       <==> Word(buffer, 35, 8) >= TWO_53 || Amounts(buffer, 45 + 32 * Word(buffer, 33, 2)).Throws?
  {
    hide Num, Slice, Key, Keys, Amounts, Word;
    NumIsWord(buffer, 33, 2);
    SmallWord(buffer, 33, 2);
    NumIsWord(buffer, 35, 8);
    NumIsWord(buffer, 43, 2);
    SmallWord(buffer, 43, 2);
  }

  lemma OrderThrowsIff(buffer: seq<byte>)
    ensures DecodeCreateOrder(buffer).Throws? <==> exists at :: at in WordFields(3) && Word(buffer, at, 8) >= TWO_53
  {
    hide Num, Slice, Key, Word, WordFields;
    forall at ensures Num(buffer, at, 8).Throws? <==> Word(buffer, at, 8) >= TWO_53 {
      NumIsWord(buffer, at, 8);
    }
    forall at ensures Num(buffer, at, 2).Returns? {
      NumIsWord(buffer, at, 2);
      SmallWord(buffer, at, 2);
    }
    assert WordFields(3) == [34, 45, 54, 62, 72, 80] by {
      OrderWords();
    }
    var f := WordFields(3);
    assert f[0] == 34 && f[1] == 45 && f[2] == 54 && f[3] == 62 && f[4] == 72 && f[5] == 80;
  }

  lemma OrderWords()
    ensures WordFields(3) == [34, 45, 54, 62, 72, 80]
  {
  }

  lemma OtherThrowsIff(buffer: seq<byte>, tag: nat)
    requires tag <= 7 && tag != 1 && tag != 3
    ensures DecodeOther(buffer, tag).Throws? <==> exists at :: at in WordFields(tag) && Word(buffer, at, 8) >= TWO_53
  {
    hide Num, Slice, Id, Word;
    NumIsWord(buffer, 33, 4);
    SmallWord(buffer, 33, 4);
    NumIsWord(buffer, 37, 2);
    SmallWord(buffer, 37, 2);
    NumIsWord(buffer, 33, 8);
    NumIsWord(buffer, 41, 8);
    if tag == 5 {
      assert WordFields(tag)[0] == 33 && WordFields(tag)[1] == 41;
    } else if tag == 2 || tag == 6 {
      assert WordFields(tag)[0] == 33;
    }
  }

  /** The seed as far as it is there. */
  function SeedPart(buffer: seq<byte>): seq<byte>
    requires |buffer| >= 1
  {
    if |buffer| >= 33 then buffer[1..33] else buffer[1..]
  }

  /** The object with another seed. */
  function Reseeded(r: Thrown<Parsed>, seed: seq<byte>): Thrown<Parsed> {
    if r.Throws? then r else Returns(r.value.(seed := seed))
  }

  lemma SeedOf(buffer: seq<byte>)
    requires |buffer| >= 1
    ensures Slice(buffer, 1, 32) == SeedPart(buffer)
  {
  }

  /** Where the program refuses a message that is cut short, the JavaScript decoder reads it as if zeros followed, but
      for the seed, which stays short; CancelOrder has no side then. */
  lemma TruncatedReadsAsPadded(buffer: seq<byte>, k: nat, tag: nat)
    requires |buffer| >= 1 && tag != 1 && tag != 3 && (tag == 4 ==> |buffer| >= 34)
    ensures Decode(buffer, tag) == Reseeded(Decode(buffer + Zeros(k), tag), SeedPart(buffer))
  {
    hide Num, Slice, Id, SeedPart;
    SeedOf(buffer);
    assert ByteAt(buffer + Zeros(k), 0) == ByteAt(buffer, 0);
    match tag
    case 0 =>
      NumPadded(buffer, k, 33, 4);
      NumPadded(buffer, k, 37, 2);
    case 4 =>
      IdPadded(buffer, k, 34);
    case 5 =>
      NumPadded(buffer, k, 33, 8);
      NumPadded(buffer, k, 41, 8);
    case _ => NumPadded(buffer, k, 33, 8);
  }

  /** The same for an order cut short behind its three flags, but for the target mint, which is padded in front. */
  lemma TruncatedOrder(buffer: seq<byte>, k: nat)
    requires |buffer| >= 54
    ensures var padded := DecodeCreateOrder(buffer + Zeros(k));
            DecodeCreateOrder(buffer) == if padded.Throws? then Throws else Returns(padded.value.(targetMint := Key(buffer, 88)))
  {
    hide Num, Slice, Key;
    SeedOf(buffer);
    SeedOf(buffer + Zeros(k));
    assert SeedPart(buffer + Zeros(k)) == SeedPart(buffer);
    forall at, len ensures Num(buffer + Zeros(k), at, len) == Num(buffer, at, len) {
      NumPadded(buffer, k, at, len);
    }
  }

  /** A Create message with no room for amounts has none, and its keys are padded in front one by one. */
  lemma TruncatedCreate(buffer: seq<byte>, n: nat)
    requires |buffer| >= 33 && n == Word(buffer, 33, 2) && |buffer| <= 45 + 32 * n && Word(buffer, 35, 8) < TWO_53
    ensures DecodeCreate(buffer).Returns?
    ensures var d := DecodeCreate(buffer).value;
            && d.CreateData? && d.seed == buffer[1..33] && d.period == Word(buffer, 35, 8)
            && d.feeRatio == Word(buffer, 43, 2) as real / 65536.0 && d.amounts == []
            && |d.markets| == n && forall i | 0 <= i < n :: d.markets[i] == Key(buffer, 45 + 32 * i)
  {
    hide Num, Slice, Key, Word;
    SeedOf(buffer);
    NumIsWord(buffer, 33, 2);
    SmallWord(buffer, 33, 2);
    NumIsWord(buffer, 35, 8);
    NumIsWord(buffer, 43, 2);
    SmallWord(buffer, 43, 2);
    KeysOneByOne(buffer, 45, n);
  }

  lemma {:induction false} KeysOneByOne(buffer: seq<byte>, from: nat, count: nat)
    ensures |Keys(buffer, from, count)| == count
    ensures forall i | 0 <= i < count :: Keys(buffer, from, count)[i] == Key(buffer, from + 32 * i)
    decreases count
  {
    hide Key;
    if count > 0 {
      KeysOneByOne(buffer, from + 32, count - 1);
      forall i | 0 < i < count ensures Keys(buffer, from, count)[i] == Key(buffer, from + 32 * i) {
        assert Keys(buffer, from, count)[i] == Keys(buffer, from + 32, count - 1)[i - 1];
        assert from + 32 + 32 * (i - 1) == from + 32 * i;
      }
    }
  }

  /** A key that is cut short is padded in front instead. */
  lemma ShortKey(buffer: seq<byte>, from: nat)
    requires from <= |buffer| < from + 32
    ensures Key(buffer, from)[from + 32 - |buffer|..] == buffer[from..]
    ensures forall i | 0 <= i < from + 32 - |buffer| :: Key(buffer, from)[i] == 0
  {
  }

  /** The last chunk of a Create message counts as an amount padded with zeros. */
  lemma {:induction false} LastChunkIsPadded(buffer: seq<byte>, from: nat, k: nat)
    requires from < |buffer| && k < 8 && (|buffer| + k - from) % 8 == 0
    ensures Amounts(buffer, from) == Amounts(buffer + Zeros(k), from)
    decreases |buffer| - from
  {
    hide Num;
    NumPadded(buffer, k, from, 8);
    if from + 8 < |buffer| {
      LastChunkIsPadded(buffer, from + 8, k);
    } else {
      assert Amounts(buffer, from + 8) == Returns([]) == Amounts(buffer + Zeros(k), from + 8);
    }
  }
}

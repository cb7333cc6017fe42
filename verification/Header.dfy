/** The 117-byte pool header of program/src/state.rs and its packing. */
module Header {
  import opened Numbers
  import opened Bytes

  type NonZeroU8 = n: nat | 1 <= n < 0x100 witness 1

  datatype PoolStatus =
    | Uninitialized
    | Unlocked
    | Locked
    | PendingOrder(pending: NonZeroU8)
    | LockedPendingOrder(pending: NonZeroU8)

  datatype PoolHeader = PoolHeader(
    serumProgramId: Pubkey,
    seed: Pubkey,
    signalProvider: Pubkey,
    status: PoolStatus,
    numberOfMarkets: u16,
    feeRatio: u16,
    lastFeeCollection: u64,
    feeCollectionPeriod: u64)

  const HEADER_LENGTH: nat := 117
  const PENDING_FLAG: nat := 0x40
  const PENDING_MASK: nat := 0x3F
  const LOCKED_FLAG: nat := 0x80

  /** The status byte: two flag bits above a six-bit count that holds `pending - 1`. The flags and the
      masked count occupy disjoint bits, so `|` is addition and `PENDING_MASK & k` is k % 64. */
  function StatusByte(status: PoolStatus): byte {
    match status
    case Uninitialized => 0
    case Unlocked => PENDING_MASK
    case Locked => LOCKED_FLAG
    case PendingOrder(n) => PENDING_FLAG + (n - 1) % 64
    case LockedPendingOrder(n) => LOCKED_FLAG + PENDING_FLAG + (n - 1) % 64
  }

  /** The inverse: `b >> 6` is b / 64 and `b & PENDING_MASK` is b % 64. */
  function DecodeStatus(b: byte): PoolStatus {
    if b == 0 then Uninitialized
    else if b / 64 == 0 then Unlocked
    else if b / 64 == 1 then PendingOrder(b % 64 + 1)
    else if b / 64 == 2 then Locked
    else LockedPendingOrder(b % 64 + 1)
  }

  function PackHeader(h: PoolHeader): (r: seq<byte>)
    ensures |r| == HEADER_LENGTH
  {
    h.serumProgramId + h.seed + h.signalProvider + [StatusByte(h.status)]
    + ToLE(h.numberOfMarkets, 2) + ToLE(h.feeRatio, 2)
    + ToLE(h.lastFeeCollection, 8) + ToLE(h.feeCollectionPeriod, 8)
  }

  /** `unpack_from_slice`: reads the first 117 bytes; it never fails on a slice that is long enough. */
  function UnpackHeader(src: seq<byte>): PoolHeader
    requires |src| >= HEADER_LENGTH
  {
    PoolHeader(src[..32], src[32..64], src[64..96], DecodeStatus(src[96]),
               ToU16(src[97..99]), ToU16(src[99..101]), ToU64(src[101..109]), ToU64(src[109..117]))
  }

  predicate Representable(status: PoolStatus) {
    (status.PendingOrder? || status.LockedPendingOrder?) ==> status.pending <= 64
  }

  lemma StatusRoundTrip(status: PoolStatus)
    ensures DecodeStatus(StatusByte(status)) == status <==> Representable(status)
  {
  }

  /** What every status byte means, canonical or not: bit 7 is the lock, bit 6 says that orders are pending, and the low
      six bits are one less than their number; only zero is uninitialized. */
  lemma StatusBits(b: byte)
    ensures DecodeStatus(b) == Uninitialized <==> b == 0
    ensures DecodeStatus(b).Locked? || DecodeStatus(b).LockedPendingOrder? <==> b >= 128
    ensures DecodeStatus(b).PendingOrder? || DecodeStatus(b).LockedPendingOrder? <==> b / 64 % 2 == 1
    ensures DecodeStatus(b).PendingOrder? || DecodeStatus(b).LockedPendingOrder? ==> DecodeStatus(b).pending == b % 64 + 1
  {
  }

  lemma HeaderFields(h: PoolHeader, tail: seq<byte>)
    ensures var src := PackHeader(h) + tail;
            && src[..32] == h.serumProgramId && src[32..64] == h.seed && src[64..96] == h.signalProvider
            && src[96] == StatusByte(h.status)
            && src[97..99] == ToLE(h.numberOfMarkets, 2) && src[99..101] == ToLE(h.feeRatio, 2)
            && src[101..109] == ToLE(h.lastFeeCollection, 8) && src[109..117] == ToLE(h.feeCollectionPeriod, 8)
  {
  }

  /** Packing then unpacking gives back every field, and the status exactly when its pending count
      fits the six-bit field (1..64); whatever follows the header plays no part. */
  lemma HeaderRoundTrip(h: PoolHeader, tail: seq<byte>)
    ensures UnpackHeader(PackHeader(h) + tail) == h.(status := DecodeStatus(StatusByte(h.status)))
    ensures UnpackHeader(PackHeader(h) + tail) == h <==> Representable(h.status)
  {
    HeaderFields(h, tail);
    U16RoundTrip(h.numberOfMarkets);
    U16RoundTrip(h.feeRatio);
    U64RoundTrip(h.lastFeeCollection);
    U64RoundTrip(h.feeCollectionPeriod);
    StatusRoundTrip(h.status);
  }

  /** The status bytes that packing produces. */
  predicate CanonicalStatus(b: byte) {
    b == 0 || b == 63 || b == 128 || 64 <= b < 128 || 192 <= b
  }

  /** Re-packing touches the status byte only. */
  lemma RepackedBytes(src: seq<byte>)
    requires |src| == HEADER_LENGTH
    ensures PackHeader(UnpackHeader(src)) == src[..96] + [StatusByte(DecodeStatus(src[96]))] + src[97..]
  {
    hide ToLE, FromLE, StatusByte, DecodeStatus;
    assert src[..96] == src[..32] + src[32..64] + src[64..96];
    assert src[97..] == src[97..99] + src[99..101] + src[101..109] + src[109..117];
  }

  lemma RepackedStatus(b: byte)
    ensures CanonicalStatus(StatusByte(DecodeStatus(b))) && Representable(DecodeStatus(b))
    ensures StatusByte(DecodeStatus(b)) == b <==> CanonicalStatus(b)
  {
  }

  /** Re-packing a decoded header: the decoded meaning is kept, every byte but the status byte is
      kept, and the status byte is kept exactly when it was canonical. */
  lemma RepackIsCanonical(src: seq<byte>)
    requires |src| == HEADER_LENGTH
    ensures var again := PackHeader(UnpackHeader(src));
            && UnpackHeader(again) == UnpackHeader(src)
            && again[..96] == src[..96] && again[97..] == src[97..]
            && CanonicalStatus(again[96])
            && (again == src <==> CanonicalStatus(src[96]))
  {
    hide PackHeader, StatusByte, DecodeStatus, ToU16, ToU64;
    var h := UnpackHeader(src);
    var again := PackHeader(h);
    RepackedStatus(src[96]);
    RepackedBytes(src);
    HeaderRoundTrip(h, []);
    assert again + [] == again;
    assert src == src[..96] + [src[96]] + src[97..];
  }

  /** A buffer that is being filled from the front: `done`, then what was there. */
  ghost predicate Filled(now: seq<byte>, done: seq<byte>, was: seq<byte>) {
    |done| <= |was| && now == done + was[|done|..]
  }

  lemma FilledAtStart(was: seq<byte>)
    ensures Filled(was, [], was)
  {
  }

  lemma FilledMeans(now: seq<byte>, done: seq<byte>, was: seq<byte>)
    requires Filled(now, done, was)
    ensures |done| <= |was| && now == done + was[|done|..]
  {
  }

  /** The next field. */
  method CopyNext(target: array<byte>, at: nat, s: seq<byte>, ghost done: seq<byte>, ghost was: seq<byte>) returns (ghost more: seq<byte>)
    requires at == |done| && at + |s| <= |was| && Filled(target[..], done, was)
    modifies target
    ensures more == done + s && |more| == at + |s| && Filled(target[..], more, was)
  {
    CopyFromSlice(target, at, s);
    PatchNext(done, was, s);
    more := done + s;
  }

  /** `pack_into_slice`: overwrites the first 117 bytes in place, field by field. */
  method PackIntoSlice(target: array<byte>, h: PoolHeader)
    requires target.Length >= HEADER_LENGTH
    modifies target
    ensures target[..] == PackHeader(h) + old(target[..])[HEADER_LENGTH..]
  {
    hide ToLE, StatusByte, Filled;
    ghost var was := target[..];
    FilledAtStart(was);
    ghost var done := CopyNext(target, 0, h.serumProgramId, [], was);
    assert done == h.serumProgramId;
    done := CopyNext(target, 32, h.seed, done, was);
    done := CopyNext(target, 64, h.signalProvider, done, was);
    done := CopyNext(target, 96, [StatusByte(h.status)], done, was);
    done := CopyNext(target, 97, ToLE(h.numberOfMarkets, 2), done, was);
    done := CopyNext(target, 99, ToLE(h.feeRatio, 2), done, was);
    done := CopyNext(target, 101, ToLE(h.lastFeeCollection, 8), done, was);
    done := CopyNext(target, 109, ToLE(h.feeCollectionPeriod, 8), done, was);
    FilledMeans(target[..], done, was);
  }
}

/** The account data behind the header (program/src/state.rs): market keys, then 32-byte asset slots. */
module Layout {
  import opened Wrappers
  import opened Numbers
  import opened Bytes
  import opened Header

  /** Where the asset slots start. */
  function AssetOffset(h: PoolHeader): nat {
    HEADER_LENGTH + KEY_LENGTH * h.numberOfMarkets
  }

  /** The keys that `is_initialized` accepts. */
  function Initialized(keys: seq<Pubkey>): seq<Pubkey> {
    if keys == [] then []
    else (if keys[0] == NO_KEY then [] else [keys[0]]) + Initialized(keys[1..])
  }

  /** The initialized slots in order; a trailing part shorter than a slot is ignored. */
  function AssetsIn(input: seq<byte>): seq<Pubkey> {
    if |input| < KEY_LENGTH then []
    else (if input[..KEY_LENGTH] == NO_KEY then [] else [input[..KEY_LENGTH]]) + AssetsIn(input[KEY_LENGTH..])
  }

  lemma AssetsInStep(input: seq<byte>, offset: nat)
    requires offset + KEY_LENGTH <= |input|
    ensures var slot := input[offset..offset + KEY_LENGTH];
            AssetsIn(input[offset..]) == (if slot == NO_KEY then [] else [slot]) + AssetsIn(input[offset + KEY_LENGTH..])
  {
    var rest := input[offset..];
    assert rest[..KEY_LENGTH] == input[offset..offset + KEY_LENGTH];
    assert rest[KEY_LENGTH..] == input[offset + KEY_LENGTH..];
  }

  /** What has been read up to a position, and what is still to come. */
  ghost predicate ReadSoFar(output: seq<Pubkey>, input: seq<byte>, offset: nat) {
    offset <= |input| && output + AssetsIn(input[offset..]) == AssetsIn(input)
  }

  lemma ReadStart(input: seq<byte>)
    ensures ReadSoFar([], input, 0)
  {
    assert input[0..] == input;
  }

  lemma ReadSlot(output: seq<Pubkey>, input: seq<byte>, offset: nat)
    requires ReadSoFar(output, input, offset) && offset + KEY_LENGTH <= |input|
    ensures var slot: Pubkey := input[offset..offset + KEY_LENGTH];
            ReadSoFar(if slot == NO_KEY then output else output + [slot], input, offset + KEY_LENGTH)
  {
    AssetsInStep(input, offset);
    hide AssetsIn;
    var slot: Pubkey := input[offset..offset + KEY_LENGTH];
    var rest := AssetsIn(input[offset + KEY_LENGTH..]);
    assert output + ([slot] + rest) == (output + [slot]) + rest;
    assert output + ([] + rest) == output + rest;
  }

  lemma ReadEnd(output: seq<Pubkey>, input: seq<byte>, offset: nat)
    requires ReadSoFar(output, input, offset) && |input| < offset + KEY_LENGTH
    ensures output == AssetsIn(input)
  {
    assert AssetsIn(input[offset..]) == [];
  }

  /** `unpack_assets`: the loop over slot offsets. */
  method UnpackAssets(input: seq<byte>) returns (output: seq<Pubkey>)
    ensures output == AssetsIn(input)
  {
    hide AssetsIn, ReadSoFar;
    output := [];
    var offset := 0;
    var count := |input| / KEY_LENGTH;
    ReadStart(input);
    for i := 0 to count
      invariant offset == KEY_LENGTH * i <= |input|
      invariant ReadSoFar(output, input, offset)
    {
      ReadSlot(output, input, offset);
      var slot: Pubkey := input[offset..offset + KEY_LENGTH];
      if slot != NO_KEY {
        output := output + [slot];
      }
      offset := offset + KEY_LENGTH;
    }
    ReadEnd(output, input, offset);
  }

  /** `unpack_market`; `None` stands for the panic on a slice that is out of range. */
  function UnpackMarket(input: seq<byte>, index: u16): Option<Pubkey> {
    var offset := KEY_LENGTH * index;
    if offset + KEY_LENGTH <= |input| then Some(input[offset..offset + KEY_LENGTH]) else None
  }

  lemma NextKey(keys: seq<Pubkey>, i: nat)
    requires i < |keys|
    ensures Concat(keys[..i + 1]) == Concat(keys[..i]) + keys[i]
  {
    ConcatAppend(keys[..i], keys[i]);
    assert keys[..i + 1] == keys[..i] + [keys[i]];
  }

  /** `pack_markets`, also the loop that writes the assets: keys one after the other from `at`. */
  method PackKeys(target: array<byte>, at: nat, keys: seq<Pubkey>)
    requires at + KEY_LENGTH * |keys| <= target.Length
    modifies target
    ensures target[..] == Patch(old(target[..]), at, Concat(keys))
  {
    assert keys[..0] == [] && Concat([]) == [];
    hide Patch, Concat;
    ghost var was, written: seq<byte> := target[..], [];
    PatchNothing(was, at);
    for i := 0 to |keys|
      invariant |written| == KEY_LENGTH * i && written == Concat(keys[..i])
      invariant |was| == target.Length && target[..] == Patch(was, at, written)
    {
      NextKey(keys, i);
      PatchAppend(was, at, written, keys[i]);
      CopyFromSlice(target, at + KEY_LENGTH * i, keys[i]);
      written := written + keys[i];
    }
    assert keys[..|keys|] == keys;
  }

  // ----- Single slots -----

  /** The byte offset of a slot. `index * 32` is a 64-bit product and wraps in a release build. */
  function SlotOffset(index: u64): nat {
    index * KEY_LENGTH % TWO_64
  }

  /** The slot that an index really names. */
  function SlotOf(index: u64): nat {
    index % 0x800_0000_0000_0000
  }

  lemma SlotOffsetWraps(index: u64)
    ensures SlotOffset(index) == KEY_LENGTH * SlotOf(index)
  {
  }

  predicate SlotInRange(input: seq<byte>, index: u64) {
    SlotOffset(index) + KEY_LENGTH <= |input|
  }

  /** `unpack_unchecked_asset`, for an index in range. */
  function SlotAt(input: seq<byte>, index: u64): Pubkey
    requires SlotInRange(input, index)
  {
    input[SlotOffset(index)..SlotOffset(index) + KEY_LENGTH]
  }

  // ----- The layout reads back -----

  lemma {:induction false} AssetsInConcat(keys: seq<Pubkey>, rest: seq<byte>)
    ensures AssetsIn(Concat(keys) + rest) == Initialized(keys) + AssetsIn(rest)
  {
    var input := Concat(keys) + rest;
    if keys == [] {
      assert input == rest;
    } else {
      assert input == keys[0] + (Concat(keys[1..]) + rest);
      hide Concat;
      assert input[..KEY_LENGTH] == keys[0];
      assert input[KEY_LENGTH..] == Concat(keys[1..]) + rest;
      AssetsInConcat(keys[1..], rest);
    }
  }

  lemma {:induction false} NoAssetsInZeros(n: nat)
    ensures AssetsIn(Zeros(n)) == []
  {
    if n >= KEY_LENGTH {
      assert Zeros(n)[..KEY_LENGTH] == NO_KEY;
      assert Zeros(n)[KEY_LENGTH..] == Zeros(n - KEY_LENGTH);
      NoAssetsInZeros(n - KEY_LENGTH);
    }
  }

  /** The account image that Create writes over an account whose remaining bytes are `rest`. */
  function Image(h: PoolHeader, markets: seq<Pubkey>, assets: seq<Pubkey>, rest: seq<byte>): seq<byte> {
    PackHeader(h) + Concat(markets) + Concat(assets) + rest
  }

  /** Nothing overlaps: header, every market and every asset read back as written, in order. */
  lemma ImageReadsBack(h: PoolHeader, markets: seq<Pubkey>, assets: seq<Pubkey>, rest: seq<byte>)
    requires h.numberOfMarkets == |markets| && Representable(h.status)
    ensures var data := Image(h, markets, assets, rest);
            && UnpackHeader(data) == h
            && |data| >= AssetOffset(h)
            && (forall i: u16 | i < |markets| :: UnpackMarket(data[HEADER_LENGTH..], i) == Some(markets[i]))
            && AssetsIn(data[AssetOffset(h)..]) == Initialized(assets) + AssetsIn(rest)
  {
    var data := Image(h, markets, assets, rest);
    hide PackHeader, UnpackHeader, Concat, AssetsIn, Initialized;
    var ms := Concat(markets);
    var tail := ms + Concat(assets) + rest;
    assert data == PackHeader(h) + tail;
    HeaderRoundTrip(h, tail);
    assert data[HEADER_LENGTH..] == tail;
    forall i: u16 | i < |markets| ensures UnpackMarket(tail, i) == Some(markets[i]) {
      ConcatAt(markets, i);
      assert tail[32 * i..32 * i + 32] == ms[32 * i..32 * i + 32];
    }
    assert data[AssetOffset(h)..] == Concat(assets) + rest;
    AssetsInConcat(assets, rest);
  }

  // ----- Write-once slots -----

  /** Slot k of a region, by position. */
  function Slot(input: seq<byte>, k: nat): Pubkey
    requires 32 * k + 32 <= |input|
  {
    input[32 * k..32 * k + 32]
  }

  /** Every slot that was initialized still holds the same key. */
  ghost predicate Preserves(before: seq<byte>, after: seq<byte>) {
    && |before| == |after|
    && forall k: nat | 32 * k + 32 <= |before| :: Slot(before, k) == NO_KEY || Slot(after, k) == Slot(before, k)
  }

  lemma PreservesTransitive(a: seq<byte>, b: seq<byte>, c: seq<byte>)
    requires Preserves(a, b) && Preserves(b, c)
    ensures Preserves(a, c)
  {
    forall k: nat | 32 * k + 32 <= |a| ensures Slot(a, k) == NO_KEY || Slot(c, k) == Slot(a, k) {
      assert Slot(b, k) == NO_KEY || Slot(c, k) == Slot(b, k);
    }
  }

  /** Writing one slot touches no other slot. */
  lemma PatchSlot(input: seq<byte>, index: u64, key: Pubkey, k: nat)
    requires SlotInRange(input, index) && 32 * k + 32 <= |input|
    ensures Slot(Patch(input, SlotOffset(index), key), k) == if k == SlotOf(index) then key else Slot(input, k)
  {
    SlotOffsetWraps(index);
    var j := SlotOf(index);
    var after := Patch(input, 32 * j, key);
    if k < j {
      assert after[32 * k..32 * k + 32] == input[32 * k..32 * k + 32];
    } else if k > j {
      assert after[32 * k..32 * k + 32] == input[32 * k..32 * k + 32];
    }
  }

  ghost predicate IsSubsequence<T(!new)>(a: seq<T>, b: seq<T>) {
    a == [] || (b != [] && ((a[0] == b[0] && IsSubsequence(a[1..], b[1..])) || IsSubsequence(a, b[1..])))
  }

  /** If no initialized slot changes, the earlier asset list is a subsequence of the later one. */
  lemma {:induction false} PreservesSubsequence(before: seq<byte>, after: seq<byte>)
    requires Preserves(before, after)
    ensures IsSubsequence(AssetsIn(before), AssetsIn(after))
  {
    if |before| >= KEY_LENGTH {
      var b, a := before[32..], after[32..];
      forall k: nat | 32 * k + 32 <= |b| ensures Slot(b, k) == NO_KEY || Slot(a, k) == Slot(b, k) {
        assert Slot(b, k) == Slot(before, k + 1) && Slot(a, k) == Slot(after, k + 1);
      }
      PreservesSubsequence(b, a);
      assert Slot(before, 0) == before[..32] && Slot(after, 0) == after[..32];
      var x, y := AssetsIn(before), AssetsIn(after);
      if after[..32] == NO_KEY {
        assert y == AssetsIn(a) && x == AssetsIn(b);
      } else {
        assert y[1..] == AssetsIn(a);
        if before[..32] == NO_KEY {
          assert x == AssetsIn(b);
        } else {
          assert x[0] == y[0] && x[1..] == AssetsIn(b);
        }
      }
    }
  }
}

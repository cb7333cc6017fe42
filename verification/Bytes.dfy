/** Byte strings: little-endian integers, slices and in-place copies. */
module Bytes {
  import opened Numbers

  const KEY_LENGTH: nat := 32

  /** Thirty-two bytes: public keys and pool seeds. */
  type Pubkey = s: seq<byte> | |s| == 32 witness seq(32, _ => 0)

  function Zeros(n: nat): (r: seq<byte>)
    ensures |r| == n
  {
    seq(n, _ => 0)
  }

  const NO_KEY: Pubkey := Zeros(32)

  // ----- Little-endian integers -----

  /** `to_le_bytes` for an integer of `len` bytes. */
  function ToLE(n: nat, len: nat): (r: seq<byte>)
    ensures |r| == len
  {
    if len == 0 then [] else [n % 0x100] + ToLE(n / 0x100, len - 1)
  }

  /** `from_le_bytes`. */
  function FromLE(s: seq<byte>): nat {
    if s == [] then 0 else s[0] + 0x100 * FromLE(s[1..])
  }

  lemma {:induction false} FromLEBound(s: seq<byte>)
    ensures FromLE(s) < Pow(0x100, |s|)
  {
    if s != [] {
      FromLEBound(s[1..]);
    }
  }

  lemma {:induction false} FromToLE(n: nat, len: nat)
    requires n < Pow(0x100, len)
    ensures FromLE(ToLE(n, len)) == n
  {
    if len > 0 {
      assert n / 0x100 < Pow(0x100, len - 1);
      FromToLE(n / 0x100, len - 1);
      assert ToLE(n, len)[1..] == ToLE(n / 0x100, len - 1);
    }
  }

  lemma {:induction false} ToFromLE(s: seq<byte>)
    ensures ToLE(FromLE(s), |s|) == s
  {
    if s != [] {
      ToFromLE(s[1..]);
      var n := FromLE(s);
      assert n % 0x100 == s[0] && n / 0x100 == FromLE(s[1..]);
      assert s == [s[0]] + s[1..];
    }
  }

  lemma PowersOf256()
    ensures Pow(0x100, 1) == 0x100 && Pow(0x100, 2) == TWO_16
    ensures Pow(0x100, 4) == TWO_32 && Pow(0x100, 8) == TWO_64 && Pow(0x100, 16) == TWO_128
  {
    PowAdd(0x100, 1, 1);
    PowAdd(0x100, 2, 2);
    PowAdd(0x100, 4, 4);
    PowAdd(0x100, 8, 8);
  }

  function ToU16(s: seq<byte>): (r: u16)
    requires |s| == 2
    ensures ToLE(r, 2) == s
  {
    PowersOf256(); FromLEBound(s); ToFromLE(s);
    FromLE(s)
  }

  function ToU32(s: seq<byte>): (r: u32)
    requires |s| == 4
    ensures ToLE(r, 4) == s
  {
    PowersOf256(); FromLEBound(s); ToFromLE(s);
    FromLE(s)
  }

  function ToU64(s: seq<byte>): (r: u64)
    requires |s| == 8
    ensures ToLE(r, 8) == s
  {
    PowersOf256(); FromLEBound(s); ToFromLE(s);
    FromLE(s)
  }

  function ToU128(s: seq<byte>): (r: u128)
    requires |s| == 16
    ensures ToLE(r, 16) == s
  {
    PowersOf256(); FromLEBound(s); ToFromLE(s);
    FromLE(s)
  }

  lemma U16RoundTrip(n: u16)
    ensures ToU16(ToLE(n, 2)) == n
  {
    PowersOf256(); FromToLE(n, 2);
  }

  lemma U32RoundTrip(n: u32)
    ensures ToU32(ToLE(n, 4)) == n
  {
    PowersOf256(); FromToLE(n, 4);
  }

  lemma U64RoundTrip(n: u64)
    ensures ToU64(ToLE(n, 8)) == n
  {
    PowersOf256(); FromToLE(n, 8);
  }

  lemma U128RoundTrip(n: u128)
    ensures ToU128(ToLE(n, 16)) == n
  {
    PowersOf256(); FromToLE(n, 16);
  }

  // ----- Concatenated keys -----

  function Concat(keys: seq<Pubkey>): (r: seq<byte>)
    ensures |r| == 32 * |keys|
  {
    if keys == [] then [] else keys[0] + Concat(keys[1..])
  }

  lemma {:induction false} ConcatAppend(keys: seq<Pubkey>, key: Pubkey)
    ensures Concat(keys + [key]) == Concat(keys) + key
  {
    if keys == [] {
      assert [key][1..] == [];
      assert Concat([key]) == key + Concat([]);
    } else {
      assert (keys + [key])[1..] == keys[1..] + [key];
      ConcatAppend(keys[1..], key);
    }
  }

  lemma {:induction false} ConcatAt(keys: seq<Pubkey>, i: nat)
    requires i < |keys|
    ensures Concat(keys)[32 * i..32 * i + 32] == keys[i]
  {
    if i > 0 {
      ConcatAt(keys[1..], i - 1);
      assert Concat(keys)[32 * i..32 * i + 32] == Concat(keys[1..])[32 * (i - 1)..32 * (i - 1) + 32];
    }
  }

  // ----- Writing into a buffer -----

  /** `s` copied over the bytes of `data` from position `at`. */
  function Patch(data: seq<byte>, at: nat, s: seq<byte>): (r: seq<byte>)
    requires at + |s| <= |data|
    ensures |r| == |data|
  {
    data[..at] + s + data[at + |s|..]
  }

  /** Filling a buffer from the front: what is done, then what was there. */
  lemma PatchNext(done: seq<byte>, was: seq<byte>, s: seq<byte>)
    requires |done| + |s| <= |was|
    ensures Patch(done + was[|done|..], |done|, s) == done + s + was[|done + s|..]
  {
  }

  /** A patch that continues an earlier one. */
  lemma PatchAppend(data: seq<byte>, at: nat, s: seq<byte>, more: seq<byte>)
    requires at + |s| + |more| <= |data|
    ensures Patch(Patch(data, at, s), at + |s|, more) == Patch(data, at, s + more)
  {
  }

  lemma PatchNothing(data: seq<byte>, at: nat)
    requires at <= |data|
    ensures Patch(data, at, []) == data
  {
  }

  /** `target[at..at + s.len()].copy_from_slice(s)`. */
  method CopyFromSlice(target: array<byte>, at: nat, s: seq<byte>)
    requires at + |s| <= target.Length
    modifies target
    ensures target[..] == Patch(old(target[..]), at, s)
  {
    for i := 0 to |s|
      invariant forall k | 0 <= k < at :: target[k] == old(target[k])
      invariant forall k | 0 <= k < i :: target[at + k] == s[k]
      invariant forall k | at + i <= k < target.Length :: target[k] == old(target[k])
    {
      target[at + i] := s[i];
    }
    ghost var want := Patch(old(target[..]), at, s);
    forall k | 0 <= k < target.Length ensures target[..][k] == want[k] {
      if at <= k < at + |s| {
        assert target[at + (k - at)] == s[k - at];
      }
    }
  }

  /** `fill_slice(&mut target[from..], val)`: every byte from position `from` on becomes `val`. */
  method FillSlice(target: array<byte>, from: nat, val: byte)
    requires from <= target.Length
    modifies target
    ensures target[..] == old(target[..])[..from] + seq(target.Length - from, _ => val)
  {
    for i := from to target.Length
      invariant target[..from] == old(target[..])[..from]
      invariant forall k | from <= k < i :: target[k] == val
    {
      target[i] := val;
    }
  }
}

/** Bytes as a Uint8Array holds them, and the plain arrays of numbers that
    `Array.from` turns them into before they go into the key-value store. */
module Bytes {

  newtype byte = x: int | 0 <= x < 256

  /** `Array.from(u8)`: each element becomes an ordinary number. */
  function Pack(b: seq<byte>): (nums: seq<int>)
    ensures |nums| == |b|
  {
    if b == [] then [] else [b[0] as int] + Pack(b[1..])
  }

  /** ToUint8, the conversion `new Uint8Array(numbers)` applies to each element:
      the number modulo 2^8 (never negative, as Dafny's `%`). */
  function ToUint8(n: int): byte
  {
    (n % 256) as byte
  }

  /** `new Uint8Array(numbers)`. */
  function Unpack(nums: seq<int>): (b: seq<byte>)
    ensures |b| == |nums|
  {
    if nums == [] then [] else [ToUint8(nums[0])] + Unpack(nums[1..])
  }

  /** Storing a Uint8Array as a number array and reading it back is lossless. */
  lemma {:induction false} UnpackPack(b: seq<byte>)
    ensures Unpack(Pack(b)) == b
  {
    if b != [] {
      assert Pack(b)[1..] == Pack(b[1..]);
      UnpackPack(b[1..]);
    }
  }

  /** Every number `Pack` produces is a byte value, so `Unpack` takes it unchanged. */
  lemma {:induction false} PackInRange(b: seq<byte>, i: nat)
    requires i < |b|
    ensures Pack(b)[i] == b[i] as int && 0 <= Pack(b)[i] < 256
  {
    if i > 0 {
      PackInRange(b[1..], i - 1);
    }
  }

  /** Numbers outside 0..255 wrap around, as ToUint8 does. */
  lemma {:induction false} UnpackAt(nums: seq<int>, i: nat)
    requires i < |nums|
    ensures Unpack(nums)[i] as int == nums[i] % 256
  {
    if i > 0 {
      UnpackAt(nums[1..], i - 1);
    }
  }
}

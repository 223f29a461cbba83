/** Self-delimiting byte encodings with their decoders. Every decoder reads one
    value off the front of a byte sequence and returns it with the bytes after it,
    so encodings can be concatenated and read back one field at a time.

    The model uses them in two places where only a round trip matters: the stand-in
    for the AES-GCM ciphertext layout and the stand-in for the engine's export format. */
module Codec {
  import opened Wrappers
  import opened Bytes

  /** The value read and the bytes that follow it. */
  type Decoded<T> = Option<(T, seq<byte>)>

  /** Little-endian base-128 digits; the top bit says another digit follows. */
  function EncodeNat(n: nat): seq<byte>
  {
    if n < 128 then [n as byte] else [(128 + n % 128) as byte] + EncodeNat(n / 128)
  }

  function DecodeNat(s: seq<byte>): Decoded<nat>
  {
    if s == [] then None
    else if s[0] < 128 then Some((s[0] as nat, s[1..]))
    else match DecodeNat(s[1..])
      case None => None
      case Some((m, rest)) => Some(((s[0] as int - 128) + 128 * m, rest))
  }

  lemma {:induction false} DecodeEncodeNat(n: nat, rest: seq<byte>)
    ensures DecodeNat(EncodeNat(n) + rest) == Some((n, rest))
  {
    if n >= 128 {
      var s := EncodeNat(n) + rest;
      assert s[1..] == EncodeNat(n / 128) + rest;
      DecodeEncodeNat(n / 128, rest);
    }
  }

  /** Signed integers, folded onto the naturals as 0, -1, 1, -2, 2, ... */
  function ZigZag(i: int): nat
  {
    if i >= 0 then 2 * i else -2 * i - 1
  }

  function EncodeInt(i: int): seq<byte>
  {
    EncodeNat(ZigZag(i))
  }

  function DecodeInt(s: seq<byte>): Decoded<int>
  {
    match DecodeNat(s)
    case None => None
    case Some((n, rest)) => Some((if n % 2 == 0 then n / 2 else -(n + 1) / 2, rest))
  }

  lemma DecodeEncodeInt(i: int, rest: seq<byte>)
    ensures DecodeInt(EncodeInt(i) + rest) == Some((i, rest))
  {
    DecodeEncodeNat(ZigZag(i), rest);
  }

  /** A byte string: its length, then the bytes themselves. */
  function EncodeBytes(b: seq<byte>): seq<byte>
  {
    EncodeNat(|b|) + b
  }

  function DecodeBytes(s: seq<byte>): Decoded<seq<byte>>
  {
    match DecodeNat(s)
    case None => None
    case Some((n, rest)) => if n <= |rest| then Some((rest[..n], rest[n..])) else None
  }

  lemma DecodeEncodeBytes(b: seq<byte>, rest: seq<byte>)
    ensures DecodeBytes(EncodeBytes(b) + rest) == Some((b, rest))
  {
    assert EncodeBytes(b) + rest == EncodeNat(|b|) + (b + rest);
    DecodeEncodeNat(|b|, b + rest);
    assert (b + rest)[..|b|] == b && (b + rest)[|b|..] == rest;
  }

  /** A list: the encodings of its elements one after another (the count is stored separately). */
  function EncodeList<T>(xs: seq<T>, enc: T -> seq<byte>): seq<byte>
  {
    if xs == [] then [] else enc(xs[0]) + EncodeList(xs[1..], enc)
  }

  /** Reads `count` elements with `dec`. */
  function DecodeList<T>(count: nat, s: seq<byte>, dec: seq<byte> -> Decoded<T>): Decoded<seq<T>>
  {
    if count == 0 then Some(([], s))
    else match dec(s)
      case None => None
      case Some((x, rest)) =>
        match DecodeList(count - 1, rest, dec)
        case None => None
        case Some((xs, rest')) => Some(([x] + xs, rest'))
  }

  /** `dec` reads back exactly what `enc` wrote, whatever follows it. */
  ghost predicate RoundTrips<T(!new)>(enc: T -> seq<byte>, dec: seq<byte> -> Decoded<T>)
  {
    forall x, rest :: dec(enc(x) + rest) == Some((x, rest))
  }

  lemma {:induction false} DecodeEncodeList<T(!new)>(xs: seq<T>, rest: seq<byte>, enc: T -> seq<byte>, dec: seq<byte> -> Decoded<T>)
    requires RoundTrips(enc, dec)
    ensures DecodeList(|xs|, EncodeList(xs, enc) + rest, dec) == Some((xs, rest))
  {
    if xs != [] {
      var tail := EncodeList(xs[1..], enc) + rest;
      assert EncodeList(xs, enc) + rest == enc(xs[0]) + tail;
      var s := EncodeList(xs, enc) + rest;
      assert dec(s) == Some((xs[0], tail));
      DecodeEncodeList(xs[1..], rest, enc, dec);
      assert DecodeList(|xs| - 1, tail, dec) == Some((xs[1..], rest));
      assert [xs[0]] + xs[1..] == xs;
    } else {
      assert EncodeList(xs, enc) + rest == rest;
    }
  }

  /** Unicode scalar values: the code points a Dafny `char` can hold. */
  predicate IsScalar(n: nat)
  {
    n < 0xD800 || 0xE000 <= n < 0x11_0000
  }

  function EncodeChar(c: char): seq<byte>
  {
    EncodeNat(c as int)
  }

  function DecodeChar(s: seq<byte>): Decoded<char>
  {
    match DecodeNat(s)
    case None => None
    case Some((n, rest)) => if IsScalar(n) then Some((n as char, rest)) else None
  }

  lemma CharRoundTrips()
    ensures RoundTrips(EncodeChar, DecodeChar)
  {
    forall c: char, rest: seq<byte> ensures DecodeChar(EncodeChar(c) + rest) == Some((c, rest)) {
      DecodeEncodeNat(c as int, rest);
    }
  }

  /** A string: its length, then its characters. */
  function EncodeString(s: string): seq<byte>
  {
    EncodeNat(|s|) + EncodeList(s, EncodeChar)
  }

  function DecodeString(s: seq<byte>): Decoded<string>
  {
    match DecodeNat(s)
    case None => None
    case Some((n, rest)) => DecodeList(n, rest, DecodeChar)
  }

  lemma DecodeEncodeString(s: string, rest: seq<byte>)
    ensures DecodeString(EncodeString(s) + rest) == Some((s, rest))
  {
    var body := EncodeList(s, EncodeChar) + rest;
    assert EncodeString(s) + rest == EncodeNat(|s|) + body;
    DecodeEncodeNat(|s|, body);
    CharRoundTrips();
    DecodeEncodeList(s, rest, EncodeChar, DecodeChar);
  }

  lemma StringRoundTrips()
    ensures RoundTrips(EncodeString, DecodeString)
  {
    forall s: string, rest: seq<byte> ensures DecodeString(EncodeString(s) + rest) == Some((s, rest)) {
      DecodeEncodeString(s, rest);
    }
  }
}

/** Small shared vocabulary. */
module Basics {
  type byte = x: int | 0 <= x < 256

  datatype Option<+T> = None | Some(value: T)

  /** A `requireFact` that fails raises its code; everything else yields a value. */
  datatype Result<+T> = Ok(value: T) | Err(code: string)

  function Min(a: int, b: int): int { if a <= b then a else b }

  function Max(a: int, b: int): int { if a <= b then b else a }

  /** `LIMITS` of the wire contract. */
  const LINE := 96 * 1024
  const RECORDS := 65536
  const SHARD := 32 * 1024 * 1024
  const IMAGE := 8 * 1024 * 1024
  const CHUNK := 48 * 1024
  const FAILURE_SNAPSHOT := 8 * 1024 * 1024

  // ---- 32-bit numbers on the wire ----

  const U32 := 0x1_0000_0000

  /** Four bytes, most significant first. */
  function EncodeU32(n: nat): (r: seq<byte>)
    requires n < U32
    ensures |r| == 4
  {
    [n / 0x100_0000, n / 0x1_0000 % 256, n / 0x100 % 256, n % 256]
  }

  function ReadU32(b: seq<byte>, at: nat): nat
    requires at + 4 <= |b|
  {
    b[at] as int * 0x100_0000 + b[at + 1] as int * 0x1_0000 + b[at + 2] as int * 0x100 + b[at + 3] as int
  }

  lemma U32RoundTrip(n: nat, b: seq<byte>, at: nat)
    requires n < U32 && at + 4 <= |b| && b[at..at + 4] == EncodeU32(n)
    ensures ReadU32(b, at) == n
  {
    var e := EncodeU32(n);
    assert b[at] == e[0] && b[at + 1] == e[1] && b[at + 2] == e[2] && b[at + 3] == e[3] by {
      assert b[at..at + 4][0] == e[0] && b[at..at + 4][1] == e[1] && b[at..at + 4][2] == e[2]
          && b[at..at + 4][3] == e[3];
    }
    assert n == (n / 0x100) * 0x100 + n % 256;
    assert n / 0x100 == (n / 0x1_0000) * 0x100 + n / 0x100 % 256;
    assert n / 0x1_0000 == (n / 0x100_0000) * 0x100 + n / 0x1_0000 % 256;
  }

  lemma Cut(q: nat, r: byte)
    ensures (q * 256 + r as int) / 256 == q && (q * 256 + r as int) % 256 == r as int
  {
  }

  lemma CutTwice(n: nat)
    ensures n / 0x1_0000 == n / 256 / 256 && n / 0x100_0000 == n / 256 / 256 / 256
  {
  }

  /** Writing what was read gives the bytes back. */
  lemma U32Read(b: seq<byte>, at: nat)
    requires at + 4 <= |b|
    ensures ReadU32(b, at) < U32 && EncodeU32(ReadU32(b, at)) == b[at..at + 4]
  {
    var n := ReadU32(b, at);
    var top: nat := b[at];
    var two := top * 256 + b[at + 1] as int;
    var three := two * 256 + b[at + 2] as int;
    assert n == three * 256 + b[at + 3] as int;
    Cut(top, b[at + 1]);
    Cut(two, b[at + 2]);
    Cut(three, b[at + 3]);
    CutTwice(n);
    assert b[at..at + 4] == [b[at], b[at + 1], b[at + 2], b[at + 3]];
  }

  /** The first byte is the most significant one: numbers compare as their bytes do, in order. */
  lemma U32BigEndian(a: seq<byte>, b: seq<byte>)
    requires |a| == 4 && |b| == 4
    ensures ReadU32(a, 0) == ((a[0] as int * 256 + a[1] as int) * 256 + a[2] as int) * 256 + a[3] as int
    ensures ReadU32(a, 0) < ReadU32(b, 0) <==>
              exists k :: 0 <= k < 4 && a[..k] == b[..k] && a[k] < b[k]
  {
    if a[0] != b[0] {
      assert a[..0] == b[..0];
    } else if a[1] != b[1] {
      assert a[..1] == b[..1];
    } else if a[2] != b[2] {
      assert a[..2] == b[..2];
    } else {
      assert a[..3] == b[..3];
    }
  }
}

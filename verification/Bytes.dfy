/** Machine words and their in-memory byte order, as the structs of the protocol use them. */
module Bytes {

  const U32_LIMIT: nat := 0x1_0000_0000

  type byte = b: nat | b < 256

  /** `u_int32_t`, `protocol_t` and `channel_id_t`. */
  type u32 = n: nat | n < 0x1_0000_0000

  /** A 64-bit sum stored into a `uint32_t`. */
  function Truncate(n: nat): u32 {
    n % U32_LIMIT
  }

  function LittleEndian(n: nat, width: nat): (s: seq<byte>)
    ensures |s| == width
    decreases width
  {
    if width == 0 then [] else var low: byte := n % 256; [low] + LittleEndian(n / 256, width - 1)
  }

  function Value(s: seq<byte>): nat
    decreases |s|
  {
    if s == [] then 0 else var low: nat := s[0]; low + 256 * Value(s[1..])
  }

  /** How many values fit in so many bytes. */
  function Capacity(width: nat): nat {
    if width == 0 then 1 else 256 * Capacity(width - 1)
  }

  lemma {:induction false} ValueInRange(s: seq<byte>)
    ensures Value(s) < Capacity(|s|)
    decreases |s|
  {
    if s != [] {
      ValueInRange(s[1..]);
    }
  }

  lemma {:induction false} ValueOfBytes(n: nat, width: nat)
    requires n < Capacity(width)
    ensures Value(LittleEndian(n, width)) == n
    decreases width
  {
    if width > 0 {
      var low: byte := n % 256;
      assert LittleEndian(n, width)[1..] == LittleEndian(n / 256, width - 1);
      ValueOfBytes(n / 256, width - 1);
    }
  }

  lemma {:induction false} BytesOfValue(s: seq<byte>)
    ensures LittleEndian(Value(s), |s|) == s
    decreases |s|
  {
    if s != [] {
      BytesOfValue(s[1..]);
      var low: nat := s[0];
      assert Value(s) % 256 == low && Value(s) / 256 == Value(s[1..]);
    }
  }

  const WORD: nat := 4

  lemma WordCapacity()
    ensures Capacity(WORD) == U32_LIMIT
  {
    assert Capacity(1) == 0x100;
    assert Capacity(2) == 0x1_0000;
    assert Capacity(3) == 0x100_0000;
  }

  /** The bytes `memcpy` takes from a 32-bit word, least significant first. */
  function WordBytes(n: u32): (s: seq<byte>)
    ensures |s| == 4
  {
    LittleEndian(n, WORD)
  }

  /** The word `memcpy` puts together from four bytes. */
  function WordAt(s: seq<byte>, at: nat): u32
    requires at + 4 <= |s|
  {
    WordCapacity();
    ValueInRange(s[at..at + WORD]);
    Value(s[at..at + WORD])
  }

  /** Which byte goes where. */
  lemma LeastSignificantFirst(n: u32)
    ensures WordBytes(n) == [n % 0x100, n / 0x100 % 0x100, n / 0x1_0000 % 0x100, n / 0x100_0000]
  {
    var n1, n2, n3 := n / 0x100, n / 0x1_0000, n / 0x100_0000;
    assert n2 == n1 / 0x100 && n3 == n2 / 0x100 && n3 < 0x100;
    assert LittleEndian(n3, 1) == [n3];
    assert LittleEndian(n2, 2) == [n2 % 0x100] + LittleEndian(n3, 1);
    assert LittleEndian(n1, 3) == [n1 % 0x100] + LittleEndian(n2, 2);
  }

  lemma WordRoundTrip(n: u32)
    ensures WordAt(WordBytes(n), 0) == n
  {
    WordCapacity();
    ValueOfBytes(n, WORD);
    assert WordBytes(n)[0..WORD] == WordBytes(n);
  }

  lemma BytesRoundTrip(s: seq<byte>, at: nat)
    requires at + 4 <= |s|
    ensures WordBytes(WordAt(s, at)) == s[at..at + 4]
  {
    BytesOfValue(s[at..at + WORD]);
  }

  /** A word read from the middle of a larger buffer. */
  lemma WordInside(before: seq<byte>, n: u32, after: seq<byte>)
    ensures WordAt(before + WordBytes(n) + after, |before|) == n
  {
    var s := before + WordBytes(n) + after;
    assert s[|before|..|before| + 4] == WordBytes(n) == WordBytes(n)[0..4];
    WordRoundTrip(n);
  }

  /** `vector::resize`: cut, or pad with zero bytes. */
  function Resized(s: seq<byte>, n: nat): (r: seq<byte>)
    ensures |r| == n
    ensures forall i | 0 <= i < n :: r[i] == if i < |s| then s[i] else 0
    ensures |s| == n ==> r == s
  {
    if n <= |s| then s[..n] else s + seq(n - |s|, _ => 0)
  }

  /** `memcpy` into a buffer; the caller owes it the room. */
  function Splice(s: seq<byte>, at: nat, word: seq<byte>): (r: seq<byte>)
    requires at + |word| <= |s|
    ensures |r| == |s|
  {
    s[..at] + word + s[at + |word|..]
  }
}

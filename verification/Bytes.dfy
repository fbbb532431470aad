/** Byte sequences, little-endian integers and concatenation. */
module Bytes {
  type byte = x: int | 0 <= x < 256

  /** All parts joined in order. */
  function Concat(parts: seq<seq<byte>>): seq<byte> {
    if parts == [] then [] else parts[0] + Concat(parts[1..])
  }

  lemma {:induction false} ConcatAppend(a: seq<seq<byte>>, b: seq<seq<byte>>)
    ensures Concat(a + b) == Concat(a) + Concat(b)
  {
    if a == [] {
      assert a + b == b;
    } else {
      assert (a + b)[1..] == a[1..] + b;
      ConcatAppend(a[1..], b);
    }
  }

  lemma ConcatSnoc(a: seq<seq<byte>>, last: seq<byte>)
    ensures Concat(a + [last]) == Concat(a) + last
  {
    ConcatAppend(a, [last]);
    assert Concat([last]) == last;
  }

  lemma ConcatTwo(a: seq<byte>, b: seq<byte>)
    ensures Concat([a]) == a && Concat([b]) == b && Concat([a, b]) == a + b
  {
    assert [a, b][1..] == [b];
  }

  lemma DropInside<T>(a: seq<T>, b: seq<T>, n: nat)
    requires n <= |a|
    ensures (a + b)[n..] == a[n..] + b
  {
  }

  lemma DropTwice<T>(a: seq<T>, m: nat, n: nat)
    requires m + n <= |a|
    ensures a[m..][n..] == a[m + n..]
  {
  }

  function Power256(k: nat): (r: nat)
    ensures r > 0
  {
    if k == 0 then 1 else 256 * Power256(k - 1)
  }

  /** The `width` low bytes of `value`, least significant first, as an x86 or x64 store lays them out. */
  function LittleEndian(width: nat, value: nat): (r: seq<byte>)
    ensures |r| == width
  {
    if width == 0 then [] else [value % 256] + LittleEndian(width - 1, value / 256)
  }

  function FromLittleEndian(bytes: seq<byte>): (r: nat)
    ensures r < Power256(|bytes|)
  {
    if bytes == [] then 0 else bytes[0] + 256 * FromLittleEndian(bytes[1..])
  }

  /** The 16-bit integer at offset `at`. */
  function Word(bytes: seq<byte>, at: nat): (r: nat)
    requires at + 2 <= |bytes|
    ensures r < 65536
  {
    (bytes[at] as int) + 256 * (bytes[at + 1] as int)
  }

  lemma WordIsLittleEndian(bytes: seq<byte>, at: nat)
    requires at + 2 <= |bytes|
    ensures Word(bytes, at) == FromLittleEndian(bytes[at..at + 2])
    ensures bytes[at..at + 2] == LittleEndian(2, Word(bytes, at))
  {
    var b := bytes[at..at + 2];
    assert b[1..] == [bytes[at + 1]] && b[1..][1..] == [];
    assert FromLittleEndian(b[1..]) == bytes[at + 1] as int;
    FromLittleEndianRoundTrip(b);
  }

  lemma {:induction false} LittleEndianRoundTrip(width: nat, value: nat)
    requires value < Power256(width)
    ensures FromLittleEndian(LittleEndian(width, value)) == value
  {
    if width > 0 {
      LittleEndianRoundTrip(width - 1, value / 256);
      assert LittleEndian(width, value)[1..] == LittleEndian(width - 1, value / 256);
    }
  }

  lemma {:induction false} FromLittleEndianRoundTrip(bytes: seq<byte>)
    ensures LittleEndian(|bytes|, FromLittleEndian(bytes)) == bytes
  {
    if bytes != [] {
      FromLittleEndianRoundTrip(bytes[1..]);
      assert bytes == [bytes[0]] + bytes[1..];
    }
  }
}

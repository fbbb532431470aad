/**
 * The receive ring buffer. One cell always stays empty, so `size` cells hold at most `size - 1`
 * bytes. Positions and lengths are C++ integers; a copy with a negative length or beyond the end of
 * the array has no meaning in C++ and is the outcome `Undefined` here.
 */
module RingBuffer {
  import opened Bytes

  datatype ReadResult = TooShort | Undefined | Got(bytes: seq<byte>)

  /** The stored bytes, oldest first. */
  function Stored(cells: seq<byte>, read: nat, write: nat): seq<byte>
    requires read < |cells| && write < |cells|
  {
    if read <= write then cells[read..write] else cells[read..] + cells[..write]
  }

  function StoredSize(size: nat, read: nat, write: nat): int {
    if write >= read then write - read else size - read + write
  }

  /**
   * Read copies up to the end of the array before it copies from the start, unless the stored bytes
   * lie between the two positions. It therefore has no meaning for a request that ends before the
   * end of the array while the stored bytes wrap around, and for a negative length.
   */
  predicate ReadUndefined(size: nat, read: nat, write: nat, len: int) {
    len <= StoredSize(size, read, write) && (len < 0 || (read >= write && len < size - read))
  }

  lemma StoredLength(cells: seq<byte>, read: nat, write: nat)
    requires read < |cells| && write < |cells|
    ensures |Stored(cells, read, write)| == StoredSize(|cells|, read, write)
    ensures |Stored(cells, read, write)| < |cells|
  {
  }

  lemma DropPast<T>(a: seq<T>, b: seq<T>, n: nat)
    requires |a| <= n <= |a| + |b|
    ensures (a + b)[n..] == b[n - |a|..]
  {
  }

  /** Below twice the size, going round is one subtraction. */
  lemma Round(x: nat, size: nat)
    requires x < 2 * size
    ensures x % size == if x < size then x else x - size
  {
    if x >= size {
      assert x == size + (x - size);
    }
  }

  /** Dropping the first bytes is moving the read position round. */
  lemma StoredDrop(cells: seq<byte>, read: nat, write: nat, len: nat)
    requires read < |cells| && write < |cells| && len <= StoredSize(|cells|, read, write)
    ensures Stored(cells, (read + len) % |cells|, write) == Stored(cells, read, write)[len..]
  {
    Round(read + len, |cells|);
    if read + len < |cells| {
      DropStraight(cells, read, write, len);
    } else {
      DropRound(cells, read, write, len);
    }
  }

  lemma DropStraight(cells: seq<byte>, read: nat, write: nat, len: nat)
    requires read + len < |cells| && write < |cells| && len <= StoredSize(|cells|, read, write)
    ensures Stored(cells, read + len, write) == Stored(cells, read, write)[len..]
  {
    if read > write {
      DropInside(cells[read..], cells[..write], len);
    }
  }

  lemma DropRound(cells: seq<byte>, read: nat, write: nat, len: nat)
    requires read < |cells| <= read + len && write < |cells| && len <= StoredSize(|cells|, read, write)
    ensures Stored(cells, read + len - |cells|, write) == Stored(cells, read, write)[len..]
  {
    DropPast(cells[read..], cells[..write], len);
  }

  /** The cells after `src` was stored at `at` and on, round the end of the array. */
  ghost predicate StoredAt(before: seq<byte>, at: nat, src: seq<byte>, after: seq<byte>)
    requires at < |before| && |src| < |before|
  {
    if at + |src| <= |before| then after == before[..at] + src + before[at + |src|..]
    else
      var first := |before| - at;
      after == src[first..] + before[|src| - first..at] + src[..first]
  }

  lemma TwoCopies(before: seq<byte>, at: nat, src: seq<byte>, once: seq<byte>, after: seq<byte>)
    requires at < |before| < at + |src| && |src| < |before| == |once|
    requires var first := |before| - at;
             && once == before[..at] + src[0..0 + first] + before[at + first..]
             && after == once[..0] + src[first..first + (|src| - first)] + once[0 + (|src| - first)..]
    ensures StoredAt(before, at, src, after)
  {
    var first := |before| - at;
    assert once == before[..at] + src[..first];
    DropInside(before[..at], src[..first], |src| - first);
    assert before[..at][|src| - first..] == before[|src| - first..at];
  }

  /** Storing at the write position appends. */
  lemma StoredAppend(before: seq<byte>, read: nat, write: nat, src: seq<byte>, after: seq<byte>)
    requires read < |before| && write < |before|
    requires 0 < |src| <= |before| - 1 - StoredSize(|before|, read, write)
    requires StoredAt(before, write, src, after)
    ensures |after| == |before|
    ensures Stored(after, read, (write + |src|) % |before|) == Stored(before, read, write) + src
  {
    Round(write + |src|, |before|);
    if write + |src| < |before| {
      AppendStraight(before, read, write, src, after);
    } else {
      AppendRound(before, read, write, src, after);
    }
  }

  lemma AppendStraight(before: seq<byte>, read: nat, write: nat, src: seq<byte>, after: seq<byte>)
    requires read < |before| && write + |src| < |before|
    requires 0 < |src| <= |before| - 1 - StoredSize(|before|, read, write)
    requires after == before[..write] + src + before[write + |src|..]
    ensures |after| == |before|
    ensures Stored(after, read, write + |src|) == Stored(before, read, write) + src
  {
    if read <= write {
      assert after[read..write + |src|] == before[read..write] + src;
    } else {
      assert after[read..] == before[read..];
      assert after[..write + |src|] == before[..write] + src;
    }
  }

  lemma AppendRound(before: seq<byte>, read: nat, write: nat, src: seq<byte>, after: seq<byte>)
    requires read < |before| && write < |before| <= write + |src|
    requires 0 < |src| <= |before| - 1 - StoredSize(|before|, read, write)
    requires StoredAt(before, write, src, after)
    ensures |after| == |before|
    ensures Stored(after, read, write + |src| - |before|) == Stored(before, read, write) + src
  {
    var first := |before| - write;
    var k := |src| - first;
    assert after == src[first..] + before[k..write] + src[..first];
    RoundParts(before, read, write, src, after, k);
    assert src == src[..first] + src[first..];
  }

  lemma RoundParts(before: seq<byte>, read: nat, write: nat, src: seq<byte>, after: seq<byte>, k: nat)
    requires k <= read <= write <= |before| && |before| - write <= |src| && k == |src| - (|before| - write)
    requires after == src[|before| - write..] + before[k..write] + src[..|before| - write]
    ensures after[read..] == before[read..write] + src[..|before| - write]
    ensures after[..k] == src[|before| - write..]
  {
  }

  /** A request that the wrapped layout answers wrongly: four bytes are stored and two cannot be read. */
  lemma ReadUndefinedExample()
    ensures StoredSize(8, 5, 1) == 4 && ReadUndefined(8, 5, 1, 2)
  {
  }

  class RingBuffer {
    const cells: array<byte>
    var readPos: nat
    var writePos: nat

    ghost predicate Valid()
      reads this
    {
      readPos < cells.Length && writePos < cells.Length
    }

    ghost function Contents(): seq<byte>
      requires Valid()
      reads this, cells
    {
      Stored(cells[..], readPos, writePos)
    }

    /** A buffer of `size` cells, cleared as the session's constructor does. */
    constructor (size: nat)
      requires size > 0
      ensures Valid() && fresh(cells) && cells.Length == size
      ensures readPos == 0 && Contents() == []
    {
      cells := new byte[size](_ => 0);
      readPos, writePos := 0, 0;
    }

    function GetStoredSize(): (n: int)
      requires Valid()
      reads this, cells
      ensures n == |Contents()|
    {
      StoredLength(cells[..], readPos, writePos);
      if writePos >= readPos then writePos - readPos else cells.Length - readPos + writePos
    }

    function GetFreeSize(): (n: int)
      requires Valid()
      reads this, cells
      ensures 0 <= n == cells.Length - 1 - |Contents()|
    {
      StoredLength(cells[..], readPos, writePos);
      cells.Length - GetStoredSize() - 1
    }

    /** memcpy of `src[from..from + len]` to the cells starting at `at`. */
    method CopyIn(at: nat, src: seq<byte>, from: nat, len: nat)
      requires at + len <= cells.Length && from + len <= |src|
      modifies cells
      ensures cells[..] == old(cells[..at]) + src[from..from + len] + old(cells[at + len..])
    {
      forall i | 0 <= i < len {
        cells[at + i] := src[from + i];
      }
    }

    /** The copy of Write: in two pieces when `src` does not fit before the end of the array. */
    method Store(src: seq<byte>)
      requires Valid() && 0 < |src| < cells.Length
      modifies cells
      ensures StoredAt(old(cells[..]), writePos, src, cells[..])
    {
      var first := cells.Length - writePos;
      if first >= |src| {
        CopyIn(writePos, src, 0, |src|);
      } else {
        CopyIn(writePos, src, 0, first);
        ghost var once := cells[..];
        CopyIn(0, src, first, |src| - first);
        TwoCopies(old(cells[..]), writePos, src, once, cells[..]);
      }
    }

    /** Appends all of `src`, or nothing when it is empty or there is no room. */
    method Write(src: seq<byte>) returns (ok: bool)
      requires Valid()
      modifies this`writePos, cells
      ensures Valid()
      ensures ok <==> 0 < |src| <= cells.Length - 1 - old(|Contents()|)
      ensures Contents() == if ok then old(Contents()) + src else old(Contents())
      ensures !ok ==> writePos == old(writePos)
    {
      if |src| <= 0 || |src| > GetFreeSize() {
        return false;
      }
      Store(src);
      StoredAppend(old(cells[..]), readPos, writePos, src, cells[..]);
      writePos := (writePos + |src|) % cells.Length;
      return true;
    }

    /** Copies out the first `len` bytes and leaves them in the buffer. */
    method Peek(len: int) returns (ok: bool, out: seq<byte>)
      requires Valid()
      ensures ok <==> 0 < len <= |Contents()|
      ensures ok ==> out == Contents()[..len]
      ensures !ok ==> out == []
    {
      if len <= 0 || len > GetStoredSize() {
        return false, [];
      }
      var first := cells.Length - readPos;
      if first >= len {
        out := cells[readPos..readPos + len];
      } else {
        out := cells[readPos..] + cells[..len - first];
      }
      return true, out;
    }

    /**
     * Takes the first `len` bytes, when the copy has a meaning. Nothing is said about the buffer
     * after a copy that has none.
     */
    method Read(len: int) returns (result: ReadResult)
      requires Valid()
      modifies this`readPos
      ensures Valid()
      ensures result.TooShort? <==> len > old(|Contents()|)
      ensures result.Undefined? <==> old(ReadUndefined(cells.Length, readPos, writePos, len))
      ensures result.Got? ==>
                && 0 <= len
                && result.bytes == old(Contents())[..len]
                && Contents() == old(Contents())[len..]
                && readPos == (old(readPos) + len) % cells.Length
      ensures result.TooShort? ==> readPos == old(readPos)
    {
      if GetStoredSize() < len {
        return TooShort;
      }
      var out: seq<byte>;
      if readPos < writePos {
        if len < 0 {
          return Undefined;
        }
        out := cells[readPos..readPos + len];
      } else {
        var first := cells.Length - readPos;
        if len - first < 0 {
          return Undefined;
        }
        out := cells[readPos..readPos + first] + cells[..len - first];
      }
      StoredDrop(cells[..], readPos, writePos, len);
      readPos := (readPos + len) % cells.Length;
      return Got(out);
    }

    method Clear()
      requires Valid()
      modifies this`readPos, this`writePos
      ensures Valid() && Contents() == [] && readPos == 0
    {
      readPos, writePos := 0, 0;
    }
  }
}

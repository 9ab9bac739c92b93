/** The circular byte store behind terminal replay. */
module RingBuffers {
  import opened Seqs

  newtype byte = b: int | 0 <= b < 256

  /** The last `n` elements, or all of them when there are fewer. */
  function Last(s: seq<byte>, n: nat): (r: seq<byte>)
    ensures |r| == if |s| <= n then |s| else n
  {
    if |s| <= n then s else s[|s| - n..]
  }

  lemma LastIsSuffix(s: seq<byte>, n: nat)
    ensures s == s[..|s| - |Last(s, n)|] + Last(s, n)
  {
  }

  /** Keeping the last `n` bytes early does not change which bytes are last in the end. */
  lemma LastOfLast(s: seq<byte>, t: seq<byte>, n: nat)
    ensures Last(Last(s, n) + t, n) == Last(s + t, n)
  {
    if |s| > n {
      var a, b := s[..|s| - n], s[|s| - n..];
      assert s == a + b;
      Regroup(a, b, t);
      LastOfConcat(a, b + t, n);
    }
  }

  lemma LastOfConcat(a: seq<byte>, b: seq<byte>, n: nat)
    requires |b| >= n
    ensures Last(a + b, n) == Last(b, n)
  {
    if n < |b| {
      assert (a + b)[|a + b| - n..] == b[|b| - n..];
    } else if a == [] {
      assert a + b == b;
    } else {
      assert (a + b)[|a|..] == b;
    }
  }

  /** The content of a store whose next write goes to `pos`. */
  function Logical(store: seq<byte>, pos: nat, wrapped: bool): seq<byte>
    requires pos <= |store|
  {
    if wrapped then store[pos..] + store[..pos] else store[..pos]
  }

  /** `store` with `bytes` written over it at `at`. */
  function Overwrite(store: seq<byte>, at: nat, bytes: seq<byte>): (r: seq<byte>)
    requires at + |bytes| <= |store|
    ensures |r| == |store|
  {
    store[..at] + bytes + store[at + |bytes|..]
  }

  lemma LastAfter(s: seq<byte>, t: seq<byte>)
    ensures Last(s + t, |t|) == t
  {
  }

  lemma OverwriteMiddle(p: seq<byte>, q: seq<byte>, r: seq<byte>, bytes: seq<byte>)
    requires |q| == |bytes|
    ensures Overwrite(p + q + r, |p|, bytes) == p + bytes + r
  {
    var store := p + q + r;
    assert store[..|p|] == p;
    assert store[|p| + |bytes|..] == r;
  }

  lemma LogicalWrapped(p: seq<byte>, q: seq<byte>)
    ensures Logical(p + q, |p|, true) == q + p
    ensures Logical(p + q, |p|, false) == p
  {
    assert (p + q)[..|p|] == p && (p + q)[|p|..] == q;
  }

  /** Data no shorter than the store replaces it by the data's tail. */
  lemma ReplaceAll(store: seq<byte>, pos: nat, wrapped: bool, head: seq<byte>, tail: seq<byte>)
    requires pos < |store| == |tail|
    ensures Logical(Overwrite(store, 0, tail), 0, true) == Last(Logical(store, pos, wrapped) + (head + tail), |store|)
  {
    assert Overwrite(store, 0, tail) == tail;
    LogicalWrapped([], tail);
    assert [] + tail == tail;
    var before := Logical(store, pos, wrapped);
    assert before + (head + tail) == (before + head) + tail;
    LastAfter(before + head, tail);
    assert tail + [] == tail;
  }

  /** Data that fits before the physical end; reaching it exactly wraps the position. */
  lemma FitToEnd(p: seq<byte>, q: seq<byte>, r: seq<byte>, wrapped: bool, bytes: seq<byte>)
    requires |q| == |bytes| && |q + r| > 0
    ensures var n := |p + q + r|;
              Logical(Overwrite(p + q + r, |p|, bytes), if r == [] then 0 else |p + q|, wrapped || r == [])
              == Last(Logical(p + q + r, |p|, wrapped) + bytes, n)
  {
    OverwriteMiddle(p, q, r, bytes);
    assert p + q + r == p + (q + r);
    LogicalWrapped(p, q + r);
    LogicalWrapped(p + bytes, r);
    if r == [] {
      assert p + bytes + r == [] + (p + bytes);
      LogicalWrapped([], p + bytes);
      assert (p + bytes) + [] == p + bytes;
    }
    if wrapped {
      assert q + r + p + bytes == q + (r + (p + bytes));
      LastAfter(q, r + (p + bytes));
      if r == [] { assert r + (p + bytes) == p + bytes; }
    }
  }

  lemma WrapAround(store: seq<byte>, pos: nat, wrapped: bool, a: seq<byte>, b: seq<byte>)
    requires pos < |store| && |a| == |store| - pos && |b| < pos
    ensures Logical(Overwrite(Overwrite(store, pos, a), 0, b), |b|, true)
         == Last(Logical(store, pos, wrapped) + (a + b), |store|)
  {
    var u, v, w := store[..|b|], store[|b|..pos], store[pos..];
    assert Overwrite(store, pos, a) == u + v + a by { assert store[..pos] == u + v; }
    assert Overwrite(u + v + a, 0, b) == b + (v + a);
    assert Logical(b + (v + a), |b|, true) == v + a + b;
    var front := if wrapped then w + u else u;
    assert Logical(store, pos, wrapped) == front + v by { assert store[..pos] == u + v; }
    assert front + v + (a + b) == front + (v + a + b);
    LastAfter(front, v + a + b);
  }

  class RingBuffer {
    const capacity: nat
    const buffer: array<byte>
    var writePos: nat
    var wrapped: bool
    var totalWritten: nat
    /** Everything written since the last clear. */
    ghost var written: seq<byte>

    ghost predicate Valid()
      reads this, buffer
    {
      && capacity > 0 && buffer.Length == capacity && writePos < capacity
      && Contents() == Last(written, capacity)
    }

    /** The logical content: the oldest byte sits at writePos once the store has wrapped. */
    ghost function Contents(): seq<byte>
      reads this, buffer
      requires writePos <= buffer.Length
    {
      Logical(buffer[..], writePos, wrapped)
    }

    constructor (capacity: nat)
      requires capacity > 0
      ensures Valid() && fresh(buffer) && this.capacity == capacity
      ensures written == [] && totalWritten == 0
    {
      this.capacity := capacity;
      this.buffer := new byte[capacity](_ => 0);
      this.writePos := 0;
      this.wrapped := false;
      this.totalWritten := 0;
      this.written := [];
    }

    /** A capacity that is not positive is an error, as in the source's constructor. */
    static method Create(capacity: int) returns (r: RingBuffer?)
      ensures r == null <==> capacity <= 0
      ensures r != null ==> fresh(r) && fresh(r.buffer) && r.Valid() && r.capacity == capacity
                            && r.written == [] && r.totalWritten == 0
    {
      if capacity <= 0 {
        return null;
      }
      r := new RingBuffer(capacity);
    }

    /** Copies `bytes` into the store at `at`. */
    method CopyIn(bytes: seq<byte>, at: nat)
      requires at + |bytes| <= buffer.Length
      modifies buffer
      ensures buffer[..] == Overwrite(old(buffer[..]), at, bytes)
    {
      forall i | 0 <= i < |bytes| {
        buffer[at + i] := bytes[i];
      }
    }

    method Write(bytes: seq<byte>)
      requires Valid()
      modifies this, buffer
      ensures Valid()
      ensures written == old(written) + bytes
      ensures Contents() == Last(old(Contents()) + bytes, capacity)
      ensures totalWritten == old(totalWritten) + |bytes|
    {
      ghost var content := Contents();
      if |bytes| == 0 {
        assert content + bytes == content && written + bytes == written;
        return;
      }
      totalWritten := totalWritten + |bytes|;
      Store(bytes);
      LastOfLast(written, bytes, capacity);
      written := written + bytes;
    }

    method Store(bytes: seq<byte>)
      requires buffer.Length == capacity && writePos < capacity && bytes != []
      modifies `writePos, `wrapped, buffer
      ensures writePos < capacity
      ensures Contents() == Last(old(Contents()) + bytes, capacity)
    {
      ghost var store := buffer[..];
      hide Logical, Overwrite, Last;
      if |bytes| >= capacity {
        var start := |bytes| - capacity;
        CopyIn(bytes[start..], 0);
        assert bytes == bytes[..start] + bytes[start..];
        ReplaceAll(store, writePos, wrapped, bytes[..start], bytes[start..]);
        writePos := 0;
        wrapped := true;
        return;
      }
      var spaceToEnd := capacity - writePos;
      if |bytes| <= spaceToEnd {
        CopyIn(bytes, writePos);
        ghost var p, q, r := store[..writePos], store[writePos..writePos + |bytes|], store[writePos + |bytes|..];
        assert store == p + q + r;
        FitToEnd(p, q, r, wrapped, bytes);
        writePos := writePos + |bytes|;
        if writePos == capacity {
          writePos := 0;
          wrapped := true;
        }
      } else {
        CopyIn(bytes[..spaceToEnd], writePos);
        var remaining := |bytes| - spaceToEnd;
        CopyIn(bytes[spaceToEnd..], 0);
        assert bytes == bytes[..spaceToEnd] + bytes[spaceToEnd..];
        WrapAround(store, writePos, wrapped, bytes[..spaceToEnd], bytes[spaceToEnd..]);
        writePos := remaining;
        wrapped := true;
      }
    }

    method GetContents(byteOffset: nat) returns (r: seq<byte>)
      requires Valid()
      ensures r == if byteOffset < |Contents()| then Contents()[byteOffset..] else []
      ensures r == if byteOffset < |Last(written, capacity)| then Last(written, capacity)[byteOffset..] else []
    {
      var currentSize := Size();
      if currentSize == 0 || byteOffset >= currentSize {
        return [];
      }
      if !wrapped {
        return buffer[byteOffset..writePos];
      }
      var part1Len := capacity - writePos;
      if byteOffset < part1Len {
        r := buffer[writePos + byteOffset..] + buffer[..writePos];
      } else {
        r := buffer[byteOffset - part1Len..writePos];
      }
    }

    method Clear()
      requires Valid()
      modifies this
      ensures Valid() && written == [] && Contents() == []
      ensures totalWritten == old(totalWritten)
    {
      writePos := 0;
      wrapped := false;
      written := [];
    }

    function Size(): (n: nat)
      requires Valid()
      reads this, buffer
      ensures n == |Contents()| == |Last(written, capacity)|
    {
      if wrapped then capacity else writePos
    }
  }

  /** The content after a run of writes that started from `start`. */
  function AfterWrites(start: seq<byte>, chunks: seq<seq<byte>>, capacity: nat): seq<byte> {
    if chunks == [] then start
    else Last(AfterWrites(start, chunks[..|chunks| - 1], capacity) + chunks[|chunks| - 1], capacity)
  }

  /** Any run of writes of any sizes leaves the last `capacity` bytes of everything written. */
  lemma {:induction false} RunOfWrites(chunks: seq<seq<byte>>, capacity: nat)
    ensures AfterWrites([], chunks, capacity) == Last(Flatten(chunks), capacity)
  {
    if chunks != [] {
      RunOfWrites(chunks[..|chunks| - 1], capacity);
      LastOfLast(Flatten(chunks[..|chunks| - 1]), chunks[|chunks| - 1], capacity);
    }
  }
}

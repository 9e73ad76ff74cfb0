/**
  The chunk list of www/libs/mqtt.js: bytes arrive in chunks of any size, and reading, slicing, copying and
  consuming must look as if they were one buffer, `Flat(bufs)`.
*/
module BufferList {
  import opened Common

  // ---------------------------------------------------------------- buffers

  /** Buffer.slice: a negative position counts from the end, and positions are clamped. */
  function JsSlice<T>(buf: seq<T>, start: int, end: int): (r: seq<T>) {
    var s := if start < 0 then Max(start + |buf|, 0) else Min(start, |buf|);
    var e := if end < 0 then Max(end + |buf|, 0) else Min(end, |buf|);
    if e < s then [] else buf[s..e]
  }

  function Min(a: int, b: int): int {
    if a < b then a else b
  }

  function Max(a: int, b: int): int {
    if a < b then b else a
  }

  /** A buffer after `data` has been written into it at `at`, byte by byte, as far as it fits. */
  function Overlay<T>(dst: seq<T>, at: nat, data: seq<T>): (r: seq<T>)
    ensures |r| == |dst|
  {
    if data == [] then dst
    else
      var n := |data| - 1;
      var r := Overlay(dst, at, data[..n]);
      if at + n < |dst| then r[at + n := data[n]] else r
  }

  /** Position by position: the data where it reaches, and what was there everywhere else. */
  lemma {:induction false} OverlayAt<T>(dst: seq<T>, at: nat, data: seq<T>, k: nat)
    requires k < |dst|
    ensures Overlay(dst, at, data)[k] == if at <= k < at + |data| then data[k - at] else dst[k]
  {
    if data != [] { OverlayAt(dst, at, data[..|data| - 1], k); }
  }

  // ---------------------------------------------------------------- the concatenation

  function Flat<T>(bufs: seq<seq<T>>): seq<T> {
    if bufs == [] then [] else bufs[0] + Flat(bufs[1..])
  }

  lemma {:induction false} FlatConcat<T>(a: seq<seq<T>>, b: seq<seq<T>>)
    ensures Flat(a + b) == Flat(a) + Flat(b)
  {
    if a == [] {
      assert a + b == b;
    } else {
      FlatConcat(a[1..], b);
      assert (a + b)[1..] == a[1..] + b && (a + b)[0] == a[0];
      Associate(a[0], Flat(a[1..]), Flat(b));
    }
  }

  lemma CutAt<T>(s: seq<T>, k: nat)
    requires k < |s|
    ensures s == s[..k] + ([s[k]] + s[k + 1..]) && s[..k + 1] == s[..k] + [s[k]]
  {
  }

  lemma FlatSplit<T>(bufs: seq<seq<T>>, k: nat)
    requires k < |bufs|
    ensures Flat(bufs) == Flat(bufs[..k]) + (bufs[k] + Flat(bufs[k + 1..]))
    ensures Flat(bufs[..k + 1]) == Flat(bufs[..k]) + bufs[k]
  {
    CutAt(bufs, k);
    FlatOne(bufs[k]);
    FlatConcat(bufs[..k], [bufs[k]] + bufs[k + 1..]);
    FlatConcat([bufs[k]], bufs[k + 1..]);
    FlatConcat(bufs[..k], [bufs[k]]);
  }

  lemma FlatOne<T>(buf: seq<T>)
    ensures Flat([buf]) == buf
  {
    assert [buf][1..] == [];
  }

  /** The chunks left when n bytes are taken off the front; chunks used up are dropped, empty ones too. */
  function Consumed<T>(bufs: seq<seq<T>>, n: nat): (r: seq<seq<T>>) {
    if bufs == [] then []
    else if n >= |bufs[0]| then Consumed(bufs[1..], n - |bufs[0]|)
    else [bufs[0][n..]] + bufs[1..]
  }

  lemma {:induction false} FlatConsumed<T>(bufs: seq<seq<T>>, n: nat)
    ensures Flat(Consumed(bufs, n)) == Flat(bufs)[Min(n, |Flat(bufs)|)..]
  {
    if bufs != [] {
      if n >= |bufs[0]| {
        FlatConsumed(bufs[1..], n - |bufs[0]|);
      } else {
        FlatConcat([bufs[0][n..]], bufs[1..]);
        FlatOne(bufs[0][n..]);
      }
    }
  }

  /** Where position `offset` is: the first chunk that reaches past it, or the last chunk. */
  function Locate<T>(bufs: seq<seq<T>>, offset: nat): (r: (nat, nat))
    requires bufs != []
    ensures r.0 < |bufs|
  {
    if offset < |bufs[0]| || |bufs| == 1 then (0, offset)
    else
      var (i, o) := Locate(bufs[1..], offset - |bufs[0]|);
      (i + 1, o)
  }

  /** _offset's own answer; 0 is always the start of the first chunk, even of an empty one. */
  function OffsetOf<T>(bufs: seq<seq<T>>, offset: nat): (r: (nat, nat))
    requires bufs != []
    ensures r.0 < |bufs|
  {
    if offset == 0 then (0, 0) else Locate(bufs, offset)
  }

  lemma {:induction false} LocateInside<T>(bufs: seq<seq<T>>, offset: nat)
    requires offset < |Flat(bufs)|
    ensures var (i, o) := Locate(bufs, offset);
            o < |bufs[i]| && offset == |Flat(bufs[..i])| + o
  {
    if offset < |bufs[0]| || |bufs| == 1 {
      assert bufs[..0] == [];
    } else {
      LocateInside(bufs[1..], offset - |bufs[0]|);
      var (i, o) := Locate(bufs[1..], offset - |bufs[0]|);
      assert bufs[..i + 1][1..] == bufs[1..][..i];
    }
  }

  lemma OffsetInside<T>(bufs: seq<seq<T>>, offset: nat)
    requires offset < |Flat(bufs)|
    ensures var (i, o) := OffsetOf(bufs, offset); o <= |bufs[i]| && offset == |Flat(bufs[..i])| + o
  {
    if offset == 0 { assert bufs[..0] == []; } else { LocateInside(bufs, offset); }
  }

  /** The bytes copy reads from s to e, with e clamped: for s > e, a backward slice of one chunk. */
  function RangeOf<T>(bufs: seq<seq<T>>, s: nat, e: int): seq<T>
    requires e <= |Flat(bufs)|
  {
    if s >= |Flat(bufs)| || e <= 0 then []
    else if s <= e then Flat(bufs)[s..e]
    else
      var (k, o) := OffsetOf(bufs, s);
      JsSlice(bufs[k], o, o + (e - s))
  }

  /** What slice(start, end) answers: negative positions count from the end, then the range is read. */
  function SliceOf<T>(bufs: seq<seq<T>>, start: int, end: int): seq<T> {
    var length := |Flat(bufs)|;
    RangeOf(bufs, Max(if start < 0 then start + length else start, 0), Min(if end < 0 then end + length else end, length))
  }

  /** slice agrees with the same call on one flat buffer, for every chunking, as long as start <= end. */
  lemma SliceIsFlatSlice<T>(bufs: seq<seq<T>>, start: nat, end: nat)
    requires start <= end
    ensures SliceOf(bufs, start, end) == JsSlice(Flat(bufs), start, end)
    ensures end <= |Flat(bufs)| ==> SliceOf(bufs, start, end) == Flat(bufs)[start..end]
  {
  }

  /** Negative positions count from the end, and a position before the beginning is the beginning. */
  lemma SliceFromEnd<T>(bufs: seq<seq<T>>, start: int, end: int)
    requires start < 0 || end < 0
    ensures var length := |Flat(bufs)|;
            var s, e := if start < 0 then length + start else start, if end < 0 then length + end else end;
            && (0 <= s <= e <= length ==> SliceOf(bufs, start, end) == Flat(bufs)[s..e])
            && (s < 0 <= e <= length ==> SliceOf(bufs, start, end) == Flat(bufs)[..e])
            && (e < 0 ==> SliceOf(bufs, start, end) == [])
  {
  }

  /**
    For start > end one flat buffer gives nothing.  The chunk list agrees exactly when the distance does not
    reach back past the chunk holding `start`, or reaches back by at least that chunk's length.
  */
  lemma BackwardSliceExactly<T>(bufs: seq<seq<T>>, start: nat, end: nat)
    requires 0 < end < start < |Flat(bufs)|
    ensures var (k, o) := OffsetOf(bufs, start);
            SliceOf(bufs, start, end) == JsSlice(Flat(bufs), start, end)
            <==> start - end <= o || start - end >= |bufs[k]|
  {
    LocateInside(bufs, start);
  }

  /** It is not only theory: slice(5, 3) of two four-byte chunks returns two bytes, of one chunk none. */
  lemma BackwardSliceDependsOnChunks(a: Byte)
    ensures SliceOf([[a, a, a, a], [a, a, a, a]], 5, 3) == [a, a]
    ensures SliceOf([[a, a, a, a, a, a, a, a]], 5, 3) == []
  {
    var two: seq<seq<Byte>> := [[a, a, a, a], [a, a, a, a]];
    assert two[1..] == [[a, a, a, a]] && |two[1..][1..]| == 0;
    assert Flat(two[1..]) == two[1] + [];
    assert Flat(two) == [a, a, a, a] + ([a, a, a, a] + []);
    assert Locate(two[1..], 1) == (0, 1);
    assert OffsetOf(two, 5) == (1, 1);
    assert JsSlice([a, a, a, a], 1, -1) == [a, a];
    var one: seq<seq<Byte>> := [[a, a, a, a, a, a, a, a]];
    assert |one[1..]| == 0;
    assert Flat(one) == one[0] + [];
    assert OffsetOf(one, 5) == (0, 5);
  }

  /** A range that ends in the chunk it starts in, forwards or backwards, is a slice of that chunk. */
  lemma RangeInChunk<T>(bufs: seq<seq<T>>, s: nat, e: int)
    requires bufs != [] && s < |Flat(bufs)| && 0 < e <= |Flat(bufs)|
    requires var (k, o) := OffsetOf(bufs, s); e - s <= |bufs[k]| - o
    ensures var (k, o) := OffsetOf(bufs, s); RangeOf(bufs, s, e) == JsSlice(bufs[k], o, o + (e - s))
  {
    if s <= e { ForwardInChunk(bufs, s, e); }
  }

  lemma ForwardInChunk<T>(bufs: seq<seq<T>>, s: nat, e: nat)
    requires bufs != [] && s <= e && s < |Flat(bufs)| && e <= |Flat(bufs)|
    requires var (k, o) := OffsetOf(bufs, s); e - s <= |bufs[k]| - o
    ensures var (k, o) := OffsetOf(bufs, s); Flat(bufs)[s..e] == JsSlice(bufs[k], o, o + (e - s))
  {
    var (k, o) := OffsetOf(bufs, s);
    OffsetInside(bufs, s);
    InOneChunk(bufs, k, o, e - s);
  }

  // ---------------------------------------------------------------- the list

  /** What copy into a buffer returns: usually the buffer, but a byte count when one chunk was enough; or the RangeError. */
  datatype Copied = Dst | Count(n: int) | SourceEndOutOfBounds

  class BufferList {
    var bufs: seq<seq<Byte>>
    var length: int

    ghost predicate Valid()
      reads this
    {
      length == |Flat(bufs)|
    }

    constructor ()
      ensures Valid() && bufs == []
    {
      bufs, length := [], 0;
    }

    method Append(buf: seq<Byte>)
      requires Valid()
      modifies this
      ensures Valid() && bufs == old(bufs) + [buf] && Flat(bufs) == old(Flat(bufs)) + buf
    {
      FlatConcat(bufs, [buf]);
      FlatOne(buf);
      bufs := bufs + [buf];
      length := length + |buf|;
    }

    method Offset(offset: nat) returns (i: nat, o: nat)
      requires bufs != []
      ensures (i, o) == OffsetOf(bufs, offset)
      ensures Valid() && offset < length ==> o <= |bufs[i]| && offset == |Flat(bufs[..i])| + o
    {
      if offset < |Flat(bufs)| { OffsetInside(bufs, offset); }
      if offset == 0 { return 0, 0; }
      var tot := 0;
      i := 0;
      assert bufs[0..] == bufs;
      while i < |bufs| - 1
        invariant i <= |bufs| - 1 && tot <= offset
        invariant (Locate(bufs[i..], offset - tot).0 + i, Locate(bufs[i..], offset - tot).1) == Locate(bufs, offset)
      {
        assert bufs[i..][1..] == bufs[i + 1..];
        if offset < tot + |bufs[i]| { break; }
        tot := tot + |bufs[i]|;
        i := i + 1;
      }
      o := offset - tot;
    }

    /** slice(start, end), which is copy without a destination. */
    method Slice(start: int, end: int) returns (r: seq<Byte>)
      requires Valid()
      ensures r == SliceOf(bufs, start, end)
    {
      var s := Max(if start < 0 then start + length else start, 0);
      var e := Min(if end < 0 then end + length else end, length);
      r := Range(s, e);
    }

    method Range(s: nat, e: int) returns (r: seq<Byte>)
      requires Valid() && e <= length
      ensures r == RangeOf(bufs, s, e)
    {
      if s >= length || e <= 0 { return []; }
      if s == 0 && e == length {
        r := Everything();
        return;
      }
      var k, o := Offset(s);
      if e - s <= |bufs[k]| - o {
        RangeInChunk(bufs, s, e);
        r := JsSlice(bufs[k], o, o + (e - s));
        return;
      }
      OffsetInside(bufs, s);
      assert s <= e;
      r := Gather(k, o, e - s, Flat(bufs)[s..e]);
    }

    /** Slicing everything: a single chunk is returned as it is, several are concatenated. */
    method Everything() returns (r: seq<Byte>)
      requires Valid()
      ensures r == Flat(bufs)
    {
      if |bufs| == 1 {
        FlatOne(bufs[0]);
        assert bufs == [bufs[0]];
        return bufs[0];
      }
      r := Flat(bufs);
    }

    /** The loop over the chunks: the bytes from position `start` of chunk k on. */
    method Gather(k: nat, start: nat, bytes: nat, ghost goal: seq<Byte>) returns (r: seq<Byte>)
      requires Valid() && k < |bufs| && start <= |bufs[k]| && |goal| == bytes
      requires StandsAt(bufs, |Flat(bufs[..k])| + start, goal)
      ensures r == goal
    {
      var i: nat, o: nat, left: nat := k, start, bytes;
      ghost var s := |Flat(bufs[..k])| + start;
      assert goal[..bytes] == goal;
      r := [];
      while i < |bufs|
        invariant k <= i <= |bufs| && left + |r| == bytes && |r| <= bytes
        invariant r == goal[..|r|]
        invariant i < |bufs| ==> o <= |bufs[i]| && |Flat(bufs[..i])| + o == s + |r|
        invariant i == |bufs| ==> left == 0
      {
        var l: nat := |bufs[i]| - o;
        if left <= l {
          GoalGrows(bufs, s, goal, |r|, i, o, left);
          return r + bufs[i][o..o + left];
        }
        GoalGrows(bufs, s, goal, |r|, i, o, l);
        EndNotReached(bufs, s, goal, i, o, |r|);
        r := r + bufs[i][o..o + l];
        left := left - l;
        o := 0;
        i := i + 1;
      }
    }

    method Consume(bytes: nat)
      requires Valid()
      modifies this
      ensures Valid() && bufs == Consumed(old(bufs), bytes)
      ensures Flat(bufs) == old(Flat(bufs))[Min(bytes, |old(Flat(bufs))|)..]
    {
      var left: nat := bytes;
      ghost var goal := Consumed(bufs, bytes);
      FlatConsumed(bufs, bytes);
      while bufs != []
        invariant Valid() && Consumed(bufs, left) == goal
        decreases |bufs|
      {
        if left >= |bufs[0]| {
          left := left - |bufs[0]|;
          length := length - |bufs[0]|;
          bufs := bufs[1..];
        } else {
          FlatConsumed(bufs, left);
          bufs := [bufs[0][left..]] + bufs[1..];
          length := length - left;
          return;
        }
      }
    }

    /** readUInt8(offset); None is the RangeError thrown when there is no such byte. */
    method ReadUInt8(offset: nat) returns (b: Option<Byte>)
      requires Valid()
      ensures b == if offset < |Flat(bufs)| then Some(Flat(bufs)[offset]) else None
    {
      var one := Slice(offset, offset + 1);
      b := if |one| < 1 then None else Some(one[0]);
    }

    /** readUInt16BE(offset). */
    method ReadUInt16BE(offset: nat) returns (n: Option<nat>)
      requires Valid()
      ensures n == if offset + 2 <= |Flat(bufs)| then Some(Flat(bufs)[offset] as int * 256 + Flat(bufs)[offset + 1] as int) else None
    {
      var two := Slice(offset, offset + 2);
      n := if |two| < 2 then None else Some(two[0] as int * 256 + two[1] as int);
    }

    /**
      copy(dst, dstStart, srcStart, srcEnd).  With the end before the start nothing is written, but the chunk is asked for
      the negative distance, and throws when that reaches back past its own first byte.
    */
    method Copy(dst: array<Byte>, dstStart: nat, srcStart: nat, srcEnd: nat) returns (c: Copied)
      requires Valid()
      modifies dst
      ensures dst[..] == Overlay(old(dst[..]), dstStart, JsSlice(Flat(bufs), srcStart, srcEnd))
      ensures c.SourceEndOutOfBounds? <==>
              && 0 < srcEnd < srcStart < |Flat(bufs)| && dst.Length > 0
              && var (_, o) := OffsetOf(bufs, srcStart); srcStart - srcEnd > o
    {
      var e: nat := Min(srcEnd, length);
      if srcStart >= length || e <= 0 {
        return Dst;
      }
      var k, o := Offset(srcStart);
      if srcStart > e {
        if o + e >= srcStart + 1 || dst.Length == 0 { return Count(0); }
        return if o + e == srcStart then Count(-o) else SourceEndOutOfBounds;
      }
      c := CopyForward(dst, dstStart, srcStart, e, k, o);
    }

    /** The rest of copy, for a range in order that starts at position o of chunk k. */
    method CopyForward(dst: array<Byte>, dstStart: nat, s: nat, e: nat, k: nat, o: nat) returns (c: Copied)
      requires Valid() && s <= e <= length && s < length && (k, o) == OffsetOf(bufs, s)
      modifies dst
      ensures dst[..] == Overlay(old(dst[..]), dstStart, Flat(bufs)[s..e]) && !c.SourceEndOutOfBounds?
    {
      OffsetInside(bufs, s);
      if !(s == 0 && e == length) && e - s <= |bufs[k]| - o {
        InOneChunk(bufs, k, o, e - s);
        var n := CopyChunk(bufs[k][o..o + (e - s)], dst, dstStart);
        return Count(n);
      }
      CopyChunks(dst, dstStart, k, o, e - s, Flat(bufs)[s..e]);
      c := Dst;
    }

    /** Both copying loops: chunk after chunk into dst, each behind the one before. */
    method CopyChunks(dst: array<Byte>, dstStart: nat, k: nat, start: nat, bytes: nat, ghost goal: seq<Byte>)
      requires Valid() && k < |bufs| && start <= |bufs[k]| && |goal| == bytes
      requires StandsAt(bufs, |Flat(bufs[..k])| + start, goal)
      modifies dst
      ensures dst[..] == Overlay(old(dst[..]), dstStart, goal)
    {
      var i: nat, o: nat, left: nat, done: nat := k, start, bytes, 0;
      ghost var s, before := |Flat(bufs[..k])| + start, dst[..];
      assert goal[..0] == [] && goal[..bytes] == goal;
      while i < |bufs|
        invariant k <= i <= |bufs| && left + done == bytes && done <= bytes
        invariant dst[..] == Overlay(before, dstStart, goal[..done])
        invariant i < |bufs| ==> o <= |bufs[i]| && |Flat(bufs[..i])| + o == s + done
        invariant i == |bufs| ==> left == 0
      {
        var l: nat := |bufs[i]| - o;
        var n: nat := if left <= l then left else l;
        GoalGrows(bufs, s, goal, done, i, o, n);
        CopyBehind(bufs[i][o..o + n], dst, dstStart, done, before, goal[..done]);
        if left <= l { return; }
        EndNotReached(bufs, s, goal, i, o, done);
        done, left := done + l, left - l;
        o := 0;
        i := i + 1;
      }
    }
  }

  /** `goal` is what stands at position s of the flat buffer. */
  ghost predicate StandsAt<T>(bufs: seq<seq<T>>, s: nat, goal: seq<T>) {
    s + |goal| <= |Flat(bufs)| && Flat(bufs)[s..s + |goal|] == goal
  }

  lemma GoalGrows<T>(bufs: seq<seq<T>>, s: nat, goal: seq<T>, done: nat, i: nat, o: nat, n: nat)
    requires StandsAt(bufs, s, goal)
    requires i < |bufs| && o + n <= |bufs[i]| && |Flat(bufs[..i])| + o == s + done && done + n <= |goal|
    ensures goal[..done] + bufs[i][o..o + n] == goal[..done + n]
  {
    FromChunk(bufs, i, o, n);
  }

  /** As long as bytes are missing behind the end of chunk i, there is a next chunk. */
  lemma EndNotReached(bufs: seq<seq<Byte>>, s: nat, goal: seq<Byte>, i: nat, o: nat, done: nat)
    requires StandsAt(bufs, s, goal)
    requires i < |bufs| && o <= |bufs[i]| && |Flat(bufs[..i])| + o == s + done && done + (|bufs[i]| - o) < |goal|
    ensures i + 1 < |bufs| && |Flat(bufs[..i + 1])| == s + done + (|bufs[i]| - o)
  {
    FlatNext(bufs, i, o);
  }

  /** One more chunk behind those already written. */
  method CopyBehind(chunk: seq<Byte>, dst: array<Byte>, dstStart: nat, done: nat, ghost before: seq<Byte>, ghost written: seq<Byte>)
    requires done == |written| && dst[..] == Overlay(before, dstStart, written)
    modifies dst
    ensures dst[..] == Overlay(before, dstStart, written + chunk)
  {
    OverlayTwice(before, dstStart, written, chunk);
    var n := CopyChunk(chunk, dst, dstStart + done);
  }

  /** Moving on from position o of chunk i to the start of the next. */
  lemma FlatNext(bufs: seq<seq<Byte>>, i: nat, o: nat)
    requires i < |bufs| && o <= |bufs[i]|
    ensures |Flat(bufs[..i + 1])| == |Flat(bufs[..i])| + o + (|bufs[i]| - o)
    ensures i + 1 == |bufs| ==> |Flat(bufs)| == |Flat(bufs[..i])| + |bufs[i]|
  {
    FlatSplit(bufs, i);
    assert i + 1 == |bufs| ==> bufs[..i + 1] == bufs;
  }

  /** Buffer.copy of a whole buffer: as much as fits, and how much that was. */
  method CopyChunk<T>(src: seq<T>, dst: array<T>, at: nat) returns (n: nat)
    modifies dst
    ensures dst[..] == Overlay(old(dst[..]), at, src)
    ensures n == Min(|src|, dst.Length - Min(at, dst.Length))
  {
    var a := if at < dst.Length then at else dst.Length;
    n := if |src| < dst.Length - a then |src| else dst.Length - a;
    ghost var before := dst[..];
    var i := 0;
    while i < n
      invariant 0 <= i <= n
      invariant dst[..] == Overlay(before, at, src[..i])
    {
      assert src[..i + 1][..i] == src[..i];
      ghost var now := dst[..];
      dst[a + i] := src[i];
      assert dst[..] == now[at + i := src[i]];
      i := i + 1;
    }
    if n == |src| { assert src[..n] == src; } else { OverlayBeyond(before, at, src, n); }
  }

  lemma {:induction false} OverlayTwice<T>(dst: seq<T>, at: nat, a: seq<T>, b: seq<T>)
    ensures Overlay(Overlay(dst, at, a), at + |a|, b) == Overlay(dst, at, a + b)
  {
    if b == [] {
      assert a + b == a;
    } else {
      var n := |b| - 1;
      OverlayTwice(dst, at, a, b[..n]);
      assert (a + b)[..|a| + n] == a + b[..n] && (a + b)[|a| + n] == b[n];
    }
  }

  lemma {:induction false} OverlayBeyond<T>(dst: seq<T>, at: nat, data: seq<T>, n: nat)
    requires n <= |data| && at + n >= |dst|
    ensures Overlay(dst, at, data[..n]) == Overlay(dst, at, data)
  {
    if n == |data| {
      assert data[..n] == data;
    } else {
      var d := data[..|data| - 1];
      OverlayBeyond(dst, at, d, n);
      assert d[..n] == data[..n];
    }
  }

  lemma FromChunk<T>(bufs: seq<seq<T>>, i: nat, o: nat, n: nat)
    requires i < |bufs| && o + n <= |bufs[i]|
    ensures var p := |Flat(bufs[..i])| + o; p + n <= |Flat(bufs)| && Flat(bufs)[p..p + n] == bufs[i][o..o + n]
  {
    FlatSplit(bufs, i);
  }

  lemma InOneChunk<T>(bufs: seq<seq<T>>, k: nat, o: nat, n: nat)
    requires k < |bufs| && o + n <= |bufs[k]|
    ensures var s := |Flat(bufs[..k])| + o;
            s + n <= |Flat(bufs)| && JsSlice(bufs[k], o, o + n) == Flat(bufs)[s..s + n] == bufs[k][o..o + n]
  {
    FromChunk(bufs, k, o, n);
  }
}

/** The vote ring of voter/vote_buff.c: a fixed array of `Capacity()` bytes, a read index and a
    byte count, seen from outside as a first-in first-out queue of at most `Capacity() - 1` bytes. */
module VoteBuff {

  newtype byte = b: int | 0 <= b < 256

  /** The `n` bytes of a circular buffer that start at `index`. */
  function Window(buf: seq<byte>, index: nat, n: nat): (w: seq<byte>)
    requires index < |buf| && n <= |buf|
    ensures |w| == n
  {
    if index + n <= |buf| then buf[index..index + n]
    else buf[index..] + buf[..index + n - |buf|]
  }

  /** `index` moved on by `n` round a ring of `cap`. */
  function Turn(index: nat, n: nat, cap: nat): (i: nat)
    requires index < cap && n <= cap
    ensures i < cap
  {
    if index + n < cap then index + n else index + n - cap
  }

  /** The remainder that the code takes is that turn. */
  lemma TurnIsRemainder(index: nat, n: nat, cap: nat)
    requires index < cap && n <= cap
    ensures (index + n) % cap == Turn(index, n, cap)
  {
  }

  lemma WindowAt(buf: seq<byte>, index: nat, n: nat, j: nat)
    requires index < |buf| && n <= |buf| && j < n
    ensures Window(buf, index, n)[j] == buf[Turn(index, j, |buf|)]
  {
  }

  /** Dropping from the front of a window moves its start. */
  lemma WindowShrinks(buf: seq<byte>, index: nat, count: nat, n: nat)
    requires index < |buf| && n <= count <= |buf|
    ensures Window(buf, Turn(index, n, |buf|), count - n) == Window(buf, index, count)[n..]
  {
    var a, b := Window(buf, Turn(index, n, |buf|), count - n), Window(buf, index, count);
    forall j | 0 <= j < count - n ensures a[j] == b[n + j] {
      WindowAt(buf, Turn(index, n, |buf|), count - n, j);
      WindowAt(buf, index, count, n + j);
    }
  }

  /** C's memcmp, whose sign is that of the first differing byte. */
  function MemCmp(a: seq<byte>, b: seq<byte>): (r: int)
    requires |a| == |b|
    ensures r == 0 <==> a == b
  {
    if a == [] then 0
    else if a[0] != b[0] then a[0] as int - b[0] as int
    else assert a == [a[0]] + a[1..] && b == [b[0]] + b[1..]; MemCmp(a[1..], b[1..])
  }

  /** C's memcpy into an array. */
  method MemCpy(dst: array<byte>, at: nat, src: seq<byte>)
    requires at + |src| <= dst.Length
    modifies dst
    ensures forall i :: 0 <= i < dst.Length ==>
      dst[i] == if at <= i < at + |src| then src[i - at] else old(dst[i])
  {
    forall i | 0 <= i < |src| {
      dst[at + i] := src[i];
    }
  }

  /** How far past `start` the position `i` lies, going round a ring of `n`. */
  function Offset(start: nat, i: nat, n: nat): (k: nat)
    requires start < n && i < n
  {
    if i >= start then i - start else i + n - start
  }

  /** `after` is `before` with `src` written round the ring from `at` on. */
  ghost predicate Wrote(before: seq<byte>, after: seq<byte>, at: nat, src: seq<byte>)
    requires |before| == |after| && at < |before|
  {
    forall i :: 0 <= i < |before| ==>
      after[i] == var k := Offset(at, i, |before|); if k < |src| then src[k] else before[i]
  }

  /** The two-piece memcpy of a chunk that runs over the end of the ring: `part` bytes at `at`, the
      rest at the beginning. */
  method CopyAround(dst: array<byte>, at: nat, src: seq<byte>, part: nat)
    requires at < dst.Length && |src| <= dst.Length && part <= |src|
    requires at + part <= dst.Length && (part == |src| || at + part == dst.Length)
    modifies dst
    ensures Wrote(old(dst[..]), dst[..], at, src)
  {
    MemCpy(dst, at, src[..part]);
    MemCpy(dst, 0, src[part..]);
  }

  lemma WroteAt(before: seq<byte>, after: seq<byte>, index: nat, n: nat, src: seq<byte>, j: nat)
    requires |before| == |after| && index < |before| && n + |src| <= |before| && n < |before| && j < n + |src|
    requires Wrote(before, after, Turn(index, n, |before|), src)
    ensures after[Turn(index, j, |before|)] == if j < n then before[Turn(index, j, |before|)] else src[j - n]
  {
    var i := Turn(index, j, |before|);
    assert Offset(Turn(index, n, |before|), i, |before|) == if j < n then j - n + |before| else j - n;
  }

  /** Writing `src` round the ring from where a window ends extends the window by `src`. */
  lemma WindowExtends(before: seq<byte>, after: seq<byte>, index: nat, n: nat, src: seq<byte>)
    requires |before| == |after| && index < |before| && n + |src| <= |before| && n < |before|
    requires Wrote(before, after, Turn(index, n, |before|), src)
    ensures Window(after, index, n + |src|) == Window(before, index, n) + src
  {
    var a, b := Window(after, index, n + |src|), Window(before, index, n);
    forall j | 0 <= j < n + |src| ensures a[j] == (b + src)[j] {
      WindowAt(after, index, n + |src|, j);
      WroteAt(before, after, index, n, src, j);
      if j < n {
        WindowAt(before, index, n, j);
      }
    }
  }

  class VotePipe {
    const buffer: array<byte>
    var index: nat
    var count: nat

    function Capacity(): nat
    {
      buffer.Length
    }

    ghost predicate Valid()
      reads this
    {
      index < Capacity() && count < Capacity()
    }

    /** The queued bytes, oldest first. */
    ghost function Contents(): (s: seq<byte>)
      requires Valid()
      reads this, buffer
      ensures |s| == count
    {
      Window(buffer[..], index, count)
    }

    constructor (capacity: nat)
      requires capacity > 0
      ensures Valid() && fresh(buffer) && Capacity() == capacity
      ensures index == 0 && Contents() == []
    {
      buffer := new byte[capacity];
      index, count := 0, 0;
    }

    method Reset()
      requires Capacity() > 0
      modifies this
      ensures Valid() && index == 0 && Contents() == []
    {
      count, index := 0, 0;
    }

    /** Copies a chunk that fits behind the queued bytes, in two pieces when it runs over the end. */
    method Store(chunk: seq<byte>)
      requires Valid() && 0 < |chunk| < Capacity() - count
      modifies buffer
      ensures Wrote(old(buffer[..]), buffer[..], Turn(index, count, Capacity()), chunk)
    {
      TurnIsRemainder(index, count, Capacity());
      var end := (index + count) % Capacity();
      TurnIsRemainder(end, |chunk|, Capacity());
      var past := (end + |chunk|) % Capacity();
      if end > past {
        CopyAround(buffer, end, chunk, |chunk| - past);
      } else {
        CopyAround(buffer, end, chunk, |chunk|);
      }
    }

    /** Takes a chunk that `read` returned, the empty chunk standing for a failed read. A chunk that
        would fill the ring is dropped whole. */
    method PipeToBuff(chunk: seq<byte>) returns (ok: bool)
      requires Valid() && |chunk| <= Capacity()
      modifies this`count, buffer
      ensures Valid()
      ensures ok <==> 0 < |chunk| && old(count) + |chunk| < Capacity()
      ensures Contents() == old(Contents()) + if ok then chunk else []
    {
      if |chunk| > 0 {
        if |chunk| < Capacity() - count {
          ghost var before := buffer[..];
          Store(chunk);
          WindowExtends(before, buffer[..], index, count, chunk);
          count := count + |chunk|;
          return true;
        } else {
          return false;
        }
      } else {
        return false;
      }
    }

    /** The oldest `n` bytes, gathered in one or two pieces. */
    method CopyBuffer(n: nat) returns (out: seq<byte>)
      requires Valid() && n <= count
      ensures out == Contents()[..n]
    {
      if index + n < Capacity() {
        out := buffer[index..index + n];
      } else {
        var part := Capacity() - index;
        out := buffer[index..index + part] + buffer[..n - part];
      }
    }

    /** Drops the oldest `n` bytes. */
    method FakeToPipe(n: nat)
      requires Valid() && n <= count
      modifies this
      ensures Valid() && index == Turn(old(index), n, Capacity())
      ensures Contents() == old(Contents())[n..]
    {
      WindowShrinks(buffer[..], index, count, n);
      TurnIsRemainder(index, n, Capacity());
      index := (index + n) % Capacity();
      count := count - n;
    }

    /** Writes the oldest `n` bytes out and drops them; refuses a request for more than it holds. */
    method BuffToPipe(n: nat) returns (ok: bool, out: seq<byte>)
      requires Valid()
      modifies this
      ensures Valid()
      ensures ok <==> n <= old(count)
      ensures !ok ==> out == [] && index == old(index) && Contents() == old(Contents())
      ensures ok ==> index == Turn(old(index), n, Capacity()) && out + Contents() == old(Contents()) && |out| == n
    {
      if n > count {
        return false, [];
      }
      out := CopyBuffer(n);
      FakeToPipe(n);
      ok := true;
    }
  }

  /** Zero exactly when both rings read from the same index and their oldest `n` bytes are equal. */
  method CompareBuffs(a: VotePipe, b: VotePipe, n: nat) returns (r: int)
    requires a.Valid() && b.Valid() && a.Capacity() == b.Capacity()
    requires n <= a.count && n <= b.count
    ensures r == 0 <==> a.index == b.index && a.Contents()[..n] == b.Contents()[..n]
  {
    if a.index != b.index {
      return -1;
    }
    if a.index + n < a.Capacity() {
      r := MemCmp(a.buffer[a.index..a.index + n], b.buffer[b.index..b.index + n]);
      assert a.buffer[a.index..a.index + n] == a.Contents()[..n];
      assert b.buffer[b.index..b.index + n] == b.Contents()[..n];
    } else {
      var part := a.Capacity() - a.index;
      assert a.Contents()[..n] == a.buffer[a.index..] + a.buffer[..n - part];
      assert b.Contents()[..n] == b.buffer[b.index..] + b.buffer[..n - part];
      r := MemCmp(a.buffer[a.index..], b.buffer[b.index..]);
      assert a.Contents()[..n][..part] == a.buffer[a.index..];
      assert b.Contents()[..n][..part] == b.buffer[b.index..];
      if r != 0 {
        return r;
      }
      r := MemCmp(a.buffer[..n - part], b.buffer[..n - part]);
      assert a.Contents()[..n][part..] == a.buffer[..n - part];
      assert b.Contents()[..n][part..] == b.buffer[..n - part];
    }
  }

  /** Makes `dest` hold the same queue as `src`, at the same index. */
  method CopyPipe(dest: VotePipe, src: VotePipe)
    requires src.Valid() && dest != src && dest.buffer != src.buffer && dest.Capacity() == src.Capacity()
    modifies dest, dest.buffer
    ensures dest.Valid() && dest.index == src.index && dest.Contents() == src.Contents()
  {
    dest.count := src.count;
    dest.index := src.index;
    ghost var before := dest.buffer[..];
    var data := src.CopyBuffer(src.count);
    if src.index + src.count < src.Capacity() {
      CopyAround(dest.buffer, dest.index, data, src.count);
    } else {
      CopyAround(dest.buffer, dest.index, data, src.Capacity() - src.index);
    }
    WindowExtends(before, dest.buffer[..], dest.index, 0, data);
    assert [] + data == data;
  }
}

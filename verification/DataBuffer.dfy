/** A queue of buffers that is drained in pieces of any size. */
module DataBuffer {
  import opened Bytes

  class Buffer<T(0)> {
    var buffers: seq<seq<T>>
    var byteLength: nat

    /** What the buffer holds. */
    ghost function Contents(): seq<T>
      reads this`buffers
    {
      Flatten(buffers)
    }

    ghost predicate Valid()
      reads this
    {
      byteLength == |Contents()|
    }

    constructor ()
      ensures Valid() && Contents() == []
    {
      buffers, byteLength := [], 0;
    }

    /** The first buffer is kept even when it is empty; the others are not. */
    method Fill(a: seq<T>, bufs: seq<seq<T>>)
      requires Valid()
      modifies this
      ensures Valid() && Contents() == old(Contents()) + a + Flatten(bufs)
    {
      FlattenSnoc(buffers, a);
      buffers, byteLength := buffers + [a], byteLength + |a|;
      assert bufs[..0] == [];
      for i := 0 to |bufs|
        invariant Valid() && Contents() == old(Contents()) + a + Flatten(bufs[..i])
      {
        assert bufs[..i + 1] == bufs[..i] + [bufs[i]];
        FlattenSnoc(bufs[..i], bufs[i]);
        if |bufs[i]| > 0 {
          FlattenSnoc(buffers, bufs[i]);
          buffers, byteLength := buffers + [bufs[i]], byteLength + |bufs[i]|;
        }
      }
      assert bufs[..|bufs|] == bufs;
    }

    /** One buffer in place of many. */
    method Pack()
      requires Valid()
      modifies this`buffers
      ensures Valid() && Contents() == old(Contents())
      ensures |buffers| == if old(|buffers|) > 1 then 1 else old(|buffers|)
    {
      if |buffers| > 1 {
        var v := new T[byteLength];
        var index := 0;
        FlattenSplit(buffers, 0);
        for i := 0 to |buffers|
          modifies v
          invariant index == |Flatten(buffers[..i])| <= v.Length
          invariant v[..index] == Flatten(buffers[..i])
        {
          FlattenSplit(buffers, i);
          FlattenSplit(buffers, i + 1);
          assert buffers[..i + 1] == buffers[..i] + [buffers[i]];
          FlattenSnoc(buffers[..i], buffers[i]);
          Set(v, buffers[i], index);
          index := index + |buffers[i]|;
        }
        FlattenSplit(buffers, |buffers|);
        assert v[..] == v[..index];
        FlattenOne(v[..]);
        buffers := [v[..]];
      }
    }

    /** The first buffer, or nothing. */
    method Shift() returns (a: seq<T>)
      requires Valid()
      modifies this
      ensures Valid() && a + Contents() == old(Contents())
      ensures a == if old(buffers) == [] then [] else old(buffers[0])
    {
      a := [];
      if buffers != [] {
        a, buffers := buffers[0], buffers[1..];
        byteLength := byteLength - |a|;
      }
    }

    /** The first `n` bytes, or all when there are fewer or no limit is given. */
    method Drain(n: Option<nat>) returns (d: seq<T>)
      requires Valid()
      modifies this
      ensures Valid() && d + Contents() == old(Contents())
      ensures |d| == if n.None? || n.value > old(byteLength) then old(byteLength) else n.value
      ensures n.None? ==> d == old(Contents()) && Contents() == []
    {
      d := [];
      if buffers != [] {
        Pack();
        var v := buffers[0];
        assert buffers == [v];
        FlattenOne(v);
        buffers := [];
        var max := byteLength;
        var k := if n.None? || n.value > max then max else n.value;
        d := v[..k];
        if max > k {
          FlattenOne(v[k..]);
          buffers := [v[k..]];
        }
        byteLength := max - k;
      }
    }

    method Peek() returns (d: seq<T>)
      requires Valid()
      modifies this`buffers
      ensures Valid() && Contents() == old(Contents()) == d
    {
      d := [];
      if buffers != [] {
        Pack();
        d := buffers[0];
        assert buffers == [d];
        FlattenOne(d);
      }
    }
  }

  /** Writes `src` into `dst` from `at` on. */
  method Set<T>(dst: array<T>, src: seq<T>, at: nat)
    requires at + |src| <= dst.Length
    modifies dst
    ensures dst[..at + |src|] == old(dst[..at]) + src
  {
    for k := 0 to |src|
      invariant dst[..at + k] == old(dst[..at]) + src[..k]
    {
      dst[at + k] := src[k];
    }
  }

  lemma FlattenOne<T>(x: seq<T>)
    ensures Flatten([x]) == x
  {
  }

  lemma FlattenSplit<T>(parts: seq<seq<T>>, i: nat)
    requires i <= |parts|
    ensures Flatten(parts) == Flatten(parts[..i]) + Flatten(parts[i..])
  {
    FlattenAppend(parts[..i], parts[i..]);
    assert parts[..i] + parts[i..] == parts;
  }
}

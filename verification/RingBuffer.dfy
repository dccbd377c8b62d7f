/** Bytes and the number encodings of the wire, most significant byte first. */
module Bytes {
  type Byte = b: int | 0 <= b < 256

  function Be16(n: nat): (r: seq<Byte>)
    requires n < 0x1_0000
    ensures |r| == 2
  {
    [n / 256, n % 256]
  }

  function FromBe16(s: seq<Byte>): (n: nat)
    requires |s| == 2
    ensures n < 0x1_0000
  {
    (s[0] as int) * 256 + (s[1] as int)
  }

  function Be32(n: nat): (r: seq<Byte>)
    requires n < 0x1_0000_0000
    ensures |r| == 4
  {
    Be16(n / 0x1_0000) + Be16(n % 0x1_0000)
  }

  function FromBe32(s: seq<Byte>): (n: nat)
    requires |s| == 4
    ensures n < 0x1_0000_0000
  {
    FromBe16(s[..2]) * 0x1_0000 + FromBe16(s[2..])
  }

  function Be64(n: nat): (r: seq<Byte>)
    requires n < 0x1_0000_0000_0000_0000
    ensures |r| == 8
  {
    Be32(n / 0x1_0000_0000) + Be32(n % 0x1_0000_0000)
  }

  function FromBe64(s: seq<Byte>): (n: nat)
    requires |s| == 8
    ensures n < 0x1_0000_0000_0000_0000
  {
    FromBe32(s[..4]) * 0x1_0000_0000 + FromBe32(s[4..])
  }

  lemma Be16RoundTrip(n: nat)
    requires n < 0x1_0000
    ensures FromBe16(Be16(n)) == n
  {
  }

  lemma Be16Onto(s: seq<Byte>)
    requires |s| == 2
    ensures Be16(FromBe16(s)) == s
  {
  }

  lemma Be32RoundTrip(n: nat)
    requires n < 0x1_0000_0000
    ensures FromBe32(Be32(n)) == n
  {
    assert Be32(n)[..2] == Be16(n / 0x1_0000) && Be32(n)[2..] == Be16(n % 0x1_0000);
  }

  lemma Be64RoundTrip(n: nat)
    requires n < 0x1_0000_0000_0000_0000
    ensures FromBe64(Be64(n)) == n
  {
    var hi, lo := n / 0x1_0000_0000, n % 0x1_0000_0000;
    assert Be64(n)[..4] == Be32(hi) && Be64(n)[4..] == Be32(lo);
    Be32RoundTrip(hi);
    Be32RoundTrip(lo);
  }

  lemma Be32Onto(s: seq<Byte>)
    requires |s| == 4
    ensures Be32(FromBe32(s)) == s
  {
    var hi, lo := FromBe16(s[..2]), FromBe16(s[2..]);
    assert FromBe32(s) / 0x1_0000 == hi && FromBe32(s) % 0x1_0000 == lo;
    Be16Onto(s[..2]);
    Be16Onto(s[2..]);
  }

  lemma Be64Onto(s: seq<Byte>)
    requires |s| == 8
    ensures Be64(FromBe64(s)) == s
  {
    var hi, lo := FromBe32(s[..4]), FromBe32(s[4..]);
    assert FromBe64(s) / 0x1_0000_0000 == hi && FromBe64(s) % 0x1_0000_0000 == lo;
    Be32Onto(s[..4]);
    Be32Onto(s[4..]);
  }
}

/** Facts about sequences that the solver is better told than left to find. */
module Sequences {
  lemma AppendAssoc<T>(a: seq<T>, b: seq<T>, c: seq<T>)
    ensures a + b + c == a + (b + c)
  {
  }

  lemma SplitLast<T>(s: seq<T>)
    requires s != []
    ensures s[..|s| - 1] + [s[|s| - 1]] == s
  {
  }

  /** Two adjacent stretches of one sequence. */
  lemma TakeMore<T>(xs: seq<T>, k: nat, n: nat)
    requires k + n <= |xs|
    ensures xs[..k] + xs[k..][..n] == xs[..k + n]
    ensures xs[k..][n..] == xs[k + n..]
  {
  }
}

/** The byte ring of every connection, filled and emptied in place. */
module RingBuffer {
  import opened Bytes
  import opened Sequences

  /** What a ring amounts to: a bounded byte queue whose front sits at `head`.
      The position decides how many bytes one contiguous copy can move. */
  datatype View = View(capacity: nat, head: nat, data: seq<Byte>) {
    predicate Valid()
    {
      |data| <= capacity && (head < capacity || head == capacity == 0)
    }

    function Writable(): int { capacity - |data| }

    /** Where the next byte goes. */
    function Tail(): int
    {
      if head + |data| < capacity then head + |data| else head + |data| - capacity
    }

    function ReadLen(): int
    {
      if |data| == 0 then 0
      else if capacity - head < |data| then capacity - head else |data|
    }

    function WriteLen(): int
    {
      if Writable() == 0 then 0
      else if capacity - Tail() < Writable() then capacity - Tail() else Writable()
    }

    function Append(xs: seq<Byte>): (v: View)
      requires Valid() && |xs| <= Writable()
      ensures v.Valid()
    {
      this.(data := data + xs)
    }

    function Drop(n: nat): (v: View)
      requires Valid() && n <= |data|
      ensures v.Valid()
    {
      View(capacity, if head + n < capacity then head + n else if capacity == 0 then 0 else head + n - capacity,
           data[n..])
    }
  }

  lemma WrapOnce(x: nat, m: nat)
    requires x < 2 * m
    ensures x % m == if x < m then x else x - m
  {
    if x < m {
      assert x == 0 * m + x;
    } else {
      assert x == 1 * m + (x - m);
      assert x / m == 1;
    }
  }

  function Wrap(x: nat, m: nat): nat
    requires x < 2 * m
  {
    if x < m then x else x - m
  }

  /** The `size` bytes from position `head` of a circular array. */
  ghost function Circle(buf: seq<Byte>, head: nat, size: nat): (r: seq<Byte>)
    requires size <= |buf| && (head < |buf| || |buf| == 0)
    ensures |r| == size
    ensures forall i | 0 <= i < size :: r[i] == buf[Wrap(head + i, |buf|)]
  {
    seq(size, i requires 0 <= i < size => buf[Wrap(head + i, |buf|)])
  }

  /** Bytes put right behind a circular run extend it. */
  lemma CircleGrows(buf: seq<Byte>, head: nat, size: nat, tail: nat, n: nat)
    requires head < |buf| && size + n <= |buf| && tail == Wrap(head + size, |buf|) && tail + n <= |buf|
    ensures Circle(buf, head, size + n) == Circle(buf, head, size) + buf[tail..tail + n]
  {
    var whole, parts := Circle(buf, head, size + n), Circle(buf, head, size) + buf[tail..tail + n];
    forall i | 0 <= i < size + n ensures whole[i] == parts[i] {
      if i >= size {
        assert parts[i] == buf[tail + (i - size)];
      }
    }
  }

  lemma CircleShrinks(buf: seq<Byte>, head: nat, size: nat, n: nat)
    requires head < |buf| && n <= size <= |buf|
    ensures Circle(buf, Wrap(head + n, |buf|), size - n) == Circle(buf, head, size)[n..]
  {
    var a, b := Circle(buf, Wrap(head + n, |buf|), size - n), Circle(buf, head, size)[n..];
    forall i | 0 <= i < size - n ensures a[i] == b[i] {
      assert b[i] == Circle(buf, head, size)[n + i];
    }
  }

  /** Changing only bytes outside the run does not change it. */
  lemma CircleUnchanged(buf: seq<Byte>, buf': seq<Byte>, head: nat, size: nat, tail: nat, n: nat)
    requires |buf'| == |buf| && head < |buf| && size + n <= |buf|
    requires tail == Wrap(head + size, |buf|) && tail + n <= |buf|
    requires forall i | 0 <= i < |buf| && !(tail <= i < tail + n) :: buf'[i] == buf[i]
    ensures Circle(buf', head, size) == Circle(buf, head, size)
  {
    forall i | 0 <= i < size ensures Circle(buf', head, size)[i] == Circle(buf, head, size)[i] {
      assert !(tail <= Wrap(head + i, |buf|) < tail + n);
    }
  }

  lemma AppendTwice(v: View, xs: seq<Byte>, k: nat, n: nat)
    requires v.Valid() && k + n <= |xs| && k + n <= v.Writable()
    ensures v.Append(xs[..k]).Append(xs[k..][..n]) == v.Append(xs[..k + n])
  {
    TakeMore(xs, k, n);
    AppendAssoc(v.data, xs[..k], xs[k..][..n]);
  }

  lemma DropTwice(v: View, j: nat, k: nat)
    requires v.Valid() && j + k <= |v.data|
    ensures v.Drop(j).Drop(k) == v.Drop(j + k)
    ensures v.data[..j] + v.Drop(j).data[..k] == v.data[..j + k]
  {
    TakeMore(v.data, j, k);
  }

  /** `v` is `v0` after `out` has been taken off its front. */
  predicate Taken(v0: View, v: View, out: seq<Byte>)
  {
    v0.Valid() && |out| <= |v0.data| && out == v0.data[..|out|] && v == v0.Drop(|out|)
  }

  lemma TakenStep(v0: View, v: View, out: seq<Byte>, part: seq<Byte>)
    requires Taken(v0, v, out) && |part| <= |v.data| && part == v.data[..|part|]
    ensures Taken(v0, v.Drop(|part|), out + part)
  {
    DropTwice(v0, |out|, |part|);
  }

  class ByteRingBuffer {
    const buffer: array<Byte>
    var head: nat
    var tail: nat
    var size: nat

    ghost predicate Valid()
      reads this
    {
      && size <= buffer.Length
      && (head < buffer.Length || head == buffer.Length == 0)
      && tail == (if head + size < buffer.Length then head + size else head + size - buffer.Length)
    }

    ghost function Contents(): (s: seq<Byte>)
      requires Valid()
      reads this, buffer
      ensures |s| == size
    {
      Circle(buffer[..], head, size)
    }

    ghost function ToView(): (v: View)
      requires Valid()
      reads this, buffer
      ensures v.Valid()
    {
      View(buffer.Length, head, Contents())
    }

    constructor (capacity: nat)
      ensures Valid() && fresh(buffer)
      ensures ToView() == View(capacity, 0, [])
    {
      buffer := new Byte[capacity](_ => 0);
      head, tail, size := 0, 0, 0;
    }

    method Readable() returns (n: nat)
      requires Valid()
      ensures n == |Contents()|
    {
      n := size;
    }

    method Writable() returns (n: nat)
      requires Valid()
      ensures n == ToView().Writable()
    {
      n := buffer.Length - size;
    }

    method WriteLen() returns (n: nat)
      requires Valid()
      ensures n == ToView().WriteLen()
    {
      if buffer.Length - size == 0 { return 0; }
      var toEnd := buffer.Length - tail;
      n := if toEnd < buffer.Length - size then toEnd else buffer.Length - size;
    }

    method ReadLen() returns (n: nat)
      requires Valid()
      ensures n == ToView().ReadLen()
    {
      if size == 0 { return 0; }
      var toEnd := buffer.Length - head;
      n := if toEnd < size then toEnd else size;
    }

    /** Bytes put at the write pointer, by `memcpy` or by the kernel.  They are not
        part of the queue until `Produce`. */
    method Place(xs: seq<Byte>)
      requires Valid() && |xs| <= ToView().WriteLen()
      modifies buffer
      ensures Contents() == old(Contents())
      ensures tail + |xs| <= buffer.Length && buffer[tail..tail + |xs|] == xs
    {
      forall i | 0 <= i < |xs| {
        buffer[tail + i] := xs[i];
      }
      if buffer.Length > 0 {
        CircleUnchanged(old(buffer[..]), buffer[..], head, size, tail, |xs|);
      }
    }

    method Produce(n: nat)
      requires Valid() && buffer.Length > 0 && n <= ToView().WriteLen()
      modifies this
      ensures Valid()
      ensures old(tail) + n <= buffer.Length
      ensures ToView() == old(ToView()).Append(old(buffer[tail..tail + n]))
    {
      WrapOnce(tail + n, buffer.Length);
      CircleGrows(buffer[..], head, size, tail, n);
      assert buffer[..][tail..tail + n] == buffer[tail..tail + n];
      tail := (tail + n) % buffer.Length;
      size := size + n;
    }

    method Consume(n: nat)
      requires Valid() && buffer.Length > 0 && n <= size
      modifies this
      ensures Valid()
      ensures ToView() == old(ToView()).Drop(n)
    {
      WrapOnce(head + n, buffer.Length);
      CircleShrinks(buffer[..], head, size, n);
      head := (head + n) % buffer.Length;
      size := size - n;
    }

    /** One contiguous copy in; it leaves more to do only at the end of the array. */
    method WriteSome(xs: seq<Byte>) returns (n: nat)
      requires Valid() && size < buffer.Length && xs != []
      modifies this, buffer
      ensures Valid() && 0 < n <= |xs| && n <= old(ToView()).Writable()
      ensures ToView() == old(ToView()).Append(xs[..n])
      ensures n == |xs| || size == buffer.Length || (tail == 0 && old(tail) != 0)
    {
      var len := WriteLen();
      n := if len < |xs| then len else |xs|;
      Place(xs[..n]);
      Produce(n);
    }

    /** Appends the longest prefix that fits, in at most two copies. */
    method Write(xs: seq<Byte>) returns (written: nat, ghost rounds: nat)
      requires Valid()
      modifies this, buffer
      ensures Valid()
      ensures written == if |xs| <= old(ToView()).Writable() then |xs| else old(ToView()).Writable()
      ensures ToView() == old(ToView()).Append(xs[..written])
      ensures rounds <= 2
    {
      written, rounds := 0, 0;
      ghost var v0 := ToView();
      while written < |xs| && buffer.Length - size > 0
        invariant Valid() && written <= |xs| && written <= v0.Writable()
        invariant ToView() == v0.Append(xs[..written])
        invariant rounds <= 2
        invariant rounds >= 1 ==> written == |xs| || size == buffer.Length || (rounds == 1 && tail == 0)
        decreases |xs| - written
      {
        var n := WriteSome(xs[written..]);
        AppendTwice(v0, xs, written, n);
        written := written + n;
        rounds := rounds + 1;
      }
    }

    /** One contiguous copy out; it leaves more to do only at the end of the array. */
    method ReadSome(len: nat) returns (out: seq<Byte>)
      requires Valid() && size > 0 && len > 0
      modifies this
      ensures Valid() && 0 < |out| <= len && |out| <= old(size)
      ensures out == old(Contents())[..|out|]
      ensures ToView() == old(ToView()).Drop(|out|)
      ensures |out| == len || size == 0 || (head == 0 && old(head) != 0)
    {
      var m := ReadLen();
      var n := if m < len then m else len;
      out := buffer[head..head + n];
      assert out == Contents()[..n];
      Consume(n);
    }

    /** Removes and returns the front bytes, in at most two copies. */
    method Read(len: nat) returns (out: seq<Byte>, ghost rounds: nat)
      requires Valid()
      modifies this
      ensures Valid()
      ensures |out| == if len <= old(size) then len else old(size)
      ensures out == old(Contents())[..|out|]
      ensures ToView() == old(ToView()).Drop(|out|)
      ensures rounds <= 2
    {
      out, rounds := [], 0;
      ghost var v0 := ToView();
      while |out| < len && size > 0
        invariant Valid() && |out| <= len && Taken(v0, ToView(), out)
        invariant rounds <= 2
        invariant rounds >= 1 ==> |out| == len || size == 0 || (rounds == 1 && head == 0)
        decreases len - |out|
      {
        ghost var v := ToView();
        var part := ReadSome(len - |out|);
        TakenStep(v0, v, out, part);
        out := out + part;
        rounds := rounds + 1;
      }
    }

    /** Copies the front bytes without removing them. */
    method Peek(len: nat) returns (out: seq<Byte>)
      requires Valid()
      ensures |out| == if len <= size then len else size
      ensures out == Contents()[..|out|]
    {
      var toRead := if len < size then len else size;
      var first := if toRead < buffer.Length - head then toRead else buffer.Length - head;
      out := buffer[head..head + first];
      if toRead > first {
        out := out + buffer[..toRead - first];
      }
      forall i | 0 <= i < toRead ensures out[i] == Contents()[i] {
      }
    }

    method Clear()
      modifies this
      ensures Valid() && ToView() == View(buffer.Length, 0, [])
    {
      head, tail, size := 0, 0, 0;
    }
  }
}

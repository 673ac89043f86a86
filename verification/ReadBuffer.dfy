/**
 * Buffers for incoming bytes (src/basic/read_buffer.cpp): `ReadBuffer`, a fragmented byte queue that
 * must behave as one plain sequence, and `FixedBufferCollector`, which cuts a byte stream into blocks.
 */
module ReadBuffers {
  import opened Basics

  /** A `std::vector<uint8_t>`: its elements and its allocated capacity. */
  datatype Fragment = Fragment(data: seq<byte>, capacity: nat)

  function Flatten(fs: seq<Fragment>): seq<byte> {
    if fs == [] then [] else fs[0].data + Flatten(fs[1..])
  }

  lemma {:induction false} FlattenAppend(a: seq<Fragment>, b: seq<Fragment>)
    ensures Flatten(a + b) == Flatten(a) + Flatten(b)
  {
    if a == [] {
      assert a + b == b;
    } else {
      assert (a + b)[1..] == a[1..] + b;
      FlattenAppend(a[1..], b);
      Assoc(a[0].data, Flatten(a[1..]), Flatten(b));
    }
  }

  lemma FlattenFrom(fs: seq<Fragment>, i: nat)
    requires i < |fs|
    ensures Flatten(fs[i..]) == fs[i].data + Flatten(fs[i + 1..])
  {
    assert fs[i..][1..] == fs[i + 1..];
  }

  /** Bytes pushed at the end of the last fragment are pushed at the end of the content. */
  lemma FlattenExtendLast(fs: seq<Fragment>, extended: Fragment, bytes: seq<byte>)
    requires fs != [] && extended.data == fs[|fs| - 1].data + bytes
    ensures Flatten(fs[|fs| - 1 := extended]) == Flatten(fs) + bytes
  {
    var n := |fs| - 1;
    assert fs == fs[..n] + [fs[n]];
    assert fs[n := extended] == fs[..n] + [extended];
    FlattenAppend(fs[..n], [fs[n]]);
    FlattenAppend(fs[..n], [extended]);
  }

  /** `was` with `piece` written over it from position `at`. */
  function Splice(was: seq<byte>, at: nat, piece: seq<byte>): (r: seq<byte>)
    requires at + |piece| <= |was|
    ensures |r| == |was|
  {
    seq(|was|, i requires 0 <= i < |was| => if at <= i < at + |piece| then piece[i - at] else was[i])
  }

  lemma SpliceTwice(was: seq<byte>, at: nat, a: seq<byte>, b: seq<byte>)
    requires at + |a| + |b| <= |was|
    ensures Splice(Splice(was, at, a), at + |a|, b) == Splice(was, at, a + b)
  {
  }

  lemma SpliceMore(was: seq<byte>, at: nat, content: seq<byte>, n: nat, more: nat)
    requires n + more <= |content| && at + n + more <= |was|
    ensures Splice(Splice(was, at, content[..n]), at + n, content[n..][..more]) == Splice(was, at, content[..n + more])
  {
    SpliceTwice(was, at, content[..n], content[n..][..more]);
    assert content[..n] + content[n..][..more] == content[..n + more];
  }

  lemma DropTwice(content: seq<byte>, n: nat, more: nat)
    requires n + more <= |content|
    ensures content[n..][more..] == content[n + more..]
  {
  }

  lemma SpliceNothing(was: seq<byte>, at: nat)
    requires at <= |was|
    ensures Splice(was, at, []) == was
  {
  }

  /** `memcpy(out + at, src, |src|)`. */
  method CopyInto(out: array<byte>, at: nat, src: seq<byte>)
    requires at + |src| <= out.Length
    modifies out
    ensures out[..] == Splice(old(out[..]), at, src)
  {
    forall i | 0 <= i < |src| {
      out[at + i] := src[i];
    }
  }

  /** `vec.reserve(n)`: the allocator may give more than was asked for. */
  method Reserve(f: Fragment, n: nat) returns (r: Fragment)
    ensures r.data == f.data && r.capacity >= n && r.capacity >= f.capacity
  {
    var c: nat :| c >= n && c >= f.capacity;
    r := f.(capacity := c);
  }

  /** What the asserts of the source rely on, through consumption and fragment reuse. */
  ghost predicate WellFormed(fragments: seq<Fragment>, offset: nat, remains: nat, total: nat) {
    && (fragments == [] ==> remains == 0 && offset == 0 && total == 0)
    && total + offset == |Flatten(fragments)|
    && (forall f <- fragments :: |f.data| <= f.capacity)
    && (fragments != [] ==> |fragments[|fragments| - 1].data| + remains <= fragments[|fragments| - 1].capacity)
    && (total > 0 ==> offset < |fragments[0].data| && forall f <- fragments :: f.data != [])
    && (total == 0 && fragments != [] ==> fragments == [Fragment([], remains)] && remains > 0)
  }

  lemma ExtendLastKeeps(fs: seq<Fragment>, offset: nat, remains: nat, total: nat, last: Fragment, bytes: seq<byte>,
                        remains': nat)
    requires WellFormed(fs, offset, remains, total) && fs != [] && bytes != []
    requires last.data == fs[|fs| - 1].data + bytes && |last.data| + remains' <= last.capacity
    ensures WellFormed(fs[|fs| - 1 := last], offset, remains', total + |bytes|)
    ensures Flatten(fs[|fs| - 1 := last])[offset..] == Flatten(fs)[offset..] + bytes
  {
    FlattenExtendLast(fs, last, bytes);
    var fs' := fs[|fs| - 1 := last];
    assert forall i :: 0 <= i < |fs'| ==> |fs'[i].data| <= fs'[i].capacity && fs'[i].data != [] by {
      forall i | 0 <= i < |fs'|
        ensures |fs'[i].data| <= fs'[i].capacity && fs'[i].data != []
      {
        if i < |fs| - 1 { assert fs[i] in fs; }
      }
    }
    assert total == 0 ==> offset == 0;
  }

  lemma PushKeeps(fs: seq<Fragment>, offset: nat, total: nat, last: Fragment, remains': nat)
    requires WellFormed(fs, offset, 0, total) && last.data != [] && |last.data| + remains' <= last.capacity
    ensures WellFormed(fs + [last], offset, remains', total + |last.data|)
    ensures Flatten(fs + [last])[offset..] == Flatten(fs)[offset..] + last.data
  {
    FlattenAppend(fs, [last]);
    assert Flatten([last]) == last.data;
  }

  lemma DropFirstKeeps(fs: seq<Fragment>, offset: nat, remains: nat, total: nat)
    requires WellFormed(fs, offset, remains, total) && fs != [] && 0 < |fs[0].data| - offset < total
    ensures WellFormed(fs[1..], 0, remains, total - (|fs[0].data| - offset))
    ensures Flatten(fs[1..]) == Flatten(fs)[|fs[0].data|..]
  {
    assert Flatten(fs) == fs[0].data + Flatten(fs[1..]);
    assert fs[1..] != [];
  }

  /** The fragments and counters of the source stand for the byte queue `contents`. */
  ghost predicate RepresentsBuffer(fragments: seq<Fragment>, offset: nat, remains: nat, total: nat,
                                   contents: seq<byte>) {
    WellFormed(fragments, offset, remains, total) && contents == Flatten(fragments)[offset..]
  }

  class ReadBuffer {
    const granularity: nat
    var totalSize: nat
    var firstByteOffset: nat
    var capacityRemains: nat
    var fragments: seq<Fragment>
    /** The plain byte queue this object stands for. */
    ghost var contents: seq<byte>

    ghost predicate Valid()
      reads this
    {
      0 < granularity && RepresentsBuffer(fragments, firstByteOffset, capacityRemains, totalSize, contents) &&
        |contents| == totalSize
    }

    constructor (granularity: nat)
      requires granularity > 0
      ensures Valid() && contents == [] && this.granularity == granularity
    {
      this.granularity := granularity;
      totalSize, firstByteOffset, capacityRemains, fragments, contents := 0, 0, 0, [], [];
    }

    method Add(bytes: seq<byte>)
      requires Valid()
      modifies this
      ensures Valid() && contents == old(contents) + bytes
    {
      if bytes == [] { return; }
      if capacityRemains >= |bytes| {
        assert fragments != [];
        var last := fragments[|fragments| - 1];
        last := last.(data := last.data + bytes);
        ExtendLastKeeps(fragments, firstByteOffset, capacityRemains, totalSize, last, bytes, capacityRemains - |bytes|);
        capacityRemains := capacityRemains - |bytes|;
        fragments := fragments[|fragments| - 1 := last];
      } else if capacityRemains > 0 {
        var last := fragments[|fragments| - 1];
        last := Reserve(last, |last.data| + |bytes| + granularity);
        last := last.(data := last.data + bytes);
        ExtendLastKeeps(fragments, firstByteOffset, capacityRemains, totalSize, last, bytes, granularity);
        fragments := fragments[|fragments| - 1 := last];
        capacityRemains := granularity;
      } else {
        var last := Reserve(Fragment([], 0), |bytes| + granularity);
        last := last.(data := bytes);
        PushKeeps(fragments, firstByteOffset, totalSize, last, granularity);
        fragments := fragments + [last];
        capacityRemains := granularity;
      }
      totalSize, contents := totalSize + |bytes|, contents + bytes;
    }

    /** Removes up to `n` bytes, all from the first fragment. */
    method ConsumePart(out: array<byte>, at: nat, n: nat) returns (consumed: nat)
      requires Valid() && 0 < n < totalSize && at + n <= out.Length
      modifies this, out
      ensures Valid() && totalSize + consumed == old(totalSize)
      ensures 0 < consumed <= n
      ensures contents == old(contents)[consumed..]
      ensures out[..] == Splice(old(out[..]), at, old(contents)[..consumed])
    {
      assert fragments != [];
      var f := fragments[0];
      ghost var rest := Flatten(fragments[1..]);
      assert Flatten(fragments) == f.data + rest;
      var fragmentSize := |f.data| - firstByteOffset;
      consumed := Min(n, fragmentSize);
      assert contents[..consumed] == f.data[firstByteOffset..firstByteOffset + consumed];
      CopyInto(out, at, f.data[firstByteOffset..firstByteOffset + consumed]);
      if consumed < fragmentSize {
        firstByteOffset := firstByteOffset + consumed;
      } else {
        DropFirstKeeps(fragments, firstByteOffset, capacityRemains, totalSize);
        firstByteOffset := 0;
        fragments := fragments[1..];
      }
      totalSize, contents := totalSize - consumed, contents[consumed..];
    }

    method CopyAllFragments(out: array<byte>, at: nat)
      requires Valid() && 0 < totalSize && at + totalSize <= out.Length
      modifies out
      ensures out[..] == Splice(old(out[..]), at, contents)
    {
      ghost var was := out[..];
      var p, piece := at, fragments[0].data[firstByteOffset..];
      ghost var done := piece;
      assert contents == piece + Flatten(fragments[1..]) by {
        assert Flatten(fragments) == fragments[0].data + Flatten(fragments[1..]);
      }
      CopyInto(out, p, piece);
      p := p + |piece|;
      var i := 1;
      while i < |fragments|
        invariant 1 <= i <= |fragments|
        invariant p == at + |done| && done + Flatten(fragments[i..]) == contents
        invariant out[..] == Splice(was, at, done)
      {
        FlattenFrom(fragments, i);
        Assoc(done, fragments[i].data, Flatten(fragments[i + 1..]));
        SpliceTwice(was, at, done, fragments[i].data);
        CopyInto(out, p, fragments[i].data);
        p, done := p + |fragments[i].data|, done + fragments[i].data;
        i := i + 1;
      }
      assert done == contents by { assert fragments[i..] == []; }
    }

    /** Copies every byte out, then keeps at most one small emptied fragment for reuse. */
    method ConsumeAll(out: array<byte>, at: nat) returns (n: nat)
      requires Valid() && 0 < totalSize && at + totalSize <= out.Length
      modifies this, out
      ensures Valid() && n == old(totalSize) && contents == []
      ensures out[..] == Splice(old(out[..]), at, old(contents))
    {
      CopyAllFragments(out, at);
      n := totalSize;
      totalSize, firstByteOffset, capacityRemains, contents := 0, 0, 0, [];
      var i := 0;
      while i < |fragments| && fragments[i].capacity > 2 * granularity
        invariant 0 <= i <= |fragments|
      {
        i := i + 1;
      }
      if i < |fragments| {
        assert fragments[i] in fragments;
        capacityRemains := fragments[i].capacity;
        fragments := [Fragment([], capacityRemains)];
        assert Flatten(fragments) == [];
      } else {
        fragments := [];
      }
    }

    /** The loop of `consume`, when more is buffered than fits into the output. */
    method ConsumeSome(out: array<byte>, at: nat)
      requires Valid() && at <= out.Length && out.Length - at < totalSize
      modifies this, out
      ensures Valid() && contents == old(contents)[out.Length - at..]
      ensures out[..] == Splice(old(out[..]), at, old(contents)[..out.Length - at])
    {
      ghost var was, content := out[..], contents;
      var n := 0;
      SpliceNothing(was, at);
      while at + n < out.Length
        invariant at + n <= out.Length < at + |content|
        invariant Valid() && contents == content[n..]
        invariant out[..] == Splice(was, at, content[..n])
      {
        var consumed := ConsumePart(out, at + n, out.Length - at - n);
        SpliceMore(was, at, content, n, consumed);
        DropTwice(content, n, consumed);
        n := n + consumed;
      }
    }

    method Consume(out: array<byte>, at: nat) returns (n: nat)
      requires Valid() && at <= out.Length
      modifies this, out
      ensures Valid() && n == Min(out.Length - at, |old(contents)|)
      ensures contents == old(contents)[n..]
      ensures out[..] == Splice(old(out[..]), at, old(contents)[..n])
    {
      if totalSize == 0 {
        SpliceNothing(out[..], at);
        return 0;
      }
      n := out.Length - at;
      if n >= totalSize {
        assert contents[..totalSize] == contents;
        n := ConsumeAll(out, at);
      } else {
        ConsumeSome(out, at);
      }
    }

    /** `addAndConsume` on an empty buffer: bytes go straight to the output, the surplus is stored. */
    method PassThrough(input: seq<byte>, out: array<byte>, at: nat) returns (n: nat)
      requires Valid() && at <= out.Length && totalSize == 0
      modifies this, out
      ensures Valid() && n == Min(out.Length - at, |input|)
      ensures contents == input[n..]
      ensures out[..] == Splice(old(out[..]), at, input[..n])
    {
      if |input| <= out.Length - at {
        n := |input|;
        assert input[..n] == input;
        CopyInto(out, at, input);
      } else {
        n := out.Length - at;
        CopyInto(out, at, input[..n]);
        Add(input[n..]);
      }
    }

    method AddAndConsume(input: seq<byte>, out: array<byte>, at: nat) returns (n: nat)
      requires Valid() && at <= out.Length
      modifies this, out
      ensures Valid() && n == Min(out.Length - at, |old(contents)| + |input|)
      ensures contents == (old(contents) + input)[n..]
      ensures out[..] == Splice(old(out[..]), at, (old(contents) + input)[..n])
    {
      ghost var content := contents;
      if input == [] {
        assert content + input == content;
        n := Consume(out, at);
      } else if at == out.Length {
        SpliceNothing(out[..], at);
        Add(input);
        n := 0;
      } else if totalSize == 0 {
        assert content + input == input;
        n := PassThrough(input, out, at);
      } else if out.Length - at <= totalSize {
        n := Consume(out, at);
        Add(input);
        assert (content + input)[..n] == content[..n];
        assert (content + input)[n..] == content[n..] + input;
      } else {
        n := ConsumeAllThenAdd(input, out, at);
      }
    }

    /** The recursive call of `addAndConsume`, made once everything buffered was moved out. */
    method ConsumeAllThenAdd(input: seq<byte>, out: array<byte>, at: nat) returns (n: nat)
      requires Valid() && 0 < totalSize && at + totalSize < out.Length && input != []
      modifies this, out
      ensures Valid() && n == Min(out.Length - at, |old(contents)| + |input|)
      ensures contents == (old(contents) + input)[n..]
      ensures out[..] == Splice(old(out[..]), at, (old(contents) + input)[..n])
    {
      ghost var was, content := out[..], contents;
      var first := ConsumeAll(out, at);
      var second := PassThrough(input, out, at + first);
      SpliceTwice(was, at, content, input[..second]);
      n := first + second;
      assert (content + input)[..n] == content + input[..second];
      assert (content + input)[n..] == input[second..];
    }

    method Clear()
      requires Valid()
      modifies this
      ensures Valid() && contents == []
    {
      totalSize, firstByteOffset, capacityRemains, fragments, contents := 0, 0, 0, [], [];
    }
  }

  /** Cuts blocks of an expected size out of incoming data, buffering only an incomplete block. */
  class FixedBufferCollector {
    var expected: nat
    var buffer: seq<byte>

    ghost predicate Valid()
      reads this
    {
      |buffer| <= expected
    }

    constructor (expected: nat)
      ensures Valid() && this.expected == expected && buffer == []
    {
      this.expected, buffer := expected, [];
    }

    method Expect(size: nat)
      modifies this
      ensures Valid() && expected == size && buffer == []
    {
      expected, buffer := size, [];
    }

    /** Until a block is complete nothing is lost; a complete block is the first `expected` bytes seen. */
    method Add(data: seq<byte>) returns (block: Option<seq<byte>>, rest: seq<byte>)
      requires Valid()
      modifies this
      ensures Valid()
      ensures var seen := old(buffer) + data;
              if old(buffer) != [] && |old(buffer)| == old(expected)
              then block.None? && rest == data && buffer == old(buffer) && expected == old(expected)
              else if |seen| < old(expected)
              then block.None? && rest == [] && buffer == seen && expected == old(expected)
              else block == Some(seen[..old(expected)]) && rest == seen[old(expected)..]
    {
      var appending := |data|;
      if buffer == [] {
        if appending >= expected {
          assert buffer + data == data;
          block, rest := Some(data[..expected]), data[expected..];
          expected := 0;
          return;
        }
      }
      var unread := expected - |buffer|;
      if unread == 0 {
        return None, data;
      }
      var filled := false;
      if appending >= unread {
        appending, filled := unread, true;
      }
      assert (buffer + data)[..|buffer| + appending] == buffer + data[..appending];
      buffer, rest := buffer + data[..appending], data[appending..];
      block := if filled then Some(buffer) else None;
    }
  }
}

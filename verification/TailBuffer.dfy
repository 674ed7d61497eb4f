/** The bounded byte capture of the shell runner: src/runners/shell.runner.ts. */
module TailBuffers {
  type byte = bv8

  /** The last `n` bytes of `s`, or all of `s` when it is shorter. */
  function Last(s: seq<byte>, n: int): (r: seq<byte>) {
    if n <= 0 then [] else if n >= |s| then s else s[|s| - n..]
  }

  function Flatten(chunks: seq<seq<byte>>): seq<byte> {
    if chunks == [] then [] else chunks[0] + Flatten(chunks[1..])
  }

  lemma {:induction false} FlattenSnoc(chunks: seq<seq<byte>>, chunk: seq<byte>)
    ensures Flatten(chunks + [chunk]) == Flatten(chunks) + chunk
  {
    if chunks == [] {
      assert chunks + [chunk] == [chunk];
      assert Flatten([chunk]) == chunk + Flatten([]);
    } else {
      FlattenSnoc(chunks[1..], chunk);
      assert (chunks + [chunk])[1..] == chunks[1..] + [chunk];
    }
  }

  /** Forgetting early and forgetting late agree: trimming before an append changes nothing. */
  lemma LastAppend(s: seq<byte>, chunk: seq<byte>, cap: nat)
    ensures Last(Last(s, cap) + chunk, cap) == Last(s + chunk, cap)
  {
    if cap < |s| {
      var gone, kept := s[..|s| - cap], s[|s| - cap..];
      assert s == gone + kept;
      LastOfJoin(gone, kept, cap);
      Regroup(gone, kept, chunk);
      LastOfJoin(gone, kept + chunk, cap);
      LastOfAll(kept);
    }
  }

  lemma LastOfAll(s: seq<byte>)
    ensures Last(s, |s|) == s
  {
  }

  lemma Regroup(a: seq<byte>, b: seq<byte>, c: seq<byte>)
    ensures (a + b) + c == a + (b + c)
  {
  }

  /** What lies before the last `n` bytes does not matter. */
  lemma LastOfJoin(a: seq<byte>, b: seq<byte>, n: nat)
    requires n <= |b|
    ensures Last(a + b, n) == Last(b, n)
  {
  }

  /** A tail of the kept bytes is a tail of everything ever written. */
  lemma LastOfLast(s: seq<byte>, cap: nat, n: int)
    ensures Last(Last(s, cap), n) == Last(s, if n < cap then n else cap)
  {
  }

  /** The kept chunks are the last `size` bytes of `full`. */
  ghost predicate Keeps(chunks: seq<seq<byte>>, size: nat, full: seq<byte>) {
    size <= |full| && Flatten(chunks) == full[|full| - size..]
  }

  lemma AppendKeeps(chunks: seq<seq<byte>>, chunk: seq<byte>, size: nat)
    requires size == |Flatten(chunks)|
    ensures Keeps(chunks + [chunk], size + |chunk|, Flatten(chunks) + chunk)
    ensures size + |chunk| == |Flatten(chunks) + chunk|
  {
    FlattenSnoc(chunks, chunk);
  }

  /** The oldest chunk goes. */
  lemma DropHead(chunks: seq<seq<byte>>, size: nat, full: seq<byte>)
    requires chunks != [] && Keeps(chunks, size, full)
    ensures |chunks[0]| <= size && Keeps(chunks[1..], size - |chunks[0]|, full)
  {
    var rest := Flatten(chunks[1..]);
    assert Flatten(chunks) == chunks[0] + rest;
    Suffix(full, |full| - size, chunks[0], rest);
  }

  /** The oldest chunk loses its first bytes. */
  lemma CutHead(chunks: seq<seq<byte>>, size: nat, full: seq<byte>, overflow: nat)
    requires chunks != [] && Keeps(chunks, size, full) && overflow <= |chunks[0]|
    ensures overflow <= size && Keeps([chunks[0][overflow..]] + chunks[1..], size - overflow, full)
  {
    var head, rest := chunks[0], Flatten(chunks[1..]);
    var cut := [head[overflow..]] + chunks[1..];
    assert cut[1..] == chunks[1..];
    assert head == head[..overflow] + head[overflow..];
    assert Flatten(chunks) == head[..overflow] + (head[overflow..] + rest);
    Suffix(full, |full| - size, head[..overflow], head[overflow..] + rest);
  }

  /** Where the loop stops, what is kept are the last `cap` bytes. */
  lemma TrimmedIsLast(chunks: seq<seq<byte>>, size: nat, full: seq<byte>, cap: nat)
    requires Keeps(chunks, size, full) && (size >= cap || size == |full|) && (size <= cap || chunks == [])
    ensures size == |Flatten(chunks)| && Flatten(chunks) == Last(full, cap)
  {
  }

  lemma Suffix(full: seq<byte>, i: nat, a: seq<byte>, b: seq<byte>)
    requires i <= |full| && full[i..] == a + b
    ensures i + |a| <= |full| && full[i + |a|..] == b
  {
    assert full[i..][|a|..] == b;
  }

  class TailBuffer {
    const cap: nat
    var chunks: seq<seq<byte>>
    var size: nat
    /** Every byte ever appended, in order. */
    ghost var written: seq<byte>

    ghost predicate Valid()
      reads this
    {
      && size == |Flatten(chunks)|
      && Flatten(chunks) == Last(written, cap)
    }

    constructor (cap: nat)
      ensures Valid() && this.cap == cap && written == []
    {
      this.cap, chunks, size, written := cap, [], 0, [];
    }

    /** Whatever the chunk sizes, what is kept is the newest min(cap, total) bytes. */
    method Append(chunk: seq<byte>)
      requires Valid()
      modifies this
      ensures Valid()
      ensures written == old(written) + chunk
      ensures Flatten(chunks) == Last(old(written) + chunk, cap)
    {
      ghost var full := Last(written, cap) + chunk;
      AppendKeeps(chunks, chunk, size);
      LastAppend(written, chunk, cap);
      chunks := chunks + [chunk];
      size := size + |chunk|;
      written := written + chunk;
      Trim(full);
    }

    /** The trimming loop of `append`: drops or cuts the oldest chunk until the cap is met. */
    method Trim(ghost full: seq<byte>)
      requires Keeps(chunks, size, full) && size == |full|
      modifies this`chunks, this`size
      ensures size == |Flatten(chunks)| && Flatten(chunks) == Last(full, cap)
    {
      while size > cap && |chunks| > 0
        invariant Keeps(chunks, size, full)
        invariant size >= cap || size == |full|
        decreases |chunks|, size
      {
        var head := chunks[0];
        var overflow := size - cap;
        if |head| <= overflow {
          DropHead(chunks, size, full);
          size := size - |head|;
          chunks := chunks[1..];
        } else {
          CutHead(chunks, size, full, overflow);
          chunks := [head[overflow..]] + chunks[1..];
          size := size - overflow;
        }
      }
      TrimmedIsLast(chunks, size, full, cap);
    }

    /** `toString`, before the UTF-8 decoding. */
    method Contents() returns (r: seq<byte>)
      requires Valid()
      ensures r == Last(written, cap)
    {
      r := Flatten(chunks);
    }

    /** `tail`, before the UTF-8 decoding; a negative count yields nothing. */
    method Tail(bytes: int) returns (r: seq<byte>)
      requires Valid()
      ensures r == Last(written, if bytes < cap then bytes else cap)
    {
      var full := Flatten(chunks);
      var start := if |full| - bytes > 0 then |full| - bytes else 0;
      LastOfLast(written, cap, bytes);
      r := if start < |full| then full[start..] else [];
    }
  }
}

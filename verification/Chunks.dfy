/** Cutting a list into consecutive slices, as the crawler's publishing loops and
    `toChunkedArray` do. */
module Chunks {

  /** `s` cut into consecutive slices of `size` elements; only the last may be shorter. */
  function Chunked<T>(s: seq<T>, size: nat): seq<seq<T>>
    requires size > 0
  {
    if s == [] then []
    else if |s| <= size then [s]
    else [s[..size]] + Chunked(s[size..], size)
  }

  function Flatten<T>(parts: seq<seq<T>>): seq<T> {
    if parts == [] then [] else parts[0] + Flatten(parts[1..])
  }

  lemma {:induction false} FlattenAppend<T>(a: seq<seq<T>>, b: seq<seq<T>>)
    ensures Flatten(a + b) == Flatten(a) + Flatten(b)
  {
    if a == [] {
      assert a + b == b;
    } else {
      assert (a + b)[1..] == a[1..] + b;
      FlattenAppend(a[1..], b);
    }
  }

  /** Slicing loses nothing, duplicates nothing and keeps the order; every slice is non-empty,
      and `size` long but for a possibly shorter last one. */
  lemma {:induction false} ChunksConcatenateBack<T>(s: seq<T>, size: nat)
    requires size > 0
    ensures Flatten(Chunked(s, size)) == s
    ensures forall i :: 0 <= i < |Chunked(s, size)| ==> 1 <= |Chunked(s, size)[i]| <= size
    ensures forall i :: 0 <= i < |Chunked(s, size)| - 1 ==> |Chunked(s, size)[i]| == size
  {
    if |s| > size {
      ChunksConcatenateBack(s[size..], size);
      var rest := Chunked(s[size..], size);
      assert Chunked(s, size)[1..] == rest;
      assert s == s[..size] + s[size..];
      forall i | 0 <= i < |Chunked(s, size)|
        ensures 1 <= |Chunked(s, size)[i]| <= size && (i < |Chunked(s, size)| - 1 ==> |Chunked(s, size)[i]| == size)
      {
        if i > 0 {
          assert Chunked(s, size)[i] == rest[i - 1];
        }
      }
    } else if s != [] {
      assert Chunked(s, size)[1..] == [];
    }
  }

  /** No more slices than needed. */
  lemma {:induction false} ChunksAreFew<T>(s: seq<T>, size: nat)
    requires size > 0
    ensures |Chunked(s, size)| * size < |s| + size
  {
    if |s| > size {
      ChunksAreFew(s[size..], size);
      var rest := Chunked(s[size..], size);
      assert |Chunked(s, size)| == 1 + |rest|;
      assert (1 + |rest|) * size == size + |rest| * size;
    }
  }

  /** Appending one more full slice in front of the unread suffix. */
  lemma {:induction false} ChunkedStep<T>(s: seq<T>, size: nat, i: nat)
    requires size > 0 && i < |s|
    ensures Chunked(s[i..], size) ==
            [s[i..ToField(i, |s|, size)]] + Chunked(s[ToField(i, |s|, size)..], size)
  {
    if |s| - i <= size {
      assert s[i..ToField(i, |s|, size)] == s[i..];
      assert s[ToField(i, |s|, size)..] == [];
    } else {
      assert s[i..][..size] == s[i..i + size];
      assert s[i..][size..] == s[i + size..];
    }
  }

  /** Upper end of the slice that starts at `index`, clamped to `length`. */
  function ToField(index: nat, length: nat, chunkSize: nat): (to: nat)
    ensures to == length || to == index + chunkSize
    ensures to <= length && to <= index + chunkSize
    ensures index <= length ==> index <= to <= length
    ensures index < length && chunkSize > 0 ==> index < to
  {
    if index + chunkSize > length then length else index + chunkSize
  }

  /** The index-stepped slicing loop. */
  method ToChunkedArray<T>(s: seq<T>, size: nat) returns (result: seq<seq<T>>)
    requires size > 0
    ensures result == Chunked(s, size)
  {
    result := [];
    var i := 0;
    ghost var done := 0;
    while i < |s|
      invariant 0 <= done <= |s| && (i < |s| ==> done == i) && (i >= |s| ==> done == |s|)
      invariant result + Chunked(s[done..], size) == Chunked(s, size)
    {
      ChunkedStep(s, size, i);
      result := result + [s[i..ToField(i, |s|, size)]];
      done := ToField(i, |s|, size);
      i := i + size;
    }
    assert Chunked(s[done..], size) == [];
  }
}

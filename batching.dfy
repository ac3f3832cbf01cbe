/** Cutting a sequence into consecutive batches of a fixed size. */
module Batching {

  function Min(a: int, b: int): int { if a <= b then a else b }

  /** The batches `array.slice(i, i + size)` for i = 0, size, 2*size, ... */
  function Chunks<T>(a: seq<T>, size: nat): (r: seq<seq<T>>)
    requires size > 0
    decreases |a|
  {
    if a == [] then []
    else
      var m := Min(size, |a|);
      [a[..m]] + Chunks(a[m..], size)
  }

  function Flatten<T>(xss: seq<seq<T>>): seq<T> {
    if xss == [] then [] else xss[0] + Flatten(xss[1..])
  }

  lemma {:induction false} FlattenAppend<T>(xss: seq<seq<T>>, xs: seq<T>)
    ensures Flatten(xss + [xs]) == Flatten(xss) + xs
  {
    if xss != [] {
      assert (xss + [xs])[1..] == xss[1..] + [xs];
      FlattenAppend(xss[1..], xs);
    } else {
      assert xss + [xs] == [xs];
    }
  }

  /** The batches partition the input: concatenated they give it back. */
  lemma {:induction false} FlattenChunks<T>(a: seq<T>, size: nat)
    requires size > 0
    ensures Flatten(Chunks(a, size)) == a
    decreases |a|
  {
    if a != [] {
      var m := Min(size, |a|);
      var r := Chunks(a, size);
      assert r[1..] == Chunks(a[m..], size);
      FlattenChunks(a[m..], size);
      assert a == a[..m] + a[m..];
    }
  }

  /** Every batch is non-empty and at most `size` long; all but the last are
      exactly `size` long; and there are ceil(|a| / size) batches, stated
      without division: the last batch holds between 1 and `size` elements. */
  lemma {:induction false} ChunkSizes<T>(a: seq<T>, size: nat)
    requires size > 0
    ensures var r := Chunks(a, size);
      && (r == [] <==> a == [])
      && (|r| - 1) * size < |a| <= |r| * size
      && (forall i :: 0 <= i < |r| ==> 0 < |r[i]| <= size)
      && (forall i :: 0 <= i < |r| - 1 ==> |r[i]| == size)
    decreases |a|
  {
    if a != [] {
      var m := Min(size, |a|);
      ChunkSizes(a[m..], size);
      var r := Chunks(a, size);
      var rest := Chunks(a[m..], size);
      assert r == [a[..m]] + rest;
      assert |r| * size == size + |rest| * size;
      assert (|r| - 1) * size == |rest| * size;
      if |a| <= size {
        assert rest == [];
      }
    }
  }

  /** `createBatches(array, batchSize)`: an index loop that pushes
      `array.slice(i, i + batchSize)`.  With a non-positive size the source
      loops forever on a non-empty array, so that case is excluded; on an
      empty array it returns no batches. */
  method CreateBatches<T>(a: seq<T>, size: int) returns (batches: seq<seq<T>>)
    requires size > 0 || |a| == 0
    ensures a == [] ==> batches == []
    ensures size > 0 ==> batches == Chunks(a, size)
  {
    batches := [];
    if a == [] {
      return;
    }
    var i := 0;
    while i < |a|
      invariant 0 <= i
      invariant batches + Chunks(a[Min(i, |a|)..], size) == Chunks(a, size)
      decreases |a| - i
    {
      var j := Min(i + size, |a|);
      var rest := a[i..];
      assert rest[..Min(size, |rest|)] == a[i..j];
      assert rest[Min(size, |rest|)..] == a[j..];
      batches := batches + [a[i..j]];
      i := i + size;
    }
  }

  /** The elements of a batch come from the input. */
  lemma ChunkMembers<T>(a: seq<T>, size: nat, b: nat)
    requires size > 0 && b < |Chunks(a, size)|
    ensures forall x :: x in Chunks(a, size)[b] ==> x in a
  {
    FlattenChunks(a, size);
    FlattenMember(Chunks(a, size), b);
  }

  lemma {:induction false} FlattenMember<T>(xss: seq<seq<T>>, b: nat)
    requires b < |xss|
    ensures forall x :: x in xss[b] ==> x in Flatten(xss)
  {
    if b > 0 {
      FlattenMember(xss[1..], b - 1);
    }
  }
}

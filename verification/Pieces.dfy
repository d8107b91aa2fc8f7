/** Cutting an octet string into pieces and putting it together again. */
module Pieces {
  import opened Apdus
  import opened Segmentation

  /** The pieces a sender of segments of that size cuts its data into. */
  function Cut(data: Bytes, size: nat): (pieces: seq<Bytes>)
    requires 0 < size
    ensures 0 < |pieces|
  {
    seq(CountSegments(|data|, size), i requires 0 <= i => Chunk(data, size, i))
  }

  /** The same, said piece by piece. */
  ghost predicate IsCut(pieces: seq<Bytes>, data: Bytes, size: nat)
    requires 0 < size
  {
    && |pieces| == CountSegments(|data|, size)
    && forall i {:trigger Chunk(data, size, i)} :: 0 <= i < |pieces| ==> pieces[i] == Chunk(data, size, i)
  }

  lemma CutIsUnique(pieces: seq<Bytes>, data: Bytes, size: nat)
    requires 0 < size
    ensures IsCut(pieces, data, size) <==> pieces == Cut(data, size)
  {
    if IsCut(pieces, data, size) {
      forall i | 0 <= i < |pieces| ensures pieces[i] == Cut(data, size)[i] { assert pieces[i] == Chunk(data, size, i); }
    }
  }

  /** Pieces 1 up to last, one after the other. */
  function Later(pieces: seq<Bytes>, last: nat): Bytes
    requires last < |pieces|
  {
    if last == 0 then [] else Later(pieces, last - 1) + pieces[last]
  }

  /** What a receiver holds that was opened by piece k and then took pieces 1 up to last. */
  function Assembled(pieces: seq<Bytes>, k: nat, last: nat): Bytes
    requires k < |pieces| && last < |pieces|
  {
    pieces[k] + Later(pieces, last)
  }

  lemma AssembledStep(pieces: seq<Bytes>, k: nat, last: nat)
    requires k < |pieces| && last + 1 < |pieces|
    ensures Assembled(pieces, k, last + 1) == Assembled(pieces, k, last) + pieces[last + 1]
  {
  }

  lemma {:induction false} AssembledIsPrefix(data: Bytes, size: nat, last: nat)
    requires 0 < size && last < CountSegments(|data|, size)
    ensures Assembled(Cut(data, size), 0, last) == data[..Clamp((last + 1) * size, |data|)]
  {
    var pieces := Cut(data, size);
    if last == 0 {
      assert Chunk(data, size, 0) == data[..Clamp(size, |data|)];
    } else {
      AssembledIsPrefix(data, size, last - 1);
      AssembledStep(pieces, 0, last - 1);
      assert last * size <= (last + 1) * size;
      assert Chunk(data, size, last) == data[Clamp(last * size, |data|)..Clamp((last + 1) * size, |data|)];
    }
  }

  /** All the pieces together are the whole. */
  lemma AssembledAll(data: Bytes, size: nat)
    requires 0 < size
    ensures Assembled(Cut(data, size), 0, |Cut(data, size)| - 1) == data
  {
    AssembledIsPrefix(data, size, CountSegments(|data|, size) - 1);
  }

  /** A receiver that took every later piece holds the whole exactly when the piece that
      opened it has the contents of piece 0. */
  lemma AssembledWhole(data: Bytes, size: nat, k: nat)
    requires 0 < size && k < CountSegments(|data|, size)
    ensures Assembled(Cut(data, size), k, |Cut(data, size)| - 1) == data
       <==> Chunk(data, size, k) == Chunk(data, size, 0)
  {
    var pieces := Cut(data, size);
    AssembledAll(data, size);
    SamePrefix(pieces[k], pieces[0], Later(pieces, |pieces| - 1));
  }

  lemma SamePrefix(a: Bytes, b: Bytes, rest: Bytes)
    ensures a + rest == b + rest <==> a == b
  {
    if a + rest == b + rest {
      assert |a| + |rest| == |a + rest| == |b + rest| == |b| + |rest|;
      assert a == (a + rest)[..|a|] == (b + rest)[..|b|] == b;
    }
  }
}

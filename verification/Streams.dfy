/** Bytes as numbers, and sequences put back together from their pieces. */
module Streams {
  type Byte = b: int | 0 <= b < 256

  function Flatten<T>(pieces: seq<seq<T>>): seq<T> {
    if pieces == [] then [] else pieces[0] + Flatten(pieces[1..])
  }

  lemma {:induction false} FlattenAppend<T>(p: seq<seq<T>>, q: seq<seq<T>>)
    ensures Flatten(p + q) == Flatten(p) + Flatten(q)
  {
    if p == [] {
      assert p + q == q;
    } else {
      assert (p + q)[1..] == p[1..] + q;
      FlattenAppend(p[1..], q);
    }
  }

  lemma FlattenSnoc<T>(p: seq<seq<T>>, last: seq<T>)
    ensures Flatten(p + [last]) == Flatten(p) + last
  {
    FlattenAppend(p, [last]);
  }

  lemma FlattenCons<T>(head: seq<T>, tail: seq<seq<T>>)
    ensures Flatten([head] + tail) == head + Flatten(tail)
  {
    assert ([head] + tail)[1..] == tail;
  }

  /** Taking the last piece off. */
  lemma FlattenLast<T>(pieces: seq<seq<T>>)
    requires pieces != []
    ensures Flatten(pieces) == Flatten(pieces[..|pieces| - 1]) + pieces[|pieces| - 1]
  {
    FlattenSnoc(pieces[..|pieces| - 1], pieces[|pieces| - 1]);
    assert pieces[..|pieces| - 1] + [pieces[|pieces| - 1]] == pieces;
  }

  /** By cases on the top four bits. */
  lemma ByteAsInt(x: int)
    requires 0 <= x < 256
    ensures (x as bv8) as int == x
  {
    if x < 16 {
    } else if x < 32 {
    } else if x < 48 {
    } else if x < 64 {
    } else if x < 80 {
    } else if x < 96 {
    } else if x < 112 {
    } else if x < 128 {
    } else if x < 144 {
    } else if x < 160 {
    } else if x < 176 {
    } else if x < 192 {
    } else if x < 208 {
    } else if x < 224 {
    } else if x < 240 {
    } else {
    }
  }
}

/** Append-only buffers: the text and the arguments a renderer accumulates. */
module Buffers {
  datatype Buffer<T> = Empty | Push(before: Buffer<T>, last: T)

  function Append<T>(b: Buffer<T>, xs: seq<T>): Buffer<T>
    decreases xs
  {
    if xs == [] then b else Append(Push(b, xs[0]), xs[1..])
  }

  function Contents<T>(b: Buffer<T>): seq<T> {
    match b
    case Empty => []
    case Push(before, last) => Contents(before) + [last]
  }

  lemma {:induction false} AppendConcat<T>(b: Buffer<T>, xs: seq<T>, ys: seq<T>)
    ensures Append(b, xs + ys) == Append(Append(b, xs), ys)
    decreases xs
  {
    if xs == [] {
      assert xs + ys == ys;
    } else {
      assert (xs + ys)[1..] == xs[1..] + ys;
      AppendConcat(Push(b, xs[0]), xs[1..], ys);
    }
  }

  lemma {:induction false} ContentsAppend<T>(b: Buffer<T>, xs: seq<T>)
    ensures Contents(Append(b, xs)) == Contents(b) + xs
    decreases xs
  {
    if xs != [] {
      ContentsAppend(Push(b, xs[0]), xs[1..]);
      assert Contents(b) + [xs[0]] + xs[1..] == Contents(b) + xs;
    }
  }
}

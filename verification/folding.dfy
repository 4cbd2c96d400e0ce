/**
 * Left folds over a sequence of events, and the two shapes of output a fold
 * can build: a list that only ever grows at marked events, and a value that
 * marked events overwrite. The XML decoder's outputs have these shapes; the
 * lemmas here are stated once, for any step function.
 */
module Folding {

  /** The state reached from `s` by applying `step` to the elements of `xs`, in order. */
  function FoldLeft<S, E>(step: (S, E) -> S, s: S, xs: seq<E>): S
    decreases |xs|
  {
    if xs == [] then s else step(FoldLeft(step, s, xs[..|xs| - 1]), xs[|xs| - 1])
  }

  /** How many elements of `xs` equal `x`. */
  function Count<E(==)>(xs: seq<E>, x: E): nat
    decreases |xs|
  {
    if xs == [] then 0 else Count(xs[..|xs| - 1], x) + (if xs[|xs| - 1] == x then 1 else 0)
  }

  /** `Count` is the multiplicity of `x` in `xs`. */
  lemma {:induction false} CountIsMultiplicity<E>(xs: seq<E>, x: E)
    ensures Count(xs, x) == multiset(xs)[x]
    decreases |xs|
  {
    if xs != [] {
      CountIsMultiplicity(xs[..|xs| - 1], x);
      assert xs == xs[..|xs| - 1] + [xs[|xs| - 1]];
    }
  }

  /** Folding over two sequences one after the other is folding over their concatenation. */
  lemma {:induction false} FoldAppend<S, E>(step: (S, E) -> S, s: S, xs: seq<E>, ys: seq<E>)
    ensures FoldLeft(step, s, xs + ys) == FoldLeft(step, FoldLeft(step, s, xs), ys)
    decreases |ys|
  {
    if ys == [] {
      assert xs + ys == xs;
    } else {
      assert (xs + ys)[..|xs + ys| - 1] == xs + ys[..|ys| - 1];
      FoldAppend(step, s, xs, ys[..|ys| - 1]);
    }
  }

  /**
   * An output that each `mark` extends by one entry, built from the state
   * just before it, and that every other element leaves alone, ends up as the
   * old list followed by one entry per `mark`.
   */
  lemma {:induction false} FoldAppendsAtMarks<S, E, R>(
    step: (S, E) -> S, out: S -> seq<R>, emit: S -> R, mark: E, s: S, xs: seq<E>)
    requires forall t, x :: out(step(t, x)) == out(t) + (if x == mark then [emit(t)] else [])
    ensures |out(FoldLeft(step, s, xs))| == |out(s)| + Count(xs, mark)
    ensures out(FoldLeft(step, s, xs))[..|out(s)|] == out(s)
    decreases |xs|
  {
    if xs != [] {
      var xs', x := xs[..|xs| - 1], xs[|xs| - 1];
      FoldAppendsAtMarks(step, out, emit, mark, s, xs');
      var u, t := FoldLeft(step, s, xs'), FoldLeft(step, s, xs);
      assert out(t) == out(u) + (if x == mark then [emit(u)] else []);
      assert out(t)[..|out(s)|] == out(u)[..|out(s)|];
    }
  }

  /**
   * With the same kind of output, the entry for the mark at position `i`
   * sits at index `|out(s)| + Count(xs[..i], mark)` and was built from the
   * state just before that mark.
   */
  lemma {:induction false} FoldEntryAtMark<S, E, R>(
    step: (S, E) -> S, out: S -> seq<R>, emit: S -> R, mark: E, s: S, xs: seq<E>, i: nat)
    requires forall t, x :: out(step(t, x)) == out(t) + (if x == mark then [emit(t)] else [])
    requires i < |xs| && xs[i] == mark
    ensures |out(s)| + Count(xs[..i], mark) < |out(FoldLeft(step, s, xs))|
    ensures out(FoldLeft(step, s, xs))[|out(s)| + Count(xs[..i], mark)] == emit(FoldLeft(step, s, xs[..i]))
    decreases |xs|
  {
    var xs' := xs[..|xs| - 1];
    var u, t := FoldLeft(step, s, xs'), FoldLeft(step, s, xs);
    assert out(t) == out(u) + (if xs[|xs| - 1] == mark then [emit(u)] else []);
    FoldAppendsAtMarks(step, out, emit, mark, s, xs');
    if i < |xs'| {
      FoldEntryAtMark(step, out, emit, mark, s, xs', i);
      assert xs[..i] == xs'[..i];
    } else {
      assert xs[..i] == xs';
    }
  }

  /** An output that only marked elements change keeps its value when no element is marked. */
  lemma {:induction false} FoldUnmarkedKeeps<S, E, R>(
    step: (S, E) -> S, out: S -> R, emit: (S, E) -> R, marked: E -> bool, s: S, xs: seq<E>)
    requires forall t, x :: out(step(t, x)) == if marked(x) then emit(t, x) else out(t)
    requires forall i | 0 <= i < |xs| :: !marked(xs[i])
    ensures out(FoldLeft(step, s, xs)) == out(s)
    decreases |xs|
  {
    if xs != [] {
      FoldUnmarkedKeeps(step, out, emit, marked, s, xs[..|xs| - 1]);
    }
  }

  /**
   * An output that each marked element overwrites, with a value built from
   * the state just before it and the element, and that every other element
   * leaves alone, ends up as the value the last marked element wrote.
   */
  lemma {:induction false} FoldLastMarkWins<S, E, R>(
    step: (S, E) -> S, out: S -> R, emit: (S, E) -> R, marked: E -> bool, s: S, xs: seq<E>, i: nat)
    requires forall t, x :: out(step(t, x)) == if marked(x) then emit(t, x) else out(t)
    requires i < |xs| && marked(xs[i]) && forall j | i < j < |xs| :: !marked(xs[j])
    ensures out(FoldLeft(step, s, xs)) == emit(FoldLeft(step, s, xs[..i]), xs[i])
  {
    var head, tail := xs[..i + 1], xs[i + 1..];
    assert xs == head + tail;
    FoldAppend(step, s, head, tail);
    assert head[..i] == xs[..i];
    FoldUnmarkedKeeps(step, out, emit, marked, FoldLeft(step, s, head), tail);
  }
}

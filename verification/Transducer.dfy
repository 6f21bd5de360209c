/** A left-to-right transducer over sequences: a mode, and what each symbol emits in it. */
module Transducer {

  function After<M, B>(next: (M, B) -> M, m: M, p: seq<B>): M {
    if p == [] then m else next(After(next, m, p[..|p| - 1]), p[|p| - 1])
  }

  function Output<M, B>(next: (M, B) -> M, emit: (M, B) -> seq<B>, m: M, p: seq<B>): seq<B> {
    if p == [] then []
    else Output(next, emit, m, p[..|p| - 1]) + emit(After(next, m, p[..|p| - 1]), p[|p| - 1])
  }

  lemma Snoc<M, B>(next: (M, B) -> M, emit: (M, B) -> seq<B>, m: M, p: seq<B>, b: B)
    ensures After(next, m, p + [b]) == next(After(next, m, p), b)
    ensures Output(next, emit, m, p + [b]) == Output(next, emit, m, p) + emit(After(next, m, p), b)
  {
    assert (p + [b])[..|p|] == p;
  }

  lemma One<M, B>(next: (M, B) -> M, emit: (M, B) -> seq<B>, m: M, b: B)
    ensures After(next, m, [b]) == next(m, b) && Output(next, emit, m, [b]) == emit(m, b)
  {
    Snoc(next, emit, m, [], b);
    assert [] + [b] == [b];
  }

  /** Reading a concatenation is reading its parts, the mode carried over. */
  lemma {:induction false} Concat<M, B>(next: (M, B) -> M, emit: (M, B) -> seq<B>, m: M, p: seq<B>, q: seq<B>)
    ensures After(next, m, p + q) == After(next, After(next, m, p), q)
    ensures Output(next, emit, m, p + q) == Output(next, emit, m, p) + Output(next, emit, After(next, m, p), q)
    decreases |q|
  {
    if q == [] {
      assert p + q == p;
    } else {
      var init, b := q[..|q| - 1], q[|q| - 1];
      assert q == init + [b];
      assert p + q == (p + init) + [b];
      Concat(next, emit, m, p, init);
      Snoc(next, emit, m, p + init, b);
      Snoc(next, emit, After(next, m, p), init, b);
    }
  }

  /** The last `limit` elements. */
  function Tail<B>(limit: nat, s: seq<B>): seq<B> {
    if |s| > limit then s[|s| - limit..] else s
  }

  lemma TailIsLast<B>(limit: nat, s: seq<B>)
    ensures |Tail(limit, s)| == (if |s| <= limit then |s| else limit) && s[|s| - |Tail(limit, s)|..] == Tail(limit, s)
  {
  }

  lemma TailConcat<B>(limit: nat, s: seq<B>, t: seq<B>)
    ensures Tail(limit, Tail(limit, s) + t) == Tail(limit, s + t)
    ensures |Tail(limit, s) + t| > limit || |s| > limit <==> |s + t| > limit
  {
    if |s| > limit {
      assert Tail(limit, s) + t == (s + t)[|s| - limit..];
    }
  }
}

/** Facts about iterated steps and folds that hold for any register type. */
module Folds {
  function Iter<T>(f: T -> T, c: T, n: nat): T
    decreases n
  {
    if n == 0 then c else Iter(f, f(c), n - 1)
  }

  function Fold<T, B>(step: (T, B) -> T, c: T, data: seq<B>): T {
    if data == [] then c else step(Fold(step, c, data[..|data| - 1]), data[|data| - 1])
  }

  lemma {:induction false} IterSplit<T>(f: T -> T, c: T, m: nat, n: nat)
    ensures Iter(f, c, m + n) == Iter(f, Iter(f, c, m), n)
    decreases m
  {
    if m > 0 { IterSplit(f, f(c), m - 1, n); }
  }

  lemma {:induction false} IterLinear<T(!new)>(f: T -> T, plus: (T, T) -> T, v: T, w: T, n: nat)
    requires forall a, b :: f(plus(a, b)) == plus(f(a), f(b))
    ensures Iter(f, plus(v, w), n) == plus(Iter(f, v, n), Iter(f, w, n))
    decreases n
  {
    if n > 0 { IterLinear(f, plus, f(v), f(w), n - 1); }
  }

  lemma {:induction false} IterInjective<T(!new)>(f: T -> T, v: T, w: T, n: nat)
    requires forall a, b :: f(a) == f(b) ==> a == b
    requires Iter(f, v, n) == Iter(f, w, n)
    ensures v == w
    decreases n
  {
    if n > 0 { IterInjective(f, f(v), f(w), n - 1); }
  }

  lemma {:induction false} FoldAppend<T, B>(step: (T, B) -> T, c: T, a: seq<B>, b: seq<B>)
    ensures Fold(step, c, a + b) == Fold(step, Fold(step, c, a), b)
  {
    if b == [] {
      assert a + b == a;
    } else {
      assert (a + b)[..|a + b| - 1] == a + b[..|b| - 1];
      FoldAppend(step, c, a, b[..|b| - 1]);
    }
  }

  lemma {:induction false} FoldInjective<T(!new), B(!new)>(step: (T, B) -> T, c: T, d: T, data: seq<B>)
    requires forall v, w, b :: step(v, b) == step(w, b) ==> v == w
    requires Fold(step, c, data) == Fold(step, d, data)
    ensures c == d
  {
    if data != [] { FoldInjective(step, c, d, data[..|data| - 1]); }
  }


  lemma FoldOne<T, B>(step: (T, B) -> T, c: T, b: B)
    ensures Fold(step, c, [b]) == step(c, b)
  {
    assert [b][..0] == [];
  }

  /** One more symbol of a word: if one symbol is `m` steps of `x`, and the rest is `n` steps of the result. */
  lemma FoldWord<T, B>(f: T -> T, step: (T, B) -> T, c: T, x: T, d: seq<B>, m: nat, n: nat)
    requires d != []
    requires Fold(step, step(c, d[0]), d[1..]) == Iter(f, Iter(f, x, m), n)
    ensures Fold(step, c, d) == Iter(f, x, m + n)
  {
    IterSplit(f, x, m, n);
    FoldFirst(step, c, d);
  }

  lemma {:induction false} FoldFirst<T, B>(step: (T, B) -> T, c: T, d: seq<B>)
    requires d != []
    ensures Fold(step, c, d) == Fold(step, step(c, d[0]), d[1..])
  {
    assert [d[0]] + d[1..] == d;
    FoldAppend(step, c, [d[0]], d[1..]);
    FoldOne(step, c, d[0]);
  }

  lemma {:induction false} WordInjective<T(!new), B(!new)>(pack: seq<B> -> T, limit: nat, d: seq<B>, e: seq<B>)
    requires forall x, y {:trigger pack(x), pack(y)} | 0 < |x| == |y| <= limit && pack(x) == pack(y) ::
      x[0] == y[0] && pack(x[1..]) == pack(y[1..])
    requires |d| == |e| <= limit && pack(d) == pack(e)
    ensures d == e
    decreases |d|
  {
    if d != [] {
      WordInjective(pack, limit, d[1..], e[1..]);
      assert d == [d[0]] + d[1..] && e == [e[0]] + e[1..];
    }
  }
}

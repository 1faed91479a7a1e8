/** Sequences built position by position, as the extractors' line walks decide each line. */
module Sequences {
  import opened Wrappers


  /**
   * The first `n` values of `f`, in order. The last value is added by
   * `Extend`, so that the verifier unfolds one of the two at a time and never
   * applies `f` unless a proof asks for it (`TabulateAt`).
   */
  function Tabulate<T>(f: nat --> T, n: nat): (r: seq<T>)
    requires forall k :: 0 <= k < n ==> f.requires(k)
    ensures |r| == n
    decreases n, 0
  {
    if n == 0 then [] else Extend(f, n - 1)
  }

  /** The first `m + 1` values of `f`. */
  function Extend<T>(f: nat --> T, m: nat): (r: seq<T>)
    requires forall k :: 0 <= k <= m ==> f.requires(k)
    ensures |r| == m + 1
    decreases m, 1
  {
    Tabulate(f, m) + [f(m)]
  }

  lemma {:induction false} TabulateAt<T>(f: nat --> T, n: nat, i: nat)
    requires forall k :: 0 <= k < n ==> f.requires(k)
    requires i < n
    ensures Tabulate(f, n)[i] == f(i)
  {
    assert Tabulate(f, n) == Extend(f, n - 1) == Tabulate(f, n - 1) + [f(n - 1)];
    if i < n - 1 {
      TabulateAt(f, n - 1, i);
    }
  }

  /** The values present in `xs`, in order. */
  function Somes<T>(xs: seq<Option<T>>): (ys: seq<T>)
    ensures |ys| <= |xs|
  {
    if xs == [] then []
    else if xs[|xs| - 1].Some? then Somes(xs[..|xs| - 1]) + [xs[|xs| - 1].value]
    else Somes(xs[..|xs| - 1])
  }

  lemma SomesKept<T>(xs: seq<Option<T>>, x: T)
    ensures Somes(xs + [Some(x)]) == Somes(xs) + [x]
  {
    assert (xs + [Some(x)])[..|xs|] == xs;
  }

  lemma SomesSkipped<T>(xs: seq<Option<T>>)
    ensures Somes(xs + [None]) == Somes(xs)
  {
    assert (xs + [None])[..|xs|] == xs;
  }

  /** A prefix one element longer is the shorter prefix followed by that element. */
  lemma PrefixSnoc<T>(xs: seq<T>, i: nat)
    requires i < |xs|
    ensures xs[..i + 1] == xs[..i] + [xs[i]]
  {
  }

  /** One more element of `xs` looked at: a present value is kept. */
  lemma SomesPrefixKept<T>(xs: seq<Option<T>>, i: nat)
    requires i < |xs| && xs[i].Some?
    ensures Somes(xs[..i + 1]) == Somes(xs[..i]) + [xs[i].value]
  {
    assert xs[..i + 1] == xs[..i] + [Some(xs[i].value)];
    SomesKept(xs[..i], xs[i].value);
  }

  /** One more element of `xs` looked at: an absent value adds nothing. */
  lemma SomesPrefixSkipped<T>(xs: seq<Option<T>>, i: nat)
    requires i < |xs| && xs[i].None?
    ensures Somes(xs[..i + 1]) == Somes(xs[..i])
  {
    assert xs[..i + 1] == xs[..i] + [None];
    SomesSkipped(xs[..i]);
  }
}

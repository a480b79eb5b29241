/** Small building blocks shared by every part of the model: optional values,
    JavaScript numbers restricted to finite values and NaN, and the order-keeping
    filter that Array.prototype.filter performs. */
module Common {

  datatype Option<+T> = None | Some(value: T) {
    function GetOr(default: T): T {
      match this
      case Some(v) => v
      case None => default
    }
  }

  /** A JavaScript number as this program produces it: a finite value or NaN.
      Infinities never arise from the operations modelled here. */
  datatype Num = Finite(v: real) | NaN {

    /** `+` on numbers: NaN absorbs everything. */
    function Plus(other: Num): (r: Num)
      ensures r.Finite? <==> Finite? && other.Finite?
      ensures r.Finite? ==> r.v == v + other.v
    {
      if Finite? && other.Finite? then Finite(v + other.v) else NaN
    }

    /** `*` on numbers: NaN absorbs everything. */
    function Times(other: Num): (r: Num)
      ensures r.Finite? <==> Finite? && other.Finite?
      ensures r.Finite? ==> r.v == v * other.v
    {
      if Finite? && other.Finite? then Finite(v * other.v) else NaN
    }

    /** `x || 0`: NaN (and zero) become zero. */
    function OrZero(): (r: real)
      ensures Finite? ==> r == v
      ensures NaN? ==> r == 0.0
    {
      if Finite? then v else 0.0
    }
  }

  lemma PlusCommutes(a: Num, b: Num)
    ensures a.Plus(b) == b.Plus(a)
  {
  }

  lemma PlusZero(a: Num)
    ensures a.Plus(Finite(0.0)) == a
  {
  }

  lemma PlusAssociates(a: Num, b: Num, c: Num)
    ensures a.Plus(b).Plus(c) == a.Plus(b.Plus(c))
  {
  }

  /** A running sum over numbers, first to last: the `+=` loop's result. */
  function Sum(xs: seq<Num>): Num
    decreases |xs|
  {
    if xs == [] then Finite(0.0) else Sum(xs[..|xs| - 1]).Plus(xs[|xs| - 1])
  }

  /** A running sum over finite values. */
  function SumReals(xs: seq<real>): real
    decreases |xs|
  {
    if xs == [] then 0.0 else SumReals(xs[..|xs| - 1]) + xs[|xs| - 1]
  }

  /** One more step of the running sums. */
  lemma SumStep(xs: seq<Num>, j: nat)
    requires j < |xs|
    ensures Sum(xs[..j + 1]) == Sum(xs[..j]).Plus(xs[j])
  {
    assert xs[..j + 1][..j] == xs[..j];
  }

  lemma SumRealsStep(xs: seq<real>, j: nat)
    requires j < |xs|
    ensures SumReals(xs[..j + 1]) == SumReals(xs[..j]) + xs[j]
  {
    assert xs[..j + 1][..j] == xs[..j];
  }

  lemma SumOne(xs: seq<real>)
    requires |xs| == 1
    ensures SumReals(xs) == xs[0]
  {
    assert xs[..0] == [];
  }

  /** Summing a concatenation sums the parts. */
  lemma {:induction false} SumAppend(xs: seq<Num>, ys: seq<Num>)
    ensures Sum(xs + ys) == Sum(xs).Plus(Sum(ys))
    decreases |ys|
  {
    if ys == [] {
      assert xs + ys == xs;
      PlusZero(Sum(xs));
    } else {
      var init := ys[..|ys| - 1];
      assert (xs + ys)[..|xs + ys| - 1] == xs + init;
      SumAppend(xs, init);
      PlusAssociates(Sum(xs), Sum(init), ys[|ys| - 1]);
    }
  }

  /** A sum whose first term is x: x plus the sum of the others. */
  lemma SumCons(x: Num, xs: seq<Num>)
    ensures Sum([x] + xs) == x.Plus(Sum(xs))
  {
    SumAppend([x], xs);
    assert [x][..0] == [];
    PlusCommutes(Finite(0.0), x);
    PlusZero(x);
  }

  lemma {:induction false} SumRealsCons(x: real, xs: seq<real>)
    ensures SumReals([x] + xs) == x + SumReals(xs)
    decreases |xs|
  {
    if xs == [] {
      assert [x] + xs == [x];
      assert [x][..0] == [];
    } else {
      var init := xs[..|xs| - 1];
      assert ([x] + xs)[..|[x] + xs| - 1] == [x] + init;
      SumRealsCons(x, init);
    }
  }

  /** A sum is a number exactly when every term is; then it is the sum of
      the terms' values. */
  lemma {:induction false} SumFinite(xs: seq<Num>, vs: seq<real>)
    requires |vs| == |xs|
    requires forall i :: 0 <= i < |xs| && xs[i].Finite? ==> vs[i] == xs[i].v
    ensures Sum(xs).Finite? <==> forall i :: 0 <= i < |xs| ==> xs[i].Finite?
    ensures Sum(xs).Finite? ==> Sum(xs).v == SumReals(vs)
    decreases |xs|
  {
    if xs != [] {
      var n := |xs| - 1;
      SumFinite(xs[..n], vs[..n]);
      assert vs[..n] == vs[..|vs| - 1];
      assert forall i :: 0 <= i < n ==> xs[..n][i] == xs[i];
    }
  }

  /** Zero terms add up to zero. */
  lemma {:induction false} SumZeros(xs: seq<Num>)
    requires forall i :: 0 <= i < |xs| ==> xs[i] == Finite(0.0)
    ensures Sum(xs) == Finite(0.0)
    decreases |xs|
  {
    if xs != [] {
      SumZeros(xs[..|xs| - 1]);
    }
  }

  /** Array.prototype.map: f applied to each element, in order. */
  function Map<A, B>(s: seq<A>, f: A -> B): (r: seq<B>)
    ensures |r| == |s|
  {
    seq(|s|, i requires 0 <= i < |s| => f(s[i]))
  }

  lemma MapAppend<A, B>(a: seq<A>, b: seq<A>, f: A -> B)
    ensures Map(a + b, f) == Map(a, f) + Map(b, f)
  {
    assert forall i :: 0 <= i < |a + b| ==> Map(a + b, f)[i] == (Map(a, f) + Map(b, f))[i];
  }

  lemma MapCons<A, B>(s: seq<A>, f: A -> B)
    requires s != []
    ensures Map(s, f) == [f(s[0])] + Map(s[1..], f)
  {
    assert forall i :: 0 <= i < |s| ==> Map(s, f)[i] == ([f(s[0])] + Map(s[1..], f))[i];
  }

  /** Array.prototype.filter: the elements satisfying p, in their original order. */
  function Filter<T(!new)>(s: seq<T>, p: T -> bool): (r: seq<T>)
    ensures |r| <= |s|
    ensures forall x :: x in r <==> x in s && p(x)
    ensures forall i :: 0 <= i < |r| ==> p(r[i])
  {
    if s == [] then []
    else (if p(s[0]) then [s[0]] else []) + Filter(s[1..], p)
  }

  /** Filtering commutes with concatenation: the relative order of the kept
      elements is the order they had in the input. */
  lemma {:induction false} FilterAppend<T(!new)>(a: seq<T>, b: seq<T>, p: T -> bool)
    ensures Filter(a + b, p) == Filter(a, p) + Filter(b, p)
  {
    if a == [] {
      assert a + b == b;
    } else {
      assert (a + b)[0] == a[0];
      assert (a + b)[1..] == a[1..] + b;
      FilterAppend(a[1..], b, p);
    }
  }

  /** Filtering keeps everything exactly when every element passes. */
  lemma {:induction false} FilterKeepsAll<T(!new)>(s: seq<T>, p: T -> bool)
    requires forall i :: 0 <= i < |s| ==> p(s[i])
    ensures Filter(s, p) == s
  {
    if s != [] {
      FilterKeepsAll(s[1..], p);
    }
  }
}

/**
 * Sequence operations behind the source's array idioms: `[...new Set(xs)]`
 * (distinct elements in order of first occurrence), `xs.filter(y => y !== x)`
 * and `xs.includes(x)`.
 */
module Seqs {

  predicate NoDups<T(==,!new)>(xs: seq<T>) {
    forall i, j :: 0 <= i < j < |xs| ==> xs[i] != xs[j]
  }

  /** `[...new Set(xs)]`: a Set keeps the first insertion of each value and iterates in insertion order. */
  function Dedup<T(==,!new)>(xs: seq<T>): (r: seq<T>)
    ensures NoDups(r)
    ensures forall x :: x in r <==> x in xs
    ensures |r| <= |xs|
  {
    if xs == [] then []
    else
      var init := xs[..|xs| - 1];
      var x := xs[|xs| - 1];
      assert xs == init + [x];
      var d := Dedup(init);
      if x in d then d else d + [x]
  }

  /** The elements of `b` that do not occur in `a`, in their order in `b`. */
  function Without<T(==,!new)>(b: seq<T>, a: seq<T>): (r: seq<T>)
    ensures forall x :: x in r <==> x in b && x !in a
  {
    if b == [] then []
    else if b[0] in a then Without(b[1..], a)
    else [b[0]] + Without(b[1..], a)
  }

  /** Index of the first occurrence of `x` in `xs`. */
  function FirstIndex<T(==,!new)>(xs: seq<T>, x: T): (i: nat)
    requires x in xs
    ensures i < |xs| && xs[i] == x
    ensures forall k :: 0 <= k < i ==> xs[k] != x
  {
    if xs[0] == x then 0 else 1 + FirstIndex(xs[1..], x)
  }

  /** `xs.filter(y => y !== x)`. */
  function RemoveAll<T(==,!new)>(xs: seq<T>, x: T): (r: seq<T>)
    ensures x !in r
    ensures forall y :: y != x ==> (y in r <==> y in xs)
    ensures |r| <= |xs|
  {
    if xs == [] then []
    else if xs[0] == x then RemoveAll(xs[1..], x)
    else [xs[0]] + RemoveAll(xs[1..], x)
  }

  lemma {:induction false} WithoutSnoc<T(!new)>(b: seq<T>, y: T, a: seq<T>)
    ensures Without(b + [y], a) == Without(b, a) + (if y in a then [] else [y])
  {
    if b == [] {
      assert b + [y] == [y];
    } else {
      assert (b + [y])[1..] == b[1..] + [y];
      WithoutSnoc(b[1..], y, a);
    }
  }

  lemma DedupSnoc<T(!new)>(xs: seq<T>, y: T)
    ensures Dedup(xs + [y]) == if y in Dedup(xs) then Dedup(xs) else Dedup(xs) + [y]
  {
    assert (xs + [y])[..|xs + [y]| - 1] == xs;
  }

  /**
   * The union `[...new Set([...a, ...b])]` lists the distinct elements of `a` first and then
   * the elements of `b` that are new, in their order in `b`.
   */
  lemma {:induction false} DedupConcat<T(!new)>(a: seq<T>, b: seq<T>)
    ensures Dedup(a + b) == Dedup(a) + Dedup(Without(b, a))
    decreases |b|
  {
    if b == [] {
      assert a + b == a;
    } else {
      var init := b[..|b| - 1];
      var y := b[|b| - 1];
      assert b == init + [y];
      assert a + b == (a + init) + [y];
      DedupConcat(a, init);
      DedupConcatStep(a, init, y);
    }
  }

  /** One more element of `b` extends the union as it extends `b`'s new elements. */
  lemma DedupConcatStep<T(!new)>(a: seq<T>, init: seq<T>, y: T)
    requires Dedup(a + init) == Dedup(a) + Dedup(Without(init, a))
    ensures Dedup((a + init) + [y]) == Dedup(a) + Dedup(Without(init + [y], a))
  {
    WithoutSnoc(init, y, a);
    if y in a + init {
      DedupStepSeen(a, init, y);
    } else {
      DedupStepNew(a, init, y);
    }
  }

  /** An element already seen changes neither side. */
  lemma DedupStepSeen<T(!new)>(a: seq<T>, init: seq<T>, y: T)
    requires y in a + init
    requires Dedup(a + init) == Dedup(a) + Dedup(Without(init, a))
    requires Without(init + [y], a) == Without(init, a) + (if y in a then [] else [y])
    ensures Dedup((a + init) + [y]) == Dedup(a) + Dedup(Without(init + [y], a))
  {
    var w := Without(init, a);
    DedupSnoc(a + init, y);
    assert Dedup((a + init) + [y]) == Dedup(a + init);
    if y in a {
      assert Without(init + [y], a) == w + [] == w;
    } else {
      assert y in w;
      DedupSnoc(w, y);
      assert Dedup(w + [y]) == Dedup(w);
    }
  }

  /** A new element is appended to both sides. */
  lemma DedupStepNew<T(!new)>(a: seq<T>, init: seq<T>, y: T)
    requires y !in a + init
    requires Dedup(a + init) == Dedup(a) + Dedup(Without(init, a))
    requires Without(init + [y], a) == Without(init, a) + [y]
    ensures Dedup((a + init) + [y]) == Dedup(a) + Dedup(Without(init + [y], a))
  {
    var w := Without(init, a);
    AbsentFromDedups(a, init, y);
    DedupSnoc(a + init, y);
    DedupSnoc(w, y);
    SnocAssociates(Dedup(a), Dedup(w), y);
  }

  lemma AbsentFromDedups<T(!new)>(a: seq<T>, init: seq<T>, y: T)
    requires y !in a + init
    ensures y !in Dedup(a + init) && y !in Dedup(Without(init, a))
  {
    assert forall x :: x in Without(init, a) ==> x in init;
  }

  lemma SnocAssociates<T>(p: seq<T>, q: seq<T>, y: T)
    ensures p + q + [y] == p + (q + [y])
  {
  }

  /** A sequence without duplicates is its own `Set` spread. */
  lemma {:induction false} DedupNoDups<T(!new)>(xs: seq<T>)
    requires NoDups(xs)
    ensures Dedup(xs) == xs
  {
    if xs != [] {
      var init := xs[..|xs| - 1];
      DedupNoDups(init);
      assert xs == init + [xs[|xs| - 1]];
    }
  }

  lemma DedupIdempotent<T(!new)>(xs: seq<T>)
    ensures Dedup(Dedup(xs)) == Dedup(xs)
  {
    DedupNoDups(Dedup(xs));
  }

  lemma {:induction false} FirstIndexSnoc<T(!new)>(xs: seq<T>, y: T, x: T)
    requires x in xs
    ensures FirstIndex(xs + [y], x) == FirstIndex(xs, x)
  {
    if xs[0] != x {
      assert (xs + [y])[1..] == xs[1..] + [y];
      FirstIndexSnoc(xs[1..], y, x);
    }
  }

  /** Elements of the `Set` spread appear in the order of their first occurrence in `xs`. */
  lemma {:induction false} DedupFirstOccurrenceOrder<T(!new)>(xs: seq<T>, i: nat, j: nat)
    requires i < j < |Dedup(xs)|
    ensures Dedup(xs)[i] in xs && Dedup(xs)[j] in xs
    ensures FirstIndex(xs, Dedup(xs)[i]) < FirstIndex(xs, Dedup(xs)[j])
  {
    var init := xs[..|xs| - 1];
    var y := xs[|xs| - 1];
    assert xs == init + [y];
    var d := Dedup(init);
    var a, b := Dedup(xs)[i], Dedup(xs)[j];
    assert a in d;
    FirstIndexSnoc(init, y, a);
    if j < |d| {
      DedupFirstOccurrenceOrder(init, i, j);
      FirstIndexSnoc(init, y, b);
    } else {
      assert b == y && y !in init;
    }
  }

  /** Removing every copy of `x` distributes over concatenation, so the order of the rest is kept. */
  lemma {:induction false} RemoveAllConcat<T(!new)>(a: seq<T>, b: seq<T>, x: T)
    ensures RemoveAll(a + b, x) == RemoveAll(a, x) + RemoveAll(b, x)
  {
    if a == [] {
      assert a + b == b;
    } else {
      assert (a + b)[1..] == a[1..] + b;
      RemoveAllConcat(a[1..], b, x);
    }
  }

  lemma {:induction false} RemoveAllAbsent<T(!new)>(xs: seq<T>, x: T)
    requires x !in xs
    ensures RemoveAll(xs, x) == xs
  {
    if xs != [] {
      RemoveAllAbsent(xs[1..], x);
    }
  }

  lemma {:induction false} RemoveAllKeepsNoDups<T(!new)>(xs: seq<T>, x: T)
    requires NoDups(xs)
    ensures NoDups(RemoveAll(xs, x))
  {
    if xs != [] {
      assert NoDups(xs[1..]) by {
        forall i, j | 0 <= i < j < |xs[1..]| ensures xs[1..][i] != xs[1..][j] {
          assert xs[1..][i] == xs[i + 1] && xs[1..][j] == xs[j + 1];
        }
      }
      RemoveAllKeepsNoDups(xs[1..], x);
      assert xs[0] !in xs[1..];
    }
  }

  /**
   * `[...new Set([...a, ...b])]`: both inputs' elements and nothing else, no
   * duplicates, and a duplicate-free `a` comes first, unchanged.
   */
  lemma UnionContextFirst<T(!new)>(a: seq<T>, b: seq<T>)
    ensures forall x :: x in Dedup(a + b) <==> x in a || x in b
    ensures NoDups(Dedup(a + b))
    ensures NoDups(a) ==> Dedup(a + b) == a + Dedup(Without(b, a)) && Dedup(a + b)[..|a|] == a
  {
    DedupConcat(a, b);
    if NoDups(a) {
      DedupNoDups(a);
    }
  }
}

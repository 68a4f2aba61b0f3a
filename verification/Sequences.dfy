/** Sequences without duplicates, and the last elements of a sequence. */
module Sequences {
  ghost predicate NoDuplicates<T>(xs: seq<T>) {
    forall i, j | 0 <= i < j < |xs| :: xs[i] != xs[j]
  }

  // The last n elements: what a deque of that length keeps.
  function LastN<T>(xs: seq<T>, n: nat): seq<T> {
    if |xs| <= n then xs else xs[|xs| - n..]
  }

  function Without<T(==)>(xs: seq<T>, x: T): (r: seq<T>)
    ensures forall y | y in r :: y != x && y in xs
    ensures |r| <= |xs|
  {
    if xs == [] then []
    else Without(xs[..|xs| - 1], x) + if xs[|xs| - 1] == x then [] else [xs[|xs| - 1]]
  }

  lemma LastNSnoc<T>(xs: seq<T>, x: T, n: nat)
    ensures LastN(xs + [x], n) == LastN(LastN(xs, n) + [x], n)
  {
  }

  lemma DistinctSnoc<T>(xs: seq<T>, x: T)
    ensures NoDuplicates(xs + [x]) <==> NoDuplicates(xs) && x !in xs
  {
    var longer := xs + [x];
    assert forall i | 0 <= i < |xs| :: longer[i] == xs[i];
    assert longer[|xs|] == x;
    if x in xs {
      var i :| 0 <= i < |xs| && xs[i] == x;
      assert longer[i] == longer[|xs|];
    }
  }

  lemma DistinctCons<T>(x: T, xs: seq<T>)
    ensures NoDuplicates([x] + xs) <==> NoDuplicates(xs) && x !in xs
  {
    var longer := [x] + xs;
    assert forall i | 0 <= i < |xs| :: longer[i + 1] == xs[i];
    if x in xs {
      var i :| 0 <= i < |xs| && xs[i] == x;
      assert longer[0] == longer[i + 1];
    }
  }

  // As many different elements as elements: none is repeated.
  lemma {:induction false} DistinctBySize<T>(xs: seq<T>)
    ensures |set x | x in xs| <= |xs|
    ensures |set x | x in xs| == |xs| <==> NoDuplicates(xs)
  {
    if xs != [] {
      var n := |xs| - 1;
      assert xs == xs[..n] + [xs[n]];
      DistinctBySize(xs[..n]);
      DistinctSnoc(xs[..n], xs[n]);
      var front := set x | x in xs[..n];
      assert (set x | x in xs) == front + {xs[n]};
      if xs[n] in xs[..n] {
        assert front + {xs[n]} == front;
      }
    }
  }

  lemma {:induction false} WithoutAbsent<T>(xs: seq<T>, x: T)
    requires x !in xs
    ensures Without(xs, x) == xs
  {
    if xs != [] {
      WithoutAbsent(xs[..|xs| - 1], x);
    }
  }

  lemma {:induction false} WithoutSplit<T>(xs: seq<T>, ys: seq<T>, x: T)
    ensures Without(xs + ys, x) == Without(xs, x) + Without(ys, x)
  {
    if ys == [] {
      assert xs + ys == xs;
    } else {
      var n := |ys| - 1;
      assert (xs + ys)[..|xs + ys| - 1] == xs + ys[..n];
      WithoutSplit(xs, ys[..n], x);
    }
  }

  lemma {:induction false} WithoutKeepsOthers<T>(xs: seq<T>, x: T, y: T)
    requires y in xs && y != x
    ensures y in Without(xs, x)
  {
    var n := |xs| - 1;
    assert xs == xs[..n] + [xs[n]];
    if xs[n] != y {
      WithoutKeepsOthers(xs[..n], x, y);
    }
  }

  lemma {:induction false} WithoutKeepsDistinct<T>(xs: seq<T>, x: T)
    requires NoDuplicates(xs)
    ensures NoDuplicates(Without(xs, x))
  {
    if xs != [] {
      var n := |xs| - 1;
      assert xs == xs[..n] + [xs[n]];
      DistinctSnoc(xs[..n], xs[n]);
      WithoutKeepsDistinct(xs[..n], x);
      DistinctSnoc(Without(xs[..n], x), xs[n]);
    }
  }

  lemma SplitIsDisjoint<T>(xs: seq<T>, ys: seq<T>, x: T)
    requires NoDuplicates(xs + ys) && x in ys
    ensures x !in xs
  {
    var j :| 0 <= j < |ys| && ys[j] == x;
    assert (xs + ys)[|xs| + j] == x;
    assert forall i | 0 <= i < |xs| :: (xs + ys)[i] == xs[i];
  }

  lemma SuffixIsDistinct<T>(xs: seq<T>, ys: seq<T>)
    requires NoDuplicates(xs + ys)
    ensures NoDuplicates(ys)
  {
    assert forall j | 0 <= j < |ys| :: (xs + ys)[|xs| + j] == ys[j];
  }

  lemma WithoutOne<T>(xs: seq<T>, i: nat)
    requires i < |xs| && NoDuplicates(xs)
    ensures Without(xs, xs[i]) == xs[..i] + xs[i + 1..]
  {
    hide Without;
    var a, x, b := xs[..i], xs[i], xs[i + 1..];
    assert xs == (a + [x]) + b;
    WithoutSplit(a + [x], b, x);
    WithoutSplit(a, [x], x);
    assert x !in a && x !in b;
    WithoutAbsent(a, x);
    WithoutAbsent(b, x);
    WithoutItself(x);
    assert a + [] == a;
  }

  lemma EmptyIsDistinct<T>()
    ensures NoDuplicates<T>([])
  {
  }

  lemma WithoutItself<T>(x: T)
    ensures Without([x], x) == []
  {
    assert [x][..0] == [];
  }

  lemma LastNOfSplit<T>(front: seq<T>, back: seq<T>, n: nat)
    requires |back| >= n || front == []
    ensures LastN(front + back, n) == LastN(back, n)
  {
    if front == [] {
      assert front + back == back;
    } else {
      var all := front + back;
      assert all[|all| - n..] == back[|back| - n..];
    }
  }

  // Using an element moves it to the end of what is kept, or pushes the oldest out.
  lemma KeptStep<T>(xs: seq<T>, x: T, m: nat)
    requires NoDuplicates(xs)
    ensures var kept := LastN(xs, m);
            LastN(Without(xs, x) + [x], m)
            == if x in kept then Without(kept, x) + [x] else LastN(kept + [x], m)
  {
    hide Without, LastN, NoDuplicates;
    var kept := LastN(xs, m);
    LastNLength(xs, m);
    var front := xs[..|xs| - |kept|];
    if x in kept {
      UsedIsKept(front, kept, x, m);
    } else {
      UsedIsNew(front, kept, x, m);
    }
  }

  lemma UsedIsKept<T>(front: seq<T>, kept: seq<T>, x: T, m: nat)
    requires NoDuplicates(front + kept) && x in kept
    requires |kept| <= m && (front == [] || |kept| == m)
    ensures LastN(Without(front + kept, x) + [x], m) == Without(kept, x) + [x]
  {
    hide Without, LastN, NoDuplicates;
    WithoutSplit(front, kept, x);
    SplitIsDisjoint(front, kept, x);
    WithoutAbsent(front, x);
    SuffixIsDistinct(front, kept);
    KeptInPlace(front, kept, x, m);
  }

  lemma UsedIsNew<T>(front: seq<T>, kept: seq<T>, x: T, m: nat)
    requires x !in kept && (front == [] || |kept| == m)
    ensures LastN(Without(front + kept, x) + [x], m) == LastN(kept + [x], m)
  {
    hide LastN;
    assert front == [] ==> Without(front, x) == [];
    hide Without;
    WithoutSplit(front, kept, x);
    WithoutAbsent(kept, x);
    assert Without(front, x) + kept + [x] == Without(front, x) + (kept + [x]);
    LastNOfSplit(Without(front, x), kept + [x], m);
  }

  lemma LastNLength<T>(xs: seq<T>, m: nat)
    ensures var kept := LastN(xs, m);
            && |kept| <= m && |kept| <= |xs|
            && (|kept| == m || kept == xs)
            && xs == xs[..|xs| - |kept|] + kept
  {
  }

  lemma KeptInPlace<T>(front: seq<T>, kept: seq<T>, x: T, m: nat)
    requires NoDuplicates(kept) && x in kept && |kept| <= m && (front == [] || |kept| == m)
    ensures LastN(front + Without(kept, x) + [x], m) == Without(kept, x) + [x]
  {
    hide Without;
    var i :| 0 <= i < |kept| && kept[i] == x;
    WithoutOne(kept, i);
    var back := Without(kept, x) + [x];
    assert |back| == |kept|;
    assert front + Without(kept, x) + [x] == front + back;
    LastNOfSplit(front, back, m);
  }

  lemma SameMembers<T>(xs: seq<T>, ys: seq<T>)
    requires multiset(xs) == multiset(ys)
    ensures forall x :: x in xs <==> x in ys
  {
    assert forall x :: x in xs <==> x in multiset(xs);
    assert forall x :: x in ys <==> x in multiset(ys);
  }

  lemma SameLength<T>(xs: seq<T>, ys: seq<T>)
    requires multiset(xs) == multiset(ys)
    ensures |xs| == |ys|
  {
    assert |xs| == |multiset(xs)| == |multiset(ys)| == |ys|;
  }

  // The last element of a sequence, found in a permutation of it.
  lemma LastFound<T>(xs: seq<T>, ys: seq<T>) returns (front: seq<T>, back: seq<T>)
    requires xs != [] && multiset(xs) == multiset(ys)
    ensures ys == front + [xs[|xs| - 1]] + back
    ensures multiset(xs[..|xs| - 1]) == multiset(front + back)
  {
    var n := |xs| - 1;
    assert xs[n] in multiset(ys);
    var k :| 0 <= k < |ys| && ys[k] == xs[n];
    front, back := ys[..k], ys[k + 1..];
    assert xs == xs[..n] + [xs[n]];
    assert ys == front + [xs[n]] + back;
    assert multiset(xs[..n]) == multiset(xs) - multiset{xs[n]};
    assert multiset(ys) == multiset(front) + multiset{xs[n]} + multiset(back);
    assert multiset(front + back) == multiset(ys) - multiset{xs[n]};
  }
}

/** Python strings: what is blank, and their order by code point. */
module Texts {
  // What str.strip() removes.
  predicate IsSpace(c: char) {
    var n := c as int;
    9 <= n <= 13 || 28 <= n <= 32 || n == 133 || n == 160 || n == 5760 || 8192 <= n <= 8202
    || n == 8232 || n == 8233 || n == 8239 || n == 8287 || n == 12288
  }

  // not text.strip()
  predicate IsBlank(text: string) {
    forall c | c in text :: IsSpace(c)
  }

  predicate TextBefore(a: string, b: string) {
    if b == "" then false
    else if a == "" then true
    else a[0] < b[0] || (a[0] == b[0] && TextBefore(a[1..], b[1..]))
  }

  lemma {:induction false} TextIsTotal(a: string, b: string)
    ensures TextBefore(a, b) || TextBefore(b, a) || a == b
    ensures !(TextBefore(a, b) && TextBefore(b, a))
  {
    if a != "" && b != "" && a[0] == b[0] {
      TextIsTotal(a[1..], b[1..]);
      assert a == [a[0]] + a[1..] && b == [b[0]] + b[1..];
    }
  }

  lemma {:induction false} TextIsTransitive(a: string, b: string, c: string)
    requires !TextBefore(b, a) && !TextBefore(c, b)
    ensures !TextBefore(c, a)
  {
    if a != "" && b != "" && c != "" && a[0] == b[0] == c[0] {
      TextIsTransitive(a[1..], b[1..], c[1..]);
    }
  }

  predicate IsFirst(texts: set<string>, x: string) {
    x in texts && forall y | y in texts :: !TextBefore(y, x)
  }

  lemma {:induction false} FirstExists(texts: set<string>)
    requires texts != {}
    ensures exists x :: IsFirst(texts, x)
    decreases |texts|
  {
    var x :| x in texts;
    if texts == {x} {
      TextIsTotal(x, x);
      assert IsFirst(texts, x);
    } else {
      var rest := texts - {x};
      FirstExists(rest);
      var y :| IsFirst(rest, y);
      var first := if TextBefore(x, y) then x else y;
      forall z | z in texts
        ensures !TextBefore(z, first)
      {
        TextIsTotal(x, y);
        TextIsTotal(z, z);
        if z != x {
          TextIsTransitive(first, y, z);
        }
      }
      assert IsFirst(texts, first);
    }
  }

  lemma FirstIsUnique(texts: set<string>, x: string, y: string)
    requires IsFirst(texts, x) && IsFirst(texts, y)
    ensures x == y
  {
    TextIsTotal(x, y);
  }

  // sorted(texts)
  function Sorted(texts: set<string>): (r: seq<string>)
    ensures |r| == |texts| && forall x :: x in r <==> x in texts
    decreases |texts|
  {
    if texts == {} then []
    else
      FirstExists(texts);
      assert forall x, y | IsFirst(texts, x) && IsFirst(texts, y) :: x == y by {
        forall x, y | IsFirst(texts, x) && IsFirst(texts, y)
          ensures x == y
        {
          FirstIsUnique(texts, x, y);
        }
      }
      var x :| IsFirst(texts, x);
      [x] + Sorted(texts - {x})
  }

  ghost predicate Ascends(texts: seq<string>) {
    forall i, j | 0 <= i < j < |texts| :: TextBefore(texts[i], texts[j])
  }

  lemma {:induction false} SortedAscends(texts: set<string>)
    ensures Ascends(Sorted(texts))
    decreases |texts|
  {
    if texts != {} {
      var r := Sorted(texts);
      var x, rest := r[0], r[1..];
      assert IsFirst(texts, x) && rest == Sorted(texts - {x});
      SortedAscends(texts - {x});
      forall j | 0 <= j < |rest|
        ensures TextBefore(x, rest[j])
      {
        assert rest[j] in rest;
        TextIsTotal(x, rest[j]);
      }
    }
  }

  lemma SortedStep(texts: set<string>)
    requires texts != {}
    ensures var r := Sorted(texts); IsFirst(texts, r[0]) && r[1..] == Sorted(texts - {r[0]})
  {
  }

  lemma AscendingStep(s: seq<string>)
    requires Ascends(s) && s != []
    ensures Ascends(s[1..]) && IsFirst((set x | x in s), s[0])
    ensures (set x | x in s[1..]) == (set x | x in s) - {s[0]}
  {
    var texts := set x | x in s;
    forall y | y in texts
      ensures !TextBefore(y, s[0])
    {
      TextIsTotal(y, s[0]);
    }
    TextIsTotal(s[0], s[0]);
    hide TextBefore;
    assert s == [s[0]] + s[1..];
    assert s[0] !in s[1..];
  }

  // There is one way to list a set in order.
  lemma {:induction false} AscendingIsSorted(s: seq<string>)
    requires Ascends(s)
    ensures s == Sorted(set x | x in s)
  {
    if s != [] {
      hide Ascends, IsFirst, Sorted;
      var texts := set x | x in s;
      AscendingStep(s);
      SortedStep(texts);
      FirstIsUnique(texts, s[0], Sorted(texts)[0]);
      AscendingIsSorted(s[1..]);
      assert s == [s[0]] + s[1..] && Sorted(texts) == [Sorted(texts)[0]] + Sorted(texts)[1..];
    } else {
      assert (set x | x in s) == {};
    }
  }
}

/** The order text sorts in, and the one sorted sequence of a set of it. */
module Ordering {

  /** Whether `a` sorts before `b`: by the first character they differ in, or else by length. */
  predicate Before(a: string, b: string) {
    b != "" && (a == "" || a[0] < b[0] || (a[0] == b[0] && Before(a[1..], b[1..])))
  }

  lemma {:induction false} Irreflexive(a: string)
    ensures !Before(a, a)
  {
    if a != "" {
      Irreflexive(a[1..]);
    }
  }

  lemma {:induction false} Transitive(a: string, b: string, c: string)
    requires Before(a, b) && Before(b, c)
    ensures Before(a, c)
  {
    if a != "" && a[0] == b[0] && b[0] == c[0] {
      Transitive(a[1..], b[1..], c[1..]);
    }
  }

  lemma {:induction false} Connected(a: string, b: string)
    ensures a == b || Before(a, b) || Before(b, a)
  {
    if a != "" && b != "" && a[0] == b[0] {
      Connected(a[1..], b[1..]);
      assert a == [a[0]] + a[1..] && b == [b[0]] + b[1..];
    }
  }

  predicate IsFirst(s: set<string>, a: string) {
    a in s && forall b :: b in s && b != a ==> Before(a, b)
  }

  lemma {:induction false} FirstExists(s: set<string>)
    requires s != {}
    ensures exists a :: IsFirst(s, a)
  {
    var x :| x in s;
    if s == {x} {
      assert IsFirst(s, x);
    } else {
      FirstExists(s - {x});
      var a :| IsFirst(s - {x}, a);
      Connected(a, x);
      if Before(a, x) {
        assert IsFirst(s, a);
      } else {
        forall b | b in s && b != x
          ensures Before(x, b)
        {
          if b != a {
            Transitive(x, a, b);
          }
        }
        assert IsFirst(s, x);
      }
    }
  }

  lemma FirstIsOne(s: set<string>, a: string, b: string)
    requires IsFirst(s, a) && IsFirst(s, b)
    ensures a == b
  {
    if a != b {
      Transitive(a, b, a);
      Irreflexive(a);
    }
  }

  function First(s: set<string>): (a: string)
    requires s != {}
    ensures IsFirst(s, a)
  {
    FirstExists(s);
    assert forall a, b :: IsFirst(s, a) && IsFirst(s, b) ==> a == b by {
      forall a, b | IsFirst(s, a) && IsFirst(s, b)
        ensures a == b
      {
        FirstIsOne(s, a, b);
      }
    }
    var a :| IsFirst(s, a);
    a
  }

  function Sorted(s: set<string>): seq<string> {
    if s == {} then []
    else
      var a := First(s);
      [a] + Sorted(s - {a})
  }

  lemma {:induction false} SortedHolds(s: set<string>)
    ensures forall a :: a in Sorted(s) <==> a in s
    ensures |Sorted(s)| == |s|
  {
    if s != {} {
      SortedHolds(s - {First(s)});
    }
  }

  predicate Ascending(texts: seq<string>) {
    forall i, j :: 0 <= i < j < |texts| ==> Before(texts[i], texts[j])
  }

  lemma {:induction false} SortedAscends(s: set<string>)
    ensures Ascending(Sorted(s))
  {
    if s != {} {
      var a := First(s);
      SortedAscends(s - {a});
      SortedHolds(s - {a});
      var rest := Sorted(s - {a});
      forall j | 0 <= j < |rest|
        ensures Before(a, rest[j])
      {
        assert rest[j] in s - {a};
      }
    }
  }

  /** A set sorts one way. */
  lemma {:induction false} SortedIsUnique(texts: seq<string>, s: set<string>)
    requires Ascending(texts)
    requires forall a :: a in texts <==> a in s
    ensures texts == Sorted(s)
  {
    if texts == [] {
      assert s == {};
    } else {
      var a := texts[0];
      assert a in s;
      assert IsFirst(s, a) by {
        forall b | b in s && b != a
          ensures Before(a, b)
        {
          var i :| 0 <= i < |texts| && texts[i] == b;
        }
      }
      FirstIsOne(s, a, First(s));
      Irreflexive(a);
      assert forall b :: b in texts[1..] <==> b in s - {a} by {
        forall b
          ensures b in texts[1..] <==> b in s - {a}
        {
          if b in s - {a} {
            var i :| 0 <= i < |texts| && texts[i] == b;
            assert texts[1..][i - 1] == b;
          }
        }
      }
      SortedIsUnique(texts[1..], s - {a});
    }
  }

  lemma SortedOfParts(low: set<string>, high: set<string>)
    requires forall a, b :: a in low && b in high ==> Before(a, b)
    ensures Sorted(low + high) == Sorted(low) + Sorted(high)
  {
    SortedAscends(low);
    SortedAscends(high);
    SortedHolds(low);
    SortedHolds(high);
    var texts := Sorted(low) + Sorted(high);
    forall i, j | 0 <= i < j < |texts|
      ensures Before(texts[i], texts[j])
    {
      if i < |Sorted(low)| <= j {
        assert texts[i] in Sorted(low) && texts[j] in Sorted(high);
      }
    }
    SortedIsUnique(texts, low + high);
  }
}

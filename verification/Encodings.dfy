/** Values spelled out as text that says where it ends, so that different values have different texts. */
module Encodings {
  import opened Wrappers
  import opened Ordering

  /** Whether one text of `x` is one of `y`, whatever follows each, only where they are the same. */
  ghost predicate Differ<T(!new)>(code: T -> string, x: T, y: T, a: string, b: string) {
    code(x) + a == code(y) + b ==> x == y && a == b
  }

  ghost predicate Tells<T(!new)>(code: T -> string) {
    forall x, y, a, b :: Differ(code, x, y, a, b)
  }

  lemma ToldApart<T(!new)>(code: T -> string, x: T, y: T, a: string, b: string)
    requires Tells(code) && code(x) + a == code(y) + b
    ensures x == y && a == b
  {
    assert Differ(code, x, y, a, b);
  }

  // ---- Numbers, flags and text --------------------------------------------

  function Ones(n: nat): string {
    if n == 0 then "0" else "1" + Ones(n - 1)
  }

  lemma OnesStart(n: nat, a: string)
    ensures var s := Ones(n) + a;
            && s != [] && s[0] == (if n == 0 then '0' else '1')
            && s[1..] == (if n == 0 then a else Ones(n - 1) + a)
  {
  }

  lemma {:induction false} OnesDiffer(m: nat, n: nat, a: string, b: string)
    requires Ones(m) + a == Ones(n) + b
    ensures m == n && a == b
  {
    OnesStart(m, a);
    OnesStart(n, b);
    if m > 0 {
      OnesDiffer(m - 1, n - 1, a, b);
    }
  }

  lemma OnesTell()
    ensures Tells(Ones)
  {
    forall m: nat, n: nat, a, b
      ensures Differ(Ones, m, n, a, b)
    {
      if Ones(m) + a == Ones(n) + b {
        OnesDiffer(m, n, a, b);
      }
    }
  }

  function Spelled(s: string): string {
    Ones(|s|) + s
  }

  lemma SpelledTells()
    ensures Tells(Spelled)
  {
    forall s: string, t: string, a, b
      ensures Differ(Spelled, s, t, a, b)
    {
      if Spelled(s) + a == Spelled(t) + b {
        Regrouped(Ones(|s|), s, a);
        Regrouped(Ones(|t|), t, b);
        OnesDiffer(|s|, |t|, s + a, t + b);
        assert s == (s + a)[..|s|] && t == (t + b)[..|t|] && a == (s + a)[|s|..] && b == (t + b)[|t|..];
      }
    }
  }

  /** A value as another, no two of which are the same. */
  ghost predicate OneToOne<S(!new), T>(f: S -> T) {
    forall x, y :: f(x) == f(y) ==> x == y
  }

  function Via<S, T>(f: S -> T, code: T -> string): S -> string {
    s => code(f(s))
  }

  lemma ViaTells<S(!new), T(!new)>(f: S -> T, code: T -> string)
    requires OneToOne(f) && Tells(code)
    ensures Tells(Via(f, code))
  {
    forall x, y, a, b
      ensures Differ(Via(f, code), x, y, a, b)
    {
      if code(f(x)) + a == code(f(y)) + b {
        ToldApart(code, f(x), f(y), a, b);
      }
    }
  }

  // ---- One after the other ------------------------------------------------

  function Both<S, T>(first: S -> string, second: T -> string): ((S, T)) -> string {
    (p: (S, T)) => first(p.0) + second(p.1)
  }

  lemma BothTell<S(!new), T(!new)>(first: S -> string, second: T -> string)
    requires Tells(first) && Tells(second)
    ensures Tells(Both(first, second))
  {
    forall p: (S, T), q: (S, T), a, b
      ensures Differ(Both(first, second), p, q, a, b)
    {
      if (first(p.0) + second(p.1)) + a == (first(q.0) + second(q.1)) + b {
        Regrouped(first(p.0), second(p.1), a);
        Regrouped(first(q.0), second(q.1), b);
        ToldApart(first, p.0, q.0, second(p.1) + a, second(q.1) + b);
        ToldApart(second, p.1, q.1, a, b);
      }
    }
  }

  function EachOf<T>(code: T -> string, values: seq<T>): string {
    if values == [] then "0" else "1" + (code(values[0]) + EachOf(code, values[1..]))
  }

  function Each<T>(code: T -> string): seq<T> -> string {
    values => EachOf(code, values)
  }

  lemma {:induction false} EachDiffer<T(!new)>(code: T -> string, x: seq<T>, y: seq<T>, a: string, b: string)
    requires Tells(code) && EachOf(code, x) + a == EachOf(code, y) + b
    ensures x == y && a == b
    decreases |x|
  {
    var s := EachOf(code, x) + a;
    assert s[0] == (if x == [] then '0' else '1') && s[0] == (if y == [] then '0' else '1');
    if x == [] {
      assert s[1..] == a && s[1..] == b;
    } else {
      var v, w := EachOf(code, x[1..]), EachOf(code, y[1..]);
      assert s[1..] == (code(x[0]) + v) + a && s[1..] == (code(y[0]) + w) + b;
      Regrouped(code(x[0]), v, a);
      Regrouped(code(y[0]), w, b);
      ToldApart(code, x[0], y[0], v + a, w + b);
      EachDiffer(code, x[1..], y[1..], a, b);
      assert x == [x[0]] + x[1..] && y == [y[0]] + y[1..];
    }
  }

  lemma EachTells<T(!new)>(code: T -> string)
    requires Tells(code)
    ensures Tells(Each(code))
  {
    forall x, y, a, b
      ensures Differ(Each(code), x, y, a, b)
    {
      if EachOf(code, x) + a == EachOf(code, y) + b {
        EachDiffer(code, x, y, a, b);
      }
    }
  }

  function Listed<T>(o: Option<T>): seq<T> {
    if o.None? then [] else [o.value]
  }

  function Maybe<T>(code: T -> string): Option<T> -> string {
    Via(Listed, Each(code))
  }

  lemma MaybeTells<T(!new)>(code: T -> string)
    requires Tells(code)
    ensures Tells(Maybe(code))
  {
    EachTells(code);
    forall x: Option<T>, y: Option<T> | Listed(x) == Listed(y)
      ensures x == y
    {
      assert x.Some? ==> Listed(x)[0] == x.value;
      assert y.Some? ==> Listed(y)[0] == y.value;
    }
    ViaTells(Listed<T>, Each(code));
  }

  // ---- Maps ---------------------------------------------------------------

  /** What `m` holds, in order of its keys. */
  function Pairs<T>(m: map<string, T>): (pairs: seq<(string, T)>) {
    SortedHolds(m.Keys);
    var keys := Sorted(m.Keys);
    seq(|keys|, i requires 0 <= i < |keys| => (keys[i], m[keys[i]]))
  }

  lemma PairsHold<T>(m: map<string, T>)
    ensures forall key, value :: (key, value) in Pairs(m) <==> key in m && m[key] == value
  {
    SortedHolds(m.Keys);
    var keys := Sorted(m.Keys);
    forall key, value | key in m && m[key] == value
      ensures (key, value) in Pairs(m)
    {
      assert key in keys;
      var i :| 0 <= i < |keys| && keys[i] == key;
      assert Pairs(m)[i] == (key, value);
    }
  }

  lemma PairsAreOne<T(!new)>()
    ensures OneToOne(Pairs<T>)
  {
    forall m: map<string, T>, n: map<string, T> | Pairs(m) == Pairs(n)
      ensures m == n
    {
      PairsHold(m);
      PairsHold(n);
      forall key
        ensures key in m <==> key in n
        ensures key in m ==> m[key] == n[key]
      {
        assert key in m ==> (key, m[key]) in Pairs(m);
        assert key in n ==> (key, n[key]) in Pairs(n);
      }
    }
  }

  function MapOf<T>(code: T -> string): map<string, T> -> string {
    Via(Pairs, Each(Both(Spelled, code)))
  }

  lemma MapTells<T(!new)>(code: T -> string)
    requires Tells(code)
    ensures Tells(MapOf(code))
  {
    SpelledTells();
    BothTell(Spelled, code);
    EachTells(Both(Spelled, code));
    PairsAreOne<T>();
    ViaTells(Pairs<T>, Each(Both(Spelled, code)));
  }

  // ---- How long a text is -------------------------------------------------

  lemma SpelledIsLonger(s: string)
    ensures |Spelled(s)| > |s|
  {
    assert |Ones(|s|)| > 0;
  }

  /** A text of several is longer than that of any of them. */
  lemma {:induction false} EachIsLonger<T>(code: T -> string, values: seq<T>, value: T)
    requires value in values
    ensures |EachOf(code, values)| > |code(value)|
    decreases |values|
  {
    if value != values[0] {
      EachIsLonger(code, values[1..], value);
    }
  }
}

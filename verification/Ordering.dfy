/** Python's `sorted(set(xs))` on strings and pairs of strings: code-point order, no repeats. */
module Ordering {
  predicate LexLe(a: string, b: string) {
    a == [] || (b != [] && (a[0] < b[0] || (a[0] == b[0] && LexLe(a[1..], b[1..]))))
  }

  predicate PairLe(a: (string, string), b: (string, string)) {
    if a.0 == b.0 then LexLe(a.1, b.1) else LexLe(a.0, b.0)
  }

  ghost predicate TotalOrder<T(!new)>(le: (T, T) -> bool) {
    && (forall a, b :: le(a, b) || le(b, a))
    && (forall a, b :: le(a, b) && le(b, a) ==> a == b)
    && (forall a, b, c :: le(a, b) && le(b, c) ==> le(a, c))
  }

  lemma {:induction false} LexTotal(a: string, b: string)
    ensures LexLe(a, b) || LexLe(b, a)
    ensures LexLe(a, b) && LexLe(b, a) ==> a == b
  {
    if a != [] && b != [] {
      LexTotal(a[1..], b[1..]);
      assert a == [a[0]] + a[1..] && b == [b[0]] + b[1..];
    }
  }

  lemma {:induction false} LexTransitive(a: string, b: string, c: string)
    requires LexLe(a, b) && LexLe(b, c)
    ensures LexLe(a, c)
  {
    if a != [] && a[0] == b[0] && b[0] == c[0] { LexTransitive(a[1..], b[1..], c[1..]); }
  }

  lemma PairOrder()
    ensures TotalOrder(PairLe)
  {
    forall a: (string, string), b: (string, string)
      ensures PairLe(a, b) || PairLe(b, a)
      ensures PairLe(a, b) && PairLe(b, a) ==> a == b
    {
      LexTotal(a.0, b.0); LexTotal(a.1, b.1);
    }
    forall a: (string, string), b: (string, string), c: (string, string) | PairLe(a, b) && PairLe(b, c)
      ensures PairLe(a, c)
    {
      LexTotal(a.0, b.0); LexTotal(b.0, c.0); LexTotal(a.0, c.0);
      if a.0 == b.0 && b.0 == c.0 { LexTransitive(a.1, b.1, c.1); } else { LexTransitive(a.0, b.0, c.0); }
    }
  }

  lemma StringOrder()
    ensures TotalOrder(LexLe)
  {
    forall a, b ensures LexLe(a, b) || LexLe(b, a) ensures LexLe(a, b) && LexLe(b, a) ==> a == b {
      LexTotal(a, b);
    }
    forall a, b, c | LexLe(a, b) && LexLe(b, c) ensures LexLe(a, c) { LexTransitive(a, b, c); }
  }

  ghost predicate StrictlySorted<T(!new)>(le: (T, T) -> bool, s: seq<T>) {
    forall i, j :: 0 <= i < j < |s| ==> le(s[i], s[j]) && s[i] != s[j]
  }

  lemma DistinctAt<T(!new)>(le: (T, T) -> bool, s: seq<T>, i: nat, j: nat)
    requires StrictlySorted(le, s) && i < j < |s|
    ensures s[i] != s[j]
  {
  }

  function Insert<T(==,!new)>(le: (T, T) -> bool, x: T, s: seq<T>): (r: seq<T>)
    ensures forall y :: y in r <==> y == x || y in s
  {
    if s == [] then [x]
    else if s[0] == x then s
    else if le(x, s[0]) then [x] + s
    else [s[0]] + Insert(le, x, s[1..])
  }

  function SortUnique<T(==,!new)>(le: (T, T) -> bool, xs: seq<T>): (r: seq<T>)
    ensures forall y :: y in r <==> y in xs
  {
    if xs == [] then [] else Insert(le, xs[0], SortUnique(le, xs[1..]))
  }

  lemma {:induction false} InsertSorted<T(!new)>(le: (T, T) -> bool, x: T, s: seq<T>)
    requires TotalOrder(le) && StrictlySorted(le, s)
    ensures StrictlySorted(le, Insert(le, x, s))
  {
    if s != [] && s[0] != x && !le(x, s[0]) {
      InsertSorted(le, x, s[1..]);
      var r := Insert(le, x, s[1..]);
      forall j | 0 <= j < |r| ensures le(s[0], r[j]) && s[0] != r[j] {
        assert r[j] in r;
        if r[j] != x { var k :| 0 <= k < |s[1..]| && s[1..][k] == r[j]; assert s[k + 1] == r[j]; }
      }
    }
  }

  lemma {:induction false} SortUniqueSorted<T(!new)>(le: (T, T) -> bool, xs: seq<T>)
    requires TotalOrder(le)
    ensures StrictlySorted(le, SortUnique(le, xs))
  {
    if xs != [] {
      SortUniqueSorted(le, xs[1..]);
      InsertSorted(le, xs[0], SortUnique(le, xs[1..]));
    }
  }
}

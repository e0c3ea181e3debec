/** List slices and comprehensions shared by the feeds. */
module Lists {

  /** s[:k] */
  function Take<T>(s: seq<T>, k: nat): seq<T> {
    if k <= |s| then s[..k] else s
  }

  /** [x for x in s if p(x)] */
  function Filter<T>(s: seq<T>, p: T -> bool): seq<T> {
    if s == [] then []
    else
      var front, last := s[..|s| - 1], s[|s| - 1];
      if p(last) then Filter(front, p) + [last] else Filter(front, p)
  }

  /** A request for one page. */
  datatype Query = Query(skip: nat, limit: nat)

  /** s[skip : skip + limit] */
  function Slice<T>(s: seq<T>, q: Query): seq<T> {
    var t := Take(s, q.skip + q.limit);
    if q.skip <= |t| then t[q.skip..] else []
  }

  lemma {:induction false} FilterSplits<T>(a: seq<T>, b: seq<T>, p: T -> bool)
    ensures Filter(a + b, p) == Filter(a, p) + Filter(b, p)
  {
    if b == [] {
      assert a + b == a;
    } else {
      var front := b[..|b| - 1];
      assert (a + b)[..|a + b| - 1] == a + front;
      FilterSplits(a, front, p);
    }
  }

  lemma {:induction false} FilterHas<T>(s: seq<T>, p: T -> bool)
    ensures forall x :: x in Filter(s, p) <==> x in s && p(x)
    ensures |Filter(s, p)| <= |s|
  {
    if s != [] {
      FilterHas(s[..|s| - 1], p);
      assert s == s[..|s| - 1] + [s[|s| - 1]];
    }
  }

  lemma HasMember(s: set<int>)
    requires s != {}
    ensures exists x :: x in s
  {
    assert (forall x :: x !in s) ==> s == {};
  }

  predicate IsLeast(m: int, s: set<int>) {
    m in s && forall x | x in s :: m <= x
  }

  lemma LeastExists(s: set<int>) returns (m: int)
    requires s != {}
    ensures IsLeast(m, s)
  {
    HasMember(s);
    m :| m in s;
    if s != {m} {
      assert s == {m} + (s - {m});
      var n := LeastExists(s - {m});
      m := if m < n then m else n;
    }
  }

  lemma LeastIsThere(s: set<int>)
    requires s != {}
    ensures exists m :: IsLeast(m, s)
  {
    var m := LeastExists(s);
  }

  /** sorted(ids) */
  function SortedIds(s: set<int>): (r: seq<int>)
    ensures forall x :: x in r <==> x in s
    ensures forall i, j :: 0 <= i < j < |r| ==> r[i] < r[j]
  {
    if s == {} then []
    else
      LeastIsThere(s);
      var m :| m in s && IsLeast(m, s);
      [m] + SortedIds(s - {m})
  }

  lemma {:induction false} SortedIdsSize(s: set<int>)
    ensures |SortedIds(s)| == |s|
  {
    if s != {} {
      LeastIsThere(s);
      var m :| m in s && IsLeast(m, s) && SortedIds(s) == [m] + SortedIds(s - {m});
      SortedIdsSize(s - {m});
    }
  }
}

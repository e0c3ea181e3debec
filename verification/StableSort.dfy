/** `sorted(rows, key=..., reverse=True)`: newest first, equal keys keep their input order. */
module StableSort {
  import opened Lists

  function Insert<T>(x: T, s: seq<T>, key: T -> int): seq<T> {
    if s == [] || key(x) >= key(s[0]) then [x] + s else [s[0]] + Insert(x, s[1..], key)
  }

  function Sort<T>(s: seq<T>, key: T -> int): seq<T> {
    if s == [] then [] else Insert(s[0], Sort(s[1..], key), key)
  }

  ghost predicate Descending<T>(s: seq<T>, key: T -> int) {
    forall i, j :: 0 <= i < j < |s| ==> key(s[i]) >= key(s[j])
  }

  /** The rows of one key, in order. */
  ghost function AtKey<T>(s: seq<T>, key: T -> int, k: int): seq<T> {
    if s == [] then []
    else (if key(s[0]) == k then [s[0]] else []) + AtKey(s[1..], key, k)
  }

  /** What a stable newest-first sort means, without saying how it is computed. */
  ghost predicate IsStableSort<T>(r: seq<T>, s: seq<T>, key: T -> int) {
    Descending(r, key) && forall k :: AtKey(r, key, k) == AtKey(s, key, k)
  }

  lemma AtKeyCons<T>(x: T, s: seq<T>, key: T -> int, k: int)
    ensures AtKey([x] + s, key, k) == (if key(x) == k then [x] else []) + AtKey(s, key, k)
  {
    assert ([x] + s)[1..] == s;
  }

  lemma {:induction false} InsertAtKey<T>(x: T, s: seq<T>, key: T -> int, k: int)
    ensures AtKey(Insert(x, s, key), key, k) == (if key(x) == k then [x] else []) + AtKey(s, key, k)
  {
    if s == [] || key(x) >= key(s[0]) {
      AtKeyCons(x, s, key, k);
    } else {
      var h, t := s[0], s[1..];
      InsertAtKey(x, t, key, k);
      AtKeyCons(h, t, key, k);
      AtKeyCons(h, Insert(x, t, key), key, k);
      assert s == [h] + t;
    }
  }

  lemma {:induction false} InsertDescending<T>(x: T, s: seq<T>, key: T -> int)
    requires Descending(s, key)
    ensures var r := Insert(x, s, key);
            Descending(r, key) && |r| == |s| + 1 && (r[0] == x || (s != [] && r[0] == s[0]))
  {
    if s != [] && key(x) < key(s[0]) {
      InsertDescending(x, s[1..], key);
    }
  }

  lemma {:induction false} SortIsStable<T>(s: seq<T>, key: T -> int)
    ensures IsStableSort(Sort(s, key), s, key) && |Sort(s, key)| == |s|
  {
    if s != [] {
      SortIsStable(s[1..], key);
      InsertDescending(s[0], Sort(s[1..], key), key);
      forall k {
        InsertAtKey(s[0], Sort(s[1..], key), key, k);
      }
    }
  }

  lemma {:induction false} AtKeyEmpty<T>(s: seq<T>, key: T -> int, k: int)
    requires forall i :: 0 <= i < |s| ==> key(s[i]) != k
    ensures AtKey(s, key, k) == []
  {
    if s != [] {
      AtKeyEmpty(s[1..], key, k);
    }
  }

  lemma SameHead<T>(r: seq<T>, r': seq<T>, key: T -> int)
    requires IsStableSort(r, r', key) && Descending(r', key) && r != []
    ensures r' != [] && r'[0] == r[0]
  {
    var k := key(r[0]);
    assert AtKey(r, key, k) == AtKey(r', key, k);
    assert r' != [];
    var k' := key(r'[0]);
    assert AtKey(r, key, k') == AtKey(r', key, k');
    assert AtKey(r, key, k)[0] == r[0] && AtKey(r', key, k')[0] == r'[0];
    if k' < k {
      AtKeyEmpty(r', key, k);
    } else if k < k' {
      AtKeyEmpty(r, key, k');
    }
  }

  lemma SameTails<T>(r: seq<T>, r': seq<T>, key: T -> int, k: int)
    requires r != [] && r' != [] && r[0] == r'[0] && AtKey(r, key, k) == AtKey(r', key, k)
    ensures AtKey(r[1..], key, k) == AtKey(r'[1..], key, k)
  {
    var one := if key(r[0]) == k then [r[0]] else [];
    assert AtKey(r[1..], key, k) == AtKey(r, key, k)[|one|..];
    assert AtKey(r'[1..], key, k) == AtKey(r', key, k)[|one|..];
  }

  /** There is only one stable sort of a list, so `Sort` is it. */
  lemma {:induction false} StableSortUnique<T>(r: seq<T>, r': seq<T>, key: T -> int)
    requires IsStableSort(r, r', key) && Descending(r', key)
    ensures r == r'
  {
    if r == [] {
      assert r' != [] ==> AtKey(r', key, key(r'[0])) != AtKey(r, key, key(r'[0]));
    } else {
      SameHead(r, r', key);
      forall k {
        SameTails(r, r', key, k);
      }
      StableSortUnique(r[1..], r'[1..], key);
    }
  }

  /** Any stable newest-first order of the rows is the one computed. */
  lemma SortIsTheStableSort<T>(r: seq<T>, s: seq<T>, key: T -> int)
    ensures IsStableSort(r, s, key) <==> r == Sort(s, key)
  {
    SortIsStable(s, key);
    if IsStableSort(r, s, key) {
      StableSortUnique(r, Sort(s, key), key);
    }
  }

  /** Rows that x goes before do not matter to where it lands among the rows in front of them. */
  lemma {:induction false} AtKeyHas<T>(s: seq<T>, key: T -> int, x: T)
    ensures x in AtKey(s, key, key(x)) <==> x in s
  {
    if s != [] {
      AtKeyHas(s[1..], key, x);
      assert s == [s[0]] + s[1..];
    }
  }

  lemma SortHas<T>(s: seq<T>, key: T -> int, x: T)
    ensures x in Sort(s, key) <==> x in s
  {
    SortIsStable(s, key);
    AtKeyHas(s, key, x);
    AtKeyHas(Sort(s, key), key, x);
  }

  lemma {:induction false} InsertInFront<T>(x: T, u: seq<T>, v: seq<T>, key: T -> int)
    requires v == [] || key(x) >= key(v[0])
    ensures Insert(x, u + v, key) == Insert(x, u, key) + v
  {
    if u == [] {
      assert u + v == v;
    } else {
      InsertInFront(x, u[1..], v, key);
      assert (u + v)[1..] == u[1..] + v;
    }
  }

  lemma {:induction false} InsertBehind<T>(x: T, u: seq<T>, v: seq<T>, key: T -> int)
    requires forall i :: 0 <= i < |u| ==> key(x) < key(u[i])
    ensures Insert(x, u + v, key) == u + Insert(x, v, key)
  {
    if u == [] {
      assert u + v == v;
    } else {
      InsertBehind(x, u[1..], v, key);
      assert (u + v)[1..] == u[1..] + v;
    }
  }

  lemma {:induction false} InsertSplits<T>(x: T, s: seq<T>, key: T -> int) returns (u: seq<T>, v: seq<T>)
    ensures s == u + v && Insert(x, s, key) == u + [x] + v
  {
    if s == [] || key(x) >= key(s[0]) {
      u, v := [], s;
    } else {
      u, v := InsertSplits(x, s[1..], key);
      u := [s[0]] + u;
    }
  }

  ghost function CountAtLeast<T>(s: seq<T>, key: T -> int, k: int): nat {
    if s == [] then 0 else (if key(s[0]) >= k then 1 else 0) + CountAtLeast(s[1..], key, k)
  }

  lemma SortCons<T>(x: T, s: seq<T>, key: T -> int)
    ensures Sort([x] + s, key) == Insert(x, Sort(s, key), key)
  {
    assert ([x] + s)[1..] == s;
  }

  lemma Around<T>(u: seq<T>, b: T, v: seq<T>, key: T -> int)
    requires Descending(u + [b] + v, key)
    ensures forall i :: 0 <= i < |u| ==> key(u[i]) >= key(b)
    ensures forall i :: 0 <= i < |v| ==> key(v[i]) <= key(b)
  {
    var r := u + [b] + v;
    assert r[|u|] == b;
    assert forall i :: 0 <= i < |u| ==> r[i] == u[i];
    assert forall i :: 0 <= i < |v| ==> r[|u| + 1 + i] == v[i];
  }

  /** Inserting x does not change how `b` sits among the other rows. */
  lemma InsertBeside<T>(x: T, b: T, u: seq<T>, v: seq<T>, key: T -> int) returns (u': seq<T>, v': seq<T>)
    requires Descending(u + [b] + v, key)
    ensures Insert(x, u + v, key) == u' + v' && Insert(x, u + [b] + v, key) == u' + [b] + v'
    ensures |u'| == |u| + if key(x) >= key(b) then 1 else 0
  {
    Around(u, b, v, key);
    assert u + [b] + v == u + ([b] + v);
    if key(x) >= key(b) {
      u', v' := Insert(x, u, key), v;
      InsertInFront(x, u, v, key);
      InsertInFront(x, u, [b] + v, key);
      var l, r := InsertSplits(x, u, key);
    } else {
      u', v' := u, Insert(x, v, key);
      InsertBehind(x, u, v, key);
      InsertBehind(x, u, [b] + v, key);
      assert ([b] + v)[1..] == v;
    }
  }

  /** One more row `b` lands in the sorted list without disturbing the order of the others, after
      every row that came before it with at least its key. */
  lemma {:induction false} ExtraRow<T>(p: seq<T>, b: T, y: seq<T>, key: T -> int) returns (u: seq<T>, v: seq<T>)
    ensures Sort(p + y, key) == u + v && Sort(p + [b] + y, key) == u + [b] + v
    ensures |u| >= CountAtLeast(p, key, key(b))
  {
    if p == [] {
      assert p + y == y && p + [b] + y == [b] + y;
      SortCons(b, y, key);
      u, v := InsertSplits(b, Sort(y, key), key);
    } else {
      var x, q := p[0], p[1..];
      u, v := ExtraRow(q, b, y, key);
      assert p + y == [x] + (q + y) && p + [b] + y == [x] + (q + [b] + y);
      SortCons(x, q + y, key);
      SortCons(x, q + [b] + y, key);
      SortIsStable(q + [b] + y, key);
      u, v := InsertBeside(x, b, u, v, key);
    }
  }

  lemma {:induction false} CountSplits<T>(p: seq<T>, q: seq<T>, key: T -> int, k: int)
    ensures CountAtLeast(p + q, key, k) == CountAtLeast(p, key, k) + CountAtLeast(q, key, k)
  {
    if p == [] {
      assert p + q == q;
    } else {
      CountSplits(p[1..], q, key, k);
      assert (p + q)[1..] == p[1..] + q;
    }
  }

  lemma {:induction false} CountAllAtLeast<T>(s: seq<T>, key: T -> int, k: int)
    requires forall i :: 0 <= i < |s| ==> key(s[i]) >= k
    ensures CountAtLeast(s, key, k) == |s|
  {
    if s != [] {
      CountAllAtLeast(s[1..], key, k);
    }
  }

  /** A row behind k rows with at least its key is not among the newest k. */
  lemma LateRowIsInvisible<T>(p: seq<T>, b: T, y: seq<T>, key: T -> int, k: nat)
    requires CountAtLeast(p, key, key(b)) >= k
    ensures Take(Sort(p + [b] + y, key), k) == Take(Sort(p + y, key), k)
  {
    var u, v := ExtraRow(p, b, y, key);
  }

  /** Keeping fewer rows of a list is not noticed when the rows given up are late ones. */
  lemma {:induction false} FilterLate<T>(p: seq<T>, g: seq<T>, loose: T -> bool, strict: T -> bool, y: seq<T>, key: T -> int, k: nat)
    requires forall x :: x in g && strict(x) ==> loose(x)
    requires forall x :: x in g && loose(x) && !strict(x) ==> CountAtLeast(p, key, key(x)) >= k
    ensures Take(Sort(p + Filter(g, loose) + y, key), k) == Take(Sort(p + Filter(g, strict) + y, key), k)
  {
    if g != [] {
      var front, last := g[..|g| - 1], g[|g| - 1];
      var a, b := Filter(front, loose), Filter(front, strict);
      if strict(last) {
        FilterLate(p, front, loose, strict, [last] + y, key, k);
        assert p + (a + [last]) + y == p + a + ([last] + y) && p + (b + [last]) + y == p + b + ([last] + y);
      } else {
        FilterLate(p, front, loose, strict, y, key, k);
        if loose(last) {
          CountSplits(p, a, key, key(last));
          LateRowIsInvisible(p + a, last, y, key, k);
          assert p + (a + [last]) + y == p + a + [last] + y;
        }
      }
    }
  }

  lemma RowBehindIsInvisible<T>(p: seq<T>, a: seq<T>, b: T, y: seq<T>, key: T -> int, k: nat)
    requires |a| >= k && forall i :: 0 <= i < |a| ==> key(a[i]) >= key(b)
    ensures Take(Sort(p + a + [b] + y, key), k) == Take(Sort(p + a + y, key), k)
  {
    CountSplits(p, a, key, key(b));
    CountAllAtLeast(a, key, key(b));
    LateRowIsInvisible(p + a, b, y, key, k);
  }

  /** Rows beyond the first k of one newest-first feed never reach the first k of the merge. */
  lemma {:induction false} TailIsInvisible<T>(p: seq<T>, a: seq<T>, b: seq<T>, y: seq<T>, key: T -> int, k: nat)
    requires Descending(a + b, key) && (|a| >= k || b == [])
    ensures Take(Sort(p + a + y, key), k) == Take(Sort(p + (a + b) + y, key), k)
    decreases |b|
  {
    if b == [] {
      assert a + b == a;
    } else {
      var front, row := b[..|b| - 1], b[|b| - 1];
      assert a + b == (a + front) + [row];
      assert (a + b)[|a + front|] == row;
      assert forall i :: 0 <= i < |a + front| ==> (a + front)[i] == (a + b)[i] && key((a + b)[i]) >= key(row);
      TailIsInvisible(p, a, front, y, key, k);
      RowBehindIsInvisible(p, a + front, row, y, key, k);
      assert p + (a + front) + [row] + y == p + (a + b) + y;
    }
  }

  function Concat<T>(feeds: seq<seq<T>>): seq<T> {
    if feeds == [] then [] else feeds[0] + Concat(feeds[1..])
  }

  /** A truncated feed: a prefix, cut only where at least k rows remain. */
  ghost predicate Covers<T>(cut: seq<T>, full: seq<T>, k: nat) {
    cut <= full && (|cut| >= k || cut == full)
  }

  lemma CutOneFeed<T>(p: seq<T>, cut: seq<T>, full: seq<T>, y: seq<T>, key: T -> int, k: nat)
    requires Descending(full, key) && Covers(cut, full, k)
    ensures Take(Sort(p + cut + y, key), k) == Take(Sort(p + full + y, key), k)
  {
    var rest := full[|cut|..];
    assert full == cut + rest;
    TailIsInvisible(p, cut, rest, y, key, k);
  }

  lemma ConcatHead<T>(p: seq<T>, feeds: seq<seq<T>>)
    requires feeds != []
    ensures p + Concat(feeds) == p + feeds[0] + Concat(feeds[1..])
  {
  }

  /** Merging truncated feeds gives the same newest k rows as merging whole feeds. */
  lemma {:induction false} TruncatedMerge<T>(p: seq<T>, cut: seq<seq<T>>, full: seq<seq<T>>, key: T -> int, k: nat)
    requires |cut| == |full|
    requires forall i :: 0 <= i < |full| ==> Descending(full[i], key) && Covers(cut[i], full[i], k)
    ensures Take(Sort(p + Concat(cut), key), k) == Take(Sort(p + Concat(full), key), k)
    decreases |cut|
  {
    if cut != [] {
      ConcatHead(p, cut);
      ConcatHead(p, full);
      CutOneFeed(p, cut[0], full[0], Concat(cut[1..]), key, k);
      TruncatedMerge(p + full[0], cut[1..], full[1..], key, k);
    }
  }
}

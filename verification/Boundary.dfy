/** Boundary geometry: ring down-sampling with exact vertex bounds, and GeoJSON normalization. */
module Boundary {
  import opened Options

  const MAX_RING_VERTICES := 512

  // ----- one ring -------------------------------------------------------------------------

  /** ring[::step] */
  function EveryNth<T>(ring: seq<T>, step: nat): seq<T>
    requires step >= 1
  {
    if ring == [] then []
    else if |ring| <= step then [ring[0]]
    else [ring[0]] + EveryNth(ring[step..], step)
  }

  function CeilDiv(a: nat, b: nat): nat
    requires b >= 1
  {
    (a + b - 1) / b
  }

  function Step(n: nat, maxVertices: nat): nat
    requires n >= 1 && maxVertices >= 2
    ensures Step(n, maxVertices) >= 1
  {
    var s := CeilDiv(n - 1, maxVertices - 1);
    if s < 1 then 1 else s
  }

  function Last<T>(s: seq<T>): T
    requires s != []
  {
    s[|s| - 1]
  }

  /** The sample, with the last vertex restored when it was skipped. */
  function Sampled<T(==)>(ring: seq<T>, step: nat): seq<T>
    requires step >= 1 && ring != []
    ensures Sampled(ring, step) != []
  {
    var s := EveryNth(ring, step);
    if Last(s) != Last(ring) then s + [Last(ring)] else s
  }

  function Closed<T(==)>(s: seq<T>): seq<T>
    requires s != []
  {
    if s[0] != Last(s) then s + [s[0]] else s
  }

  function Simplified<T(==)>(ring: seq<T>, maxVertices: nat): seq<T>
    requires maxVertices >= 2
  {
    if |ring| <= maxVertices then ring else Closed(Sampled(ring, Step(|ring|, maxVertices)))
  }

  method SimplifyRing<T(==)>(ring: seq<T>, maxVertices: nat) returns (sampled: seq<T>)
    requires maxVertices >= 2
    ensures sampled == Simplified(ring, maxVertices)
  {
    if |ring| <= maxVertices {
      return ring;
    }
    var step := CeilDiv(|ring| - 1, maxVertices - 1);
    if step < 1 {
      step := 1;
    }
    sampled := EveryNth(ring, step);
    if sampled[|sampled| - 1] != ring[|ring| - 1] {
      sampled := sampled + [ring[|ring| - 1]];
    }
    if sampled[0] != sampled[|sampled| - 1] {
      sampled := sampled + [sampled[0]];
    }
  }

  /** s can be obtained from t by deleting positions. */
  ghost predicate IsSubsequence<T>(s: seq<T>, t: seq<T>) {
    s == [] || (t != [] && ((s[0] == t[0] && IsSubsequence(s[1..], t[1..])) || IsSubsequence(s, t[1..])))
  }

  lemma {:induction false} SubsequenceOfSuffix<T>(s: seq<T>, t: seq<T>, k: nat)
    requires k <= |t| && IsSubsequence(s, t[k..])
    ensures IsSubsequence(s, t)
  {
    if k > 0 {
      assert t[1..][k - 1..] == t[k..];
      SubsequenceOfSuffix(s, t[1..], k - 1);
    } else {
      assert t[0..] == t;
    }
  }

  lemma {:induction false} SubsequenceOfItself<T>(s: seq<T>)
    ensures IsSubsequence(s, s)
  {
    if s != [] {
      SubsequenceOfItself(s[1..]);
    }
  }

  lemma SubsequenceCons<T>(x: T, s: seq<T>, t: seq<T>)
    requires t != [] && x == t[0] && IsSubsequence(s, t[1..])
    ensures IsSubsequence([x] + s, t)
  {
    assert ([x] + s)[1..] == s;
  }

  lemma LastIsSubsequence<T>(t: seq<T>)
    requires t != []
    ensures IsSubsequence([Last(t)], t)
  {
    var k := |t| - 1;
    assert t[k..] == [Last(t)];
    assert IsSubsequence([Last(t)][1..], t[k..][1..]);
    SubsequenceOfSuffix([Last(t)], t, k);
  }

  lemma {:induction false} EveryNthStart<T>(ring: seq<T>, step: nat)
    requires step >= 1 && ring != []
    ensures EveryNth(ring, step) != [] && EveryNth(ring, step)[0] == ring[0]
  {
  }

  lemma SampledStep<T>(ring: seq<T>, step: nat)
    requires 1 <= step < |ring|
    ensures Sampled(ring, step) == [ring[0]] + Sampled(ring[step..], step)
  {
    var s := EveryNth(ring[step..], step);
    EveryNthStart(ring[step..], step);
    assert Last([ring[0]] + s) == Last(s) && Last(ring[step..]) == Last(ring);
    assert [ring[0]] + s + [Last(ring)] == [ring[0]] + (s + [Last(ring)]);
  }

  lemma {:induction false} SampledIsSubsequence<T>(ring: seq<T>, step: nat)
    requires step >= 1 && ring != []
    ensures IsSubsequence(Sampled(ring, step), ring)
    decreases |ring|
  {
    if |ring| <= step {
      if Last(ring) != ring[0] {
        LastIsSubsequence(ring[1..]);
        SubsequenceCons(ring[0], [Last(ring)], ring);
      } else {
        SubsequenceCons(ring[0], [], ring);
      }
    } else {
      var rest := Sampled(ring[step..], step);
      SampledIsSubsequence(ring[step..], step);
      assert ring[1..][step - 1..] == ring[step..];
      SubsequenceOfSuffix(rest, ring[1..], step - 1);
      SubsequenceCons(ring[0], rest, ring);
      SampledStep(ring, step);
    }
  }

  lemma OneStepMore(c: nat, step: nat)
    ensures c * step == (c - 1) * step + step
  {
  }

  /** `at` is the index of the last vertex of a sample of ring. */
  predicate EndsAt<T(==)>(s: seq<T>, ring: seq<T>, step: nat, at: int) {
    s != [] && at == (|s| - 1) * step && 0 <= at < |ring| <= at + step && Last(s) == ring[at]
  }

  /** How many vertices a sample has, and which one is its last. */
  lemma {:induction false} SampleCount<T>(ring: seq<T>, step: nat) returns (at: nat)
    requires step >= 1 && ring != []
    ensures EndsAt(EveryNth(ring, step), ring, step, at)
    decreases |ring|
  {
    if |ring| <= step {
      at := 0;
    } else {
      var rest := ring[step..];
      at := SampleCount(rest, step);
      OneStepMore(|EveryNth(rest, step)|, step);
      at := at + step;
    }
  }

  lemma CeilDivBounds(a: nat, b: nat)
    requires b >= 1
    ensures (CeilDiv(a, b) - 1) * b < a <= CeilDiv(a, b) * b || a == CeilDiv(a, b) == 0
  {
    var q := CeilDiv(a, b);
    var r := (a + b - 1) % b;
    assert a + b - 1 == q * b + r;
    assert (q - 1) * b == q * b - b;
    if a == 0 {
      assert q == 0;
    }
  }

  lemma ProductOrder(x: int, y: int, step: nat)
    requires step >= 1 && x * step < y * step
    ensures x < y
  {
    var d := x - y;
    assert d * step == x * step - y * step;
    assert d >= 0 ==> d * step >= 0;
  }

  /** Sample size against the limit: between m/2 + 1 and m, and below m when the last is skipped. */
  lemma SampleBounds(n: nat, m: nat, c: nat, step: nat)
    requires m >= 2 && n > m && c >= 1
    requires step == Step(n, m)
    requires (c - 1) * step < n <= (c - 1) * step + step
    ensures m / 2 + 1 <= c <= m
    ensures (c - 1) * step < n - 1 ==> c <= m - 1
  {
    CeilDivBounds(n - 1, m - 1);
    UpperBound(n - 1, m, c, step);
    assert step != 1;
    LowerBound(n - 1, m, c, step);
  }

  lemma UpperBound(big: nat, m: nat, c: nat, step: nat)
    requires m >= 2 && c >= 1 && step >= 1
    requires (c - 1) * step <= big <= step * (m - 1)
    ensures c <= m && ((c - 1) * step < big ==> c <= m - 1)
  {
    var p := (m - 1) * step;
    assert p == step * (m - 1) && m * step == p + step;
    ProductOrder(c - 1, m, step);
    if (c - 1) * step < big {
      ProductOrder(c - 1, m - 1, step);
    }
  }

  lemma Expand(x: int, y: int, k: int)
    ensures (x - k) * (y - k) == x * y - k * x - k * y + k * k
  {
  }

  lemma HalfProduct(m: nat, step: nat)
    ensures 2 * (m / 2 * step) <= step * m
  {
    var q := m / 2;
    assert 0 <= (m - 2 * q) * step;
    assert (m - 2 * q) * step == m * step - 2 * q * step;
  }

  lemma LowerBound(big: nat, m: nat, c: nat, step: nat)
    requires m >= 2 && step >= 2
    requires (step - 1) * (m - 1) < big
    requires big < (c - 1) * step + step
    ensures m / 2 + 1 <= c
  {
    Expand(step, m, 1);
    Expand(step, m, 2);
    HalfProduct(m, step);
    OneStepMore(c, step);
    assert (step - 2) * (m - 2) >= 0;
    ProductOrder(m / 2, c, step);
  }

  predicate IsClosed<T(==)>(ring: seq<T>) {
    ring != [] ==> ring[0] == ring[|ring| - 1]
  }

  lemma SampledSize<T>(ring: seq<T>, m: nat)
    requires m >= 2 && |ring| > m
    ensures var t := Sampled(ring, Step(|ring|, m));
            m / 2 + 1 <= |t| <= m && t[0] == ring[0] && Last(t) == Last(ring)
  {
    var step := Step(|ring|, m);
    var s := EveryNth(ring, step);
    var at := SampleCount(ring, step);
    EveryNthStart(ring, step);
    SampleBounds(|ring|, m, |s|, step);
    assert at == |ring| - 1 ==> Last(s) == Last(ring);
  }

  /** A closed ring over the limit comes back closed, with its own end points, as a subsequence
      of between m/2 + 1 and m positions. */
  lemma ClosedRingBounds<T>(ring: seq<T>, m: nat)
    requires m >= 2 && |ring| > m && IsClosed(ring)
    ensures var r := Simplified(ring, m);
            && m / 2 + 1 <= |r| <= m
            && IsClosed(r) && r[0] == ring[0] && Last(r) == Last(ring)
            && IsSubsequence(r, ring)
  {
    SampledSize(ring, m);
    SampledIsSubsequence(ring, Step(|ring|, m));
  }

  /** An open ring over the limit comes back closed too, and may end one past the limit. */
  lemma OpenRingBounds<T>(ring: seq<T>, m: nat)
    requires m >= 2 && |ring| > m && !IsClosed(ring)
    ensures var r := Simplified(ring, m);
            && m / 2 + 2 <= |r| <= m + 1
            && IsClosed(r) && r[0] == ring[0] && r[|r| - 2] == Last(ring)
            && IsSubsequence(r[..|r| - 1], ring)
  {
    var t := Sampled(ring, Step(|ring|, m));
    SampledSize(ring, m);
    SampledIsSubsequence(ring, Step(|ring|, m));
    assert (t + [t[0]])[..|t|] == t;
  }

  /** The last sampled index of a ring of n vertices. */
  function LastSampled(n: nat, m: nat): nat
    requires n > m >= 2
    ensures LastSampled(n, m) < n
  {
    var step := Step(n, m);
    var at := (n - 1) / step * step;
    assert at <= n - 1;
    at
  }

  /** An open ring over the limit whose sample, with its last vertex, already fills the limit. */
  predicate Overshoots<T(==)>(ring: seq<T>, m: nat)
    requires m >= 2
  {
    |ring| > m && ring[0] != ring[|ring| - 1]
    && (|ring| - 1) / Step(|ring|, m) + 1
       + (if ring[LastSampled(|ring|, m)] != ring[|ring| - 1] then 1 else 0) == m
  }

  lemma QuotientIs(a: nat, step: nat, c: nat)
    requires step >= 1 && c * step <= a < c * step + step
    ensures a / step == c
  {
    var q := a / step;
    assert q * step <= a < q * step + step by {
      assert a == step * q + a % step;
      assert step * q == q * step;
    }
    assert (q + 1) * step == q * step + step && (c + 1) * step == c * step + step;
    ProductOrder(c, q + 1, step);
    ProductOrder(q, c + 1, step);
  }

  lemma OvershootIsOnePast<T>(ring: seq<T>, m: nat)
    requires m >= 2
    ensures |Simplified(ring, m)| <= m <==> !Overshoots(ring, m)
  {
    if |ring| > m {
      var step := Step(|ring|, m);
      var s := EveryNth(ring, step);
      var at := SampleCount(ring, step);
      QuotientIs(|ring| - 1, step, |s| - 1);
      if IsClosed(ring) {
        ClosedRingBounds(ring, m);
      } else {
        OpenRingBounds(ring, m);
        assert |Simplified(ring, m)| == |Sampled(ring, step)| + 1;
      }
    }
  }

  /** Simplifying twice is simplifying once exactly when the ring does not overshoot; a closed
      ring never does. */
  lemma SimplifyTwice<T>(ring: seq<T>, m: nat)
    requires m >= 2
    ensures Simplified(Simplified(ring, m), m) == Simplified(ring, m) <==> !Overshoots(ring, m)
    ensures IsClosed(ring) ==> !Overshoots(ring, m)
  {
    OvershootIsOnePast(ring, m);
    if Overshoots(ring, m) {
      OpenRingBounds(ring, m);
      ClosedRingBounds(Simplified(ring, m), m);
    }
  }

  // ----- whole geometries -----------------------------------------------------------------

  datatype RingJson<T> = NotARing | Ring(points: seq<T>)

  datatype PolygonJson<T> = NotAPolygon | Rings(rings: seq<RingJson<T>>)

  datatype Geometry<T> =
    | Polygon(coordinates: PolygonJson<T>)
    | MultiPolygon(polygons: Option<seq<PolygonJson<T>>>)
    | OtherGeometry

  predicate Usable<T(==)>(r: RingJson<T>) {
    r.Ring? && |r.points| >= 4
  }

  function CleanRings<T(==)>(rings: seq<RingJson<T>>): seq<RingJson<T>> {
    if rings == [] then []
    else
      var front, last := CleanRings(rings[..|rings| - 1]), rings[|rings| - 1];
      if Usable(last) then front + [Ring(Simplified(last.points, MAX_RING_VERTICES))] else front
  }

  function RingsOf<T>(p: PolygonJson<T>): seq<RingJson<T>> {
    if p.Rings? then p.rings else []
  }

  function CleanPolygons<T(==)>(polygons: seq<PolygonJson<T>>): seq<PolygonJson<T>> {
    if polygons == [] then []
    else
      var front, last := CleanPolygons(polygons[..|polygons| - 1]), CleanRings(RingsOf(polygons[|polygons| - 1]));
      if last != [] then front + [Rings(last)] else front
  }

  function Normalized<T(==)>(g: Geometry<T>): Option<Geometry<T>> {
    match g
    case OtherGeometry => None
    case Polygon(p) =>
      var rings := CleanRings(RingsOf(p));
      if rings == [] then None else Some(Polygon(Rings(rings)))
    case MultiPolygon(None) => None
    case MultiPolygon(Some(polygons)) =>
      var clean := CleanPolygons(polygons);
      if clean == [] then None
      else if |clean| == 1 then Some(Polygon(clean[0]))
      else Some(MultiPolygon(Some(clean)))
  }

  method CleanRingsLoop<T(==)>(rings: seq<RingJson<T>>) returns (clean: seq<RingJson<T>>)
    ensures clean == CleanRings(rings)
  {
    clean := [];
    for i := 0 to |rings|
      invariant clean == CleanRings(rings[..i])
    {
      assert rings[..i + 1][..i] == rings[..i];
      if !rings[i].Ring? || |rings[i].points| < 4 {
        continue;
      }
      var ring := SimplifyRing(rings[i].points, MAX_RING_VERTICES);
      clean := clean + [Ring(ring)];
    }
    assert rings[..|rings|] == rings;
  }

  method NormalizeGeojsonBoundary<T(==)>(g: Geometry<T>) returns (r: Option<Geometry<T>>)
    ensures r == Normalized(g)
  {
    match g {
      case OtherGeometry =>
        return None;
      case Polygon(p) =>
        if !p.Rings? || p.rings == [] {
          return None;
        }
        var rings := CleanRingsLoop(p.rings);
        return if rings == [] then None else Some(Polygon(Rings(rings)));
      case MultiPolygon(coords) =>
        if coords == None {
          return None;
        }
        var polys: seq<PolygonJson<T>> := [];
        for i := 0 to |coords.value|
          invariant polys == CleanPolygons(coords.value[..i])
        {
          var poly := coords.value[i];
          assert coords.value[..i + 1][..i] == coords.value[..i];
          if !poly.Rings? || poly.rings == [] {
            continue;
          }
          var rings := CleanRingsLoop(poly.rings);
          if rings != [] {
            polys := polys + [Rings(rings)];
          }
        }
        assert coords.value[..|coords.value|] == coords.value;
        if polys == [] {
          return None;
        }
        if |polys| == 1 {
          return Some(Polygon(polys[0]));
        }
        return Some(MultiPolygon(Some(polys)));
    }
  }

  /** Every ring of a geometry, in order. */
  ghost function AllRings<T>(g: Geometry<T>): seq<RingJson<T>> {
    match g
    case OtherGeometry => []
    case Polygon(p) => RingsOf(p)
    case MultiPolygon(None) => []
    case MultiPolygon(Some(polygons)) => JoinedRings(polygons)
  }

  ghost function JoinedRings<T>(polygons: seq<PolygonJson<T>>): seq<RingJson<T>> {
    if polygons == [] then []
    else JoinedRings(polygons[..|polygons| - 1]) + RingsOf(polygons[|polygons| - 1])
  }

  lemma {:induction false} CleanAppends<T>(a: seq<RingJson<T>>, b: seq<RingJson<T>>)
    ensures CleanRings(a + b) == CleanRings(a) + CleanRings(b)
  {
    if b == [] {
      assert a + b == a;
    } else {
      var front := b[..|b| - 1];
      assert (a + b)[..|a + b| - 1] == a + front;
      CleanAppends(a, front);
    }
  }

  lemma {:induction false} CleanedPolygonsJoin<T>(polygons: seq<PolygonJson<T>>)
    ensures JoinedRings(CleanPolygons(polygons)) == CleanRings(JoinedRings(polygons))
    ensures forall p :: p in CleanPolygons(polygons) ==> p.Rings? && p.rings != []
  {
    if polygons != [] {
      var front, last := polygons[..|polygons| - 1], polygons[|polygons| - 1];
      CleanedPolygonsJoin(front);
      CleanAppends(JoinedRings(front), RingsOf(last));
      var clean := CleanPolygons(front);
      assert (clean + [Rings(CleanRings(RingsOf(last)))])[..|clean|] == clean;
    }
  }

  lemma {:induction false} JoinedEmpty<T>(polygons: seq<PolygonJson<T>>)
    requires forall p :: p in polygons ==> RingsOf(p) != []
    ensures JoinedRings(polygons) == [] <==> polygons == []
  {
  }

  /** The rings of the result are exactly the simplified usable rings of the input, in order; no
      result means that no ring of at least four positions existed. */
  lemma NormalizedRings<T>(g: Geometry<T>)
    ensures Normalized(g) == None <==> CleanRings(AllRings(g)) == []
    ensures Normalized(g).Some? ==> AllRings(Normalized(g).value) == CleanRings(AllRings(g))
  {
    if g.MultiPolygon? && g.polygons.Some? {
      var clean := CleanPolygons(g.polygons.value);
      CleanedPolygonsJoin(g.polygons.value);
      JoinedEmpty(clean);
      if |clean| == 1 {
        assert clean == [clean[0]] && JoinedRings(clean[..0]) == [];
        assert AllRings(Polygon(clean[0])) == clean[0].rings == JoinedRings(clean);
      }
    }
  }

  lemma {:induction false} CleanIsEmptyIff<T>(rings: seq<RingJson<T>>)
    ensures CleanRings(rings) == [] <==> forall r :: r in rings ==> !Usable(r)
  {
    if rings != [] {
      var front := rings[..|rings| - 1];
      CleanIsEmptyIff(front);
      assert rings == front + [rings[|rings| - 1]];
    }
  }

  /** What simplification makes of one usable ring. */
  ghost predicate Kept<T>(q: seq<T>, r: seq<T>) {
    r == Simplified(q, MAX_RING_VERTICES)
    && (IsClosed(q) ==> IsClosed(r) && |r| <= MAX_RING_VERTICES && IsSubsequence(r, q))
  }

  lemma UsableIsKept<T>(q: RingJson<T>)
    requires Usable(q)
    ensures var r := Simplified(q.points, MAX_RING_VERTICES);
            4 <= |r| <= MAX_RING_VERTICES + 1 && Kept(q.points, r)
  {
    if |q.points| <= MAX_RING_VERTICES {
      SubsequenceOfItself(q.points);
    } else if IsClosed(q.points) {
      ClosedRingBounds(q.points, MAX_RING_VERTICES);
    } else {
      OpenRingBounds(q.points, MAX_RING_VERTICES);
    }
  }

  /** Every output ring comes from a usable input ring: 4 to 513 positions; when that ring was
      closed, at most 512, all taken from it in order. */
  lemma {:induction false} CleanRingBounds<T>(rings: seq<RingJson<T>>, r: RingJson<T>)
    requires r in CleanRings(rings)
    ensures r.Ring? && 4 <= |r.points| <= MAX_RING_VERTICES + 1
    ensures exists q :: q in rings && Usable(q) && Kept(q.points, r.points)
  {
    var front, last := rings[..|rings| - 1], rings[|rings| - 1];
    assert rings == front + [last];
    if r in CleanRings(front) {
      CleanRingBounds(front, r);
      var q :| q in front && Usable(q) && Kept(q.points, r.points);
      assert q in rings;
    } else {
      assert last in rings;
      UsableIsKept(last);
    }
  }

  /** A list whose polygons have just one usable member gives the result of that polygon alone. */
  lemma OnePolygon<T>(rings: seq<RingJson<T>>)
    ensures Normalized(MultiPolygon(Some([Rings(rings)]))) == Normalized(Polygon(Rings(rings)))
  {
    var polygons := [Rings(rings)];
    assert polygons[..0] == [] && CleanPolygons(polygons[..0]) == [];
  }

  ghost predicate AnyOvershoot<T>(rings: seq<RingJson<T>>) {
    exists r :: r in rings && Usable(r) && Overshoots(r.points, MAX_RING_VERTICES)
  }

  lemma {:induction false} CleanTwice<T>(rings: seq<RingJson<T>>)
    ensures |CleanRings(CleanRings(rings))| == |CleanRings(rings)|
    ensures CleanRings(CleanRings(rings)) == CleanRings(rings) <==> !AnyOvershoot(rings)
  {
    if rings != [] {
      var front, last := rings[..|rings| - 1], rings[|rings| - 1];
      assert rings == front + [last];
      CleanTwice(front);
      assert AnyOvershoot(rings) <==> AnyOvershoot(front) || (Usable(last) && Overshoots(last.points, MAX_RING_VERTICES));
      if Usable(last) {
        var one := Ring(Simplified(last.points, MAX_RING_VERTICES));
        assert one in CleanRings(rings);
        CleanRingBounds(rings, one);
        assert (CleanRings(front) + [one])[..|CleanRings(front)|] == CleanRings(front);
        SimplifyTwice(last.points, MAX_RING_VERTICES);
      }
    }
  }

  lemma {:induction false} CleanPolygonsTwice<T>(polygons: seq<PolygonJson<T>>)
    ensures |CleanPolygons(CleanPolygons(polygons))| == |CleanPolygons(polygons)|
    ensures CleanPolygons(CleanPolygons(polygons)) == CleanPolygons(polygons) <==> !AnyOvershoot(JoinedRings(polygons))
  {
    if polygons != [] {
      var front, last := polygons[..|polygons| - 1], RingsOf(polygons[|polygons| - 1]);
      CleanPolygonsTwice(front);
      CleanTwice(last);
      CleanIsEmptyIff(last);
      assert AnyOvershoot(JoinedRings(polygons)) <==> AnyOvershoot(JoinedRings(front)) || AnyOvershoot(last);
      var clean, one := CleanPolygons(front), CleanRings(last);
      if one != [] {
        assert (clean + [Rings(one)])[..|clean|] == clean;
      }
    }
  }

  /** Normalizing twice is normalizing once exactly when no usable ring overshoots the limit; so it
      is idempotent on every geometry with closed rings. */
  lemma NormalizeTwice<T>(g: Geometry<T>)
    requires Normalized(g).Some?
    ensures Normalized(Normalized(g).value) == Normalized(g) <==> !AnyOvershoot(AllRings(g))
  {
    match g
    case OtherGeometry =>
    case Polygon(p) =>
      CleanTwice(RingsOf(p));
    case MultiPolygon(polygons) =>
      CleanPolygonsTwice(polygons.value);
      CleanedPolygonsJoin(polygons.value);
      OneOrMany(CleanPolygons(polygons.value));
  }

  /** Collapsing a one-polygon list does not change what a second pass does to it. */
  lemma OneOrMany<T>(clean: seq<PolygonJson<T>>)
    requires clean != [] && |CleanPolygons(clean)| == |clean|
    requires forall p :: p in clean ==> p.Rings? && p.rings != []
    ensures var g := if |clean| == 1 then Polygon(clean[0]) else MultiPolygon(Some(clean));
            Normalized(g) == Some(g) <==> CleanPolygons(clean) == clean
  {
    if |clean| == 1 {
      assert clean == [Rings(clean[0].rings)];
      assert clean[..0] == [] && CleanPolygons(clean[..0]) == [];
    }
  }

  lemma ClosedRingsNeverOvershoot<T>(rings: seq<RingJson<T>>)
    requires forall r :: r in rings && r.Ring? ==> IsClosed(r.points)
    ensures !AnyOvershoot(rings)
  {
  }

  /** No result means that no ring of at least four positions existed. */
  lemma NothingKeptIff<T>(g: Geometry<T>)
    ensures Normalized(g) == None <==> forall r :: r in AllRings(g) ==> !(r.Ring? && |r.points| >= 4)
  {
    NormalizedRings(g);
    CleanIsEmptyIff(AllRings(g));
  }

  /** A closed triangle is kept as it is, whatever stands beside it. */
  lemma TriangleIsKept<T>(a: T, b: T, c: T, rings: seq<RingJson<T>>)
    requires Ring([a, b, c, a]) in rings
    ensures var r := Normalized(Polygon(Rings(rings))); r.Some? && Ring([a, b, c, a]) in AllRings(r.value)
  {
    NormalizedRings(Polygon(Rings(rings)));
    ShortRingIsKept(rings, [a, b, c, a]);
  }

  lemma {:induction false} ShortRingIsKept<T>(rings: seq<RingJson<T>>, ring: seq<T>)
    requires Ring(ring) in rings && 4 <= |ring| <= 512
    ensures Ring(ring) in CleanRings(rings)
  {
    var front, last := rings[..|rings| - 1], rings[|rings| - 1];
    assert rings == front + [last];
    if last != Ring(ring) {
      ShortRingIsKept(front, ring);
    }
  }

  // ----- which positions, rings and polygons ------------------------------------------------

  lemma {:induction false} SampleAt<T>(ring: seq<T>, step: nat, k: nat)
    requires step >= 1 && k < |EveryNth(ring, step)|
    ensures k * step < |ring| && EveryNth(ring, step)[k] == ring[k * step]
    decreases |ring|
  {
    if k > 0 {
      SampleAt(ring[step..], step, k - 1);
      OneStepMore(k, step);
    }
  }

  lemma SampleShape<T>(ring: seq<T>, step: nat)
    requires step >= 1 && ring != []
    ensures var s, r := EveryNth(ring, step), Closed(Sampled(ring, step));
            s != [] && |s| <= |r| && r[..|s|] == s
            && r[|s|..] == (if Last(s) != Last(ring) then [Last(ring)] else [])
                           + (if ring[0] != Last(ring) then [ring[0]] else [])
  {
    EveryNthStart(ring, step);
  }

  lemma SampleNumbers<T>(ring: seq<T>, m: nat)
    requires |ring| > m >= 2
    ensures var step, c := Step(|ring|, m), |EveryNth(ring, Step(|ring|, m))|;
            (step - 1) * (m - 1) < |ring| - 1 <= step * (m - 1) && 1 <= c && (c - 1) * step < |ring| <= (c - 1) * step + step
  {
    var at := SampleCount(ring, Step(|ring|, m));
    CeilDivBounds(|ring| - 1, m - 1);
  }

  /** A ring over the limit keeps every step-th position, with the smallest step that fits, then its
      last position and its first, each where it is missing. */
  lemma SampleIs<T>(ring: seq<T>, m: nat) returns (step: nat, c: nat)
    requires |ring| > m >= 2
    ensures 1 <= step && (step - 1) * (m - 1) < |ring| - 1 <= step * (m - 1)
    ensures 1 <= c && (c - 1) * step < |ring| <= (c - 1) * step + step
    ensures var r := Simplified(ring, m);
            c <= |r| && (forall k :: 0 <= k < c ==> 0 <= k * step < |ring| && r[k] == ring[k * step])
            && r[c..] == (if r[c - 1] != Last(ring) then [Last(ring)] else [])
                         + (if ring[0] != Last(ring) then [ring[0]] else [])
  {
    step := Step(|ring|, m);
    SampleNumbers(ring, m);
    SampleShape(ring, step);
    var s, r := EveryNth(ring, step), Simplified(ring, m);
    c := |s|;
    forall k | 0 <= k < c
      ensures 0 <= k * step < |ring| && r[k] == ring[k * step]
    {
      SampleAt(ring, step, k);
      assert r[k] == r[..c][k];
    }
  }

  ghost predicate Ascending(places: seq<nat>) {
    forall k, l :: 0 <= k < l < |places| ==> places[k] < places[l]
  }

  /** The lists kept are the rings of at least four positions, in order, each simplified. */
  lemma {:induction false} KeptRingsAre<T>(rings: seq<RingJson<T>>) returns (places: seq<nat>)
    ensures Ascending(places)
    ensures forall i: nat :: i in places <==> i < |rings| && rings[i].Ring? && |rings[i].points| >= 4
    ensures |CleanRings(rings)| == |places|
    ensures forall k :: 0 <= k < |places| ==>
              places[k] in places && CleanRings(rings)[k] == Ring(Simplified(rings[places[k]].points, 512))
  {
    places := [];
    if rings != [] {
      var front, last := rings[..|rings| - 1], rings[|rings| - 1];
      places := KeptRingsAre(front);
      if last.Ring? && |last.points| >= 4 {
        places := places + [|front|];
      }
    }
  }

  ghost predicate HasUsable<T>(p: PolygonJson<T>) {
    p.Rings? && exists r :: r in p.rings && r.Ring? && |r.points| >= 4
  }

  lemma {:induction false} KeptPolygonsAre<T>(polygons: seq<PolygonJson<T>>) returns (places: seq<nat>)
    ensures Ascending(places)
    ensures forall i: nat :: i in places <==> i < |polygons| && HasUsable(polygons[i])
    ensures |CleanPolygons(polygons)| == |places|
    ensures forall k :: 0 <= k < |places| ==>
              places[k] in places && CleanPolygons(polygons)[k] == Rings(CleanRings(RingsOf(polygons[places[k]])))
  {
    places := [];
    if polygons != [] {
      var front, last := polygons[..|polygons| - 1], polygons[|polygons| - 1];
      places := KeptPolygonsAre(front);
      CleanIsEmptyIff(RingsOf(last));
      if HasUsable(last) {
        places := places + [|front|];
      }
    }
  }

  /** Polygons stay apart: each one with a kept ring comes back with its own kept rings, in order; one
      alone comes back as a Polygon. */
  lemma PolygonsStayApart<T>(polygons: seq<PolygonJson<T>>) returns (places: seq<nat>)
    ensures Ascending(places) && forall i: nat :: i in places <==> i < |polygons| && HasUsable(polygons[i])
    ensures match Normalized(MultiPolygon(Some(polygons)))
            case None => places == []
            case Some(Polygon(p)) => |places| == 1 && places[0] in places && p == Rings(CleanRings(RingsOf(polygons[places[0]])))
            case Some(MultiPolygon(Some(out))) =>
              |out| == |places| >= 2
              && forall k :: 0 <= k < |out| ==> places[k] in places && out[k] == Rings(CleanRings(RingsOf(polygons[places[k]])))
            case Some(MultiPolygon(None)) => false
            case Some(OtherGeometry) => false
  {
    places := KeptPolygonsAre(polygons);
  }

  /** A Polygon comes back as one, with its kept rings; nothing else has a boundary. */
  lemma OtherResults<T>(g: Geometry<T>)
    ensures g.Polygon? && Normalized(g).Some? ==>
              g.coordinates.Rings? && Normalized(g).value == Polygon(Rings(CleanRings(g.coordinates.rings)))
    ensures g.OtherGeometry? || (g.MultiPolygon? && g.polygons == None) ==> Normalized(g) == None
  {
  }
}

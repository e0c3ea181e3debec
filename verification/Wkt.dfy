/** GeoJSON polygons to WKT: coordinate normalization and the nested printer, with a reader for what it prints. */
module Wkt {
  import opened Options

  // ----- coordinates ----------------------------------------------------------------------

  /** x % 360 of the source language: never negative. */
  function Mod360(x: real): real {
    x - 360.0 * (x / 360.0).Floor as real
  }

  /** Wrap into [-180, 180]; values already there stay, including +180. */
  function NormalizeLongitude(lng: real): real {
    if -180.0 <= lng <= 180.0 then lng
    else Mod360(Mod360(lng + 180.0) + 360.0) - 180.0
  }

  function NormalizeLatitude(lat: real): real {
    if lat < -90.0 then -90.0 else if lat > 90.0 then 90.0 else lat
  }

  function Turns(k: int): real {
    360.0 * k as real
  }

  /** The two longitudes differ by whole turns. */
  ghost predicate SameMeridian(x: real, y: real) {
    exists k :: x - y == Turns(k)
  }

  lemma Mod360Lands(x: real) returns (k: int)
    ensures 0.0 <= Mod360(x) < 360.0 && x == Mod360(x) + 360.0 * k as real
  {
    k := (x / 360.0).Floor;
  }

  /** Off-map longitudes land in [-180, 180) on the same meridian. */
  lemma WrapLands(lng: real)
    ensures -180.0 <= NormalizeLongitude(lng) <= 180.0
    ensures NormalizeLongitude(lng) == 180.0 <==> lng == 180.0
    ensures SameMeridian(lng, NormalizeLongitude(lng))
    ensures NormalizeLongitude(NormalizeLongitude(lng)) == NormalizeLongitude(lng)
  {
    if -180.0 <= lng <= 180.0 {
      assert lng - lng == Turns(0);
    } else {
      var k := Mod360Lands(lng + 180.0);
      var l := Mod360Lands(Mod360(lng + 180.0) + 360.0);
      assert lng - NormalizeLongitude(lng) == Turns(k + l - 1);
    }
  }

  lemma MeridianGap(x: real, y: real, k: int)
    requires x - y == Turns(k) && -180.0 <= x < 180.0 && -180.0 <= y < 180.0
    ensures x == y
  {
    assert k == 0;
  }

  /** Wrapping identifies longitudes of one meridian, except that an exact +180 is kept apart
      from every other spelling of the antimeridian. */
  lemma WrapIsCanonicalOffTheSeam(x: real, y: real)
    requires SameMeridian(x, y)
    ensures NormalizeLongitude(x) == NormalizeLongitude(y) <==> (x == 180.0 <==> y == 180.0)
  {
    WrapLands(x);
    WrapLands(y);
    var k :| x - y == Turns(k);
    var a :| x - NormalizeLongitude(x) == Turns(a);
    var b :| y - NormalizeLongitude(y) == Turns(b);
    if x != 180.0 && y != 180.0 {
      MeridianGap(NormalizeLongitude(x), NormalizeLongitude(y), k - a + b);
    }
  }

  function Distance(x: real, y: real): real {
    if x < y then y - x else x - y
  }

  /** The value of [-180, 180] on the meridian; +180 only for +180. */
  ghost predicate IsWrapped(x: real, lng: real) {
    -180.0 <= x <= 180.0 && SameMeridian(lng, x) && (x == 180.0 <==> lng == 180.0)
  }

  /** The point of [-90, 90] nearest to the latitude. */
  ghost predicate IsClamped(y: real, lat: real) {
    -90.0 <= y <= 90.0 && forall z :: -90.0 <= z <= 90.0 ==> Distance(lat, y) <= Distance(lat, z)
  }

  /** The clamp is the nearest latitude: fixed inside, the end on its own side outside, monotone. */
  lemma ClampIsNearest(lat: real, other: real)
    ensures IsClamped(NormalizeLatitude(lat), lat)
    ensures -90.0 <= lat <= 90.0 ==> NormalizeLatitude(lat) == lat
    ensures (lat < -90.0 ==> NormalizeLatitude(lat) == -90.0) && (lat > 90.0 ==> NormalizeLatitude(lat) == 90.0)
    ensures lat <= other ==> NormalizeLatitude(lat) <= NormalizeLatitude(other)
  {
  }

  // ----- printing -------------------------------------------------------------------------

  /** A GeoJSON position; the printer unpacks exactly two numbers. */
  type Position = seq<real>

  datatype GeoJson =
    | Polygon(rings: seq<seq<Position>>)
    | MultiPolygon(polygons: seq<seq<seq<Position>>>)
    | Other(kind: string)

  /** One printed coordinate pair. */
  type Pair = (string, string)

  /** How the program formats a number. */
  type Format = real -> string

  predicate IsToken(s: string) {
    s != "" && forall i :: 0 <= i < |s| ==> s[i] !in " ,()"
  }

  function Join(parts: seq<string>, sep: string): string {
    if parts == [] then "" else if |parts| == 1 then parts[0] else parts[0] + sep + Join(parts[1..], sep)
  }

  predicate AllPairs(ring: seq<Position>) {
    forall p :: p in ring ==> |p| == 2
  }

  predicate AllRingsPairs(rings: seq<seq<Position>>) {
    forall r :: r in rings ==> AllPairs(r)
  }

  function PairsOf(ring: seq<Position>, show: Format): seq<Pair>
    requires AllPairs(ring)
  {
    seq(|ring|, i requires 0 <= i < |ring| =>
      (show(NormalizeLongitude(ring[i][0])), show(NormalizeLatitude(ring[i][1]))))
  }

  function RingPairs(rings: seq<seq<Position>>, show: Format): seq<seq<Pair>>
    requires AllRingsPairs(rings)
  {
    seq(|rings|, i requires 0 <= i < |rings| => PairsOf(rings[i], show))
  }

  function PairText(p: Pair): string {
    p.0 + " " + p.1
  }

  function Texts<T>(xs: seq<T>, show: T -> string): seq<string> {
    seq(|xs|, i requires 0 <= i < |xs| => show(xs[i]))
  }

  function RingText(ring: seq<Pair>): string {
    "(" + Join(Texts(ring, PairText), ", ") + ")"
  }

  function PolygonText(rings: seq<seq<Pair>>): string {
    "(" + Join(Texts(rings, RingText), ",") + ")"
  }

  function MultiPolygonText(polygons: seq<seq<seq<Pair>>>): string {
    "MULTIPOLYGON(" + Join(Texts(polygons, PolygonText), ",") + ")"
  }

  /** `_polygon_coords_to_wkt`; a position that is not a pair raises. */
  method PolygonCoordsToWkt(rings: seq<seq<Position>>, show: Format) returns (text: Option<string>)
    ensures text == if AllRingsPairs(rings) then Some(PolygonText(RingPairs(rings, show))) else None
  {
    var printed: seq<string> := [];
    for i := 0 to |rings|
      invariant AllRingsPairs(rings[..i])
      invariant printed == seq(i, j requires 0 <= j < i => RingText(PairsOf(rings[j], show)))
    {
      if !AllPairs(rings[i]) {
        assert rings[i] in rings;
        return None;
      }
      printed := printed + [RingText(PairsOf(rings[i], show))];
    }
    assert rings[..|rings|] == rings;
    assert printed == Texts(RingPairs(rings, show), RingText);
    return Some("(" + Join(printed, ",") + ")");
  }

  predicate Printable(g: GeoJson) {
    match g
    case Polygon(rings) => AllRingsPairs(rings)
    case MultiPolygon(polygons) => forall p :: p in polygons ==> AllRingsPairs(p)
    case Other(_) => false
  }

  /** The nested rings the text stands for. */
  function Meaning(g: GeoJson, show: Format): seq<seq<seq<Pair>>>
    requires Printable(g)
  {
    match g
    case Polygon(rings) => [RingPairs(rings, show)]
    case MultiPolygon(polygons) =>
      seq(|polygons|, i requires 0 <= i < |polygons| => RingPairs(polygons[i], show))
  }

  function GeoJsonText(g: GeoJson, show: Format): Option<string> {
    if Printable(g) then Some(MultiPolygonText(Meaning(g, show))) else None
  }

  method GeoJsonToWkt(g: GeoJson, show: Format) returns (text: Option<string>)
    ensures text == GeoJsonText(g, show)
  {
    match g {
      case Other(_) =>
        return None;
      case Polygon(rings) =>
        var body := PolygonCoordsToWkt(rings, show);
        if body == None {
          return None;
        }
        assert Texts(Meaning(g, show), PolygonText) == [body.value];
        return Some("MULTIPOLYGON(" + body.value + ")");
      case MultiPolygon(polygons) =>
        var bodies: seq<string> := [];
        for i := 0 to |polygons|
          invariant forall j :: 0 <= j < i ==> AllRingsPairs(polygons[j])
          invariant bodies == seq(i, j requires 0 <= j < i => PolygonText(RingPairs(polygons[j], show)))
        {
          var body := PolygonCoordsToWkt(polygons[i], show);
          if body == None {
            assert polygons[i] in polygons;
            return None;
          }
          bodies := bodies + [body.value];
        }
        assert bodies == Texts(Meaning(g, show), PolygonText);
        return Some("MULTIPOLYGON(" + Join(bodies, ",") + ")");
    }
  }

  // ----- reading back ---------------------------------------------------------------------

  /** What was read and the text left over. */
  datatype Read<T> = Fail | Got(value: T, rest: string)

  /** The longest prefix without delimiters. */
  ghost function ReadToken(s: string): (string, string) {
    if s == "" || s[0] in " ,()" then ("", s)
    else var (t, rest) := ReadToken(s[1..]); ([s[0]] + t, rest)
  }

  ghost function ReadPair(s: string): Read<Pair> {
    var (lng, rest) := ReadToken(s);
    if lng == "" || rest == "" || rest[0] != ' ' then Fail
    else
      var (lat, rest') := ReadToken(rest[1..]);
      if lat == "" then Fail else Got((lng, lat), rest')
  }

  /** One or more items parsed by `item`, separated by `sep`, up to a closing parenthesis. */
  ghost function ReadItems<T>(s: string, item: string -> Read<T>, sep: string): Read<seq<T>>
    decreases |s|
  {
    match item(s)
    case Fail => Fail
    case Got(x, rest) =>
      if rest != "" && rest[0] == ')' then Got([x], rest[1..])
      else if |sep| <= |rest| < |s| && rest[..|sep|] == sep then
        match ReadItems(rest[|sep|..], item, sep)
        case Fail => Fail
        case Got(xs, rest') => Got([x] + xs, rest')
      else Fail
  }

  /** A parenthesized, possibly empty list. */
  ghost function ReadList<T>(s: string, item: string -> Read<T>, sep: string): Read<seq<T>> {
    if s == "" || s[0] != '(' then Fail
    else if |s| > 1 && s[1] == ')' then Got([], s[2..])
    else ReadItems(s[1..], item, sep)
  }

  ghost function ReadRing(s: string): Read<seq<Pair>> {
    ReadList(s, ReadPair, ", ")
  }

  ghost function ReadPolygon(s: string): Read<seq<seq<Pair>>> {
    ReadList(s, ReadRing, ",")
  }

  const TAG := "MULTIPOLYGON"

  ghost function ReadWkt(s: string): Option<seq<seq<seq<Pair>>>> {
    if |s| < |TAG| || s[..|TAG|] != TAG then None
    else
      var r := ReadList(s[|TAG|..], ReadPolygon, ",");
      if r.Got? && r.rest == "" then Some(r.value) else None
  }

  lemma {:induction false} ReadTokenBack(t: string, rest: string)
    requires (forall i :: 0 <= i < |t| ==> t[i] !in " ,()") && (rest == "" || rest[0] in " ,()")
    ensures ReadToken(t + rest) == (t, rest)
  {
    if t == "" {
      assert t + rest == rest;
    } else {
      assert (t + rest)[1..] == t[1..] + rest && (t + rest)[0] == t[0];
      ReadTokenBack(t[1..], rest);
      assert [t[0]] + t[1..] == t;
    }
  }

  predicate PairSafe(p: Pair) {
    IsToken(p.0) && IsToken(p.1)
  }

  lemma ReadPairBack(p: Pair, rest: string)
    requires PairSafe(p) && rest != "" && rest[0] in ",)"
    ensures ReadPair(PairText(p) + rest) == Got(p, rest)
  {
    var tail := " " + p.1 + rest;
    assert PairText(p) + rest == p.0 + tail;
    ReadTokenBack(p.0, tail);
    assert tail[1..] == p.1 + rest;
    ReadTokenBack(p.1, rest);
  }

  /** An item parser undoes a printer whenever a separator or a closing parenthesis follows. */
  ghost predicate Undoes<T(!new)>(item: string -> Read<T>, show: T -> string, good: T -> bool) {
    forall x, rest {:trigger item(show(x) + rest)} :: good(x) && rest != "" && rest[0] in ",)" ==>
      item(show(x) + rest) == Got(x, rest) && show(x) != "" && show(x)[0] != ')'
  }

  lemma {:induction false} ReadItemsBack<T(!new)>(xs: seq<T>, rest: string, item: string -> Read<T>, show: T -> string,
                                                  good: T -> bool, sep: string)
    requires xs != [] && Undoes(item, show, good) && (forall x :: x in xs ==> good(x))
    requires sep == "," || sep == ", "
    ensures ReadItems(Join(Texts(xs, show), sep) + ")" + rest, item, sep) == Got(xs, rest)
  {
    var s := Join(Texts(xs, show), sep) + ")" + rest;
    var x := xs[0];
    if |xs| == 1 {
      assert xs == [x] && Join(Texts(xs, show), sep) == show(x);
      assert s == show(x) + (")" + rest);
      assert item(show(x) + (")" + rest)) == Got(x, ")" + rest);
      assert (")" + rest)[1..] == rest;
    } else {
      assert Texts(xs, show)[1..] == Texts(xs[1..], show);
      var more := Join(Texts(xs[1..], show), sep) + ")" + rest;
      assert s == show(x) + (sep + more);
      assert item(show(x) + (sep + more)) == Got(x, sep + more);
      assert (sep + more)[..|sep|] == sep && (sep + more)[|sep|..] == more;
      ReadItemsBack(xs[1..], rest, item, show, good, sep);
      assert [x] + xs[1..] == xs;
    }
  }

  lemma {:induction false} JoinStart(parts: seq<string>, sep: string)
    requires parts != [] && parts[0] != ""
    ensures var j := Join(parts, sep); j != "" && j[0] == parts[0][0]
  {
  }

  lemma ReadListBack<T(!new)>(xs: seq<T>, rest: string, item: string -> Read<T>, show: T -> string,
                              good: T -> bool, sep: string)
    requires Undoes(item, show, good) && (forall x :: x in xs ==> good(x))
    requires sep == "," || sep == ", "
    ensures ReadList("(" + Join(Texts(xs, show), sep) + ")" + rest, item, sep) == Got(xs, rest)
  {
    var body := Join(Texts(xs, show), sep);
    var s := "(" + body + ")" + rest;
    assert s[1..] == body + ")" + rest;
    if xs == [] {
      assert s[2..] == rest;
    } else {
      assert item(show(xs[0]) + ")") == Got(xs[0], ")");
      JoinStart(Texts(xs, show), sep);
      assert s[1] == show(xs[0])[0];
      ReadItemsBack(xs, rest, item, show, good, sep);
    }
  }

  ghost predicate RingSafe(ring: seq<Pair>) {
    forall p :: p in ring ==> PairSafe(p)
  }

  ghost predicate PolygonSafe(rings: seq<seq<Pair>>) {
    forall r :: r in rings ==> RingSafe(r)
  }

  lemma PairUndone()
    ensures Undoes(ReadPair, PairText, PairSafe)
  {
    forall p, rest | PairSafe(p) && rest != "" && rest[0] in ",)"
      ensures ReadPair(PairText(p) + rest) == Got(p, rest) && PairText(p) != "" && PairText(p)[0] != ')'
    {
      ReadPairBack(p, rest);
    }
  }

  lemma RingUndone()
    ensures Undoes(ReadRing, RingText, RingSafe)
  {
    PairUndone();
    forall ring, rest | RingSafe(ring) && rest != "" && rest[0] in ",)"
      ensures ReadRing(RingText(ring) + rest) == Got(ring, rest) && RingText(ring) != "" && RingText(ring)[0] != ')'
    {
      ReadListBack(ring, rest, ReadPair, PairText, PairSafe, ", ");
      assert RingText(ring) == "(" + Join(Texts(ring, PairText), ", ") + ")";
    }
  }

  lemma PolygonUndone()
    ensures Undoes(ReadPolygon, PolygonText, PolygonSafe)
  {
    RingUndone();
    forall rings, rest | PolygonSafe(rings) && rest != "" && rest[0] in ",)"
      ensures ReadPolygon(PolygonText(rings) + rest) == Got(rings, rest)
              && PolygonText(rings) != "" && PolygonText(rings)[0] != ')'
    {
      ReadListBack(rings, rest, ReadRing, RingText, RingSafe, ",");
      assert PolygonText(rings) == "(" + Join(Texts(rings, RingText), ",") + ")";
    }
  }

  lemma ReadBack(polygons: seq<seq<seq<Pair>>>)
    requires forall p :: p in polygons ==> PolygonSafe(p)
    ensures ReadWkt(MultiPolygonText(polygons)) == Some(polygons)
  {
    PolygonUndone();
    ReadListBack(polygons, "", ReadPolygon, PolygonText, PolygonSafe, ",");
    var body := "(" + Join(Texts(polygons, PolygonText), ",") + ")";
    assert "MULTIPOLYGON(" == TAG + "(" && body + "" == body;
    assert MultiPolygonText(polygons) == TAG + body;
    assert (TAG + body)[..|TAG|] == TAG && (TAG + body)[|TAG|..] == body;
  }

  /** Formatted numbers hold no delimiter. */
  ghost predicate Formats(show: Format) {
    forall x :: IsToken(show(x))
  }

  lemma MeaningIsSafe(g: GeoJson, show: Format)
    requires Printable(g) && Formats(show)
    ensures forall p :: p in Meaning(g, show) ==> PolygonSafe(p)
  {
  }

  /** The text determines the nesting and every coordinate: reading it back gives the rings with
      wrapped longitudes and clamped latitudes, nothing more and nothing less. */
  lemma PrintedWktReadsBack(g: GeoJson, show: Format)
    requires Printable(g) && Formats(show)
    ensures ReadWkt(MultiPolygonText(Meaning(g, show))) == Some(Meaning(g, show))
  {
    MeaningIsSafe(g, show);
    ReadBack(Meaning(g, show));
  }

  /** Two geometries print alike exactly when their normalized rings are alike; a polygon and the
      one-polygon multipolygon with the same rings are not told apart. */
  lemma SameTextSameRings(g: GeoJson, h: GeoJson, show: Format)
    requires Printable(g) && Printable(h) && Formats(show)
    ensures MultiPolygonText(Meaning(g, show)) == MultiPolygonText(Meaning(h, show))
            <==> Meaning(g, show) == Meaning(h, show)
  {
    PrintedWktReadsBack(g, show);
    PrintedWktReadsBack(h, show);
  }

  // ----- what the text holds, position by position ------------------------------------------

  ghost predicate ShowsPosition(pair: Pair, pos: Position, show: Format) {
    |pos| == 2 && exists x, y :: pair == (show(x), show(y)) && IsWrapped(x, pos[0]) && IsClamped(y, pos[1])
  }

  ghost predicate ShowsRing(ring: seq<Pair>, source: seq<Position>, show: Format) {
    |ring| == |source| && forall k :: 0 <= k < |ring| ==> ShowsPosition(ring[k], source[k], show)
  }

  ghost predicate ShowsPolygon(rings: seq<seq<Pair>>, source: seq<seq<Position>>, show: Format) {
    |rings| == |source| && forall j :: 0 <= j < |rings| ==> ShowsRing(rings[j], source[j], show)
  }

  ghost predicate Shows(polygons: seq<seq<seq<Pair>>>, g: GeoJson, show: Format) {
    match g
    case Polygon(rings) => |polygons| == 1 && ShowsPolygon(polygons[0], rings, show)
    case MultiPolygon(sources) =>
      |polygons| == |sources| && forall i :: 0 <= i < |polygons| ==> ShowsPolygon(polygons[i], sources[i], show)
    case Other(_) => false
  }

  /** Every position is a pair of numbers. */
  ghost predicate HoldsPairs(g: GeoJson) {
    match g
    case Polygon(rings) => forall ring, pos :: ring in rings && pos in ring ==> |pos| == 2
    case MultiPolygon(polygons) => forall p, ring, pos :: p in polygons && ring in p && pos in ring ==> |pos| == 2
    case Other(_) => false
  }

  lemma PairsShowPositions(ring: seq<Position>, show: Format)
    requires AllPairs(ring)
    ensures ShowsRing(PairsOf(ring, show), ring, show)
  {
    var pairs := PairsOf(ring, show);
    forall k | 0 <= k < |ring|
      ensures ShowsPosition(pairs[k], ring[k], show)
    {
      assert ring[k] in ring;
      var x, y := NormalizeLongitude(ring[k][0]), NormalizeLatitude(ring[k][1]);
      WrapLands(ring[k][0]);
      ClampIsNearest(ring[k][1], ring[k][1]);
      assert pairs[k] == (show(x), show(y));
    }
  }

  lemma RingsShowPolygon(rings: seq<seq<Position>>, show: Format)
    requires AllRingsPairs(rings)
    ensures ShowsPolygon(RingPairs(rings, show), rings, show)
  {
    forall j | 0 <= j < |rings|
      ensures ShowsRing(RingPairs(rings, show)[j], rings[j], show)
    {
      assert rings[j] in rings;
      PairsShowPositions(rings[j], show);
    }
  }

  lemma MeaningShows(g: GeoJson, show: Format)
    requires Printable(g)
    ensures Shows(Meaning(g, show), g, show)
  {
    match g
    case Polygon(rings) => RingsShowPolygon(rings, show);
    case MultiPolygon(polygons) =>
      forall i | 0 <= i < |polygons|
        ensures ShowsPolygon(Meaning(g, show)[i], polygons[i], show)
      {
        assert polygons[i] in polygons;
        RingsShowPolygon(polygons[i], show);
      }
  }

  lemma PrintableIff(g: GeoJson)
    ensures Printable(g) <==> HoldsPairs(g)
  {
    match g
    case Polygon(rings) =>
      if HoldsPairs(g) {
        assert forall r :: r in rings ==> AllPairs(r);
      }
    case MultiPolygon(polygons) =>
      if HoldsPairs(g) {
        forall p | p in polygons
          ensures AllRingsPairs(p)
        {
          assert forall r :: r in p ==> AllPairs(r);
        }
      }
    case Other(_) =>
  }

  /** Exactly the polygons and multipolygons of pairs are printed. Read back, the text has the
      polygons, rings and positions of the input in their order: first the longitude wrapped onto the
      map, then the latitude clamped onto it. */
  lemma TextShowsGeometry(g: GeoJson, show: Format)
    requires Formats(show)
    ensures GeoJsonText(g, show).Some? <==> HoldsPairs(g)
    ensures HoldsPairs(g) ==>
              var read := ReadWkt(GeoJsonText(g, show).value);
              read.Some? && Shows(read.value, g, show)
  {
    PrintableIff(g);
    if HoldsPairs(g) {
      PrintedWktReadsBack(g, show);
      MeaningShows(g, show);
    }
  }

  /** The very characters: a space in a position, a comma and a space between positions, a bare
      comma between rings and between polygons. */
  lemma TextsOfTwo(a: Pair, b: Pair, r: seq<Pair>, r': seq<Pair>, p: seq<seq<Pair>>, p': seq<seq<Pair>>)
    ensures RingText([a, b]) == "(" + a.0 + " " + a.1 + ", " + b.0 + " " + b.1 + ")"
    ensures PolygonText([r, r']) == "(" + RingText(r) + "," + RingText(r') + ")"
    ensures MultiPolygonText([p, p']) == "MULTIPOLYGON(" + PolygonText(p) + "," + PolygonText(p') + ")"
  {
    JoinTwo(PairText(a), PairText(b), ", ");
    assert Texts([a, b], PairText) == [PairText(a), PairText(b)];
    JoinTwo(RingText(r), RingText(r'), ",");
    assert Texts([r, r'], RingText) == [RingText(r), RingText(r')];
    JoinTwo(PolygonText(p), PolygonText(p'), ",");
    assert Texts([p, p'], PolygonText) == [PolygonText(p), PolygonText(p')];
  }

  lemma JoinTwo(x: string, y: string, sep: string)
    ensures Join([x, y], sep) == x + sep + y
  {
    assert [x, y][1..] == [y];
  }
}

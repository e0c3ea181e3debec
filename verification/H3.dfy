/** H3 cell lists: the resolution-ordered overlap check. The cell library is a tree of prefixes. */
module H3 {

  /** A cell is a base cell and one child digit for each finer resolution. */
  datatype Cell = Cell(base: nat, digits: seq<nat>)

  /** A list entry: rejected by the library, or a text it accepts for a cell. `variant` 0 is the text
      the library itself prints; any other variant is a different accepted spelling of that cell. */
  datatype CellText = Junk(raw: string) | Text(cell: Cell, variant: nat)

  predicate ValidateH3Cell(t: CellText) {
    t.Text?
  }

  function Resolution(t: CellText): nat
    requires ValidateH3Cell(t)
  {
    |t.cell.digits|
  }

  /** cell_to_parent, as the library prints it. */
  function CellToParent(t: CellText, resolution: nat): CellText
    requires ValidateH3Cell(t) && resolution <= Resolution(t)
  {
    Text(Cell(t.cell.base, t.cell.digits[..resolution]), 0)
  }

  predicate IsAncestor(p: Cell, c: Cell) {
    p.base == c.base && |p.digits| < |c.digits| && p.digits == c.digits[..|p.digits|]
  }

  /** Some valid entry lies strictly inside another one that is spelled as the library prints it. */
  ghost predicate Overlaps(cells: seq<CellText>) {
    exists p, c :: p in cells && c in cells && Covers(p, c)
  }

  predicate Covers(p: CellText, c: CellText) {
    p.Text? && c.Text? && p.variant == 0 && IsAncestor(p.cell, c.cell)
  }

  function ValidCells(cells: seq<CellText>): seq<CellText> {
    if cells == [] then []
    else (if ValidateH3Cell(cells[0]) then [cells[0]] else []) + ValidCells(cells[1..])
  }

  lemma {:induction false} ValidCellsAre(cells: seq<CellText>)
    ensures forall t :: t in ValidCells(cells) <==> t in cells && ValidateH3Cell(t)
  {
    if cells != [] {
      ValidCellsAre(cells[1..]);
      assert cells == [cells[0]] + cells[1..];
    }
  }

  ghost predicate Coarsest(t: CellText, rest: set<CellText>)
    requires forall u :: u in rest ==> ValidateH3Cell(u)
  {
    t in rest && forall u :: u in rest ==> Resolution(t) <= Resolution(u)
  }

  lemma CoarsestExists(rest: set<CellText>) returns (m: CellText)
    requires rest != {} && forall t :: t in rest ==> ValidateH3Cell(t)
    ensures Coarsest(m, rest)
  {
    var t :| t in rest;
    m := t;
    if rest != {t} {
      assert rest == {t} + (rest - {t});
      var n := CoarsestExists(rest - {t});
      m := if Resolution(t) <= Resolution(n) then t else n;
      assert forall u :: u in rest ==> u == t || u in rest - {t};
    }
  }

  /** One pass over the distinct valid cells, coarsest first and in any order within a resolution. */
  method HasH3Overlap(cells: seq<CellText>) returns (overlap: bool)
    ensures overlap <==> Overlaps(cells)
  {
    ValidCellsAre(cells);
    var validCells := ValidCells(cells);
    if |validCells| <= 1 {
      assert Overlaps(cells) ==> exists p, c :: p in validCells && c in validCells && p != c && Covers(p, c);
      return false;
    }
    ghost var all := set t | t in validCells;
    var rest := set t | t in validCells;
    var seen: set<CellText> := {};
    while rest != {}
      invariant seen + rest == all && seen !! rest
      invariant forall s, t :: s in seen && t in rest ==> Resolution(s) <= Resolution(t)
      invariant forall p, c :: p in all && c in seen ==> !Covers(p, c)
      decreases rest
    {
      ghost var coarsest := CoarsestExists(rest);
      var cell :| cell in rest && forall u :: u in rest ==> Resolution(cell) <= Resolution(u);
      var resolution := Resolution(cell);
      var parentResolution := resolution;
      while parentResolution > 0
        invariant parentResolution <= resolution
        invariant forall r: nat :: parentResolution <= r < resolution ==> CellToParent(cell, r) !in seen
      {
        parentResolution := parentResolution - 1;
        var parent := CellToParent(cell, parentResolution);
        if parent in seen {
          assert Covers(parent, cell);
          return true;
        }
      }
      forall p | p in all
        ensures !Covers(p, cell)
      {
        assert Covers(p, cell) ==> p == CellToParent(cell, |p.cell.digits|) && p in rest;
      }
      seen := seen + {cell};
      rest := rest - {cell};
    }
    assert all == seen;
    return false;
  }

  // ----- what the answer means ------------------------------------------------------------

  predicate AllCanonical(cells: seq<CellText>) {
    forall t | t in cells :: t.Text? ==> t.variant == 0
  }

  /** The cell or any cell inside it. */
  predicate Within(d: Cell, c: Cell) {
    d == c || IsAncestor(c, d)
  }

  ghost predicate ShareArea(p: Cell, c: Cell) {
    exists d :: Within(d, p) && Within(d, c)
  }

  lemma SharedAreaIsNesting(p: Cell, c: Cell)
    requires p != c
    ensures ShareArea(p, c) <==> IsAncestor(p, c) || IsAncestor(c, p)
  {
    if ShareArea(p, c) {
      var d :| Within(d, p) && Within(d, c);
      if |p.digits| <= |c.digits| {
        assert p.digits == d.digits[..|p.digits|] && c.digits == d.digits[..|c.digits|];
        assert d.digits[..|c.digits|][..|p.digits|] == d.digits[..|p.digits|];
      } else {
        assert p.digits == d.digits[..|p.digits|] && c.digits == d.digits[..|c.digits|];
        assert d.digits[..|p.digits|][..|c.digits|] == d.digits[..|c.digits|];
      }
    } else {
      assert Within(c, c) && Within(p, p);
      assert !Within(c, p) && !Within(p, c);
    }
  }

  /** For cells spelled as the library prints them, the check finds exactly the lists in which two
      distinct valid cells share some area, whatever the order, duplicates or invalid entries. */
  lemma OverlapIsSharedArea(cells: seq<CellText>)
    requires AllCanonical(cells)
    ensures Overlaps(cells) <==>
            exists p, c :: p in cells && c in cells && p.Text? && c.Text? && p != c && ShareArea(p.cell, c.cell)
  {
    if Overlaps(cells) {
      var p, c :| p in cells && c in cells && Covers(p, c);
      SharedAreaIsNesting(p.cell, c.cell);
    }
    forall p, c | p in cells && c in cells && p.Text? && c.Text? && p != c && ShareArea(p.cell, c.cell)
      ensures Overlaps(cells)
    {
      SharedAreaIsNesting(p.cell, c.cell);
      assert Covers(p, c) || Covers(c, p);
    }
  }

  predicate Nests(p: CellText, c: CellText) {
    p.Text? && c.Text? && IsAncestor(p.cell, c.cell)
  }

  ghost predicate HasNesting(cells: seq<CellText>) {
    exists p, c :: p in cells && c in cells && Nests(p, c)
  }

  /** Nested valid cells in any spelling are exactly different valid cells that share area. */
  lemma NestingIsSharedArea(cells: seq<CellText>)
    ensures HasNesting(cells) <==>
            exists p, c :: p in cells && c in cells && p.Text? && c.Text? && p.cell != c.cell && ShareArea(p.cell, c.cell)
  {
    if HasNesting(cells) {
      var p, c :| p in cells && c in cells && Nests(p, c);
      SharedAreaIsNesting(p.cell, c.cell);
    }
    forall p, c | p in cells && c in cells && p.Text? && c.Text? && p.cell != c.cell && ShareArea(p.cell, c.cell)
      ensures HasNesting(cells)
    {
      SharedAreaIsNesting(p.cell, c.cell);
      assert Nests(p, c) || Nests(c, p);
    }
  }

  /** The cells of the list that have another one strictly inside them. */
  function Coverers(cells: seq<CellText>): set<CellText> {
    set p | p in cells && exists c | c in cells :: Nests(p, c)
  }

  /** Some cell lies inside another, and none of the covering cells is spelled as printed. */
  predicate HiddenNesting(cells: seq<CellText>) {
    Coverers(cells) != {} && forall p | p in Coverers(cells) :: p.Text? && p.variant != 0
  }

  /** The check never claims an overlap that is not there, and misses one exactly when every covering
      cell is spelled differently. */
  lemma AnswerMissesIff(cells: seq<CellText>)
    ensures Overlaps(cells) ==> HasNesting(cells)
    ensures HasNesting(cells) && !Overlaps(cells) <==> HiddenNesting(cells)
  {
    forall p, c | p in cells && c in cells && Nests(p, c)
      ensures p in Coverers(cells)
    {
    }
    if Overlaps(cells) {
      var p, c :| p in cells && c in cells && Covers(p, c);
      assert Nests(p, c);
    }
    if HasNesting(cells) && !Overlaps(cells) {
      forall p | p in Coverers(cells)
        ensures p.Text? && p.variant != 0
      {
        var c :| c in cells && Nests(p, c);
        assert !Covers(p, c);
      }
    }
    if HiddenNesting(cells) {
      NonEmptyHas(Coverers(cells));
      var p :| p in Coverers(cells);
      forall p, c | p in cells && c in cells
        ensures !Covers(p, c)
      {
        assert Nests(p, c) ==> p in Coverers(cells);
      }
    }
  }

  lemma NonEmptyHas(s: set<CellText>)
    requires s != {}
    ensures exists x :: x in s
  {
    assert (forall x :: x !in s) ==> s == {};
  }

  /** The list with every cell spelled as the library prints it. */
  function Respelled(cells: seq<CellText>): seq<CellText> {
    seq(|cells|, i requires 0 <= i < |cells| => if cells[i].Text? then Text(cells[i].cell, 0) else cells[i])
  }

  lemma RespelledNests(cells: seq<CellText>, i: nat, j: nat)
    requires i < |cells| && j < |cells|
    ensures Covers(Respelled(cells)[i], Respelled(cells)[j]) <==> Nests(cells[i], cells[j])
  {
  }

  /** Spelling every cell as printed before the check would make its answer exact on every list. */
  lemma RespellingMakesItExact(cells: seq<CellText>)
    ensures Overlaps(Respelled(cells)) <==> HasNesting(cells)
  {
    var r := Respelled(cells);
    forall p, c | p in cells && c in cells && Nests(p, c)
      ensures Overlaps(r)
    {
      var i: nat :| i < |cells| && cells[i] == p;
      var j: nat :| j < |cells| && cells[j] == c;
      RespelledNests(cells, i, j);
      assert r[i] in r && r[j] in r;
    }
    forall p, c | p in r && c in r && Covers(p, c)
      ensures HasNesting(cells)
    {
      var i: nat :| i < |r| && r[i] == p;
      var j: nat :| j < |r| && r[j] == c;
      RespelledNests(cells, i, j);
      assert cells[i] in cells && cells[j] in cells;
    }
  }

  /** The parent at a resolution is what is left when the finer digits go. */
  lemma ParentDropsDigits(base: nat, digits: seq<nat>, more: seq<nat>, variant: nat)
    ensures CellToParent(Text(Cell(base, digits + more), variant), |digits|) == Text(Cell(base, digits), 0)
  {
    assert (digits + more)[..|digits|] == digits;
  }

  /** A cell has one ancestor at every coarser resolution, its parent there, and no others. */
  lemma AncestorsAreParents(t: CellText, p: Cell)
    requires ValidateH3Cell(t)
    ensures IsAncestor(p, t.cell) <==> exists r: nat :: r < Resolution(t) && CellToParent(t, r).cell == p
  {
    if IsAncestor(p, t.cell) {
      assert CellToParent(t, |p.digits|).cell == p;
    }
  }

  lemma AncestryIsTransitive(a: Cell, b: Cell, c: Cell)
    requires IsAncestor(a, b) && IsAncestor(b, c)
    ensures IsAncestor(a, c)
  {
    assert c.digits[..|b.digits|][..|a.digits|] == c.digits[..|a.digits|];
  }

  /** A printed entry is extended by the digits of another entry, by any number of them. */
  ghost predicate HoldsExtension(cells: seq<CellText>) {
    exists base, digits, more, variant ::
      more != [] && Text(Cell(base, digits), 0) in cells && Text(Cell(base, digits + more), variant) in cells
  }

  /** In digits: the check finds children, grandchildren and any finer descendants of listed cells,
      and nothing else. */
  lemma OverlapIsExtension(cells: seq<CellText>)
    ensures Overlaps(cells) <==> HoldsExtension(cells)
  {
    if Overlaps(cells) {
      var p, c :| p in cells && c in cells && Covers(p, c);
      var digits, more := p.cell.digits, c.cell.digits[|p.cell.digits|..];
      assert digits + more == c.cell.digits;
      assert Text(Cell(p.cell.base, digits), 0) in cells && Text(Cell(p.cell.base, digits + more), c.variant) in cells;
    }
    forall base, digits, more, variant | more != [] && Text(Cell(base, digits), 0) in cells
                                         && Text(Cell(base, digits + more), variant) in cells
      ensures Overlaps(cells)
    {
      assert (digits + more)[..|digits|] == digits;
      assert Covers(Text(Cell(base, digits), 0), Text(Cell(base, digits + more), variant));
    }
  }

  /** Two cells share area exactly when some digits make the same cell of both. */
  lemma SharedAreaIsCommonExtension(p: Cell, c: Cell)
    ensures ShareArea(p, c) <==> p.base == c.base && exists m, n :: p.digits + m == c.digits + n
  {
    if ShareArea(p, c) {
      var d :| Within(d, p) && Within(d, c);
      var m, n := d.digits[|p.digits|..], d.digits[|c.digits|..];
      assert p.digits + m == d.digits == c.digits + n;
    }
    forall m, n | p.base == c.base && p.digits + m == c.digits + n
      ensures ShareArea(p, c)
    {
      var d := Cell(p.base, p.digits + m);
      assert d.digits[..|p.digits|] == p.digits;
      assert d.digits[..|c.digits|] == (c.digits + n)[..|c.digits|] == c.digits;
      assert Within(d, p) by {
        assert m == [] ==> d == p;
      }
      assert Within(d, c) by {
        assert n == [] ==> d == c;
      }
    }
  }

  /** A covering cell written in another accepted spelling goes unnoticed. */
  lemma SpellingHidesOverlap(p: Cell, c: Cell, variant: nat)
    requires IsAncestor(p, c) && variant > 0
    ensures !Overlaps([Text(p, variant), Text(c, 0)])
  {
  }

  /** Order and repetition do not matter. */
  lemma OverlapDependsOnMembersOnly(cells: seq<CellText>, other: seq<CellText>)
    requires forall t :: t in cells <==> t in other
    ensures Overlaps(cells) <==> Overlaps(other)
  {
    if Overlaps(cells) {
      var p, c :| p in cells && c in cells && Covers(p, c);
      assert p in other && c in other;
    }
    if Overlaps(other) {
      var p, c :| p in other && c in other && Covers(p, c);
      assert p in cells && c in cells;
    }
  }
}

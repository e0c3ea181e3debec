/** What runs of zone writes keep: disjoint cells, the config mirror, and cells across partial updates. */
module ZoneRuns {
  import opened Options
  import opened Lists
  import opened H3
  import opened ZoneRows
  import opened ZoneStore
  import Wkt

  ghost function AfterAll(writes: seq<Write>, t: Texts): State {
    if writes == [] then EMPTY else After(AfterAll(writes[..|writes| - 1], t), writes[|writes| - 1], t)
  }

  lemma AfterSnoc(writes: seq<Write>, w: Write, t: Texts)
    ensures AfterAll(writes + [w], t) == After(AfterAll(writes, t), w, t)
  {
    assert (writes + [w])[..|writes|] == writes;
  }

  // ----- merging cell lists ---------------------------------------------------------------

  /** Every entry is a valid cell and none lies strictly inside another, in whatever spelling. */
  ghost predicate Disjoint(cells: seq<CellText>) {
    (forall t :: t in cells ==> t.Text?) && !HasNesting(cells)
  }

  /** A cell of one list lies strictly inside a cell of the other. */
  ghost predicate Clash(a: seq<CellText>, b: seq<CellText>) {
    exists p, c :: p in a && c in b && Nests(p, c)
  }

  /** Each list is disjoint by itself and no cell of one lies inside a cell of another. */
  ghost predicate NoClash(parts: seq<seq<CellText>>) {
    (forall i :: 0 <= i < |parts| ==> Disjoint(parts[i]))
    && forall i, j :: 0 <= i < |parts| && 0 <= j < |parts| && i != j ==> !Clash(parts[i], parts[j])
  }

  lemma {:induction false} JoinedHas(listed: seq<CellText>, more: seq<CellText>)
    ensures forall x :: x in Joined(listed, more) <==> x in listed || x in more
  {
    if more != [] {
      JoinedHas(listed, more[..|more| - 1]);
      assert more == more[..|more| - 1] + [more[|more| - 1]];
    }
  }

  lemma {:induction false} MergedHas(parts: seq<seq<CellText>>, x: CellText)
    ensures x in Merged(parts) <==> exists i :: 0 <= i < |parts| && x in parts[i]
  {
    if parts != [] {
      var front := parts[..|parts| - 1];
      MergedHas(front, x);
      JoinedHas(Merged(front), parts[|parts| - 1]);
      if x in Merged(front) {
        var i :| 0 <= i < |front| && x in front[i];
        assert x in parts[i];
      }
    }
  }

  lemma ClashShows(parts: seq<seq<CellText>>, i: nat, j: nat)
    requires i < |parts| && j < |parts| && Clash(parts[i], parts[j])
    ensures HasNesting(Merged(parts))
  {
    var p, c :| p in parts[i] && c in parts[j] && Nests(p, c);
    MergedHas(parts, p);
    MergedHas(parts, c);
  }

  /** The merged list is disjoint exactly when the lists are, one by one and two by two. */
  lemma MergeIsDisjointIff(parts: seq<seq<CellText>>)
    ensures Disjoint(Merged(parts)) <==> NoClash(parts)
  {
    if NoClash(parts) {
      forall x | x in Merged(parts)
        ensures x.Text?
      {
        MergedHas(parts, x);
      }
      forall p, c | p in Merged(parts) && c in Merged(parts)
        ensures !Nests(p, c)
      {
        MergedHas(parts, p);
        MergedHas(parts, c);
        var i :| 0 <= i < |parts| && p in parts[i];
        var j :| 0 <= j < |parts| && c in parts[j];
        TwoPartsAreFine(parts, i, j, p, c);
      }
    }
    if Disjoint(Merged(parts)) {
      forall i | 0 <= i < |parts|
        ensures Disjoint(parts[i])
      {
        PartIsFine(parts, i);
      }
      forall i, j | 0 <= i < |parts| && 0 <= j < |parts| && i != j
        ensures !Clash(parts[i], parts[j])
      {
        if Clash(parts[i], parts[j]) {
          ClashShows(parts, i, j);
        }
      }
    }
  }

  lemma TwoPartsAreFine(parts: seq<seq<CellText>>, i: nat, j: nat, p: CellText, c: CellText)
    requires NoClash(parts) && i < |parts| && j < |parts| && p in parts[i] && c in parts[j]
    ensures !Nests(p, c)
  {
    if i == j {
      assert Disjoint(parts[i]);
    } else {
      assert !Clash(parts[i], parts[j]);
    }
  }

  lemma PartIsFine(parts: seq<seq<CellText>>, i: nat)
    requires i < |parts| && Disjoint(Merged(parts))
    ensures Disjoint(parts[i])
  {
    forall x | x in parts[i]
      ensures x.Text?
    {
      MergedHas(parts, x);
    }
    if HasNesting(parts[i]) {
      var p, c :| p in parts[i] && c in parts[i] && Nests(p, c);
      assert Clash(parts[i], parts[i]);
      ClashShows(parts, i, i);
    }
  }

  // ----- disjoint cells -------------------------------------------------------------------

  /** Every stored cell is valid and no stored row holds one cell inside another, in any spelling. */
  ghost predicate AllDisjoint(s: State) {
    forall id :: id in s.rows ==> Disjoint(CellsOrEmpty(s.rows[id])) && id < s.nextId
  }

  /** The list a client write asks to store; None when it leaves the cells of the row alone. */
  function AskedCells(s: State, w: Write): Option<seq<CellText>> {
    match w
    case Create(z) =>
      Some(if z.point.Some? then WithCenter(z.cells, Text(z.point.value(CenterResolution(z.resolution)), 0)) else z.cells)
    case CreateViaApi(_, _, _, a, _) => Some(ReadOrEmpty(Requested(a, EMPTY_CONFIG)))
    case UpdateViaApi(id, _, _, _, a, _) =>
      if id in s.rows then Some(ReadOrEmpty(Requested(a, SerializedConfig(s.rows[id])))) else None
    case CreateViaContract(_, _, _, config, _) => Some(ReadOrEmpty(config.h3Cells))
    case UpdateViaContract(_, u, _) => if u.config.Some? then Some(ReadOrEmpty(u.config.value.h3Cells)) else None
    case Update(_, updates) => LastSetCells(updates)
    case AssignCommunal(_, _) => None
    case CommunalPrimary(_, _) => None
    case Delete(_) => None
  }

  /** The config value that an API payload has read as its cells. */
  function Requested(a: ApiCells, stored: Config): ConfigValue {
    var config := NormalizedConfig(a);
    WinningValue(if config.Some? then config.value else stored)
  }

  function ReadOrEmpty(value: ConfigValue): seq<CellText> {
    var cells := ReadValue(value);
    if cells.Ok? then cells.value else []
  }

  function LastSetCells(updates: seq<FieldUpdate>): Option<seq<CellText>> {
    if updates == [] then None
    else
      var last := updates[|updates| - 1];
      if last.SetCells? then Some(if last.cells.Some? then last.cells.value else []) else LastSetCells(updates[..|updates| - 1])
  }

  /** A primary is calculated from zones whose cells nest, within one zone's lists or across two, or
      whose config lists hold an unchecked invalid cell. */
  ghost predicate ClashingPrimary(s: State, w: Write, t: Texts) {
    w.CommunalPrimary? && NewRow(s, w, t).Ok? && !NoClash(Contributions(Sources(s.rows, w.tag), t.clean))
  }

  /** An accepted write whose list nests under cells in other spellings only. */
  ghost predicate HidesNesting(s: State, w: Write, t: Texts) {
    NewRow(s, w, t).Ok? && AskedCells(s, w).Some? && HiddenNesting(AskedCells(s, w).value)
  }

  lemma CheckedIsDisjointIff(cells: seq<CellText>)
    requires CellsError(cells) == None
    ensures Disjoint(cells) <==> !HiddenNesting(cells)
  {
    AnswerMissesIff(cells);
    assert forall t :: t in cells ==> ValidateH3Cell(t);
  }

  /** The cells a crud update leaves are the row's own, or the checked ones of the last list set. */
  lemma {:induction false} FieldsLeaveCells(row: ZoneRow, updates: seq<FieldUpdate>, show: Wkt.Format)
    requires AppliedFields(row, updates, show).Ok?
    ensures var cells, asked := CellsOrEmpty(AppliedFields(row, updates, show).value), LastSetCells(updates);
            cells == (if asked.Some? then asked.value else CellsOrEmpty(row))
            && (asked.Some? ==> CellsError(cells) == None)
  {
    if updates != [] {
      FieldsLeaveCells(row, updates[..|updates| - 1], show);
    }
  }

  lemma ContractReadsChecked(config: Config)
    requires ContractCells(config).Ok?
    ensures var cells := ContractCells(config).value;
            ReadOrEmpty(config.h3Cells) == (if cells.Some? then cells.value else [])
            && CellsError(ReadOrEmpty(config.h3Cells)) == None
  {
  }

  /** What a write that is no primary stores: the list asked for, which passed the check, or the
      cells the row had. */
  lemma StoredCellsAre(s: State, w: Write, t: Texts)
    requires NewRow(s, w, t).Ok? && !w.CommunalPrimary?
    ensures var cells, asked := CellsOrEmpty(NewRow(s, w, t).value), AskedCells(s, w);
            if asked.Some? then cells == asked.value && CellsError(cells) == None
            else Target(s, w) in s.rows && cells == CellsOrEmpty(s.rows[Target(s, w)])
  {
    match w
    case Update(id, updates) => FieldsLeaveCells(s.rows[id], updates, t.show);
    case CreateViaContract(_, _, _, config, _) => ContractReadsChecked(config);
    case UpdateViaContract(_, u, _) =>
      if u.config.Some? {
        ContractReadsChecked(u.config.value);
      }
    case Create(_) =>
    case CreateViaApi(_, _, _, _, _) =>
    case UpdateViaApi(_, _, _, _, _, _) =>
    case AssignCommunal(_, _) =>
    case Delete(_) =>
  }

  lemma NewRowDisjointIff(s: State, w: Write, t: Texts)
    requires AllDisjoint(s) && NewRow(s, w, t).Ok?
    ensures Disjoint(CellsOrEmpty(NewRow(s, w, t).value)) <==> !HidesNesting(s, w, t) && !ClashingPrimary(s, w, t)
  {
    if w.CommunalPrimary? {
      MergeIsDisjointIff(Contributions(Sources(s.rows, w.tag), t.clean));
    } else {
      StoredCellsAre(s, w, t);
      if AskedCells(s, w).Some? {
        CheckedIsDisjointIff(AskedCells(s, w).value);
      }
    }
  }

  /** A write keeps all stored cells valid and unnested exactly when it is neither an accepted list
      that nests under other spellings only nor a primary of clashing zones. */
  lemma WriteKeepsDisjointIff(s: State, w: Write, t: Texts)
    requires AllDisjoint(s)
    ensures AllDisjoint(After(s, w, t)) <==> !HidesNesting(s, w, t) && !ClashingPrimary(s, w, t)
  {
    if NewRow(s, w, t).Ok? {
      NewRowDisjointIff(s, w, t);
      var s', id := After(s, w, t), Target(s, w);
      assert id in s'.rows && s'.rows[id] == NewRow(s, w, t).value;
    }
  }

  ghost predicate NeverNests(writes: seq<Write>, t: Texts) {
    writes != [] ==>
      var front, last := writes[..|writes| - 1], writes[|writes| - 1];
      NeverNests(front, t) && !HidesNesting(AfterAll(front, t), last, t) && !ClashingPrimary(AfterAll(front, t), last, t)
  }

  lemma {:induction false} RunsKeepDisjoint(writes: seq<Write>, t: Texts)
    requires NeverNests(writes, t)
    ensures AllDisjoint(AfterAll(writes, t))
  {
    if writes != [] {
      RunsKeepDisjoint(writes[..|writes| - 1], t);
      WriteKeepsDisjointIff(AfterAll(writes[..|writes| - 1], t), writes[|writes| - 1], t);
    }
  }

  // ----- payloads in the printed spelling -------------------------------------------------

  predicate IsPrinted(t: CellText) {
    t.Text? && t.variant == 0
  }

  predicate AllPrinted(cells: seq<CellText>) {
    forall t | t in cells :: IsPrinted(t)
  }

  predicate PrintedItems(items: seq<Item>) {
    forall item | item in items :: item.Entry? && IsPrinted(item.cell)
  }

  predicate PrintedConfig(config: Config) {
    PrintedItems(ItemsIn(config.h3_cells)) && PrintedItems(ItemsIn(config.h3Cells))
  }

  /** Every cell list of the payload is spelled as the library prints cells. */
  predicate PrintedPayload(w: Write) {
    match w
    case Create(z) => AllPrinted(z.cells) && (z.config.Some? ==> PrintedConfig(z.config.value))
    case CreateViaApi(_, _, _, a, _) => PrintedApi(a)
    case UpdateViaApi(_, _, _, _, a, _) => PrintedApi(a)
    case CreateViaContract(_, _, _, config, _) => PrintedConfig(config)
    case UpdateViaContract(_, u, _) => u.config.Some? ==> PrintedConfig(u.config.value)
    case Update(_, updates) => forall u | u in updates :: PrintedField(u)
    case AssignCommunal(_, _) => true
    case CommunalPrimary(_, _) => true
    case Delete(_) => true
  }

  predicate PrintedApi(a: ApiCells) {
    (a.config.Some? ==> PrintedConfig(a.config.value)) && (a.cells.Some? ==> PrintedItems(a.cells.value))
  }

  predicate PrintedField(u: FieldUpdate) {
    (u.SetCells? && u.cells.Some? ==> AllPrinted(u.cells.value))
    && (u.SetParameters? ==> PrintedConfig(ConfigIn(u.parameters)))
  }

  /** The column and both config lists of the row are in the printed spelling. */
  ghost predicate PrintedRow(row: ZoneRow) {
    AllPrinted(CellsOrEmpty(row)) && PrintedConfig(ConfigOf(row))
  }

  ghost predicate PrintedState(s: State) {
    forall id :: id in s.rows ==> PrintedRow(s.rows[id])
  }

  lemma PrintedAsItems(cells: seq<CellText>)
    requires AllPrinted(cells)
    ensures PrintedItems(ItemsIn(AsItems(cells)))
  {
  }

  lemma PrintedRead(value: ConfigValue)
    requires PrintedItems(ItemsIn(value)) && ReadValue(value).Ok?
    ensures AllPrinted(ReadValue(value).value)
  {
  }

  lemma {:induction false} PrintedFields(row: ZoneRow, updates: seq<FieldUpdate>, show: Wkt.Format)
    requires PrintedRow(row) && (forall u :: u in updates ==> PrintedField(u)) && AppliedFields(row, updates, show).Ok?
    ensures PrintedRow(AppliedFields(row, updates, show).value)
  {
    if updates != [] {
      var front, last := updates[..|updates| - 1], updates[|updates| - 1];
      PrintedFields(row, front, show);
      assert PrintedField(last);
    }
  }

  lemma PrintedSerialized(row: ZoneRow)
    requires PrintedRow(row)
    ensures PrintedConfig(SerializedConfig(row))
  {
    PrintedAsItems(CellsOrEmpty(row));
  }

  lemma PrintedNormalized(a: ApiCells)
    requires PrintedApi(a) && NormalizedConfig(a).Some?
    ensures PrintedConfig(NormalizedConfig(a).value)
  {
  }

  lemma PrintedApiRow(name: string, kind: string, polygon: Option<Wkt.GeoJson>, config: Config, active: bool, show: Wkt.Format)
    requires PrintedConfig(config) && ApiRow(name, kind, polygon, config, active, show).Ok?
    ensures PrintedRow(ApiRow(name, kind, polygon, config, active, show).value)
  {
    PrintedRead(WinningValue(config));
  }

  lemma PrintedContract(config: Config)
    requires PrintedConfig(config) && ContractCells(config).Ok?
    ensures ContractCells(config).value.Some? ==> AllPrinted(ContractCells(config).value.value)
  {
  }

  /** Cleaning keeps the texts the library prints. */
  ghost predicate KeepsPrinted(clean: Cleaner) {
    forall c: Cell :: clean(Entry(Text(c, 0))) == Some(Text(c, 0))
  }

  lemma {:induction false} PrintedCleaned(items: seq<Item>, clean: Cleaner)
    requires PrintedItems(items) && KeepsPrinted(clean)
    ensures AllPrinted(CleanCells(items, clean))
  {
    if items != [] {
      var last := items[|items| - 1];
      PrintedCleaned(items[..|items| - 1], clean);
      assert last in items && last == Entry(Text(last.cell.cell, 0));
    }
  }

  lemma PrintedContribution(row: ZoneRow, clean: Cleaner)
    requires PrintedRow(row) && KeepsPrinted(clean)
    ensures AllPrinted(Contribution(row, clean))
  {
    PrintedAsItems(CellsOrEmpty(row));
    PrintedCleaned(SourceItems(row), clean);
  }

  lemma SourceIsRow(rows: map<int, ZoneRow>, tag: string, i: nat) returns (id: int)
    requires i < |Sources(rows, tag)|
    ensures id in rows && Sources(rows, tag)[i] == rows[id]
  {
    var ids := SortedIds(TaggedIds(rows, tag));
    id := ids[i];
    assert id in ids;
  }

  lemma PrintedMerge(s: State, tag: string, clean: Cleaner)
    requires PrintedState(s) && KeepsPrinted(clean)
    ensures AllPrinted(Merged(Contributions(Sources(s.rows, tag), clean)))
  {
    var parts := Contributions(Sources(s.rows, tag), clean);
    forall x | x in Merged(parts)
      ensures IsPrinted(x)
    {
      MergedHas(parts, x);
      var i :| 0 <= i < |parts| && x in parts[i];
      var id := SourceIsRow(s.rows, tag, i);
      PrintedContribution(s.rows[id], clean);
    }
  }

  lemma NewRowIsPrinted(s: State, w: Write, t: Texts)
    requires PrintedState(s) && PrintedPayload(w) && KeepsPrinted(t.clean) && NewRow(s, w, t).Ok?
    ensures PrintedRow(NewRow(s, w, t).value)
  {
    match w
    case Create(z) => PrintedAsItems(CellsOrEmpty(NewRow(s, w, t).value));
    case CreateViaApi(name, kind, polygon, a, _) =>
      var config := NormalizedConfig(a);
      if config.Some? {
        PrintedNormalized(a);
      }
      PrintedApiRow(name, kind, polygon, if config.Some? then config.value else EMPTY_CONFIG, true, t.show);
    case UpdateViaApi(id, name, kind, polygon, a, _) =>
      var config := NormalizedConfig(a);
      if config.Some? {
        PrintedNormalized(a);
      }
      PrintedSerialized(s.rows[id]);
      PrintedApiRow(name, kind, polygon, if config.Some? then config.value else SerializedConfig(s.rows[id]),
                    s.rows[id].active, t.show);
    case CreateViaContract(_, _, _, config, _) => PrintedContract(config);
    case UpdateViaContract(_, u, _) =>
      if u.config.Some? {
        PrintedContract(u.config.value);
      }
    case Update(id, updates) =>
      PrintedFields(s.rows[id], updates, t.show);
      PrintedAsItems(CellsOrEmpty(NewRow(s, w, t).value));
    case CommunalPrimary(tag, _) =>
      PrintedMerge(s, tag, t.clean);
      PrintedAsItems(Merged(Contributions(Sources(s.rows, tag), t.clean)));
    case AssignCommunal(_, _) =>
    case Delete(_) =>
  }

  lemma PrintedHidesNothing(cells: seq<CellText>)
    requires AllPrinted(cells)
    ensures !HiddenNesting(cells)
  {
    if Coverers(cells) != {} {
      NonEmptyHas(Coverers(cells));
      var p :| p in Coverers(cells);
      assert p in cells && IsPrinted(p);
    }
  }

  ghost predicate PrintedRun(writes: seq<Write>, t: Texts) {
    KeepsPrinted(t.clean) && forall w :: w in writes ==> PrintedPayload(w)
  }

  /** When clients spell cells as the library prints them, every stored list stays in that spelling. */
  lemma {:induction false} RunsStayPrinted(writes: seq<Write>, t: Texts)
    requires PrintedRun(writes, t)
    ensures PrintedState(AfterAll(writes, t))
  {
    if writes != [] {
      var front, last := writes[..|writes| - 1], writes[|writes| - 1];
      RunsStayPrinted(front, t);
      assert last in writes;
      if NewRow(AfterAll(front, t), last, t).Ok? {
        NewRowIsPrinted(AfterAll(front, t), last, t);
      }
    }
  }

  /** No primary of the run is calculated from zones whose cells nest. */
  ghost predicate NeverClashing(writes: seq<Write>, t: Texts) {
    writes != [] ==>
      var front, last := writes[..|writes| - 1], writes[|writes| - 1];
      NeverClashing(front, t) && !ClashingPrimary(AfterAll(front, t), last, t)
  }

  /** In such runs only a primary of clashing zones can nest cells: without one, all stored cells are
      valid and no row holds one inside another. */
  lemma {:induction false} PrintedRunsKeepDisjoint(writes: seq<Write>, t: Texts)
    requires PrintedRun(writes, t) && NeverClashing(writes, t)
    ensures AllDisjoint(AfterAll(writes, t))
  {
    if writes != [] {
      var front, last := writes[..|writes| - 1], writes[|writes| - 1];
      var s := AfterAll(front, t);
      PrintedRunsKeepDisjoint(front, t);
      RunsStayPrinted(front, t);
      assert last in writes;
      if NewRow(s, last, t).Ok? && !last.CommunalPrimary? {
        NewRowIsPrinted(s, last, t);
        StoredCellsAre(s, last, t);
        PrintedHidesNothing(CellsOrEmpty(NewRow(s, last, t).value));
      }
      WriteKeepsDisjointIff(s, last, t);
    }
  }

  /** So two different cells of one stored row never share any area. */
  lemma StoredCellsShareNoArea(writes: seq<Write>, t: Texts, id: int, p: CellText, c: CellText)
    requires NeverNests(writes, t) || (PrintedRun(writes, t) && NeverClashing(writes, t))
    requires id in AfterAll(writes, t).rows
    requires var cells := CellsOrEmpty(AfterAll(writes, t).rows[id]); p in cells && c in cells
    ensures p.Text? && c.Text? && (p.cell != c.cell ==> !ShareArea(p.cell, c.cell))
  {
    if NeverNests(writes, t) {
      RunsKeepDisjoint(writes, t);
    } else {
      PrintedRunsKeepDisjoint(writes, t);
    }
    if p.cell != c.cell {
      SharedAreaIsNesting(p.cell, c.cell);
      assert !Nests(p, c) && !Nests(c, p);
    }
  }

  /** The source brings just the cells of its column. */
  ghost predicate BringsItsColumn(row: ZoneRow, clean: Cleaner) {
    forall x :: x in Contribution(row, clean) <==> x in CellsOrEmpty(row)
  }

  /** With disjoint sources that bring just their columns, only nesting across two zones can do harm. */
  lemma PrimaryOfDisjointZones(sources: seq<ZoneRow>, clean: Cleaner)
    requires forall i :: 0 <= i < |sources| ==> Disjoint(CellsOrEmpty(sources[i])) && BringsItsColumn(sources[i], clean)
    ensures Disjoint(Merged(Contributions(sources, clean)))
            <==> forall i, j :: 0 <= i < |sources| && 0 <= j < |sources| && i != j ==>
                   !Clash(CellsOrEmpty(sources[i]), CellsOrEmpty(sources[j]))
  {
    var parts := Contributions(sources, clean);
    MergeIsDisjointIff(parts);
    forall i | 0 <= i < |sources|
      ensures Disjoint(parts[i])
    {
      assert BringsItsColumn(sources[i], clean);
    }
    forall i, j | 0 <= i < |sources| && 0 <= j < |sources|
      ensures Clash(parts[i], parts[j]) <==> Clash(CellsOrEmpty(sources[i]), CellsOrEmpty(sources[j]))
    {
      assert BringsItsColumn(sources[i], clean) && BringsItsColumn(sources[j], clean);
    }
  }

  // ----- one write with nested cells ------------------------------------------------------

  /** One API write with a covering cell in another accepted spelling. */
  function HidingWrite(p: Cell, c: Cell, variant: nat): Write {
    CreateViaApi("zone", "geofence", None, ApiCells(Some(Config(AsItems([Text(p, variant), Text(c, 0)]), Absent, {})), None), false)
  }

  /** One crud write whose added centre lies in a covering cell in another accepted spelling. */
  function HidingCenter(p: Cell, at: Locator, variant: nat): Write {
    Create(ZoneCreate("zone", "geofence", [Text(p, variant)], Some(at), None, None, None))
  }

  lemma HiddenPair(p: Cell, c: Cell, variant: nat)
    requires IsAncestor(p, c) && variant > 0
    ensures var cells := [Text(p, variant), Text(c, 0)];
            CellsError(cells) == None && HiddenNesting(cells) && HasNesting(cells)
  {
    var cells := [Text(p, variant), Text(c, 0)];
    assert cells[0] == Text(p, variant) && cells[1] == Text(c, 0);
    assert Nests(cells[0], cells[1]);
    AnswerMissesIff(cells);
  }

  /** Both writes are accepted on the empty table, and the row they store holds c inside p. */
  lemma OneWriteNestsCells(p: Cell, c: Cell, at: Locator, variant: nat, t: Texts)
    requires IsAncestor(p, c) && variant > 0 && at(13) == c
    ensures forall w :: w in {HidingWrite(p, c, variant), HidingCenter(p, at, variant)} ==>
              var s := AfterAll([w], t);
              1 in s.rows && s.rows[1].cells == Some([Text(p, variant), Text(c, 0)]) && !AllDisjoint(s)
  {
    var cells := [Text(p, variant), Text(c, 0)];
    HiddenPair(p, c, variant);
    ItemsReadBack(cells);
    forall w | w in {HidingWrite(p, c, variant), HidingCenter(p, at, variant)}
      ensures NewRow(EMPTY, w, t).Ok? && NewRow(EMPTY, w, t).value.cells == Some(cells)
    {
      if w == HidingWrite(p, c, variant) {
        assert ExtractH3Cells(Config(AsItems(cells), Absent, {})) == Ok(cells);
      } else {
        assert WithCenter([Text(p, variant)], Text(c, 0)) == cells;
      }
    }
    forall w | w in {HidingWrite(p, c, variant), HidingCenter(p, at, variant)}
      ensures AfterAll([w], t) == After(EMPTY, w, t)
    {
      AfterSnoc([], w, t);
      assert [] + [w] == [w];
    }
  }

  // ----- a primary with nested cells ------------------------------------------------------

  function OneCell(c: Cell, tag: string): Config {
    Config(AsItems([Text(c, 0)]), Absent, {tag})
  }

  function CreateOne(c: Cell, tag: string): Write {
    CreateViaApi("zone", "geofence", None, ApiCells(Some(OneCell(c, tag)), None), false)
  }

  function OneCellRow(c: Cell, tag: string): ZoneRow {
    ZoneRow("zone", "geofence", Some([Text(c, 0)]), None, Object(Some(OneCell(c, tag))), true)
  }

  /** Two zones sharing a Communal ID, then the primary of a new member. */
  function NestingRun(p: Cell, c: Cell, tag: string): seq<Write> {
    [CreateOne(p, tag), CreateOne(c, tag), CommunalPrimary(tag, None)]
  }

  lemma ItemsReadBack(cells: seq<CellText>)
    ensures ReadValue(AsItems(cells)) == Ok(cells)
  {
    var items := AsItems(cells).items;
    assert forall item :: item in items ==> item.Entry?;
    assert CellsOf(items) == cells;
  }

  lemma OneCellIsAccepted(s: State, c: Cell, tag: string, t: Texts)
    ensures NewRow(s, CreateOne(c, tag), t) == Ok(OneCellRow(c, tag))
  {
    var cells := [Text(c, 0)];
    ItemsReadBack(cells);
    assert ExtractH3Cells(OneCell(c, tag)) == Ok(cells);
    assert CellsError(cells) == None;
  }

  lemma OneCellContribution(c: Cell, tag: string, clean: Cleaner)
    requires KeepsPrinted(clean)
    ensures forall x :: x in Contribution(OneCellRow(c, tag), clean) <==> x == Text(c, 0)
  {
    var e := Entry(Text(c, 0));
    var items := [e] + [e] + [];
    assert AsItems([Text(c, 0)]).items == [e] && items == [e, e];
    assert items[..1] == [e] && [e][..0] == [];
    assert CleanCells([e], clean) == [Text(c, 0)];
    assert CleanCells(items, clean) == [Text(c, 0), Text(c, 0)];
  }

  lemma OneTwoSorted()
    ensures SortedIds({1, 2}) == [1, 2]
  {
    var ids := SortedIds({1, 2});
    SortedIdsSize({1, 2});
    assert ids[0] in ids && ids[1] in ids;
  }

  lemma TwoSources(rows: map<int, ZoneRow>, a: ZoneRow, b: ZoneRow, tag: string)
    requires rows == map[1 := a, 2 := b] && a.active && b.active
    requires tag in ConfigOf(a).tags && tag in ConfigOf(b).tags
    ensures Sources(rows, tag) == [a, b]
  {
    OneTwoSorted();
    assert TaggedIds(rows, tag) == {1, 2};
  }

  lemma NestingState(p: Cell, c: Cell, tag: string, t: Texts)
    ensures AfterAll([CreateOne(p, tag), CreateOne(c, tag)], t)
            == State(map[1 := OneCellRow(p, tag), 2 := OneCellRow(c, tag)], 3)
  {
    OneCellIsAccepted(EMPTY, p, tag, t);
    AfterSnoc([], CreateOne(p, tag), t);
    assert [] + [CreateOne(p, tag)] == [CreateOne(p, tag)];
    var s := AfterAll([CreateOne(p, tag)], t);
    OneCellIsAccepted(s, c, tag, t);
    AfterSnoc([CreateOne(p, tag)], CreateOne(c, tag), t);
    assert [CreateOne(p, tag)] + [CreateOne(c, tag)] == [CreateOne(p, tag), CreateOne(c, tag)];
  }

  /** Two zones, each accepted on its own, one with a cell inside the cell of the other: the primary
      calculated from both stores the nested pair. */
  lemma CommunalPrimaryNestsCells(p: Cell, c: Cell, tag: string, t: Texts)
    requires IsAncestor(p, c) && KeepsPrinted(t.clean)
    ensures var s := AfterAll(NestingRun(p, c, tag), t);
            3 in s.rows && HasNesting(CellsOrEmpty(s.rows[3])) && !AllDisjoint(s)
  {
    var two, w := [CreateOne(p, tag), CreateOne(c, tag)], CommunalPrimary(tag, None);
    NestingState(p, c, tag, t);
    var s := AfterAll(two, t);
    TwoSources(s.rows, OneCellRow(p, tag), OneCellRow(c, tag), tag);
    NestedMerge([OneCellRow(p, tag), OneCellRow(c, tag)], p, c, tag, t.clean);
    AfterSnoc(two, w, t);
    assert two + [w] == NestingRun(p, c, tag);
    PrimaryIsStored(s, w, t);
  }

  lemma NestedMerge(sources: seq<ZoneRow>, p: Cell, c: Cell, tag: string, clean: Cleaner)
    requires IsAncestor(p, c) && KeepsPrinted(clean) && sources == [OneCellRow(p, tag), OneCellRow(c, tag)]
    ensures HasNesting(Merged(Contributions(sources, clean)))
  {
    var parts := Contributions(sources, clean);
    OneCellContribution(p, tag, clean);
    OneCellContribution(c, tag, clean);
    assert Text(p, 0) in parts[0] && Text(c, 0) in parts[1] && Nests(Text(p, 0), Text(c, 0));
    ClashShows(parts, 0, 1);
  }

  lemma PrimaryIsStored(s: State, w: Write, t: Texts)
    requires w.CommunalPrimary? && Sources(s.rows, w.tag) != []
    requires HasNesting(Merged(Contributions(Sources(s.rows, w.tag), t.clean)))
    ensures var s' := After(s, w, t);
            s.nextId in s'.rows && s'.rows[s.nextId].cells == Some(Merged(Contributions(Sources(s.rows, w.tag), t.clean)))
            && !AllDisjoint(s')
  {
    var cells, s' := Merged(Contributions(Sources(s.rows, w.tag), t.clean)), After(s, w, t);
    assert cells != [];
    assert s'.rows[s.nextId].cells == Some(cells);
    assert !Disjoint(CellsOrEmpty(s'.rows[s.nextId]));
  }

  // ----- the config mirror ----------------------------------------------------------------

  /** The value spells the cells; a missing or null one stands for none. */
  predicate Spells(value: ConfigValue, cells: seq<CellText>) {
    value == AsItems(cells) || (value in {Absent, Null} && cells == [])
  }

  lemma SpellsOne(value: ConfigValue, a: seq<CellText>, b: seq<CellText>)
    requires Spells(value, a)
    ensures Spells(value, b) <==> a == b
  {
    ItemsReadBack(a);
    ItemsReadBack(b);
  }

  lemma SpellsIsRead(value: ConfigValue, cells: seq<CellText>)
    ensures ReadValue(value) == Ok(cells) <==> Spells(value, cells)
  {
    ItemsReadBack(cells);
    if ReadValue(value) == Ok(cells) && value.Items? {
      assert forall i :: 0 <= i < |value.items| ==> value.items[i] in value.items;
      assert AsItems(cells).items == value.items;
    }
  }

  /** config.h3Cells agrees with the column. */
  ghost predicate Aligned(row: ZoneRow) {
    Spells(ConfigOf(row).h3Cells, CellsOrEmpty(row))
  }

  ghost predicate AllAligned(s: State) {
    forall id :: id in s.rows ==> Aligned(s.rows[id]) && id < s.nextId
  }

  /** The parameters and cells that the fields leave in memory. */
  ghost function LastParameters(row: ZoneRow, updates: seq<FieldUpdate>): Parameters {
    if updates == [] then row.parameters
    else
      var last := updates[|updates| - 1];
      if last.SetParameters? then last.parameters else LastParameters(row, updates[..|updates| - 1])
  }

  ghost function LastCells(row: ZoneRow, updates: seq<FieldUpdate>): seq<CellText> {
    if updates == [] then CellsOrEmpty(row)
    else
      var last := updates[|updates| - 1];
      if last.SetCells? then (if last.cells.Some? then last.cells.value else []) else LastCells(row, updates[..|updates| - 1])
  }

  lemma {:induction false} FieldsLeave(row: ZoneRow, updates: seq<FieldUpdate>, show: Wkt.Format)
    requires AppliedFields(row, updates, show).Ok?
    ensures var r := AppliedFields(row, updates, show).value;
            r.parameters == LastParameters(row, updates) && CellsOrEmpty(r) == LastCells(row, updates)
  {
    if updates != [] {
      FieldsLeave(row, updates[..|updates| - 1], show);
    }
  }

  function ConfigIn(parameters: Parameters): Config {
    if parameters.Object? && parameters.config.Some? then parameters.config.value else EMPTY_CONFIG
  }

  /** Exactly when a crud update leaves the stored mirror aligned: the sync is written, or what is
      stored for the parameters already spells the cells. */
  lemma AlignedAfterUpdateIff(row: ZoneRow, updates: seq<FieldUpdate>, show: Wkt.Format)
    requires UpdatedRow(row, updates, show).Ok?
    ensures Aligned(UpdatedRow(row, updates, show).value) <==>
            SyncIsWritten(row, updates)
            || Spells(ConfigIn(LastParameters(row, updates)).h3Cells, LastCells(row, updates))
  {
    FieldsLeave(row, updates, show);
  }

  /** An update of the cells alone on a row with a parameters object leaves the mirror stale. */
  lemma CellsAloneLeaveMirrorStale(row: ZoneRow, cells: seq<CellText>, show: Wkt.Format)
    requires !row.parameters.NoObject? && Aligned(row) && CellsError(cells) == None && cells != CellsOrEmpty(row)
    ensures var r := UpdatedRow(row, [SetCells(Some(cells))], show);
            r.Ok? && r.value.cells == Some(cells) && r.value.parameters == row.parameters && !Aligned(r.value)
  {
    var updates := [SetCells(Some(cells))];
    assert updates[..0] == [] && AppliedFields(row, [], show) == Ok(row);
    SpellsOne(ConfigOf(row).h3Cells, CellsOrEmpty(row), cells);
  }

  /** What each write must meet to leave an aligned store aligned. */
  ghost predicate MirrorKept(s: State, w: Write, t: Texts) {
    NewRow(s, w, t).Error? ||
    match w
    case Create(_) => true
    case CreateViaContract(_, _, _, _, _) => true
    case CommunalPrimary(_, _) => true
    case AssignCommunal(_, _) => true
    case Delete(_) => true
    case CreateViaApi(_, _, _, a, _) => PayloadMirrors(a, EMPTY_CONFIG)
    case UpdateViaApi(id, _, _, _, a, _) => id in s.rows && PayloadMirrors(a, SerializedConfig(s.rows[id]))
    case UpdateViaContract(id, u, _) =>
      id in s.rows && (u.config.None? || !s.rows[id].parameters.Object?
                       || Spells(u.config.value.h3Cells, CellsOrEmpty(s.rows[id])))
    case Update(id, updates) =>
      id in s.rows && (SyncIsWritten(s.rows[id], updates)
                       || Spells(ConfigIn(LastParameters(s.rows[id], updates)).h3Cells, LastCells(s.rows[id], updates)))
  }

  /** The snake-case list is missing, null or the same as the camel-case one. */
  predicate PayloadMirrors(a: ApiCells, stored: Config) {
    var normalized := NormalizedConfig(a);
    var config := if normalized.Some? then normalized.value else stored;
    config.h3_cells in {Absent, Null} || ReadValue(config.h3_cells) == ReadValue(config.h3Cells)
  }

  lemma CreatedRowIsAligned(z: ZoneCreate, show: Wkt.Format)
    requires CreatedRow(z, show).Ok?
    ensures Aligned(CreatedRow(z, show).value)
  {
  }

  lemma ApiRowAlignedIff(name: string, kind: string, polygon: Option<Wkt.GeoJson>, config: Config, active: bool, show: Wkt.Format)
    requires ApiRow(name, kind, polygon, config, active, show).Ok?
    ensures Aligned(ApiRow(name, kind, polygon, config, active, show).value)
            <==> config.h3_cells in {Absent, Null} || ReadValue(config.h3_cells) == ReadValue(config.h3Cells)
  {
    SpellsIsRead(config.h3Cells, CellsOrEmpty(ApiRow(name, kind, polygon, config, active, show).value));
  }

  lemma ContractCellsAreSpelled(config: Config)
    requires ContractCells(config).Ok?
    ensures var cells := ContractCells(config).value;
            Spells(config.h3Cells, if cells.Some? then cells.value else [])
  {
    if config.h3Cells.Items? {
      assert ReadValue(config.h3Cells) == Ok(CellsOf(config.h3Cells.items));
      SpellsIsRead(config.h3Cells, CellsOf(config.h3Cells.items));
    }
  }

  lemma ContractUpdateAlignedIff(row: ZoneRow, u: ContractUpdate, show: Wkt.Format)
    requires Aligned(row) && ContractUpdated(row, u, false, show).Ok?
    ensures Aligned(ContractUpdated(row, u, false, show).value)
            <==> u.config.None? || !row.parameters.Object? || Spells(u.config.value.h3Cells, CellsOrEmpty(row))
  {
    var r := ContractUpdated(row, u, false, show).value;
    if u.config.Some? {
      ContractCellsAreSpelled(u.config.value);
      SpellsOne(u.config.value.h3Cells, CellsOrEmpty(r), CellsOrEmpty(row));
      if row.parameters.Object? {
        SpellsOne(ConfigOf(row).h3Cells, CellsOrEmpty(row), CellsOrEmpty(r));
      }
    }
  }

  lemma NewRowAlignedIff(s: State, w: Write, t: Texts)
    requires AllAligned(s) && NewRow(s, w, t).Ok?
    ensures Aligned(NewRow(s, w, t).value) <==> MirrorKept(s, w, t)
  {
    match w
    case Create(z) => CreatedRowIsAligned(z, t.show);
    case CreateViaContract(_, _, _, config, _) => ContractCellsAreSpelled(config);
    case CreateViaApi(name, kind, polygon, a, _) =>
      var config := NormalizedConfig(a);
      ApiRowAlignedIff(name, kind, polygon, if config.Some? then config.value else EMPTY_CONFIG, true, t.show);
    case UpdateViaApi(id, name, kind, polygon, a, _) =>
      var config := NormalizedConfig(a);
      ApiRowAlignedIff(name, kind, polygon, if config.Some? then config.value else SerializedConfig(s.rows[id]),
                       s.rows[id].active, t.show);
    case UpdateViaContract(id, u, _) => ContractUpdateAlignedIff(s.rows[id], u, t.show);
    case Update(id, updates) => AlignedAfterUpdateIff(s.rows[id], updates, t.show);
    case CommunalPrimary(_, _) =>
    case AssignCommunal(_, _) =>
    case Delete(_) =>
  }

  /** Path by path, exactly when a write leaves every mirror aligned. */
  lemma WriteKeepsAlignedIff(s: State, w: Write, t: Texts)
    requires AllAligned(s)
    ensures AllAligned(After(s, w, t)) <==> MirrorKept(s, w, t)
  {
    if NewRow(s, w, t).Ok? {
      NewRowAlignedIff(s, w, t);
      var s', id := After(s, w, t), Target(s, w);
      assert id in s'.rows && s'.rows[id] == NewRow(s, w, t).value;
    }
  }

  ghost predicate AlwaysMirrors(writes: seq<Write>, t: Texts) {
    writes != [] ==>
      var front, last := writes[..|writes| - 1], writes[|writes| - 1];
      AlwaysMirrors(front, t) && MirrorKept(AfterAll(front, t), last, t)
  }

  lemma {:induction false} RunsKeepAligned(writes: seq<Write>, t: Texts)
    requires AlwaysMirrors(writes, t)
    ensures AllAligned(AfterAll(writes, t))
  {
    if writes != [] {
      RunsKeepAligned(writes[..|writes| - 1], t);
      WriteKeepsAlignedIff(AfterAll(writes[..|writes| - 1], t), writes[|writes| - 1], t);
    }
  }

  // ----- partial API updates --------------------------------------------------------------

  /** An API update without config and cells leaves the cells of the row alone. */
  ghost predicate KeepsCells(row: ZoneRow) {
    ExtractH3Cells(SerializedConfig(row)) == Ok(CellsOrEmpty(row))
  }

  /** For every row: the config carries neither list, or the one that wins spells the column. */
  lemma KeepsCellsIff(row: ZoneRow)
    ensures KeepsCells(row) <==>
            (ConfigOf(row).h3_cells == ConfigOf(row).h3Cells == Absent) || Spells(WinningValue(ConfigOf(row)), CellsOrEmpty(row))
  {
    SpellsIsRead(WinningValue(SerializedConfig(row)), CellsOrEmpty(row));
  }

  /** Rows written by the API itself keep their cells. */
  lemma ApiRowsKeepCells(name: string, kind: string, polygon: Option<Wkt.GeoJson>, config: Config, active: bool, show: Wkt.Format)
    requires ApiRow(name, kind, polygon, config, active, show).Ok?
    ensures KeepsCells(ApiRow(name, kind, polygon, config, active, show).value)
  {
    var row := ApiRow(name, kind, polygon, config, active, show).value;
    KeepsCellsIff(row);
    SpellsIsRead(WinningValue(config), CellsOrEmpty(row));
  }

  /** The cells moved by a contract update, or by a crud update of the cells alone. */
  function MoveTo(b: Cell, viaContract: bool): Write {
    if viaContract then UpdateViaContract(1, ContractUpdate(None, None, None, Some(Config(Absent, AsItems([Text(b, 0)]), {}))), false)
    else Update(1, [SetCells(Some([Text(b, 0)]))])
  }

  const RENAME := UpdateViaApi(1, "renamed", "geofence", None, ApiCells(None, None), false)

  /** Created with one cell over the API, moved to another, renamed over the API without config. */
  function RevertingRun(a: Cell, b: Cell, tag: string, viaContract: bool): seq<Write> {
    [CreateOne(a, tag), MoveTo(b, viaContract), RENAME]
  }

  lemma MovedRow(s: State, a: Cell, b: Cell, tag: string, viaContract: bool, t: Texts)
    requires 1 in s.rows && s.rows[1] == OneCellRow(a, tag)
    ensures NewRow(s, MoveTo(b, viaContract), t) == Ok(OneCellRow(a, tag).(cells := Some([Text(b, 0)])))
  {
    var cells, updates := [Text(b, 0)], [SetCells(Some([Text(b, 0)]))];
    assert CellsError(cells) == None;
    if viaContract {
      ItemsReadBack(cells);
    } else {
      assert updates[..0] == [] && AppliedFields(s.rows[1], [], t.show) == Ok(s.rows[1]);
    }
  }

  lemma RenamedRow(s: State, a: Cell, b: Cell, tag: string, t: Texts)
    requires 1 in s.rows && s.rows[1] == OneCellRow(a, tag).(cells := Some([Text(b, 0)]))
    ensures NewRow(s, RENAME, t) == Ok(OneCellRow(a, tag).(name := "renamed"))
    ensures KeepsCells(s.rows[1]) <==> a == b
  {
    ItemsReadBack([Text(a, 0)]);
    assert SerializedConfig(s.rows[1]) == OneCell(a, tag);
    assert ExtractH3Cells(OneCell(a, tag)) == Ok([Text(a, 0)]);
    assert CellsError([Text(a, 0)]) == None;
  }

  /** The rename brings the old cell back. */
  lemma RenameRevertsCells(a: Cell, b: Cell, tag: string, viaContract: bool, t: Texts)
    ensures var moved := AfterAll(RevertingRun(a, b, tag, viaContract)[..2], t);
            1 in moved.rows && moved.rows[1].cells == Some([Text(b, 0)]) && (KeepsCells(moved.rows[1]) <==> a == b)
    ensures var s := AfterAll(RevertingRun(a, b, tag, viaContract), t);
            1 in s.rows && s.rows[1].name == "renamed" && s.rows[1].cells == Some([Text(a, 0)])
  {
    var w1, w2 := CreateOne(a, tag), MoveTo(b, viaContract);
    OneCellIsAccepted(EMPTY, a, tag, t);
    AfterSnoc([], w1, t);
    AfterSnoc([w1], w2, t);
    AfterSnoc([w1, w2], RENAME, t);
    assert [] + [w1] == [w1] && [w1] + [w2] == [w1, w2] && [w1, w2] + [RENAME] == RevertingRun(a, b, tag, viaContract);
    assert RevertingRun(a, b, tag, viaContract)[..2] == [w1, w2];
    MovedRow(AfterAll([w1], t), a, b, tag, viaContract, t);
    RenamedRow(AfterAll([w1, w2], t), a, b, tag, t);
  }
}

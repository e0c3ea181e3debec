/** What a stored zone row holds after each write, in the client's terms, and which writes are accepted. */
module ZoneContents {
  import opened Options
  import opened Lists
  import opened H3
  import opened ZoneRows
  import opened ZoneStore
  import opened ZoneRuns
  import T = Text
  import Wkt

  // ----- geometry -------------------------------------------------------------------------

  /** The stored text is the extended form of exactly this geometry. */
  ghost predicate HoldsGeometry(stored: Option<string>, g: Wkt.GeoJson, show: Wkt.Format) {
    stored.Some? && "SRID=4326;" <= stored.value
    && var read := Wkt.ReadWkt(stored.value[10..]);
       read.Some? && Wkt.Shows(read.value, g, show)
  }

  /** The polygon a client write asks to store; None when it leaves the geometry of the row alone. */
  function AskedPolygon(w: Write): Option<Option<Wkt.GeoJson>> {
    match w
    case Create(z) => Some(z.polygon)
    case CreateViaApi(_, _, polygon, _, _) => Some(polygon)
    case UpdateViaApi(_, _, _, polygon, _, _) => Some(polygon)
    case CreateViaContract(_, _, polygon, _, _) => Some(if polygon.Some? && polygon.value.Other? then None else polygon)
    case UpdateViaContract(_, u, _) =>
      if u.geometry.Some? && u.geometry.value.Some? && u.geometry.value.value.Other? then Some(None) else u.geometry
    case Update(_, updates) => LastSetPolygon(updates)
    case CommunalPrimary(_, _) => None
    case AssignCommunal(_, _) => None
    case Delete(_) => None
  }

  function LastSetPolygon(updates: seq<FieldUpdate>): Option<Option<Wkt.GeoJson>> {
    if updates == [] then None
    else if updates[|updates| - 1].SetPolygon? then Some(updates[|updates| - 1].polygon)
    else LastSetPolygon(updates[..|updates| - 1])
  }

  /** What became of the geometry asked for. */
  ghost predicate GeometryFollows(now: Option<string>, before: Option<string>, asked: Option<Option<Wkt.GeoJson>>,
                                  show: Wkt.Format) {
    match asked
    case None => now == before
    case Some(None) => now == None
    case Some(Some(g)) => HoldsGeometry(now, g, show)
  }

  lemma PrintedGeometry(polygon: Option<Wkt.GeoJson>, show: Wkt.Format, before: Option<string>)
    requires Wkt.Formats(show)
    ensures var r := GeometryOf(polygon, show);
            (r.Ok? <==> (polygon.Some? ==> Wkt.HoldsPairs(polygon.value)))
            && (r.Ok? ==> GeometryFollows(r.value, before, Some(polygon), show))
  {
    if polygon.Some? {
      Wkt.TextShowsGeometry(polygon.value, show);
      if Wkt.HoldsPairs(polygon.value) {
        var text := Wkt.GeoJsonText(polygon.value, show).value;
        assert ("SRID=4326;" + text)[10..] == text;
      }
    }
  }

  lemma {:induction false} FieldsGeometry(row: ZoneRow, updates: seq<FieldUpdate>, show: Wkt.Format)
    requires Wkt.Formats(show) && AppliedFields(row, updates, show).Ok?
    ensures GeometryFollows(AppliedFields(row, updates, show).value.geometry, row.geometry, LastSetPolygon(updates), show)
  {
    if updates != [] {
      FieldsGeometry(row, updates[..|updates| - 1], show);
      var last := updates[|updates| - 1];
      if last.SetPolygon? {
        PrintedGeometry(last.polygon, show, row.geometry);
      }
    }
  }

  /** After an accepted client write the row holds the very polygon asked for, or none, or what it
      held before. */
  lemma StoredGeometryIs(s: State, w: Write, t: Texts)
    requires Wkt.Formats(t.show) && NewRow(s, w, t).Ok? && !w.CommunalPrimary?
    ensures var id, s' := Target(s, w), After(s, w, t);
            id in s'.rows && (!Inserts(w) ==> id in s.rows)
            && GeometryFollows(s'.rows[id].geometry, if Inserts(w) then None else s.rows[id].geometry, AskedPolygon(w), t.show)
  {
    match w
    case Create(z) => PrintedGeometry(z.polygon, t.show, None);
    case CreateViaApi(_, _, polygon, _, _) => PrintedGeometry(polygon, t.show, None);
    case UpdateViaApi(id, _, _, polygon, _, _) => PrintedGeometry(polygon, t.show, s.rows[id].geometry);
    case CreateViaContract(_, _, polygon, _, _) => PrintedGeometry(ContractPolygon(polygon), t.show, None);
    case UpdateViaContract(id, u, _) =>
      if u.geometry.Some? {
        PrintedGeometry(ContractPolygon(u.geometry.value), t.show, s.rows[id].geometry);
      }
    case Update(id, updates) => FieldsGeometry(s.rows[id], updates, t.show);
    case AssignCommunal(_, _) =>
    case Delete(_) =>
  }

  // ----- labels ---------------------------------------------------------------------------

  /** The last name, kind and activity a list of fields sets, or the row's. */
  function LastName(row: ZoneRow, updates: seq<FieldUpdate>): string {
    if updates == [] then row.name
    else if updates[|updates| - 1].SetName? then updates[|updates| - 1].name else LastName(row, updates[..|updates| - 1])
  }

  function LastKind(row: ZoneRow, updates: seq<FieldUpdate>): string {
    if updates == [] then row.kind
    else if updates[|updates| - 1].SetKind? then updates[|updates| - 1].kind else LastKind(row, updates[..|updates| - 1])
  }

  function LastActive(row: ZoneRow, updates: seq<FieldUpdate>): bool {
    if updates == [] then row.active
    else if updates[|updates| - 1].SetActive? then updates[|updates| - 1].active else LastActive(row, updates[..|updates| - 1])
  }

  lemma {:induction false} FieldsLabels(row: ZoneRow, updates: seq<FieldUpdate>, show: Wkt.Format)
    requires AppliedFields(row, updates, show).Ok?
    ensures var r := AppliedFields(row, updates, show).value;
            r.name == LastName(row, updates) && r.kind == LastKind(row, updates) && r.active == LastActive(row, updates)
  {
    if updates != [] {
      FieldsLabels(row, updates[..|updates| - 1], show);
    }
  }

  ghost predicate Labelled(row: ZoneRow, name: string, kind: string, active: bool) {
    row.name == name && row.kind == kind && row.active == active
  }

  /** The full name of a primary: the only source's, or one made of the Communal ID. */
  function PrimaryLabel(sources: seq<ZoneRow>, tag: string): string {
    if |sources| == 1 && T.Strip(sources[0].name) != "" then T.Strip(sources[0].name) else "Primary (" + tag + ")"
  }

  /** Name, kind and activity after an accepted write: the client's, the row's, or those of a new row. */
  lemma StoredLabelsAre(s: State, w: Write, t: Texts)
    requires NewRow(s, w, t).Ok?
    ensures var row := After(s, w, t).rows[Target(s, w)];
            match w
            case Create(z) => Labelled(row, z.name, z.kind, true)
            case CreateViaApi(name, kind, _, _, _) => Labelled(row, name, kind, true)
            case CreateViaContract(name, kind, _, _, _) => Labelled(row, name, kind, true)
            case CommunalPrimary(tag, geometry) =>
              row.kind == "geofence" && row.active && row.geometry == geometry
              && row.name == PrimaryLabel(Sources(s.rows, tag), tag)[..|row.name|]
              && (|row.name| == 255 || row.name == PrimaryLabel(Sources(s.rows, tag), tag)) && |row.name| <= 255
            case UpdateViaApi(id, name, kind, _, _, _) => id in s.rows && Labelled(row, name, kind, s.rows[id].active)
            case UpdateViaContract(id, u, _) =>
              id in s.rows && Labelled(row, if u.name.Some? then u.name.value else s.rows[id].name,
                                       if u.kind.Some? then u.kind.value else s.rows[id].kind, s.rows[id].active)
            case Update(id, updates) =>
              id in s.rows && Labelled(row, LastName(s.rows[id], updates), LastKind(s.rows[id], updates),
                                       LastActive(s.rows[id], updates))
            case AssignCommunal(id, _) => id in s.rows && Labelled(row, s.rows[id].name, s.rows[id].kind, s.rows[id].active)
            case Delete(id) => id in s.rows && Labelled(row, s.rows[id].name, s.rows[id].kind, false)
  {
    if w.Update? {
      FieldsLabels(s.rows[w.id], w.updates, t.show);
    }
  }

  /** A refused write changes nothing; an accepted one stores one row, a new one under a fresh id. */
  lemma OneRowChanges(s: State, w: Write, t: Texts)
    ensures var s', id := After(s, w, t), Target(s, w);
            if NewRow(s, w, t).Error? then s' == s
            else s'.rows.Keys == s.rows.Keys + {id} && (forall k :: k in s.rows && k != id ==> s'.rows[k] == s.rows[k])
                 && (Inserts(w) ==> id == s.nextId && s'.nextId == id + 1) && (!Inserts(w) ==> s'.nextId == s.nextId)
  {
  }

  // ----- cells and Communal IDs -----------------------------------------------------------

  /** A created row holds the client's cells in order, then the centre cell unless it was listed; a
      resolution of 0 counts as not given, and 13 is used then. */
  lemma CreatedCells(z: ZoneCreate, show: Wkt.Format)
    requires CreatedRow(z, show).Ok?
    ensures CreatedRow(z, show).value.cells == Some(
              if z.point.None? then z.cells
              else
                var at := if z.resolution == None || z.resolution == Some(0) then 13 else z.resolution.value;
                var center := Text(z.point.value(at), 0);
                if center in z.cells then z.cells else z.cells + [center])
    ensures z.point.Some? && z.resolution.Some? ==> z.resolution.value <= 15
  {
  }

  /** The list of a config in either spelling: a snake-case value that is not null wins, then the
      camel-case one; `otherwise` stands in when the config names neither. */
  function FirstGiven(config: Config, otherwise: ConfigValue): ConfigValue {
    if config.h3_cells.Items? || config.h3_cells.NotAnArray? then config.h3_cells
    else if config.h3Cells != Absent then config.h3Cells
    else if config.h3_cells == Absent then otherwise
    else Absent
  }

  /** Which list an API payload has read as its cells: that of its config, else the top-level one;
      an update that gives neither reads the row's config, else the row's column. */
  lemma RequestedIs(a: ApiCells, row: ZoneRow)
    ensures Requested(a, EMPTY_CONFIG)
            == FirstGiven(if a.config.Some? then a.config.value else Config(Absent, Absent, {}),
                          if a.cells.Some? then Items(a.cells.value) else Absent)
    ensures Requested(a, SerializedConfig(row))
            == if a.config.Some? || a.cells.Some? then Requested(a, EMPTY_CONFIG)
               else FirstGiven(ConfigOf(row), if CellsOrEmpty(row) != [] then AsItems(CellsOrEmpty(row)) else Absent)
  {
  }

  function TagsOf(p: Parameters): set<string> {
    if p.Object? && p.config.Some? then p.config.value.tags else {}
  }

  /** The Communal IDs after an accepted write. Only a tagging adds one; a payload with a config brings
      its own, one with a bare cell list drops them, and a contract update keeps a stored config. */
  lemma StoredTagsAre(s: State, w: Write, t: Texts)
    requires NewRow(s, w, t).Ok?
    ensures var tags := TagsOf(After(s, w, t).rows[Target(s, w)].parameters);
            match w
            case Create(z) => tags == if z.config.Some? then z.config.value.tags else {}
            case CreateViaApi(_, _, _, a, _) => tags == if a.config.Some? then a.config.value.tags else {}
            case CreateViaContract(_, _, _, config, _) => tags == config.tags
            case CommunalPrimary(_, _) => tags == {}
            case UpdateViaApi(id, _, _, _, a, _) =>
              id in s.rows && tags == if a.config.Some? then a.config.value.tags else if a.cells.Some? then {}
                                      else TagsOf(s.rows[id].parameters)
            case UpdateViaContract(id, u, _) =>
              id in s.rows && tags == if s.rows[id].parameters.Object? then TagsOf(s.rows[id].parameters)
                                      else if u.config.Some? then u.config.value.tags else {}
            case Update(id, updates) => id in s.rows && tags == TagsOf(LastParameters(s.rows[id], updates))
            case AssignCommunal(id, tag) => id in s.rows && tags == TagsOf(s.rows[id].parameters) + {tag}
            case Delete(id) => id in s.rows && tags == TagsOf(s.rows[id].parameters)
  {
    if w.Update? {
      FieldsLeave(s.rows[w.id], w.updates, t.show);
    }
  }

  /** The parameters after a crud update: the last ones given, or the row's. The new cells are written
      into the camel-case list of the config only when the update sets cells and also gives
      parameters or finds no object stored. */
  lemma ParametersAfterUpdate(row: ZoneRow, updates: seq<FieldUpdate>, show: Wkt.Format)
    requires UpdatedRow(row, updates, show).Ok?
    ensures var r, last := UpdatedRow(row, updates, show).value, LastParameters(row, updates);
            r.parameters ==
              if (exists u :: u in updates && u.SetCells?)
                 && ((exists u :: u in updates && u.SetParameters?) || row.parameters.NoObject?)
              then
                var config := if last.Object? && last.config.Some? then last.config.value else Config(Absent, Absent, {});
                Object(Some(config.(h3Cells := AsItems(if r.cells.Some? then r.cells.value else []))))
              else last
  {
    FieldsLeave(row, updates, show);
  }

  /** The sources of a Communal ID are the active rows tagged with it, each once, oldest first. */
  lemma SourcesAre(rows: map<int, ZoneRow>, tag: string) returns (ids: seq<int>)
    ensures |ids| == |Sources(rows, tag)| && forall i, j :: 0 <= i < j < |ids| ==> ids[i] < ids[j]
    ensures forall id :: id in ids <==> id in rows && rows[id].active && tag in TagsOf(rows[id].parameters)
    ensures forall i :: 0 <= i < |ids| ==> ids[i] in rows && Sources(rows, tag)[i] == rows[ids[i]]
  {
    ids := SortedIds(TaggedIds(rows, tag));
    forall i | 0 <= i < |ids|
      ensures ids[i] in rows
    {
      assert ids[i] in ids;
    }
  }

  // ----- the cells of a primary -----------------------------------------------------------

  /** Everything the sources bring, one list after the other. */
  ghost function Brought(parts: seq<seq<CellText>>): seq<CellText> {
    if parts == [] then [] else Brought(parts[..|parts| - 1]) + parts[|parts| - 1]
  }

  lemma {:induction false} JoinedTwice(a: seq<CellText>, b: seq<CellText>, c: seq<CellText>)
    ensures Joined(Joined(a, b), c) == Joined(a, b + c)
  {
    if c == [] {
      assert b + c == b;
    } else {
      var front := c[..|c| - 1];
      assert (b + c)[..|b + c| - 1] == b + front;
      JoinedTwice(a, b, front);
    }
  }

  lemma {:induction false} MergedIsJoined(parts: seq<seq<CellText>>)
    ensures Merged(parts) == Joined([], Brought(parts))
  {
    if parts != [] {
      var front := parts[..|parts| - 1];
      MergedIsJoined(front);
      JoinedTwice([], Brought(front), parts[|parts| - 1]);
    }
  }

  ghost predicate IsFirst(flat: seq<CellText>, i: nat) {
    i < |flat| && flat[i] !in flat[..i]
  }

  /** The places in a list where a text stands for the first time, in order. */
  ghost predicate FirstPlaces(flat: seq<CellText>, places: seq<nat>) {
    (forall i: nat :: i in places <==> IsFirst(flat, i)) && forall k, l :: 0 <= k < l < |places| ==> places[k] < places[l]
  }

  ghost predicate TextsAt(flat: seq<CellText>, places: seq<nat>, cells: seq<CellText>) {
    |cells| == |places| && forall k :: 0 <= k < |places| ==> places[k] < |flat| && cells[k] == flat[places[k]]
  }

  lemma OneMorePlace(front: seq<CellText>, x: CellText, places: seq<nat>)
    requires FirstPlaces(front, places)
    ensures FirstPlaces(front + [x], if x in front then places else places + [|front|])
  {
    var flat := front + [x];
    forall i: nat
      ensures IsFirst(flat, i) <==> IsFirst(front, i) || (i == |front| && x !in front)
    {
      if i <= |front| {
        assert flat[..i] == front[..i];
      }
    }
    assert forall k :: 0 <= k < |places| ==> places[k] in places && IsFirst(front, places[k]);
  }

  lemma TextsStay(front: seq<CellText>, x: CellText, places: seq<nat>, cells: seq<CellText>)
    requires TextsAt(front, places, cells)
    ensures TextsAt(front + [x], places, cells) && TextsAt(front + [x], places + [|front|], cells + [x])
  {
    var flat := front + [x];
    assert forall k :: 0 <= k < |places| ==> flat[places[k]] == front[places[k]];
  }

  lemma NoPlaces()
    ensures FirstPlaces([], []) && TextsAt([], [], [])
  {
    assert forall i: nat :: !IsFirst([], i);
  }

  lemma JoinedOneMore(front: seq<CellText>, x: CellText)
    ensures Joined([], front + [x]) == if x in front then Joined([], front) else Joined([], front) + [x]
  {
    assert (front + [x])[..|front|] == front;
    JoinedHas([], front);
  }

  lemma {:induction false} JoinedIsFirstPlaces(flat: seq<CellText>) returns (places: seq<nat>)
    ensures FirstPlaces(flat, places) && TextsAt(flat, places, Joined([], flat))
  {
    if flat == [] {
      places := [];
      NoPlaces();
    } else {
      var front, x := flat[..|flat| - 1], flat[|flat| - 1];
      assert flat == front + [x];
      var before := JoinedIsFirstPlaces(front);
      JoinedOneMore(front, x);
      OneMorePlace(front, x, before);
      TextsStay(front, x, before, Joined([], front));
      places := if x in front then before else before + [|front|];
    }
  }

  /** The row brings this entry: its column or either list of its config has it. */
  predicate Brings(row: ZoneRow, item: Item) {
    (row.cells.Some? && item.Entry? && item.cell in row.cells.value)
    || (row.parameters.Object? && row.parameters.config.Some?
        && var config := row.parameters.config.value;
           (config.h3_cells.Items? && item in config.h3_cells.items) || (config.h3Cells.Items? && item in config.h3Cells.items))
  }

  lemma {:induction false} CleanedHas(items: seq<Item>, clean: Cleaner, x: CellText)
    ensures x in CleanCells(items, clean) <==> exists item :: item in items && clean(item) == Some(x)
  {
    if items != [] {
      CleanedHas(items[..|items| - 1], clean, x);
      assert items == items[..|items| - 1] + [items[|items| - 1]];
    }
  }

  lemma ContributionIs(row: ZoneRow, clean: Cleaner, x: CellText)
    ensures x in Contribution(row, clean) <==> exists item :: Brings(row, item) && clean(item) == Some(x)
  {
    CleanedHas(SourceItems(row), clean, x);
    forall item
      ensures item in SourceItems(row) <==> Brings(row, item)
    {
      if Brings(row, item) && row.cells.Some? && item.Entry? && item.cell in row.cells.value {
        var i :| 0 <= i < |row.cells.value| && row.cells.value[i] == item.cell;
        assert AsItems(CellsOrEmpty(row)).items[i] == item;
      }
    }
  }

  /** A primary stores the texts its sources bring, one source after the other, each where it stands
      first. */
  lemma PrimaryCellsAre(s: State, tag: string, geometry: Option<string>, t: Texts) returns (places: seq<nat>)
    requires NewRow(s, CommunalPrimary(tag, geometry), t).Ok?
    ensures var row := NewRow(s, CommunalPrimary(tag, geometry), t).value;
            var flat := Brought(Contributions(Sources(s.rows, tag), t.clean));
            row.cells.Some? && FirstPlaces(flat, places) && TextsAt(flat, places, row.cells.value)
  {
    var parts := Contributions(Sources(s.rows, tag), t.clean);
    MergedIsJoined(parts);
    places := JoinedIsFirstPlaces(Brought(parts));
  }

  // ----- acceptance -----------------------------------------------------------------------

  ghost predicate PolygonFine(polygon: Option<Wkt.GeoJson>) {
    polygon.Some? ==> Wkt.HoldsPairs(polygon.value)
  }

  /** All valid, and none extends another printed one. */
  ghost predicate CellsFine(cells: seq<CellText>) {
    (forall x :: x in cells ==> x.Text?) && !HoldsExtension(cells)
  }

  ghost predicate ListFine(value: ConfigValue) {
    !value.NotAnArray? && (value.Items? ==> forall item :: item in value.items ==> item.Entry?)
  }

  ghost predicate ApiFine(kind: string, polygon: Option<Wkt.GeoJson>, value: ConfigValue, refused: bool) {
    !refused && ListFine(value) && CellsFine(ReadOrEmpty(value)) && PolygonFine(polygon)
    && (kind in {"geofence", "grid", "warn", "alert", "restricted"} ==> polygon.Some? || ReadOrEmpty(value) != [])
  }

  ghost predicate ContractFine(polygon: Option<Wkt.GeoJson>, config: Option<Config>, refused: bool) {
    !refused && (polygon.Some? && !polygon.value.Other? ==> Wkt.HoldsPairs(polygon.value))
    && (config.Some? ==> ListFine(config.value.h3Cells) && CellsFine(ReadOrEmpty(config.value.h3Cells)))
  }

  ghost predicate FieldFine(u: FieldUpdate) {
    (u.SetCells? && u.cells.Some? ==> CellsFine(u.cells.value)) && (u.SetPolygon? ==> PolygonFine(u.polygon))
  }

  /** What each write must meet to be accepted. */
  ghost predicate Acceptable(s: State, w: Write, t: Texts) {
    match w
    case Create(z) =>
      (z.point.Some? && z.resolution.Some? ==> z.resolution.value <= 15)
      && PolygonFine(z.polygon) && CellsFine(AskedCells(s, w).value)
    case CreateViaApi(_, kind, polygon, a, refused) => ApiFine(kind, polygon, Requested(a, EMPTY_CONFIG), refused)
    case UpdateViaApi(id, _, kind, polygon, a, refused) =>
      id in s.rows && ApiFine(kind, polygon, Requested(a, SerializedConfig(s.rows[id])), refused)
    case CreateViaContract(_, _, polygon, config, refused) => ContractFine(polygon, Some(config), refused)
    case UpdateViaContract(id, u, refused) =>
      id in s.rows && ContractFine(if u.geometry.Some? then u.geometry.value else None, u.config, refused)
    case Update(id, updates) => id in s.rows && forall u :: u in updates ==> FieldFine(u)
    case AssignCommunal(id, _) => id in s.rows
    case Delete(id) => id in s.rows && s.rows[id].active
    case CommunalPrimary(tag, geometry) =>
      var sources := Sources(s.rows, tag);
      sources != [] && (geometry.Some? || exists i :: 0 <= i < |sources| && Contribution(sources[i], t.clean) != [])
  }

  lemma CellsFineIff(cells: seq<CellText>)
    ensures CellsFine(cells) <==> CellsError(cells) == None
  {
    OverlapIsExtension(cells);
    assert forall x :: ValidateH3Cell(x) <==> x.Text?;
  }

  lemma PolygonFineIff(polygon: Option<Wkt.GeoJson>, show: Wkt.Format)
    requires Wkt.Formats(show)
    ensures PolygonFine(polygon) <==> GeometryOf(polygon, show).Ok?
  {
    PrintedGeometry(polygon, show, None);
  }

  lemma {:induction false} FieldsFineIff(row: ZoneRow, updates: seq<FieldUpdate>, show: Wkt.Format)
    requires Wkt.Formats(show)
    ensures AppliedFields(row, updates, show).Ok? <==> forall u :: u in updates ==> FieldFine(u)
  {
    if updates != [] {
      var front, last := updates[..|updates| - 1], updates[|updates| - 1];
      assert updates == front + [last];
      FieldsFineIff(row, front, show);
      assert (forall u :: u in updates ==> FieldFine(u)) <==> (forall u :: u in front ==> FieldFine(u)) && FieldFine(last);
      if last.SetCells? && last.cells.Some? {
        CellsFineIff(last.cells.value);
      } else if last.SetPolygon? {
        PolygonFineIff(last.polygon, show);
      }
    }
  }

  lemma ApiFineIff(name: string, kind: string, polygon: Option<Wkt.GeoJson>, config: Config, active: bool, show: Wkt.Format)
    requires Wkt.Formats(show)
    ensures ApiRow(name, kind, polygon, config, active, show).Ok? <==> ApiFine(kind, polygon, WinningValue(config), false)
  {
    CellsFineIff(ReadOrEmpty(WinningValue(config)));
    PolygonFineIff(polygon, show);
  }

  lemma ContractFineIff(config: Config)
    ensures ContractCells(config).Ok? <==> ListFine(config.h3Cells) && CellsFine(ReadOrEmpty(config.h3Cells))
  {
    CellsFineIff(ReadOrEmpty(config.h3Cells));
  }

  lemma MergedEmptyIff(parts: seq<seq<CellText>>)
    ensures Merged(parts) != [] <==> exists i :: 0 <= i < |parts| && parts[i] != []
  {
    if Merged(parts) != [] {
      var x := Merged(parts)[0];
      MergedHas(parts, x);
    }
    forall i | 0 <= i < |parts| && parts[i] != []
      ensures Merged(parts) != []
    {
      MergedHas(parts, parts[i][0]);
    }
  }

  /** Exactly which writes are accepted. */
  lemma AcceptedIff(s: State, w: Write, t: Texts)
    requires Wkt.Formats(t.show)
    ensures NewRow(s, w, t).Ok? <==> Acceptable(s, w, t)
  {
    match w
    case Create(z) =>
      CellsFineIff(AskedCells(s, w).value);
      PolygonFineIff(z.polygon, t.show);
    case CreateViaApi(name, kind, polygon, a, _) =>
      var config := NormalizedConfig(a);
      ApiFineIff(name, kind, polygon, if config.Some? then config.value else EMPTY_CONFIG, true, t.show);
    case UpdateViaApi(id, name, kind, polygon, a, _) =>
      if id in s.rows {
        var config := NormalizedConfig(a);
        ApiFineIff(name, kind, polygon, if config.Some? then config.value else SerializedConfig(s.rows[id]),
                   s.rows[id].active, t.show);
      }
    case CreateViaContract(_, _, polygon, config, _) =>
      ContractFineIff(config);
      PolygonFineIff(ContractPolygon(polygon), t.show);
    case UpdateViaContract(id, u, _) =>
      if u.config.Some? {
        ContractFineIff(u.config.value);
      }
      if u.geometry.Some? {
        PolygonFineIff(ContractPolygon(u.geometry.value), t.show);
      }
    case Update(id, updates) =>
      if id in s.rows {
        FieldsFineIff(s.rows[id], updates, t.show);
      }
    case CommunalPrimary(tag, _) =>
      var parts := Contributions(Sources(s.rows, tag), t.clean);
      MergedEmptyIff(parts);
      assert forall i :: 0 <= i < |parts| ==> parts[i] == Contribution(Sources(s.rows, tag)[i], t.clean);
    case AssignCommunal(_, _) =>
    case Delete(_) =>
  }
}

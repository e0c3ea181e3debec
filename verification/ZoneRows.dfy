/** Zone rows: cell lists, config keys, and what each kind of write makes of its input. */
module ZoneRows {
  import opened Options
  import opened H3
  import opened Lists
  import T = Text
  import Wkt

  // ----- rows and payloads ----------------------------------------------------------------

  datatype Item = NotText(shown: string) | BlankText | Entry(cell: CellText)

  /** The value under one key of a zone's config object. */
  datatype ConfigValue = Absent | Null | NotAnArray | Items(items: seq<Item>)

  /** The two spellings of the cell list and the Communal IDs of a config; other keys play no part here. */
  datatype Config = Config(h3_cells: ConfigValue, h3Cells: ConfigValue, tags: set<string>)

  const EMPTY_CONFIG := Config(Absent, Absent, {})

  /** The parameters column: not an object, `{}`, or an object with or without a config object. */
  datatype Parameters = NoObject | EmptyObject | Object(config: Option<Config>)

  /** `cells` is None when the column holds null. */
  datatype ZoneRow = ZoneRow(name: string, kind: string, cells: Option<seq<CellText>>,
                             geometry: Option<string>, parameters: Parameters, active: bool)

  datatype ZoneError = InvalidCell | OverlappingCells | BadPolygon | BadResolution | BadConfig
                     | AreaRequired | Refused | NotFound | CommunalEmpty | CommunalNoGeometry

  datatype Result<+T> = Ok(value: T) | Error(error: ZoneError)

  /** The library's cell at each resolution for one point. */
  type Locator = nat -> Cell

  datatype ZoneCreate = ZoneCreate(name: string, kind: string, cells: seq<CellText>, point: Option<Locator>,
                                   resolution: Option<nat>, polygon: Option<Wkt.GeoJson>, config: Option<Config>)

  /** One field the client set in an update, in schema order. */
  datatype FieldUpdate = SetName(name: string) | SetKind(kind: string) | SetParameters(parameters: Parameters)
                       | SetCells(cells: Option<seq<CellText>>) | SetPolygon(polygon: Option<Wkt.GeoJson>)
                       | SetActive(active: bool)

  /** The cell-related part of an API payload: the config object and the top-level cell list. */
  datatype ApiCells = ApiCells(config: Option<Config>, cells: Option<seq<Item>>)

  datatype ContractUpdate = ContractUpdate(name: Option<string>, kind: Option<string>,
                                           geometry: Option<Option<Wkt.GeoJson>>, config: Option<Config>)

  function ConfigOf(row: ZoneRow): Config {
    if row.parameters.Object? && row.parameters.config.Some? then row.parameters.config.value else EMPTY_CONFIG
  }

  function CellsOrEmpty(row: ZoneRow): seq<CellText> {
    if row.cells.Some? then row.cells.value else []
  }

  function AsItems(cells: seq<CellText>): ConfigValue {
    Items(seq(|cells|, i requires 0 <= i < |cells| => Entry(cells[i])))
  }

  // ----- what a cell list must satisfy ----------------------------------------------------

  ghost function CellsError(cells: seq<CellText>): Option<ZoneError> {
    if exists t :: t in cells && !ValidateH3Cell(t) then Some(InvalidCell)
    else if Overlaps(cells) then Some(OverlappingCells)
    else None
  }

  method CheckCells(cells: seq<CellText>) returns (error: Option<ZoneError>)
    ensures error == CellsError(cells)
  {
    if cells == [] {
      return None;
    }
    if exists t | t in cells :: !ValidateH3Cell(t) {
      return Some(InvalidCell);
    }
    var overlap := HasH3Overlap(cells);
    return if overlap then Some(OverlappingCells) else None;
  }

  function GeometryOf(polygon: Option<Wkt.GeoJson>, show: Wkt.Format): Result<Option<string>> {
    match polygon
    case None => Ok(None)
    case Some(g) =>
      var text := Wkt.GeoJsonText(g, show);
      if text.Some? then Ok(Some("SRID=4326;" + text.value)) else Error(BadPolygon)
  }

  method ToGeometry(polygon: Option<Wkt.GeoJson>, show: Wkt.Format) returns (r: Result<Option<string>>)
    ensures r == GeometryOf(polygon, show)
  {
    if polygon == None {
      return Ok(None);
    }
    var text := Wkt.GeoJsonToWkt(polygon.value, show);
    return if text == None then Error(BadPolygon) else Ok(Some("SRID=4326;" + text.value));
  }

  // ----- the crud module ------------------------------------------------------------------

  /** `_sync_parameters_h3_cells` on the loaded row. */
  function Synced(row: ZoneRow): ZoneRow {
    row.(parameters := Object(Some(ConfigOf(row).(h3Cells := AsItems(CellsOrEmpty(row))))))
  }

  /** A requested resolution of zero counts as not given. */
  function CenterResolution(requested: Option<nat>): nat {
    if requested.Some? && requested.value != 0 then requested.value else 13
  }

  function WithCenter(cells: seq<CellText>, center: CellText): seq<CellText> {
    if center in cells then cells else cells + [center]
  }

  ghost function CreatedRow(z: ZoneCreate, show: Wkt.Format): Result<ZoneRow> {
    var resolution := CenterResolution(z.resolution);
    if z.point.Some? && resolution > 15 then Error(BadResolution)
    else
      var cells := if z.point.Some? then WithCenter(z.cells, Text(z.point.value(resolution), 0)) else z.cells;
      var geometry := GeometryOf(z.polygon, show);
      if geometry.Error? then Error(geometry.error)
      else if CellsError(cells).Some? then Error(CellsError(cells).value)
      else Ok(Synced(ZoneRow(z.name, z.kind, Some(cells), geometry.value, Object(z.config), true)))
  }

  ghost function AppliedField(row: ZoneRow, u: FieldUpdate, show: Wkt.Format): Result<ZoneRow> {
    match u
    case SetName(name) => Ok(row.(name := name))
    case SetKind(kind) => Ok(row.(kind := kind))
    case SetParameters(parameters) => Ok(row.(parameters := parameters))
    case SetActive(active) => Ok(row.(active := active))
    case SetCells(cells) =>
      if cells.Some? && CellsError(cells.value).Some? then Error(CellsError(cells.value).value)
      else Ok(row.(cells := cells))
    case SetPolygon(polygon) =>
      var geometry := GeometryOf(polygon, show);
      if geometry.Error? then Error(geometry.error) else Ok(row.(geometry := geometry.value))
  }

  /** The fields in order; the first failing one aborts the whole update. */
  ghost function AppliedFields(row: ZoneRow, updates: seq<FieldUpdate>, show: Wkt.Format): Result<ZoneRow> {
    if updates == [] then Ok(row)
    else
      match AppliedFields(row, updates[..|updates| - 1], show)
      case Error(e) => Error(e)
      case Ok(r) => AppliedField(r, updates[|updates| - 1], show)
  }

  predicate MentionsCells(updates: seq<FieldUpdate>) {
    exists u | u in updates :: u.SetCells?
  }

  predicate MentionsParameters(updates: seq<FieldUpdate>) {
    exists u | u in updates :: u.SetParameters?
  }

  /** The sync changes the parameters object in place and assigns it back. Unless that object is a
      new one, the session compares it with itself, sees no change and writes nothing. */
  predicate SyncIsWritten(row: ZoneRow, updates: seq<FieldUpdate>) {
    MentionsCells(updates) && (MentionsParameters(updates) || row.parameters.NoObject?)
  }

  /** The row as stored after the update. */
  ghost function UpdatedRow(row: ZoneRow, updates: seq<FieldUpdate>, show: Wkt.Format): Result<ZoneRow> {
    var r := AppliedFields(row, updates, show);
    if r.Ok? && SyncIsWritten(row, updates) then Ok(Synced(r.value)) else r
  }

  // ----- the zones API --------------------------------------------------------------------

  /** What `_normalize_payload` makes of config and cells; None leaves the config out. */
  function NormalizedConfig(a: ApiCells): Option<Config> {
    if a.config.None? && a.cells.None? then None
    else
      var config := if a.config.Some? then a.config.value else EMPTY_CONFIG;
      var config := if config.h3Cells != Absent && config.h3_cells == Absent then config.(h3_cells := config.h3Cells) else config;
      Some(if a.cells.Some? && config.h3_cells == Absent then config.(h3_cells := Items(a.cells.value)) else config)
  }

  function ReadValue(value: ConfigValue): Result<seq<CellText>> {
    match value
    case Absent => Ok([])
    case Null => Ok([])
    case NotAnArray => Error(BadConfig)
    case Items(items) =>
      if exists item | item in items :: !item.Entry? then Error(BadConfig)
      else Ok(CellsOf(items))
  }

  /** The snake-case key wins unless it is missing or null. */
  function WinningValue(config: Config): ConfigValue {
    if config.h3_cells in {Absent, Null} then config.h3Cells else config.h3_cells
  }

  /** `_extract_h3_cells` */
  function ExtractH3Cells(config: Config): Result<seq<CellText>> {
    ReadValue(WinningValue(config))
  }

  function CellsOf(items: seq<Item>): seq<CellText>
    requires forall item :: item in items ==> item.Entry?
  {
    seq(|items|, i requires 0 <= i < |items| => items[i].cell)
  }

  /** The config an API read shows, and a partial API update starts from. */
  function SerializedConfig(row: ZoneRow): Config {
    var config := ConfigOf(row);
    var config := if config.h3Cells != Absent && config.h3_cells == Absent then config.(h3_cells := config.h3Cells) else config;
    if CellsOrEmpty(row) != [] && config.h3_cells == Absent then config.(h3_cells := AsItems(CellsOrEmpty(row))) else config
  }

  const AREA_KINDS := {"geofence", "grid", "warn", "alert", "restricted"}

  /** The row the API writes from a merged payload, if the payload is valid. */
  ghost function ApiRow(name: string, kind: string, polygon: Option<Wkt.GeoJson>, config: Config, active: bool,
                        show: Wkt.Format): Result<ZoneRow> {
    match ExtractH3Cells(config)
    case Error(e) => Error(e)
    case Ok(cells) =>
      if CellsError(cells).Some? then Error(CellsError(cells).value)
      else if kind in AREA_KINDS && polygon == None && cells == [] then Error(AreaRequired)
      else
        var geometry := GeometryOf(polygon, show);
        if geometry.Error? then Error(geometry.error)
        else Ok(ZoneRow(name, kind, Some(cells), geometry.value, Object(Some(config)), active))
  }

  method BuildApiRow(name: string, kind: string, polygon: Option<Wkt.GeoJson>, config: Config, active: bool,
                     show: Wkt.Format) returns (row: Result<ZoneRow>)
    ensures row == ApiRow(name, kind, polygon, config, active, show)
  {
    var cells := ExtractH3Cells(config);
    if cells.Error? {
      return Error(cells.error);
    }
    var error := CheckCells(cells.value);
    if error.Some? {
      return Error(error.value);
    }
    if kind in AREA_KINDS && polygon == None && cells.value == [] {
      return Error(AreaRequired);
    }
    var geometry := ToGeometry(polygon, show);
    if geometry.Error? {
      return Error(geometry.error);
    }
    return Ok(ZoneRow(name, kind, Some(cells.value), geometry.value, Object(Some(config)), active));
  }

  ghost function ApiCreated(name: string, kind: string, polygon: Option<Wkt.GeoJson>, a: ApiCells, refused: bool,
                            show: Wkt.Format): Result<ZoneRow> {
    var config := NormalizedConfig(a);
    if refused then Error(Refused)
    else ApiRow(name, kind, polygon, if config.Some? then config.value else EMPTY_CONFIG, true, show)
  }

  /** A payload without config and cells keeps the config that the API shows. */
  ghost function ApiUpdated(row: ZoneRow, name: string, kind: string, polygon: Option<Wkt.GeoJson>, a: ApiCells,
                            refused: bool, show: Wkt.Format): Result<ZoneRow> {
    var config := NormalizedConfig(a);
    if refused then Error(Refused)
    else ApiRow(name, kind, polygon, if config.Some? then config.value else SerializedConfig(row), row.active, show)
  }

  // ----- the contract service -------------------------------------------------------------

  /** The contract service reads the camel-case key only. A null list is stored as null. */
  ghost function ContractCells(config: Config): Result<Option<seq<CellText>>> {
    match config.h3Cells
    case Absent => Ok(Some([]))
    case Null => Ok(None)
    case NotAnArray => Error(InvalidCell)
    case Items(items) =>
      if exists item :: item in items && !item.Entry? then Error(InvalidCell)
      else if CellsError(CellsOf(items)).Some? then Error(CellsError(CellsOf(items)).value)
      else Ok(Some(CellsOf(items)))
  }

  method ReadContractCells(config: Config) returns (cells: Result<Option<seq<CellText>>>)
    ensures cells == ContractCells(config)
  {
    match config.h3Cells {
      case Absent =>
        return Ok(Some([]));
      case Null =>
        return Ok(None);
      case NotAnArray =>
        return Error(InvalidCell);
      case Items(items) =>
        if exists item | item in items :: !item.Entry? {
          return Error(InvalidCell);
        }
        var error := CheckCells(CellsOf(items));
        return if error.Some? then Error(error.value) else Ok(Some(CellsOf(items)));
    }
  }

  /** Anything but a Polygon or MultiPolygon counts as no polygon. */
  function ContractPolygon(polygon: Option<Wkt.GeoJson>): Option<Wkt.GeoJson> {
    if polygon.Some? && polygon.value.Other? then None else polygon
  }

  ghost function ContractCreated(name: string, kind: string, polygon: Option<Wkt.GeoJson>, config: Config, refused: bool,
                                 show: Wkt.Format): Result<ZoneRow> {
    if refused then Error(Refused)
    else
      match ContractCells(config)
      case Error(e) => Error(e)
      case Ok(cells) =>
        var geometry := GeometryOf(ContractPolygon(polygon), show);
        if geometry.Error? then Error(geometry.error)
        else Ok(ZoneRow(name, kind, cells, geometry.value, Object(Some(config)), true))
  }

  /** What is stored for the parameters: a non-empty object is changed in place and assigned back,
      so no change of it is written. */
  function ContractParameters(old_: Parameters, u: ContractUpdate): Parameters {
    if old_.Object? then old_
    else if u.kind.None? && u.geometry.None? && u.config.None? then EmptyObject
    else Object(u.config)
  }

  ghost function ContractUpdated(row: ZoneRow, u: ContractUpdate, refused: bool, show: Wkt.Format): Result<ZoneRow> {
    var geometry := if u.geometry.Some? then GeometryOf(ContractPolygon(u.geometry.value), show) else Ok(row.geometry);
    var cells := if u.config.Some? then ContractCells(u.config.value) else Ok(row.cells);
    if refused then Error(Refused)
    else if geometry.Error? then Error(geometry.error)
    else if cells.Error? then Error(cells.error)
    else Ok(ZoneRow(if u.name.Some? then u.name.value else row.name, if u.kind.Some? then u.kind.value else row.kind,
                    cells.value, geometry.value, ContractParameters(row.parameters, u), row.active))
  }

  // ----- Communal IDs ---------------------------------------------------------------------

  /** `assign_communal_id`: the config is copied, so the change is written. */
  function Tagged(row: ZoneRow, tag: string): ZoneRow {
    row.(parameters := Object(Some(ConfigOf(row).(tags := ConfigOf(row).tags + {tag}))))
  }

  /** str(cell or "").strip(), with None for a text that is blank then. */
  type Cleaner = Item -> Option<CellText>

  function CleanCells(items: seq<Item>, clean: Cleaner): seq<CellText> {
    if items == [] then []
    else
      var front, last := CleanCells(items[..|items| - 1], clean), clean(items[|items| - 1]);
      if last.Some? then front + [last.value] else front
  }

  function ItemsIn(value: ConfigValue): seq<Item> {
    if value.Items? then value.items else []
  }

  function SourceItems(row: ZoneRow): seq<Item> {
    AsItems(CellsOrEmpty(row)).items + ItemsIn(ConfigOf(row).h3_cells) + ItemsIn(ConfigOf(row).h3Cells)
  }

  /** The cells one source zone brings: its column and both config lists. */
  function Contribution(row: ZoneRow, clean: Cleaner): seq<CellText> {
    CleanCells(SourceItems(row), clean)
  }

  /** Appends what is not listed yet. */
  function Joined(listed: seq<CellText>, more: seq<CellText>): seq<CellText> {
    if more == [] then listed
    else
      var front, last := Joined(listed, more[..|more| - 1]), more[|more| - 1];
      if last in front then front else front + [last]
  }

  /** The merged list: equal texts once, in source order. */
  function Merged(parts: seq<seq<CellText>>): seq<CellText> {
    if parts == [] then [] else Joined(Merged(parts[..|parts| - 1]), parts[|parts| - 1])
  }

  function Contributions(sources: seq<ZoneRow>, clean: Cleaner): seq<seq<CellText>> {
    seq(|sources|, i requires 0 <= i < |sources| => Contribution(sources[i], clean))
  }

  lemma MergedSnoc(sources: seq<ZoneRow>, i: nat, clean: Cleaner)
    requires i < |sources|
    ensures Merged(Contributions(sources[..i + 1], clean))
            == Joined(Merged(Contributions(sources[..i], clean)), Contribution(sources[i], clean))
  {
    var parts := Contributions(sources[..i + 1], clean);
    assert parts[..i] == Contributions(sources[..i], clean) && parts[i] == Contribution(sources[i], clean);
  }

  /** The loop over the lists of one source. */
  method AddSourceCells(listed: seq<CellText>, items: seq<Item>, clean: Cleaner) returns (cells: seq<CellText>)
    ensures cells == Joined(listed, CleanCells(items, clean))
  {
    cells := listed;
    var seen := set t | t in listed;
    for k := 0 to |items|
      invariant cells == Joined(listed, CleanCells(items[..k], clean))
      invariant forall t :: t in seen <==> t in cells
    {
      assert items[..k + 1][..k] == items[..k];
      var text := clean(items[k]);
      if text.Some? && text.value !in seen {
        seen := seen + {text.value};
        cells := cells + [text.value];
      }
    }
    assert items[..|items|] == items;
  }

  method MergeSourceCells(sources: seq<ZoneRow>, clean: Cleaner) returns (cells: seq<CellText>)
    ensures cells == Merged(Contributions(sources, clean))
  {
    cells := [];
    for i := 0 to |sources|
      invariant cells == Merged(Contributions(sources[..i], clean))
    {
      MergedSnoc(sources, i, clean);
      cells := AddSourceCells(cells, SourceItems(sources[i]), clean);
    }
    assert sources[..|sources|] == sources;
  }

  /** The name of the only source, or one made of the Communal ID. */
  function PrimaryName(sources: seq<ZoneRow>, tag: string): string {
    var fallback := "Primary (" + tag + ")";
    var only := if |sources| == 1 then T.Strip(sources[0].name) else "";
    Take(if only != "" then only else fallback, 255)
  }

  /** The primary zone calculated from its sources; the merged polygon is given. */
  function CommunalRow(tag: string, geometry: Option<string>, sources: seq<ZoneRow>, clean: Cleaner): Result<ZoneRow> {
    var cells := Merged(Contributions(sources, clean));
    if sources == [] then Error(CommunalEmpty)
    else if geometry == None && cells == [] then Error(CommunalNoGeometry)
    else Ok(ZoneRow(PrimaryName(sources, tag), "geofence", Some(cells), geometry, Object(Some(Config(AsItems(cells), AsItems(cells), {}))), true))
  }

  method BuildCommunalRow(tag: string, geometry: Option<string>, sources: seq<ZoneRow>, clean: Cleaner)
    returns (row: Result<ZoneRow>)
    ensures row == CommunalRow(tag, geometry, sources, clean)
  {
    if sources == [] {
      return Error(CommunalEmpty);
    }
    var cells := MergeSourceCells(sources, clean);
    if geometry == None && cells == [] {
      return Error(CommunalNoGeometry);
    }
    var config := Config(AsItems(cells), AsItems(cells), {});
    return Ok(ZoneRow(PrimaryName(sources, tag), "geofence", Some(cells), geometry, Object(Some(config)), true));
  }
}

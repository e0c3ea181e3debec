/** The committed zone table and its writes: CRUD module, zones API, contract service, Communal IDs, soft delete. */
module ZoneStore {
  import opened Options
  import opened Lists
  import opened H3
  import opened ZoneRows
  import Wkt

  datatype State = State(rows: map<int, ZoneRow>, nextId: int)

  const EMPTY := State(map[], 1)

  /** How numbers are printed and cell texts cleaned. */
  datatype Texts = Texts(show: Wkt.Format, clean: Cleaner)

  function TaggedIds(rows: map<int, ZoneRow>, tag: string): set<int> {
    set id | id in rows && rows[id].active && tag in ConfigOf(rows[id]).tags
  }

  /** The active zones tagged with a Communal ID. */
  function Sources(rows: map<int, ZoneRow>, tag: string): seq<ZoneRow> {
    var ids := SortedIds(TaggedIds(rows, tag));
    seq(|ids|, i requires 0 <= i < |ids| => assert ids[i] in ids; rows[ids[i]])
  }

  datatype Write =
    | Create(z: ZoneCreate)
    | Update(id: int, updates: seq<FieldUpdate>)
    | CreateViaApi(name: string, kind: string, polygon: Option<Wkt.GeoJson>, apiCells: ApiCells, refused: bool)
    | UpdateViaApi(id: int, name: string, kind: string, polygon: Option<Wkt.GeoJson>, apiCells: ApiCells, refused: bool)
    | CreateViaContract(name: string, kind: string, polygon: Option<Wkt.GeoJson>, config: Config, refused: bool)
    | UpdateViaContract(id: int, update: ContractUpdate, refused: bool)
    | AssignCommunal(id: int, tag: string)
    | CommunalPrimary(tag: string, geometry: Option<string>)
    | Delete(id: int)

  predicate Inserts(w: Write) {
    w.Create? || w.CreateViaApi? || w.CreateViaContract? || w.CommunalPrimary?
  }

  /** The primary key a write is about. */
  function Target(s: State, w: Write): int {
    if Inserts(w) then s.nextId else w.id
  }

  /** The row a write stores, or why it is refused. */
  ghost function NewRow(s: State, w: Write, t: Texts): Result<ZoneRow> {
    match w
    case Create(z) => CreatedRow(z, t.show)
    case CreateViaApi(name, kind, polygon, a, refused) => ApiCreated(name, kind, polygon, a, refused, t.show)
    case CreateViaContract(name, kind, polygon, config, refused) =>
      ContractCreated(name, kind, polygon, config, refused, t.show)
    case CommunalPrimary(tag, geometry) => CommunalRow(tag, geometry, Sources(s.rows, tag), t.clean)
    case Update(id, updates) =>
      if id in s.rows then UpdatedRow(s.rows[id], updates, t.show) else Error(NotFound)
    case UpdateViaApi(id, name, kind, polygon, a, refused) =>
      if id in s.rows then ApiUpdated(s.rows[id], name, kind, polygon, a, refused, t.show) else Error(NotFound)
    case UpdateViaContract(id, u, refused) =>
      if id in s.rows then ContractUpdated(s.rows[id], u, refused, t.show) else Error(NotFound)
    case AssignCommunal(id, tag) => if id in s.rows then Ok(Tagged(s.rows[id], tag)) else Error(NotFound)
    case Delete(id) =>
      if id in s.rows && s.rows[id].active then Ok(s.rows[id].(active := false)) else Error(NotFound)
  }

  /** The committed table after one write; a refused write is never committed. */
  ghost function After(s: State, w: Write, t: Texts): State {
    match NewRow(s, w, t)
    case Error(_) => s
    case Ok(row) => State(s.rows[Target(s, w) := row], if Inserts(w) then s.nextId + 1 else s.nextId)
  }

  function Answer<T>(row: Result<ZoneRow>, value: T): Result<T> {
    if row.Ok? then Ok(value) else Error(row.error)
  }

  class ZoneStore {
    var rows: map<int, ZoneRow>
    var nextId: int
    const t: Texts

    ghost function Model(): State
      reads this
    {
      State(rows, nextId)
    }

    constructor (t: Texts)
      ensures Model() == EMPTY && this.t == t
    {
      this.t := t;
      rows := map[];
      nextId := 1;
    }

    method Insert(row: ZoneRow) returns (id: int)
      modifies this
      ensures id == old(nextId) && rows == old(rows)[id := row] && nextId == id + 1
    {
      id := nextId;
      rows := rows[id := row];
      nextId := nextId + 1;
    }

    method CreateZone(z: ZoneCreate) returns (r: Result<int>)
      modifies this
      ensures Model() == After(old(Model()), Create(z), t)
      ensures r == Answer(CreatedRow(z, t.show), old(nextId))
    {
      var cells := z.cells;
      if z.point.Some? {
        var resolution := if z.resolution.Some? && z.resolution.value != 0 then z.resolution.value else 13;
        if resolution > 15 {
          return Error(BadResolution);
        }
        var center := Text(z.point.value(resolution), 0);
        if center !in cells {
          cells := cells + [center];
        }
      }
      var geometry := ToGeometry(z.polygon, t.show);
      if geometry.Error? {
        return Error(geometry.error);
      }
      var error := CheckCells(cells);
      if error.Some? {
        return Error(error.value);
      }
      var id := Insert(Synced(ZoneRow(z.name, z.kind, Some(cells), geometry.value, Object(z.config), true)));
      return Ok(id);
    }

    method UpdateZoneByRecordId(id: int, updates: seq<FieldUpdate>) returns (r: Result<()>)
      modifies this
      ensures Model() == After(old(Model()), Update(id, updates), t)
      ensures r == Answer(NewRow(old(Model()), Update(id, updates), t), ())
    {
      if id !in rows {
        return Error(NotFound);
      }
      var row := rows[id];
      // Whether the parameters are an object the session has not loaded.
      var newObject := row.parameters.NoObject?;
      ghost var stored := row;
      for i := 0 to |updates|
        invariant AppliedFields(stored, updates[..i], t.show) == Ok(row)
        invariant newObject == (stored.parameters.NoObject? || MentionsParameters(updates[..i]))
        invariant unchanged(this)
      {
        var u := updates[i];
        assert updates[..i + 1][..i] == updates[..i];
        assert updates[..i + 1] == updates[..i] + [u];
        if u.SetCells? && u.cells.Some? && u.cells.value != [] {
          var error := CheckCells(u.cells.value);
          if error.Some? {
            FailsFrom(stored, updates, i, t.show);
            return Error(error.value);
          }
        }
        match u
        case SetName(name) => row := row.(name := name);
        case SetKind(kind) => row := row.(kind := kind);
        case SetParameters(parameters) =>
          row := row.(parameters := parameters);
          newObject := true;
        case SetActive(active) => row := row.(active := active);
        case SetCells(cells) => row := row.(cells := cells);
        case SetPolygon(polygon) =>
          var geometry := ToGeometry(polygon, t.show);
          if geometry.Error? {
            FailsFrom(stored, updates, i, t.show);
            return Error(geometry.error);
          }
          row := row.(geometry := geometry.value);
      }
      assert updates[..|updates|] == updates;
      if MentionsCells(updates) && newObject {
        row := Synced(row);
      }
      rows := rows[id := row];
      return Ok(());
    }

    /** `refused` stands for the ownership, quota, naming and area policies consulted on the way. */
    method CreateZoneViaApi(name: string, kind: string, polygon: Option<Wkt.GeoJson>, a: ApiCells, refused: bool)
      returns (r: Result<int>)
      modifies this
      ensures Model() == After(old(Model()), CreateViaApi(name, kind, polygon, a, refused), t)
      ensures r == Answer(ApiCreated(name, kind, polygon, a, refused, t.show), old(nextId))
    {
      var config := NormalizedConfig(a);
      if refused {
        return Error(Refused);
      }
      var row := BuildApiRow(name, kind, polygon, if config.Some? then config.value else EMPTY_CONFIG, true, t.show);
      if row.Error? {
        return Error(row.error);
      }
      var id := Insert(row.value);
      return Ok(id);
    }

    method UpdateZoneViaApi(id: int, name: string, kind: string, polygon: Option<Wkt.GeoJson>, a: ApiCells, refused: bool)
      returns (r: Result<()>)
      modifies this
      ensures Model() == After(old(Model()), UpdateViaApi(id, name, kind, polygon, a, refused), t)
      ensures r == Answer(NewRow(old(Model()), UpdateViaApi(id, name, kind, polygon, a, refused), t), ())
    {
      if id !in rows {
        return Error(NotFound);
      }
      var config := NormalizedConfig(a);
      if refused {
        return Error(Refused);
      }
      var merged := if config.Some? then config.value else SerializedConfig(rows[id]);
      var row := BuildApiRow(name, kind, polygon, merged, rows[id].active, t.show);
      if row.Error? {
        return Error(row.error);
      }
      rows := rows[id := row.value];
      return Ok(());
    }

    method CreateZoneViaContract(name: string, kind: string, polygon: Option<Wkt.GeoJson>, config: Config, refused: bool)
      returns (r: Result<int>)
      modifies this
      ensures Model() == After(old(Model()), CreateViaContract(name, kind, polygon, config, refused), t)
      ensures r == Answer(ContractCreated(name, kind, polygon, config, refused, t.show), old(nextId))
    {
      if refused {
        return Error(Refused);
      }
      var cells := ReadContractCells(config);
      if cells.Error? {
        return Error(cells.error);
      }
      var geometry := ToGeometry(ContractPolygon(polygon), t.show);
      if geometry.Error? {
        return Error(geometry.error);
      }
      var id := Insert(ZoneRow(name, kind, cells.value, geometry.value, Object(Some(config)), true));
      return Ok(id);
    }

    method UpdateZoneViaContract(id: int, u: ContractUpdate, refused: bool) returns (r: Result<()>)
      modifies this
      ensures Model() == After(old(Model()), UpdateViaContract(id, u, refused), t)
      ensures r == Answer(NewRow(old(Model()), UpdateViaContract(id, u, refused), t), ())
    {
      if id !in rows {
        return Error(NotFound);
      }
      if refused {
        return Error(Refused);
      }
      var row := rows[id];
      // A missing or empty parameters value is replaced by a new object; any other is changed in place.
      var params := if row.parameters.Object? then row.parameters else EmptyObject;
      if u.name.Some? {
        row := row.(name := u.name.value);
      }
      if u.kind.Some? {
        row := row.(kind := u.kind.value);
      }
      if u.geometry.Some? {
        params := if params.Object? then params else Object(None);
        var geometry := ToGeometry(ContractPolygon(u.geometry.value), t.show);
        if geometry.Error? {
          return Error(geometry.error);
        }
        row := row.(geometry := geometry.value);
      }
      if u.config.Some? {
        params := Object(u.config);
        var cells := ReadContractCells(u.config.value);
        if cells.Error? {
          return Error(cells.error);
        }
        row := row.(cells := cells.value);
      }
      if u.kind.Some? {
        params := if params.Object? then params else Object(None);
      }
      if !row.parameters.Object? {
        row := row.(parameters := params);
      }
      rows := rows[id := row];
      return Ok(());
    }

    method AssignCommunalId(id: int, tag: string) returns (r: Result<()>)
      modifies this
      ensures Model() == After(old(Model()), AssignCommunal(id, tag), t)
      ensures r == if id in old(rows) then Ok(()) else Error(NotFound)
    {
      if id !in rows {
        return Error(NotFound);
      }
      rows := rows[id := Tagged(rows[id], tag)];
      return Ok(());
    }

    method ProvisionCommunalPrimary(tag: string, geometry: Option<string>) returns (r: Result<int>)
      modifies this
      ensures Model() == After(old(Model()), CommunalPrimary(tag, geometry), t)
      ensures r == Answer(CommunalRow(tag, geometry, Sources(old(rows), tag), t.clean), old(nextId))
    {
      var row := BuildCommunalRow(tag, geometry, Sources(rows, tag), t.clean);
      if row.Error? {
        return Error(row.error);
      }
      var id := Insert(row.value);
      return Ok(id);
    }

    method DeleteZone(id: int) returns (done: bool)
      modifies this
      ensures Model() == After(old(Model()), Delete(id), t)
      ensures done == (id in old(rows) && old(rows)[id].active)
    {
      if id !in rows || !rows[id].active {
        return false;
      }
      rows := rows[id := rows[id].(active := false)];
      return true;
    }
  }

  /** A failing field fails the update, whatever follows it. */
  lemma {:induction false} FailsFrom(row: ZoneRow, updates: seq<FieldUpdate>, i: nat, show: Wkt.Format)
    requires i < |updates| && AppliedFields(row, updates[..i + 1], show).Error?
    ensures UpdatedRow(row, updates, show) == AppliedFields(row, updates[..i + 1], show)
    decreases |updates|
  {
    if i + 1 < |updates| {
      var front := updates[..|updates| - 1];
      assert front[..i + 1] == updates[..i + 1];
      FailsFrom(row, front, i, show);
    } else {
      assert updates[..i + 1] == updates;
    }
  }
}

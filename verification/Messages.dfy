/** The message table: type normalization, the visible feed, and quick-alert templates kept in the same table. */
module Messages {
  import opened Options
  import opened Text
  import opened Lists
  import opened StableSort

  // ----- types ----------------------------------------------------------------------------

  datatype MessageType = SENSOR | PANIC | NS_PANIC | UNKNOWN | PRIVATE | PA | SERVICE | WELLNESS_CHECK | PERMISSION | CHAT

  datatype Scope = PublicScope | PrivateScope

  function TypeName(t: MessageType): string {
    match t
    case SENSOR => "SENSOR"
    case PANIC => "PANIC"
    case NS_PANIC => "NS_PANIC"
    case UNKNOWN => "UNKNOWN"
    case PRIVATE => "PRIVATE"
    case PA => "PA"
    case SERVICE => "SERVICE"
    case WELLNESS_CHECK => "WELLNESS_CHECK"
    case PERMISSION => "PERMISSION"
    case CHAT => "CHAT"
  }

  function TypeNamed(name: string): Option<MessageType> {
    if name == "SENSOR" then Some(SENSOR)
    else if name == "PANIC" then Some(PANIC)
    else if name == "NS_PANIC" then Some(NS_PANIC)
    else if name == "UNKNOWN" then Some(UNKNOWN)
    else if name == "PRIVATE" then Some(PRIVATE)
    else if name == "PA" then Some(PA)
    else if name == "SERVICE" then Some(SERVICE)
    else if name == "WELLNESS_CHECK" then Some(WELLNESS_CHECK)
    else if name == "PERMISSION" then Some(PERMISSION)
    else if name == "CHAT" then Some(CHAT)
    else None
  }

  function Alias(key: string): Option<MessageType> {
    if key == "NS PANIC" || key == "NS-PANIC" then Some(NS_PANIC)
    else if key == "WELLNESS CHECK" || key == "WELLNESS-CHECK" then Some(WELLNESS_CHECK)
    else if key == "NORMAL" then Some(SERVICE)
    else None
  }

  /** None stands for the unsupported-type error. */
  function NormalizeMessageType(value: string): Option<MessageType> {
    var key := Upper(Strip(value));
    var named := TypeNamed(Replaced(key, '-', '_'));
    if named.Some? then named else Alias(key)
  }

  function TypeScope(t: MessageType): Scope {
    if t in {PRIVATE, PERMISSION, CHAT} then PrivateScope else PublicScope
  }

  /** Upper case, no dash, no outer whitespace. */
  predicate IsPlain(name: string) {
    IsTrimmed(name) && forall i :: 0 <= i < |name| ==> !('a' <= name[i] <= 'z') && name[i] != '-'
  }

  lemma PlainNameIsKept(name: string)
    requires IsPlain(name)
    ensures Replaced(Upper(Strip(name)), '-', '_') == name
  {
    StripFixesTrimmed(name);
    assert Upper(name) == name;
  }

  lemma NamesArePlain(t: MessageType)
    ensures TypeNamed(TypeName(t)) == Some(t) && IsPlain(TypeName(t))
  {
  }

  /** A canonical name normalizes to its own type. */
  lemma CanonicalNamesAreFixed(t: MessageType)
    ensures NormalizeMessageType(TypeName(t)) == Some(t)
  {
    NamesArePlain(t);
    PlainNameIsKept(TypeName(t));
  }

  lemma NamesHaveNoSpace(t: MessageType)
    ensures ' ' !in TypeName(t)
  {
  }

  lemma TypeNamedIff(name: string, t: MessageType)
    ensures TypeNamed(name) == Some(t) <==> name == TypeName(t)
  {
    NamesArePlain(t);
    if TypeNamed(name).Some? {
      assert name == TypeName(TypeNamed(name).value);
    }
  }

  /** An alias counts only for a text that names no type with its dashes replaced: a dashed one never does. */
  lemma AliasesConsulted(key: string)
    requires TypeNamed(Replaced(key, '-', '_')) == None
    ensures key != "NS-PANIC" && key != "WELLNESS-CHECK"
  {
    if key == "NS-PANIC" {
      assert Replaced(key, '-', '_') == "NS_PANIC";
      NamesArePlain(NS_PANIC);
    } else if key == "WELLNESS-CHECK" {
      assert Replaced(key, '-', '_') == "WELLNESS_CHECK";
      NamesArePlain(WELLNESS_CHECK);
    }
  }

  lemma SpacedNamesNothing(key: string, i: nat)
    requires i < |key| && key[i] == ' '
    ensures TypeNamed(Replaced(key, '-', '_')) == None
  {
    var name := Replaced(key, '-', '_');
    assert name[i] == ' ' && ' ' in name;
    if TypeNamed(name).Some? {
      TypeNamedIff(name, TypeNamed(name).value);
      NamesHaveNoSpace(TypeNamed(name).value);
    }
  }

  /** Which texts name a type: its name in any case, padded, with dashes for underscores; and three
      names with a space or of their own. */
  lemma TextsOfType(value: string, t: MessageType)
    ensures var key := Upper(Strip(value));
            NormalizeMessageType(value) == Some(t)
            <==> Replaced(key, '-', '_') == TypeName(t)
                 || (t == NS_PANIC && key == "NS PANIC") || (t == WELLNESS_CHECK && key == "WELLNESS CHECK")
                 || (t == SERVICE && key == "NORMAL")
  {
    var key := Upper(Strip(value));
    TypeNamedIff(Replaced(key, '-', '_'), t);
    if key == "NS PANIC" {
      SpacedNamesNothing(key, 2);
    } else if key == "WELLNESS CHECK" {
      SpacedNamesNothing(key, 8);
    } else if key == "NORMAL" {
      assert Replaced(key, '-', '_') == "NORMAL";
    }
    if TypeNamed(Replaced(key, '-', '_')) == None {
      AliasesConsulted(key);
    }
  }

  lemma PrivateTypesAre(t: MessageType)
    ensures TypeScope(t) == PrivateScope <==> TypeName(t) in {"PRIVATE", "PERMISSION", "CHAT"}
  {
  }

  // ----- the table and its feed -----------------------------------------------------------

  datatype Message = Message(sender: int, receiver: Option<int>, visibility: Scope, kind: string, text: string,
                             isTemplate: bool, createdAt: int)

  /** Owners' zone ids by owner id. */
  type Zones = map<int, string>

  predicate IsVisible(m: Message, viewer: int, zones: Zones) {
    m.sender in zones && viewer in zones && zones[m.sender] == zones[viewer]
    && (m.visibility == PublicScope || m.sender == viewer || m.receiver == Some(viewer))
    && !m.isTemplate
  }

  function VisibleTo(viewer: int, zones: Zones): Message -> bool {
    m => IsVisible(m, viewer, zones)
  }

  const NEWEST: Message -> int := (m: Message) => m.createdAt

  /** The visible messages of one viewer, newest first, one page of them. */
  function ListVisibleMessages(rows: seq<Message>, viewer: int, zones: Zones, q: Query): seq<Message> {
    Slice(Sort(Filter(rows, VisibleTo(viewer, zones)), NEWEST), q)
  }

  /** Fetching with a limit gives a newest-first prefix of the whole feed, cut only at the limit. */
  lemma FeedIsNewestPrefix(rows: seq<Message>, viewer: int, zones: Zones, limit: nat)
    ensures var whole := Sort(Filter(rows, VisibleTo(viewer, zones)), NEWEST);
            Descending(whole, NEWEST) && Covers(ListVisibleMessages(rows, viewer, zones, Query(0, limit)), whole, limit)
  {
    SortIsStable(Filter(rows, VisibleTo(viewer, zones)), NEWEST);
  }

  /** With no limit in the way the feed lists exactly: no templates, senders of the viewer's zone,
      public messages for everyone there and private ones for their sender and receiver. */
  lemma FeedListsIff(rows: seq<Message>, viewer: int, zones: Zones, m: Message)
    requires viewer in zones
    ensures m in ListVisibleMessages(rows, viewer, zones, Query(0, |rows|))
            <==> m in rows && !m.isTemplate && m.sender in zones && zones[m.sender] == zones[viewer]
                 && (m.visibility == PublicScope || viewer == m.sender || m.receiver == Some(viewer))
  {
    var visible := Filter(rows, VisibleTo(viewer, zones));
    FilterHas(rows, VisibleTo(viewer, zones));
    SortIsStable(visible, NEWEST);
    SortHas(visible, NEWEST, m);
    assert ListVisibleMessages(rows, viewer, zones, Query(0, |rows|)) == Sort(visible, NEWEST);
  }

  // ----- templates ------------------------------------------------------------------------

  predicate IsTemplateOf(m: Message, owner: int) {
    m.sender == owner && m.isTemplate
  }

  /** One entry of the client's mapping, in its order. */
  type Entry = (string, string)

  /** The stored form of one entry, or nothing when it is blank or of an unsupported type. */
  function TemplateFor(owner: int, entry: Entry, now: int): Option<Message> {
    var text := Strip(entry.1);
    var canonical := NormalizeMessageType(entry.0);
    if text == "" || canonical == None then None
    else Some(Message(owner, Some(owner), TypeScope(canonical.value), TypeName(canonical.value), text, true, now))
  }

  function TemplatesFor(owner: int, entries: seq<Entry>, now: int): seq<Message> {
    if entries == [] then []
    else
      var front, last := TemplatesFor(owner, entries[..|entries| - 1], now), TemplateFor(owner, entries[|entries| - 1], now);
      if last == None then front else front + [last.value]
  }

  function NotTemplateOf(owner: int): Message -> bool {
    m => !IsTemplateOf(m, owner)
  }

  function SavedRows(rows: seq<Message>, owner: int, entries: seq<Entry>, now: int): seq<Message> {
    Filter(rows, NotTemplateOf(owner)) + TemplatesFor(owner, entries, now)
  }

  /** Read in row order; a later row of the same type wins. */
  function LoadedFrom(rows: seq<Message>, owner: int): map<string, string> {
    if rows == [] then map[]
    else
      var front, last := LoadedFrom(rows[..|rows| - 1], owner), rows[|rows| - 1];
      if IsTemplateOf(last, owner) then front[last.kind := last.text] else front
  }

  class MessageTable {
    var rows: seq<Message>

    method LoadQuickMessages(owner: int) returns (loaded: map<string, string>)
      ensures loaded == LoadedFrom(rows, owner)
    {
      loaded := map[];
      for i := 0 to |rows|
        invariant loaded == LoadedFrom(rows[..i], owner)
      {
        assert rows[..i + 1][..i] == rows[..i];
        if IsTemplateOf(rows[i], owner) {
          loaded := loaded[rows[i].kind := rows[i].text];
        }
      }
      assert rows[..|rows|] == rows;
    }

    method SaveQuickMessages(owner: int, entries: seq<Entry>, now: int)
      modifies this
      ensures rows == SavedRows(old(rows), owner, entries, now)
    {
      rows := Filter(rows, NotTemplateOf(owner));
      ghost var kept := rows;
      for i := 0 to |entries|
        invariant rows == kept + TemplatesFor(owner, entries[..i], now)
      {
        assert entries[..i + 1][..i] == entries[..i];
        var text := Strip(entries[i].1);
        if text == "" {
          continue;
        }
        var canonical := NormalizeMessageType(entries[i].0);
        if canonical == None {
          continue;
        }
        rows := rows + [Message(owner, Some(owner), TypeScope(canonical.value), TypeName(canonical.value), text, true, now)];
      }
      assert entries[..|entries|] == entries;
    }
  }

  // ----- what a save leaves behind --------------------------------------------------------

  /** An entry that is stored, under this name with this body. */
  predicate Stores(entry: Entry, name: string, text: string) {
    var canonical := NormalizeMessageType(entry.0);
    canonical.Some? && TypeName(canonical.value) == name && Strip(entry.1) == text && text != ""
  }

  /** The mapping a save leaves: for each canonical type the last stored body. */
  ghost function Collected(entries: seq<Entry>): map<string, string> {
    if entries == [] then map[]
    else
      var front, last := Collected(entries[..|entries| - 1]), entries[|entries| - 1];
      var canonical, text := NormalizeMessageType(last.0), Strip(last.1);
      if text == "" || canonical == None then front else front[TypeName(canonical.value) := text]
  }

  lemma {:induction false} LoadSplits(a: seq<Message>, b: seq<Message>, owner: int)
    ensures LoadedFrom(a + b, owner) == LoadedFrom(a, owner) + LoadedFrom(b, owner)
  {
    if b == [] {
      assert a + b == a;
    } else {
      var front := b[..|b| - 1];
      assert (a + b)[..|a + b| - 1] == a + front;
      LoadSplits(a, front, owner);
    }
  }

  lemma {:induction false} LoadSkipsOthers(rows: seq<Message>, owner: int)
    requires forall m :: m in rows ==> !IsTemplateOf(m, owner)
    ensures LoadedFrom(rows, owner) == map[]
  {
    if rows != [] {
      LoadSkipsOthers(rows[..|rows| - 1], owner);
    }
  }

  lemma {:induction false} LoadOfTemplates(owner: int, entries: seq<Entry>, now: int)
    ensures LoadedFrom(TemplatesFor(owner, entries, now), owner) == Collected(entries)
    ensures forall m :: m in TemplatesFor(owner, entries, now) ==> IsTemplateOf(m, owner)
  {
    if entries != [] {
      var front := entries[..|entries| - 1];
      LoadOfTemplates(owner, front, now);
      var one := TemplateFor(owner, entries[|entries| - 1], now);
      if one.Some? {
        LoadSplits(TemplatesFor(owner, front, now), [one.value], owner);
        assert [one.value][..0] == [];
      }
    }
  }

  /** Loading after saving gives what the payload alone says: earlier templates are gone. */
  lemma LoadAfterSave(rows: seq<Message>, owner: int, entries: seq<Entry>, now: int)
    ensures LoadedFrom(SavedRows(rows, owner, entries, now), owner) == Collected(entries)
  {
    var kept := Filter(rows, NotTemplateOf(owner));
    FilterHas(rows, NotTemplateOf(owner));
    LoadSkipsOthers(kept, owner);
    LoadSplits(kept, TemplatesFor(owner, entries, now), owner);
    LoadOfTemplates(owner, entries, now);
  }

  /** Nothing is invented, and every stored type keeps some body of the payload. */
  lemma {:induction false} CollectedComesFromEntries(entries: seq<Entry>, name: string)
    ensures name in Collected(entries) ==> exists e :: e in entries && Stores(e, name, Collected(entries)[name])
    ensures forall e, text :: e in entries && Stores(e, name, text) ==> name in Collected(entries)
  {
    if entries != [] {
      var front, last := entries[..|entries| - 1], entries[|entries| - 1];
      CollectedComesFromEntries(front, name);
      assert entries == front + [last];
      if name in Collected(entries) && !Stores(last, name, Collected(entries)[name]) {
        assert name in Collected(front) && Collected(front)[name] == Collected(entries)[name];
      }
    }
  }

  ghost predicate Collide(a: Entry, b: Entry) {
    exists name, s, t :: Stores(a, name, s) && Stores(b, name, t) && s != t
  }

  /** Every stored entry is read back with its own trimmed body exactly when no two of them name
      the same type with different bodies. */
  lemma EveryEntryReadBackIff(entries: seq<Entry>)
    ensures (forall e, name, text :: e in entries && Stores(e, name, text) ==>
               name in Collected(entries) && Collected(entries)[name] == text)
            <==> (forall a, b :: a in entries && b in entries ==> !Collide(a, b))
  {
    forall e, name, text | e in entries && Stores(e, name, text)
      ensures name in Collected(entries)
      ensures (forall a, b :: a in entries && b in entries ==> !Collide(a, b)) ==> Collected(entries)[name] == text
    {
      CollectedComesFromEntries(entries, name);
      var other :| other in entries && Stores(other, name, Collected(entries)[name]);
      assert Collected(entries)[name] != text ==> Collide(e, other);
    }
  }

  // ----- saving what was loaded -----------------------------------------------------------

  /** The entries of a mapping in some order. */
  ghost predicate Enumerates(entries: seq<Entry>, m: map<string, string>) {
    (forall e :: e in entries <==> e.0 in m && m[e.0] == e.1)
  }

  /** Names are canonical and bodies trimmed and non-blank. */
  ghost predicate IsCanonical(m: map<string, string>) {
    forall name :: name in m ==>
      m[name] != "" && IsTrimmed(m[name]) && IsTypeName(name)
  }

  ghost predicate IsTypeName(name: string) {
    exists t :: TypeName(t) == name
  }

  lemma CollectedIsCanonical(entries: seq<Entry>)
    ensures IsCanonical(Collected(entries))
  {
    forall name | name in Collected(entries)
      ensures var text := Collected(entries)[name];
              text != "" && IsTrimmed(text) && IsTypeName(name)
    {
      CollectedComesFromEntries(entries, name);
      var e :| e in entries && Stores(e, name, Collected(entries)[name]);
      StripIsTrimmed(e.1);
    }
  }

  lemma CanonicalEntryIsStored(m: map<string, string>, e: Entry)
    requires IsCanonical(m) && e.0 in m && m[e.0] == e.1
    ensures forall name, text :: Stores(e, name, text) <==> name == e.0 && text == e.1
  {
    var t :| TypeName(t) == e.0;
    CanonicalNamesAreFixed(t);
    StripFixesTrimmed(e.1);
  }

  /** Saving back what was loaded changes nothing for the owner exactly when the mapping is
      canonical; after any save it is, so loading, saving and loading again is stable from then on. */
  lemma SaveBackIff(m: map<string, string>, entries: seq<Entry>)
    requires Enumerates(entries, m)
    ensures Collected(entries) == m <==> IsCanonical(m)
  {
    CollectedIsCanonical(entries);
    if IsCanonical(m) {
      forall name
        ensures name in Collected(entries) <==> name in m
        ensures name in m ==> Collected(entries)[name] == m[name]
      {
        SaveBackOne(m, entries, name);
      }
    }
  }

  lemma SaveBackOne(m: map<string, string>, entries: seq<Entry>, name: string)
    requires Enumerates(entries, m) && IsCanonical(m)
    ensures name in Collected(entries) <==> name in m
    ensures name in m ==> Collected(entries)[name] == m[name]
  {
    CollectedComesFromEntries(entries, name);
    if name in m {
      CanonicalEntryIsStored(m, (name, m[name]));
      assert (name, m[name]) in entries && Stores((name, m[name]), name, m[name]);
    }
    if name in Collected(entries) {
      var e :| e in entries && Stores(e, name, Collected(entries)[name]);
      CanonicalEntryIsStored(m, e);
    }
  }

  /** load, save, load, save, load: the second and third loads agree, whatever was in the table. */
  lemma SavedTableIsStable(rows: seq<Message>, owner: int, entries: seq<Entry>, again: seq<Entry>, now: int, later: int)
    requires Enumerates(again, LoadedFrom(SavedRows(rows, owner, entries, now), owner))
    ensures var saved := SavedRows(rows, owner, entries, now);
            LoadedFrom(SavedRows(saved, owner, again, later), owner) == LoadedFrom(saved, owner)
  {
    LoadAfterSave(rows, owner, entries, now);
    LoadAfterSave(SavedRows(rows, owner, entries, now), owner, again, later);
    CollectedIsCanonical(entries);
    SaveBackIff(Collected(entries), again);
  }

  /** For any table: saving what was loaded and loading again gives the same mapping exactly when the
      loaded one is canonical. */
  lemma LoadSaveLoadIff(rows: seq<Message>, owner: int, again: seq<Entry>, now: int)
    requires Enumerates(again, LoadedFrom(rows, owner))
    ensures LoadedFrom(SavedRows(rows, owner, again, now), owner) == LoadedFrom(rows, owner)
            <==> IsCanonical(LoadedFrom(rows, owner))
  {
    LoadAfterSave(rows, owner, again, now);
    SaveBackIff(LoadedFrom(rows, owner), again);
  }

  /** What happens to the table: templates are saved, messages are posted, an owner's messages go. */
  datatype Operation = Save(owner: int, entries: seq<Entry>, now: int) | Post(message: Message) | RemoveSender(owner: int)

  function NotSentBy(owner: int): Message -> bool {
    (m: Message) => m.sender != owner
  }

  function After(rows: seq<Message>, op: Operation): seq<Message> {
    match op
    case Save(owner, entries, now) => SavedRows(rows, owner, entries, now)
    case Post(m) => rows + [m.(isTemplate := false)]
    case RemoveSender(owner) => Filter(rows, NotSentBy(owner))
  }

  function AfterAll(ops: seq<Operation>): seq<Message> {
    if ops == [] then [] else After(AfterAll(ops[..|ops| - 1]), ops[|ops| - 1])
  }

  ghost predicate CanonicalTemplates(rows: seq<Message>) {
    forall m :: m in rows && m.isTemplate ==> m.text != "" && IsTrimmed(m.text) && IsTypeName(m.kind)
  }

  lemma {:induction false} SavedTemplatesAreCanonical(owner: int, entries: seq<Entry>, now: int)
    ensures CanonicalTemplates(TemplatesFor(owner, entries, now))
  {
    if entries != [] {
      SavedTemplatesAreCanonical(owner, entries[..|entries| - 1], now);
      StripIsTrimmed(entries[|entries| - 1].1);
    }
  }

  lemma {:induction false} RunsKeepTemplatesCanonical(ops: seq<Operation>)
    ensures CanonicalTemplates(AfterAll(ops))
  {
    if ops != [] {
      var rows, op := AfterAll(ops[..|ops| - 1]), ops[|ops| - 1];
      RunsKeepTemplatesCanonical(ops[..|ops| - 1]);
      match op
      case Save(owner, entries, now) =>
        FilterHas(rows, NotTemplateOf(owner));
        SavedTemplatesAreCanonical(owner, entries, now);
      case Post(_) =>
      case RemoveSender(owner) =>
        FilterHas(rows, NotSentBy(owner));
    }
  }

  lemma {:induction false} CanonicalRowsLoadCanonical(rows: seq<Message>, owner: int)
    requires CanonicalTemplates(rows)
    ensures IsCanonical(LoadedFrom(rows, owner))
  {
    if rows != [] {
      CanonicalRowsLoadCanonical(rows[..|rows| - 1], owner);
      assert rows[|rows| - 1] in rows;
    }
  }

  /** In every table that saves, posts and removals lead to, loading, saving what was loaded in any
      order and loading again gives the same mapping. */
  lemma LoadSaveLoadIsStable(ops: seq<Operation>, owner: int, again: seq<Entry>, now: int)
    requires Enumerates(again, LoadedFrom(AfterAll(ops), owner))
    ensures LoadedFrom(SavedRows(AfterAll(ops), owner, again, now), owner) == LoadedFrom(AfterAll(ops), owner)
  {
    RunsKeepTemplatesCanonical(ops);
    CanonicalRowsLoadCanonical(AfterAll(ops), owner);
    LoadSaveLoadIff(AfterAll(ops), owner, again, now);
  }

  /** Every row that a save adds is the owner's own template, to themselves, of the scope of its type. */
  lemma {:induction false} SavedRowsAre(owner: int, entries: seq<Entry>, now: int, m: Message)
    requires m in TemplatesFor(owner, entries, now)
    ensures m.sender == owner && m.receiver == Some(owner) && m.isTemplate && m.createdAt == now
    ensures exists t :: m.kind == TypeName(t) && m.visibility == TypeScope(t)
    ensures exists e :: e in entries && Stores(e, m.kind, m.text)
  {
    var front, last := entries[..|entries| - 1], entries[|entries| - 1];
    assert entries == front + [last];
    if m in TemplatesFor(owner, front, now) {
      SavedRowsAre(owner, front, now, m);
    } else {
      assert Stores(last, m.kind, m.text);
    }
  }

  // ----- what a save does not touch -------------------------------------------------------

  lemma LoadSnoc(front: seq<Message>, last: Message, owner: int)
    ensures LoadedFrom(front + [last], owner)
            == if IsTemplateOf(last, owner) then LoadedFrom(front, owner)[last.kind := last.text] else LoadedFrom(front, owner)
  {
    assert (front + [last])[..|front|] == front;
  }

  lemma {:induction false} LoadIgnoresRemoved(rows: seq<Message>, owner: int, other: int)
    requires owner != other
    ensures LoadedFrom(Filter(rows, NotTemplateOf(owner)), other) == LoadedFrom(rows, other)
  {
    if rows != [] {
      var front, last := rows[..|rows| - 1], rows[|rows| - 1];
      LoadIgnoresRemoved(front, owner, other);
      if NotTemplateOf(owner)(last) {
        LoadSnoc(Filter(front, NotTemplateOf(owner)), last, other);
      }
    }
  }

  lemma {:induction false} FilterTwice<T>(s: seq<T>, p: T -> bool, q: T -> bool)
    requires forall x :: x in s && p(x) ==> q(x)
    ensures Filter(Filter(s, q), p) == Filter(s, p)
  {
    if s != [] {
      var front, last := s[..|s| - 1], s[|s| - 1];
      FilterTwice(front, p, q);
      if q(last) {
        FilterSplits(Filter(front, q), [last], p);
        assert Filter([last], p) == if p(last) then [last] else [] by {
          assert [last][..0] == [];
        }
      }
    }
  }

  lemma {:induction false} FilterDropsAll<T>(s: seq<T>, p: T -> bool)
    requires forall x :: x in s ==> !p(x)
    ensures Filter(s, p) == []
  {
    if s != [] {
      FilterDropsAll(s[..|s| - 1], p);
    }
  }

  /** Saving templates leaves every other owner's templates and every viewer's feed, page by page, unchanged. */
  lemma SaveTouchesNothingElse(rows: seq<Message>, owner: int, entries: seq<Entry>, now: int,
                               other: int, viewer: int, zones: Zones, q: Query)
    requires owner != other
    ensures var saved := SavedRows(rows, owner, entries, now);
            && LoadedFrom(saved, other) == LoadedFrom(rows, other)
            && ListVisibleMessages(saved, viewer, zones, q) == ListVisibleMessages(rows, viewer, zones, q)
  {
    var kept, added := Filter(rows, NotTemplateOf(owner)), TemplatesFor(owner, entries, now);
    var p := VisibleTo(viewer, zones);
    LoadOfTemplates(owner, entries, now);
    LoadSkipsOthers(added, other);
    LoadSplits(kept, added, other);
    LoadIgnoresRemoved(rows, owner, other);
    FilterTwice(rows, p, NotTemplateOf(owner));
    FilterDropsAll(added, p);
    FilterSplits(kept, added, p);
    assert Filter(kept, p) + [] == Filter(rows, p);
  }
}

/** `GET /messages`: truncate four feeds, merge newest first, drop blocked rows, add read receipts, slice. */
module Inbox {
  import opened Options
  import opened Lists
  import opened StableSort

  // ----- rows, blocks, receipts ---------------------------------------------------------

  /** Integer ids are message-table rows, string ids are zone message events. */
  datatype RowId = Number(n: int) | Uuid(s: string)

  datatype Category = Alarm | Alert | Access

  datatype Row = Row(id: RowId, sender: Option<int>, kind: string, category: Category, createdAt: int,
                     text: string, readBy: Option<seq<int>>, isReadByViewer: Option<bool>)

  const NEWEST: Row -> int := (r: Row) => r.createdAt

  datatype Block = Block(owner: int, blockedSender: Option<int>, blockedKind: Option<string>)

  /** One alarm receipt; a list of receipts is in creation order. */
  datatype Receipt = Receipt(eventId: string, reader: int)

  /** Owner ids are positive; anything else counts as no sender. */
  function CoerceOwner(sender: Option<int>): Option<int> {
    if sender.Some? && sender.value > 0 then sender else None
  }

  predicate RuleMatches(rule: Block, viewer: int, sender: Option<int>, kind: string) {
    rule.owner == viewer
    && (rule.blockedSender.None? || (sender.Some? && rule.blockedSender == sender))
    && (rule.blockedKind.None? || rule.blockedKind == Some(kind))
  }

  predicate IsDeliveryBlocked(blocks: seq<Block>, viewer: int, sender: Option<int>, kind: string) {
    exists rule | rule in blocks :: RuleMatches(rule, viewer, sender, kind)
  }

  function NotBlocked(blocks: seq<Block>, viewer: int): Row -> bool {
    (row: Row) => !IsDeliveryBlocked(blocks, viewer, CoerceOwner(row.sender), row.kind)
  }

  /** The rows the viewer has not blocked. */
  function VisibleRows(rows: seq<Row>, viewer: int, blocks: seq<Block>): seq<Row> {
    Filter(rows, NotBlocked(blocks, viewer))
  }

  method FilterForViewer(rows: seq<Row>, viewer: int, blocks: seq<Block>) returns (visible: seq<Row>)
    ensures visible == VisibleRows(rows, viewer, blocks)
  {
    visible := [];
    for i := 0 to |rows|
      invariant visible == Filter(rows[..i], NotBlocked(blocks, viewer))
    {
      assert rows[..i + 1][..i] == rows[..i];
      if IsDeliveryBlocked(blocks, viewer, CoerceOwner(rows[i].sender), rows[i].kind) {
        continue;
      }
      visible := visible + [rows[i]];
    }
    assert rows[..|rows|] == rows;
  }

  lemma {:induction false} SameFilter(rows: seq<Row>, p: Row -> bool, q: Row -> bool)
    requires forall row :: row in rows ==> p(row) == q(row)
    ensures Filter(rows, p) == Filter(rows, q)
  {
    if rows != [] {
      var front := rows[..|rows| - 1];
      assert rows == front + [rows[|rows| - 1]];
      SameFilter(front, p, q);
    }
  }

  /** Only the viewer's own rules count: lists with the same rules of the viewer keep the same rows. */
  lemma RulesOfOthersDoNotMatter(rows: seq<Row>, viewer: int, blocks: seq<Block>, others: seq<Block>)
    requires forall rule: Block :: rule.owner == viewer ==> (rule in blocks <==> rule in others)
    ensures VisibleRows(rows, viewer, blocks) == VisibleRows(rows, viewer, others)
  {
    SameFilter(rows, NotBlocked(blocks, viewer), NotBlocked(others, viewer));
  }

  /** One more rule is one more filter. */
  lemma RulesAddUp(rows: seq<Row>, viewer: int, blocks: seq<Block>, rule: Block)
    ensures VisibleRows(rows, viewer, blocks + [rule]) == VisibleRows(VisibleRows(rows, viewer, blocks), viewer, [rule])
  {
    TwoFilters(rows, NotBlocked(blocks, viewer), NotBlocked([rule], viewer));
    SameFilter(rows, NotBlocked(blocks + [rule], viewer),
               (row: Row) => NotBlocked(blocks, viewer)(row) && NotBlocked([rule], viewer)(row));
  }

  lemma {:induction false} TwoFilters(rows: seq<Row>, p: Row -> bool, q: Row -> bool)
    ensures Filter(Filter(rows, p), q) == Filter(rows, (row: Row) => p(row) && q(row))
  {
    if rows != [] {
      var front, last := rows[..|rows| - 1], rows[|rows| - 1];
      TwoFilters(front, p, q);
      if p(last) {
        FilterSplits(Filter(front, p), [last], q);
        assert [last][..0] == [];
      }
    }
  }

  /** What a single rule takes away: all rows of a kind, all rows of a member, the rows of that kind
      from that member, or everything. Ids that are not positive name nobody. */
  lemma OneRule(rows: seq<Row>, viewer: int, member: int, kind: string)
    ensures VisibleRows(rows, viewer, [Block(viewer, None, Some(kind))]) == Filter(rows, (row: Row) => row.kind != kind)
    ensures VisibleRows(rows, viewer, [Block(viewer, Some(member), None)])
            == Filter(rows, (row: Row) => !(member > 0 && row.sender == Some(member)))
    ensures VisibleRows(rows, viewer, [Block(viewer, Some(member), Some(kind))])
            == Filter(rows, (row: Row) => !(member > 0 && row.sender == Some(member) && row.kind == kind))
    ensures VisibleRows(rows, viewer, [Block(viewer, None, None)]) == []
    ensures VisibleRows(rows, viewer, []) == rows
  {
    OneRuleFilters(rows, viewer, Block(viewer, None, Some(kind)), (row: Row) => row.kind != kind);
    OneRuleFilters(rows, viewer, Block(viewer, Some(member), None), (row: Row) => !(member > 0 && row.sender == Some(member)));
    OneRuleFilters(rows, viewer, Block(viewer, Some(member), Some(kind)),
                   (row: Row) => !(member > 0 && row.sender == Some(member) && row.kind == kind));
    OneRuleFilters(rows, viewer, Block(viewer, None, None), (row: Row) => false);
    FilterHas(rows, (row: Row) => false);
    assert Filter(rows, (row: Row) => false) != [] ==> Filter(rows, (row: Row) => false)[0] in Filter(rows, (row: Row) => false);
    FilterAll(rows, NotBlocked([], viewer));
  }

  lemma OneRuleFilters(rows: seq<Row>, viewer: int, rule: Block, kept: Row -> bool)
    requires forall row :: kept(row) == !RuleMatches(rule, viewer, CoerceOwner(row.sender), row.kind)
    ensures VisibleRows(rows, viewer, [rule]) == Filter(rows, kept)
  {
    SameFilter(rows, NotBlocked([rule], viewer), kept);
  }

  lemma {:induction false} FilterAll(s: seq<Row>, p: Row -> bool)
    requires forall x :: x in s ==> p(x)
    ensures Filter(s, p) == s
  {
    if s != [] {
      FilterAll(s[..|s| - 1], p);
    }
  }

  /** Rows without a sender survive every rule that names a member. */
  lemma SenderlessRowsSurvive(rows: seq<Row>, viewer: int, blocks: seq<Block>, row: Row)
    requires row in rows && (row.sender.None? || row.sender.value <= 0)
    requires forall rule :: rule in blocks && rule.owner == viewer ==> rule.blockedSender.Some?
    ensures row in VisibleRows(rows, viewer, blocks)
  {
    FilterHas(rows, NotBlocked(blocks, viewer));
  }

  /** Who has read one event, in creation order. */
  function Readers(receipts: seq<Receipt>, eventId: string): seq<int> {
    if receipts == [] then []
    else
      var front, last := receipts[..|receipts| - 1], receipts[|receipts| - 1];
      if last.eventId == eventId then Readers(front, eventId) + [last.reader] else Readers(front, eventId)
  }

  function Lookup(grouped: map<string, seq<int>>, eventId: string): seq<int> {
    if eventId in grouped then grouped[eventId] else []
  }

  method ReadOwnerIdsByMessageIds(ids: seq<string>, receipts: seq<Receipt>) returns (grouped: map<string, seq<int>>)
    ensures forall id :: Lookup(grouped, id) == if id in ids then Readers(receipts, id) else []
  {
    grouped := map[];
    if ids == [] {
      return;
    }
    for i := 0 to |receipts|
      invariant forall id :: Lookup(grouped, id) == if id in ids then Readers(receipts[..i], id) else []
    {
      var r := receipts[i];
      assert receipts[..i + 1][..i] == receipts[..i];
      if r.eventId in ids {
        grouped := grouped[r.eventId := Lookup(grouped, r.eventId) + [r.reader]];
      }
    }
    assert receipts[..|receipts|] == receipts;
  }

  predicate TracksReads(row: Row) {
    row.category == Alarm && row.id.Uuid?
  }

  function WithReads(row: Row, viewer: int, receipts: seq<Receipt>): Row {
    if TracksReads(row) then
      var readers := Readers(receipts, row.id.s);
      row.(readBy := Some(readers), isReadByViewer := Some(viewer in readers))
    else row
  }

  function AllWithReads(rows: seq<Row>, viewer: int, receipts: seq<Receipt>): seq<Row> {
    seq(|rows|, i requires 0 <= i < |rows| => WithReads(rows[i], viewer, receipts))
  }

  /** Receipts are fetched for the whole list at once, yet each row gets its own readers. */
  method EnrichWithAlarmReads(rows: seq<Row>, viewer: int, receipts: seq<Receipt>) returns (enriched: seq<Row>)
    ensures enriched == AllWithReads(rows, viewer, receipts)
  {
    var alarmIds: seq<string> := [];
    for i := 0 to |rows|
      invariant forall id :: id in alarmIds <==> exists j :: 0 <= j < i && TracksReads(rows[j]) && rows[j].id.s == id
    {
      if TracksReads(rows[i]) {
        alarmIds := alarmIds + [rows[i].id.s];
      }
    }
    if alarmIds == [] {
      forall j | 0 <= j < |rows| ensures !TracksReads(rows[j]) {
        assert rows[j].id.Uuid? ==> rows[j].id.s !in alarmIds;
      }
      return rows;
    }
    var readsMap := ReadOwnerIdsByMessageIds(alarmIds, receipts);
    enriched := [];
    for i := 0 to |rows|
      invariant enriched == AllWithReads(rows[..i], viewer, receipts)
    {
      if !TracksReads(rows[i]) {
        enriched := enriched + [rows[i]];
        continue;
      }
      assert rows[i].id.s in alarmIds;
      var ids := Lookup(readsMap, rows[i].id.s);
      enriched := enriched + [rows[i].(readBy := Some(ids), isReadByViewer := Some(viewer in ids))];
    }
    assert rows[..|rows|] == rows;
  }

  // ----- feeds and the page -------------------------------------------------------------

  /** Stored events of one kind, newest first, and which of them the owner may see. The scan
      stops at a row count before visibility is decided. */
  datatype Scan = Scan(rows: seq<Row>, visible: Row -> bool)

  /** The permission feed reads three queries: events of the owner's zones, access requests filed
      elsewhere (for system administrators; no rows for anyone else) and grants sent to the owner. */
  datatype Feeds = Feeds(inbox: seq<Row>, permission: Scan, requests: Scan, grants: Scan, chat: Scan, geo: Scan,
                         mergeChat: bool)

  datatype Viewer = Viewer(id: int, blocks: seq<Block>, receipts: seq<Receipt>)

  function Min(a: int, b: int): int { if a < b then a else b }

  function Max(a: int, b: int): int { if a > b then a else b }

  function FetchCap(q: Query): nat {
    Min(Max(q.skip + q.limit + 128, q.limit * 2), 2500)
  }

  function ScanLimit(maxScan: int): nat {
    Max(1, Min(maxScan, 8000))
  }

  function GrantLimit(maxScan: int): nat {
    Max(1, Min(maxScan, 200))
  }

  function ScanFeed(scan: Scan, maxScan: int): seq<Row> {
    Filter(Take(scan.rows, ScanLimit(maxScan)), scan.visible)
  }

  function Ids(rows: seq<Row>): set<RowId> {
    set row | row in rows :: row.id
  }

  /** Wanted and not listed yet. */
  function Unseen(listed: seq<Row>, wanted: Row -> bool): Row -> bool {
    (row: Row) => row.id !in Ids(listed) && wanted(row)
  }

  function RequestFeed(f: Feeds, maxScan: int, listed: seq<Row>): seq<Row> {
    Filter(Take(f.requests.rows, ScanLimit(maxScan)), Unseen(listed, f.requests.visible))
  }

  function GrantFeed(f: Feeds, maxScan: int, listed: seq<Row>): seq<Row> {
    Filter(Take(f.grants.rows, GrantLimit(maxScan)), Unseen(listed, f.grants.visible))
  }

  function PermissionFeed(f: Feeds, maxScan: int): seq<Row> {
    var zones := ScanFeed(f.permission, maxScan);
    var asked := RequestFeed(f, maxScan, zones);
    zones + asked + GrantFeed(f, maxScan, zones + asked)
  }

  /** Each row once. */
  ghost predicate Distinct(rows: seq<Row>) {
    forall i, j :: 0 <= i < j < |rows| ==> rows[i].id != rows[j].id
  }

  /** The scan loop of the later queries. */
  method AppendUnseen(listed: seq<Row>, rows: seq<Row>, wanted: Row -> bool) returns (visible: seq<Row>)
    requires Distinct(rows)
    ensures visible == listed + Filter(rows, Unseen(listed, wanted))
  {
    visible := listed;
    var seen := Ids(listed);
    for i := 0 to |rows|
      invariant visible == listed + Filter(rows[..i], Unseen(listed, wanted))
      invariant seen == Ids(visible)
    {
      assert rows[..i + 1][..i] == rows[..i];
      FilterHas(rows[..i], Unseen(listed, wanted));
      assert rows[i].id in seen <==> rows[i].id in Ids(listed);
      if rows[i].id in seen {
        continue;
      }
      if wanted(rows[i]) {
        visible := visible + [rows[i]];
        seen := seen + {rows[i].id};
      }
    }
    assert rows[..|rows|] == rows;
  }

  method ListPermissionEvents(f: Feeds, maxScan: int) returns (visible: seq<Row>)
    requires Distinct(f.requests.rows) && Distinct(f.grants.rows)
    ensures visible == PermissionFeed(f, maxScan)
  {
    var rows := Take(f.permission.rows, ScanLimit(maxScan));
    visible := [];
    for i := 0 to |rows|
      invariant visible == Filter(rows[..i], f.permission.visible)
    {
      assert rows[..i + 1][..i] == rows[..i];
      if f.permission.visible(rows[i]) {
        visible := visible + [rows[i]];
      }
    }
    assert rows[..|rows|] == rows;
    visible := AppendUnseen(visible, Take(f.requests.rows, ScanLimit(maxScan)), f.requests.visible);
    visible := AppendUnseen(visible, Take(f.grants.rows, GrantLimit(maxScan)), f.grants.visible);
  }

  function ChatFeed(f: Feeds, maxScan: int): seq<Row> {
    if f.mergeChat then ScanFeed(f.chat, maxScan) else []
  }

  /** Everything fetched, in the order it is concatenated. */
  function Fetched(f: Feeds, k: nat): seq<Row> {
    Take(f.inbox, k) + PermissionFeed(f, k + 250) + ChatFeed(f, k + 250) + ScanFeed(f.geo, k + 250)
  }

  ghost function WholeZones(f: Feeds): seq<Row> {
    Filter(f.permission.rows, f.permission.visible)
  }

  /** Access requests that no zone event of the owner lists already. */
  ghost function OtherRequests(f: Feeds): Scan {
    Scan(f.requests.rows, Unseen(WholeZones(f), f.requests.visible))
  }

  ghost function WholeRequests(f: Feeds): seq<Row> {
    Filter(f.requests.rows, OtherRequests(f).visible)
  }

  ghost function WholeGrants(f: Feeds): seq<Row> {
    Filter(f.grants.rows, Unseen(WholeZones(f) + WholeRequests(f), f.grants.visible))
  }

  ghost function WholeChat(f: Feeds): seq<Row> {
    if f.mergeChat then Filter(f.chat.rows, f.chat.visible) else []
  }

  /** The feeds without any truncation. */
  ghost function WholeFeeds(f: Feeds): seq<seq<Row>> {
    [f.inbox, WholeZones(f), WholeRequests(f), WholeGrants(f),
     WholeChat(f), Filter(f.geo.rows, f.geo.visible)]
  }

  function Finalized(merged: seq<Row>, v: Viewer): seq<Row> {
    AllWithReads(VisibleRows(merged, v.id, v.blocks), v.id, v.receipts)
  }

  function Page(f: Feeds, v: Viewer, q: Query): seq<Row> {
    Slice(Finalized(Sort(Fetched(f, FetchCap(q)), NEWEST), v), q)
  }

  method ListInbox(f: Feeds, v: Viewer, q: Query) returns (page: seq<Row>)
    requires Distinct(f.requests.rows) && Distinct(f.grants.rows)
    ensures page == Page(f, v, q)
  {
    var cap := FetchCap(q);
    var permission := ListPermissionEvents(f, cap + 250);
    var chat := [];
    if f.mergeChat {
      chat := ScanFeed(f.chat, cap + 250);
    }
    var merged := Sort(Take(f.inbox, cap) + permission + chat + ScanFeed(f.geo, cap + 250), NEWEST);
    var visible := FilterForViewer(merged, v.id, v.blocks);
    var enriched := EnrichWithAlarmReads(visible, v.id, v.receipts);
    return Slice(enriched, q);
  }

  /** The inbox the page is a window on: every row of every feed. */
  ghost function WholeMerge(f: Feeds): seq<Row> {
    Sort(Concat(WholeFeeds(f)), NEWEST)
  }

  ghost function WholeInbox(f: Feeds, v: Viewer): seq<Row> {
    Finalized(WholeMerge(f), v)
  }

  /** No rule of another owner changes any page. */
  lemma RulesOfOthersKeepPages(f: Feeds, v: Viewer, others: seq<Block>, q: Query)
    requires forall rule: Block :: rule.owner == v.id ==> (rule in v.blocks <==> rule in others)
    ensures Page(f, v, q) == Page(f, v.(blocks := others), q)
  {
    RulesOfOthersDoNotMatter(Sort(Fetched(f, FetchCap(q)), NEWEST), v.id, v.blocks, others);
  }

  // ----- what is assumed of the store ----------------------------------------------------

  /** Scans list each stored event once, newest first, and an id names one event. */
  ghost predicate FromOneTable(f: Feeds) {
    Descending(f.inbox, NEWEST) && Descending(f.permission.rows, NEWEST) && Descending(f.requests.rows, NEWEST)
    && Descending(f.grants.rows, NEWEST) && Descending(f.chat.rows, NEWEST) && Descending(f.geo.rows, NEWEST)
    && Distinct(f.requests.rows) && Distinct(f.grants.rows)
    && forall x, y :: x in EventRows(f) && y in EventRows(f) && x.id == y.id ==> x == y
  }

  ghost function EventRows(f: Feeds): seq<Row> {
    f.permission.rows + f.requests.rows + f.grants.rows
  }

  /** A query cut after n rows, before its visibility check: it still gives k rows, or no wanted
      row lies past the cut. */
  ghost predicate CutIsHarmless(rows: seq<Row>, n: nat, wanted: Row -> bool, k: nat) {
    |Filter(Take(rows, n), wanted)| >= k || forall i :: n <= i < |rows| ==> !wanted(rows[i])
  }

  /** The scan for a cap of k, with its slack of 250 rows, serves the newest n. */
  ghost predicate ScanSuffices(scan: Scan, k: nat, n: nat) {
    CutIsHarmless(scan.rows, ScanLimit(k + 250), scan.visible, n)
  }

  ghost predicate GrantsSuffice(f: Feeds, k: nat, n: nat) {
    CutIsHarmless(f.grants.rows, GrantLimit(k + 250), Unseen(WholeZones(f) + WholeRequests(f), f.grants.visible), n)
  }

  /** With a cap of k no query loses a row that its feed should show among the newest n. */
  ghost predicate ScansSuffice(f: Feeds, k: nat, n: nat) {
    ScanSuffices(f.permission, k, n) && ScanSuffices(OtherRequests(f), k, n) && GrantsSuffice(f, k, n)
    && (f.mergeChat ==> ScanSuffices(f.chat, k, n)) && ScanSuffices(f.geo, k, n)
  }

  /** Rows the scan reads and then drops as not visible. */
  ghost function Hidden(scan: Scan, maxScan: int): int {
    |Take(scan.rows, ScanLimit(maxScan))| - |ScanFeed(scan, maxScan)|
  }

  /** How many of the newest k rows the viewer has blocked. */
  ghost function Dropped(f: Feeds, v: Viewer, k: nat): int {
    var top := Take(WholeMerge(f), k);
    |top| - |Filter(top, NotBlocked(v.blocks, v.id))|
  }

  // ----- prefixes, filters and slices ----------------------------------------------------

  lemma {:induction false} FilterKeepsOrder(s: seq<Row>, p: Row -> bool)
    requires Descending(s, NEWEST)
    ensures Descending(Filter(s, p), NEWEST)
  {
    if s != [] {
      var front, last := s[..|s| - 1], s[|s| - 1];
      FilterKeepsOrder(front, p);
      FilterHas(front, p);
      forall x | x in Filter(front, p) ensures NEWEST(x) >= NEWEST(last) {
        var i :| 0 <= i < |front| && front[i] == x;
        assert s[i] == x;
      }
    }
  }

  /** A cut query is a newest-first prefix that serves k rows exactly when the cut is harmless. */
  lemma CutCoversIff(rows: seq<Row>, n: nat, wanted: Row -> bool, k: nat)
    requires Descending(rows, NEWEST)
    ensures Descending(Filter(rows, wanted), NEWEST)
    ensures Covers(Filter(Take(rows, n), wanted), Filter(rows, wanted), k) <==> CutIsHarmless(rows, n, wanted, k)
  {
    FilterKeepsOrder(rows, wanted);
    if n < |rows| {
      var rest := rows[n..];
      assert rows == rows[..n] + rest;
      FilterSplits(rows[..n], rest, wanted);
      FilterEmptyIff(rest, wanted);
      assert forall i :: n <= i < |rows| ==> rest[i - n] == rows[i];
    } else {
      assert Take(rows, n) == rows;
    }
  }

  lemma FilterEmptyIff(s: seq<Row>, p: Row -> bool)
    ensures Filter(s, p) == [] <==> forall i :: 0 <= i < |s| ==> !p(s[i])
  {
    FilterHas(s, p);
    if Filter(s, p) != [] {
      assert Filter(s, p)[0] in Filter(s, p);
    }
  }

  lemma ScanCovers(scan: Scan, k: nat, n: nat)
    requires Descending(scan.rows, NEWEST)
    ensures Descending(Filter(scan.rows, scan.visible), NEWEST)
    ensures Covers(ScanFeed(scan, k + 250), Filter(scan.rows, scan.visible), n) <==> ScanSuffices(scan, k, n)
  {
    CutCoversIff(scan.rows, ScanLimit(k + 250), scan.visible, n);
  }

  /** The grants fetched, less those the untruncated earlier queries list. */
  ghost function NewGrants(f: Feeds, k: nat): seq<Row> {
    Filter(Take(f.grants.rows, GrantLimit(k + 250)), Unseen(WholeZones(f) + WholeRequests(f), f.grants.visible))
  }

  /** The feeds as fetched, but told apart as in the whole store: what an untruncated earlier
      query lists is not listed again. */
  ghost function CutFeeds(f: Feeds, k: nat): seq<seq<Row>> {
    [Take(f.inbox, k), ScanFeed(f.permission, k + 250), ScanFeed(OtherRequests(f), k + 250), NewGrants(f, k),
     ChatFeed(f, k + 250), ScanFeed(f.geo, k + 250)]
  }

  ghost predicate GoodCut(cut: seq<Row>, whole: seq<Row>, k: nat) {
    Descending(whole, NEWEST) && Covers(cut, whole, k)
  }

  lemma ScanIsGood(scan: Scan, k: nat, n: nat)
    requires Descending(scan.rows, NEWEST) && ScanSuffices(scan, k, n)
    ensures GoodCut(ScanFeed(scan, k + 250), Filter(scan.rows, scan.visible), n)
  {
    ScanCovers(scan, k, n);
  }

  lemma FeedsAreGood(f: Feeds, k: nat, n: nat)
    requires FromOneTable(f) && n <= k && ScansSuffice(f, k, n)
    ensures GoodCut(Take(f.inbox, k), f.inbox, n)
    ensures GoodCut(ScanFeed(f.permission, k + 250), WholeZones(f), n)
    ensures GoodCut(ScanFeed(OtherRequests(f), k + 250), WholeRequests(f), n)
    ensures GoodCut(NewGrants(f, k), WholeGrants(f), n)
    ensures GoodCut(ChatFeed(f, k + 250), WholeChat(f), n)
    ensures GoodCut(ScanFeed(f.geo, k + 250), Filter(f.geo.rows, f.geo.visible), n)
  {
    ScanIsGood(f.permission, k, n);
    ScanIsGood(OtherRequests(f), k, n);
    if f.mergeChat {
      ScanIsGood(f.chat, k, n);
    }
    ScanIsGood(f.geo, k, n);
    CutCoversIff(f.grants.rows, GrantLimit(k + 250), Unseen(WholeZones(f) + WholeRequests(f), f.grants.visible), n);
  }

  lemma MergeOfSix(cut: seq<seq<Row>>, whole: seq<seq<Row>>, k: nat)
    requires |cut| == |whole| == 6
    requires GoodCut(cut[0], whole[0], k) && GoodCut(cut[1], whole[1], k) && GoodCut(cut[2], whole[2], k)
    requires GoodCut(cut[3], whole[3], k) && GoodCut(cut[4], whole[4], k) && GoodCut(cut[5], whole[5], k)
    ensures Take(Sort(Concat(cut), NEWEST), k) == Take(Sort(Concat(whole), NEWEST), k)
  {
    MergeOfCut(cut, whole, k);
  }

  lemma MergeOfLists(a: seq<Row>, b: seq<Row>, c: seq<Row>, d: seq<Row>, e: seq<Row>, g: seq<Row>,
                     a': seq<Row>, b': seq<Row>, c': seq<Row>, d': seq<Row>, e': seq<Row>, g': seq<Row>, k: nat)
    requires GoodCut(a, a', k) && GoodCut(b, b', k) && GoodCut(c, c', k)
    requires GoodCut(d, d', k) && GoodCut(e, e', k) && GoodCut(g, g', k)
    ensures Take(Sort(Concat([a, b, c, d, e, g]), NEWEST), k) == Take(Sort(Concat([a', b', c', d', e', g']), NEWEST), k)
  {
    MergeOfSix([a, b, c, d, e, g], [a', b', c', d', e', g'], k);
  }

  lemma CutFeedsCover(f: Feeds, k: nat, n: nat)
    requires FromOneTable(f) && n <= k && ScansSuffice(f, k, n)
    ensures Take(Sort(Concat(CutFeeds(f, k)), NEWEST), n) == Take(WholeMerge(f), n)
  {
    FeedsAreGood(f, k, n);
    MergeOfLists(Take(f.inbox, k), ScanFeed(f.permission, k + 250), ScanFeed(OtherRequests(f), k + 250), NewGrants(f, k),
                 ChatFeed(f, k + 250), ScanFeed(f.geo, k + 250),
                 f.inbox, WholeZones(f), WholeRequests(f), WholeGrants(f), WholeChat(f), Filter(f.geo.rows, f.geo.visible), n);
  }

  lemma MergeOfCut(cut: seq<seq<Row>>, whole: seq<seq<Row>>, k: nat)
    requires |cut| == |whole|
    requires forall i :: 0 <= i < |whole| ==> GoodCut(cut[i], whole[i], k)
    ensures Take(Sort(Concat(cut), NEWEST), k) == Take(Sort(Concat(whole), NEWEST), k)
  {
    TruncatedMerge([], cut, whole, NEWEST, k);
    assert [] + Concat(cut) == Concat(cut) && [] + Concat(whole) == Concat(whole);
  }

  /** A row of the whole feed that the cut one does not reach comes after k rows of the cut. */
  lemma BeyondTheCutIsLate(p: seq<Row>, cut: seq<Row>, whole: seq<Row>, k: nat, row: Row)
    requires Covers(cut, whole, k) && Descending(whole, NEWEST) && row in whole && row !in cut
    ensures CountAtLeast(p + cut, NEWEST, NEWEST(row)) >= k
  {
    var at :| 0 <= at < |whole| && whole[at] == row;
    assert at >= |cut|;
    assert forall i :: 0 <= i < |cut| ==> cut[i] == whole[i] && NEWEST(cut[i]) >= NEWEST(row);
    CountAllAtLeast(cut, NEWEST, NEWEST(row));
    CountSplits(p, cut, NEWEST, NEWEST(row));
  }

  lemma CountOfPrefix(p: seq<Row>, more: seq<Row>, key: int)
    ensures CountAtLeast(p + more, NEWEST, key) >= CountAtLeast(p, NEWEST, key)
  {
    CountSplits(p, more, NEWEST, key);
  }

  lemma RequestIsZoneEvent(f: Feeds, row: Row)
    requires FromOneTable(f) && row in f.requests.rows && row.id in Ids(WholeZones(f))
    ensures row in WholeZones(f)
  {
    FilterHas(f.permission.rows, f.permission.visible);
    var z :| z in WholeZones(f) && z.id == row.id;
    assert z in EventRows(f) && row in EventRows(f);
  }

  /** A request listed only because the zone scan was cut short is a late row. */
  lemma RepeatedRequestIsLate(f: Feeds, k: nat, n: nat, row: Row)
    requires FromOneTable(f) && n <= k && ScansSuffice(f, k, n) && row in f.requests.rows
    requires row.id !in Ids(ScanFeed(f.permission, k + 250)) && row.id in Ids(WholeZones(f))
    ensures CountAtLeast(Take(f.inbox, k) + ScanFeed(f.permission, k + 250), NEWEST, NEWEST(row)) >= n
  {
    var cut, whole := ScanFeed(f.permission, k + 250), WholeZones(f);
    assert Covers(cut, whole, n) && Descending(whole, NEWEST) by {
      ScanCovers(f.permission, k, n);
    }
    RequestIsZoneEvent(f, row);
    BeyondTheCutIsLate(Take(f.inbox, k), cut, whole, n, row);
  }

  lemma RequestsToldApart(f: Feeds, k: nat, n: nat, y: seq<Row>)
    requires FromOneTable(f) && n <= k && ScansSuffice(f, k, n)
    ensures var zones := ScanFeed(f.permission, k + 250);
            var p := Take(f.inbox, k) + zones;
            Take(Sort(p + RequestFeed(f, k + 250, zones) + y, NEWEST), n)
            == Take(Sort(p + ScanFeed(OtherRequests(f), k + 250) + y, NEWEST), n)
  {
    var zones := ScanFeed(f.permission, k + 250);
    var p, rows := Take(f.inbox, k) + zones, Take(f.requests.rows, ScanLimit(k + 250));
    var loose, strict := Unseen(zones, f.requests.visible), OtherRequests(f).visible;
    ScanCovers(f.permission, k, n);
    assert forall x :: x in zones ==> x in WholeZones(f);
    assert forall x :: x in rows ==> x in f.requests.rows;
    forall x | x in rows && loose(x) && !strict(x)
      ensures CountAtLeast(p, NEWEST, NEWEST(x)) >= n
    {
      RepeatedRequestIsLate(f, k, n, x);
    }
    FilterLate(p, rows, loose, strict, y, NEWEST, n);
  }

  /** A grant is listed in the fetched feeds whenever the whole feeds list it as a grant; any
      other one is a late row. */
  lemma RepeatedGrantIsLate(f: Feeds, k: nat, n: nat, row: Row)
    requires FromOneTable(f) && n <= k && ScansSuffice(f, k, n) && row in f.grants.rows
    requires row.id in Ids(WholeZones(f) + WholeRequests(f))
    requires var zones := ScanFeed(f.permission, k + 250);
             row.id !in Ids(zones + RequestFeed(f, k + 250, zones))
    ensures CountAtLeast(Take(f.inbox, k) + ScanFeed(f.permission, k + 250) + ScanFeed(OtherRequests(f), k + 250),
                         NEWEST, NEWEST(row)) >= n
  {
    var p, zones, asked := Take(f.inbox, k), ScanFeed(f.permission, k + 250), ScanFeed(OtherRequests(f), k + 250);
    var rows := Take(f.requests.rows, ScanLimit(k + 250));
    ScanCovers(f.permission, k, n);
    ScanCovers(OtherRequests(f), k, n);
    FilterHas(f.permission.rows, f.permission.visible);
    FilterHas(f.requests.rows, OtherRequests(f).visible);
    FilterHas(rows, OtherRequests(f).visible);
    FilterHas(rows, Unseen(zones, f.requests.visible));
    var z :| z in WholeZones(f) + WholeRequests(f) && z.id == row.id;
    assert z in EventRows(f) && row in EventRows(f);
    assert row !in zones by {
      assert row in zones ==> row in zones + RequestFeed(f, k + 250, zones);
    }
    if row in WholeZones(f) {
      BeyondTheCutIsLate(p, zones, WholeZones(f), n, row);
      CountOfPrefix(p + zones, asked, NEWEST(row));
    } else {
      assert row !in asked by {
        assert row in asked ==> row in zones + RequestFeed(f, k + 250, zones);
      }
      BeyondTheCutIsLate(p + zones, asked, WholeRequests(f), n, row);
    }
  }

  lemma GrantsToldApart(f: Feeds, k: nat, n: nat, y: seq<Row>)
    requires FromOneTable(f) && n <= k && ScansSuffice(f, k, n)
    ensures var zones := ScanFeed(f.permission, k + 250);
            var listed := zones + RequestFeed(f, k + 250, zones);
            var p := Take(f.inbox, k) + zones + ScanFeed(OtherRequests(f), k + 250);
            Take(Sort(p + GrantFeed(f, k + 250, listed) + y, NEWEST), n) == Take(Sort(p + NewGrants(f, k) + y, NEWEST), n)
  {
    var zones := ScanFeed(f.permission, k + 250);
    var listed := zones + RequestFeed(f, k + 250, zones);
    var p := Take(f.inbox, k) + zones + ScanFeed(OtherRequests(f), k + 250);
    var loose := Unseen(listed, f.grants.visible);
    var strict := Unseen(WholeZones(f) + WholeRequests(f), f.grants.visible);
    var rows := Take(f.grants.rows, GrantLimit(k + 250));
    assert forall x :: x in rows ==> x in f.grants.rows;
    ListedIsListedInWhole(f, k, n);
    forall x | x in rows && loose(x) && !strict(x)
      ensures CountAtLeast(p, NEWEST, NEWEST(x)) >= n
    {
      RepeatedGrantIsLate(f, k, n, x);
    }
    FilterLate(p, rows, loose, strict, y, NEWEST, n);
  }

  lemma ListedIsListedInWhole(f: Feeds, k: nat, n: nat)
    requires FromOneTable(f) && n <= k && ScansSuffice(f, k, n)
    ensures var zones := ScanFeed(f.permission, k + 250);
            Ids(zones + RequestFeed(f, k + 250, zones)) <= Ids(WholeZones(f) + WholeRequests(f))
  {
    var zones := ScanFeed(f.permission, k + 250);
    var rows := Take(f.requests.rows, ScanLimit(k + 250));
    ScanCovers(f.permission, k, n);
    FilterHas(f.requests.rows, OtherRequests(f).visible);
    FilterHas(rows, Unseen(zones, f.requests.visible));
    forall x | x in zones + RequestFeed(f, k + 250, zones)
      ensures x.id in Ids(WholeZones(f) + WholeRequests(f))
    {
      if x in zones {
        assert x in WholeZones(f) + WholeRequests(f);
      } else if x.id in Ids(WholeZones(f)) {
        var z :| z in WholeZones(f) && z.id == x.id;
        assert z in WholeZones(f) + WholeRequests(f);
      } else {
        assert x in WholeZones(f) + WholeRequests(f);
      }
    }
  }

  lemma CutFeedsConcat(f: Feeds, k: nat)
    ensures Concat(CutFeeds(f, k))
            == Take(f.inbox, k) + ScanFeed(f.permission, k + 250) + ScanFeed(OtherRequests(f), k + 250) + NewGrants(f, k)
               + (ChatFeed(f, k + 250) + ScanFeed(f.geo, k + 250))
  {
    ConcatOfSix(Take(f.inbox, k), ScanFeed(f.permission, k + 250), ScanFeed(OtherRequests(f), k + 250), NewGrants(f, k),
                ChatFeed(f, k + 250), ScanFeed(f.geo, k + 250));
  }

  lemma ConcatOfSix(a: seq<Row>, b: seq<Row>, c: seq<Row>, d: seq<Row>, e: seq<Row>, g: seq<Row>)
    ensures Concat([a, b, c, d, e, g]) == a + b + c + d + (e + g)
  {
    assert [a, b, c, d, e, g][1..] == [b, c, d, e, g] && [b, c, d, e, g][1..] == [c, d, e, g];
    assert [c, d, e, g][1..] == [d, e, g] && [d, e, g][1..] == [e, g] && [e, g][1..] == [g] && [g][1..] == [];
    assert Concat([g]) == g && Concat([e, g]) == e + g;
    assert Concat([d, e, g]) == d + (e + g) && Concat([c, d, e, g]) == c + (d + (e + g));
    assert Concat([b, c, d, e, g]) == b + (c + (d + (e + g)));
    assert a + (b + (c + (d + (e + g)))) == a + b + c + d + (e + g);
  }

  lemma Regroup(a: seq<Row>, b: seq<Row>, c: seq<Row>, d: seq<Row>, e: seq<Row>, g: seq<Row>)
    ensures a + (b + c + d) + e + g == a + b + c + (d + (e + g))
    ensures a + b + c + d + (e + g) == a + b + c + (d + (e + g))
  {
  }

  /** The newest n rows of what is fetched are the newest n rows of everything. */
  lemma FetchedCovers(f: Feeds, k: nat, n: nat)
    requires FromOneTable(f) && n <= k && ScansSuffice(f, k, n)
    ensures Take(Sort(Fetched(f, k), NEWEST), n) == Take(WholeMerge(f), n)
  {
    FetchedAsCut(f, k, n);
    CutFeedsCover(f, k, n);
  }

  lemma FetchedAsCut(f: Feeds, k: nat, n: nat)
    requires FromOneTable(f) && n <= k && ScansSuffice(f, k, n)
    ensures Take(Sort(Fetched(f, k), NEWEST), n) == Take(Sort(Concat(CutFeeds(f, k)), NEWEST), n)
  {
    var inbox, zones := Take(f.inbox, k), ScanFeed(f.permission, k + 250);
    var chat, geo := ChatFeed(f, k + 250), ScanFeed(f.geo, k + 250);
    var asked, asked' := RequestFeed(f, k + 250, zones), ScanFeed(OtherRequests(f), k + 250);
    var granted := GrantFeed(f, k + 250, zones + asked);
    Regroup(inbox, zones, asked, granted, chat, geo);
    RequestsToldApart(f, k, n, granted + (chat + geo));
    Regroup(inbox, zones, asked', granted, chat, geo);
    GrantsToldApart(f, k, n, chat + geo);
    CutFeedsConcat(f, k);
  }

  lemma SliceWithin<T>(front: seq<T>, s: seq<T>, q: Query)
    requires front <= s && |front| >= q.skip + q.limit
    ensures Slice(s, q) == Slice(front, q)
  {
    assert Take(s, q.skip + q.limit) == Take(front, q.skip + q.limit);
  }

  lemma FinalizedFront(top: seq<Row>, rest: seq<Row>, v: Viewer)
    ensures Finalized(top, v) <= Finalized(top + rest, v)
  {
    FilterSplits(top, rest, NotBlocked(v.blocks, v.id));
  }

  lemma SliceWithinFront(top: seq<Row>, rest: seq<Row>, v: Viewer, q: Query)
    requires |Filter(top, NotBlocked(v.blocks, v.id))| >= q.skip + q.limit
    ensures Slice(Finalized(top + rest, v), q) == Slice(Finalized(top, v), q)
  {
    FinalizedFront(top, rest, v);
    SliceWithin(Finalized(top, v), Finalized(top + rest, v), q);
  }

  /** A slice within what survives of a common prefix does not depend on what follows it. */
  lemma SliceOfPrefix(m: seq<Row>, m': seq<Row>, k: nat, v: Viewer, q: Query)
    requires Take(m, k) == Take(m', k)
    requires var top := Take(m', k);
             |top| - |Filter(top, NotBlocked(v.blocks, v.id))| + q.skip + q.limit <= k
    ensures Slice(Finalized(m, v), q) == Slice(Finalized(m', v), q)
  {
    if |m'| < k {
      assert m == m';
    } else {
      var top := m'[..k];
      assert |m| >= k && m == top + m[k..] && m' == top + m'[k..];
      SliceWithinFront(top, m[k..], v, q);
      SliceWithinFront(top, m'[k..], v, q);
    }
  }

  // ----- main results ---------------------------------------------------------------------

  /** The page is the requested window of the whole inbox when, for some count n within the cap, the
      newest n rows hold the window besides the blocked ones and no query loses one of them. */
  lemma PageIsWindowOfWholeInbox(f: Feeds, v: Viewer, q: Query, n: nat)
    requires FromOneTable(f) && n <= FetchCap(q) && ScansSuffice(f, FetchCap(q), n)
    requires q.skip + q.limit + Dropped(f, v, n) <= n
    ensures Page(f, v, q) == Slice(WholeInbox(f, v), q)
  {
    FetchedCovers(f, FetchCap(q), n);
    SliceOfPrefix(Sort(Fetched(f, FetchCap(q)), NEWEST), WholeMerge(f), n, v, q);
  }

  ghost predicate PageIsExact(f: Feeds, v: Viewer, q: Query) {
    Page(f, v, q) == Slice(WholeInbox(f, v), q)
  }

  /** The rows a page depends on when at most `blocked` of them are blocked. */
  function Need(q: Query, blocked: nat): nat {
    q.skip + q.limit + blocked
  }

  /** The page is right for every store that loses none of those rows and has at most `blocked`
      blocked ones among them. */
  ghost predicate AlwaysExact(q: Query, blocked: nat) {
    forall f, v :: FromOneTable(f) && ScansSuffice(f, FetchCap(q), Need(q, blocked)) && Dropped(f, v, Need(q, blocked)) <= blocked
      ==> PageIsExact(f, v, q)
  }

  function Plain(kind: string): Row {
    Row(Number(1), None, kind, Alert, 0, "", None, None)
  }

  ghost function Copies(n: nat, kind: string): seq<Row> {
    seq(n, _ => Plain(kind))
  }

  /** A store with `b` blocked rows followed by `n` others, all of one instant. */
  ghost function CrowdedFeeds(b: nat, n: nat): Feeds {
    var none := Scan([], _ => true);
    Feeds(Copies(b, "PA") + Copies(n, "SERVICE"), none, none, none, none, none, false)
  }

  const MUTES_PA := Viewer(1, [Block(1, None, Some("PA"))], [])

  lemma {:induction false} FilterCopies(n: nat, kind: string, p: Row -> bool)
    ensures Filter(Copies(n, kind), p) == if p(Plain(kind)) then Copies(n, kind) else []
  {
    if n > 0 {
      assert Copies(n, kind)[..n - 1] == Copies(n - 1, kind);
      assert Copies(n, kind) == Copies(n - 1, kind) + [Plain(kind)];
      FilterCopies(n - 1, kind, p);
    }
  }

  lemma {:induction false} SortOfOneInstant(s: seq<Row>)
    requires forall i :: 0 <= i < |s| ==> s[i].createdAt == 0
    ensures Sort(s, NEWEST) == s
  {
    if s != [] {
      SortOfOneInstant(s[1..]);
    }
  }

  /** What the viewer who mutes PA sees of a prefix of the crowded store. */
  lemma CrowdedPrefix(b: nat, n: nat, k: nat)
    ensures var rows, p := Take(Copies(b, "PA") + Copies(n, "SERVICE"), k), NotBlocked(MUTES_PA.blocks, 1);
            |Filter(rows, p)| == if k <= b then 0 else Min(k, b + n) - b
  {
    var p := NotBlocked(MUTES_PA.blocks, 1);
    var b', n' := Min(k, b), if k <= b then 0 else Min(k, b + n) - b;
    assert Take(Copies(b, "PA") + Copies(n, "SERVICE"), k) == Copies(b', "PA") + Copies(n', "SERVICE");
    FilterSplits(Copies(b', "PA"), Copies(n', "SERVICE"), p);
    FilterCopies(b', "PA", p);
    FilterCopies(n', "SERVICE", p);
    assert RuleMatches(MUTES_PA.blocks[0], 1, None, "PA");
    assert !p(Plain("PA")) && p(Plain("SERVICE"));
  }

  lemma InboxAlone(f: Feeds, k: nat, n: nat)
    requires f.permission.rows == f.requests.rows == f.grants.rows == f.chat.rows == f.geo.rows == []
    ensures Fetched(f, k) == Take(f.inbox, k) && Concat(WholeFeeds(f)) == f.inbox && ScansSuffice(f, k, n)
  {
    assert WholeFeeds(f) == [f.inbox, [], [], [], [], []];
    ConcatOfSix(f.inbox, [], [], [], [], []);
  }

  lemma CrowdedMerge(b: nat, n: nat, k: nat, need: nat)
    ensures var f := CrowdedFeeds(b, n);
            FromOneTable(f) && ScansSuffice(f, k, need)
            && Sort(Fetched(f, k), NEWEST) == Take(f.inbox, k) && WholeMerge(f) == f.inbox
  {
    var f := CrowdedFeeds(b, n);
    InboxAlone(f, k, need);
    SortOfOneInstant(f.inbox);
    SortOfOneInstant(Take(f.inbox, k));
  }

  lemma CrowdedWhole(b: nat, n: nat)
    ensures WholeMerge(CrowdedFeeds(b, n)) == CrowdedFeeds(b, n).inbox
  {
    CrowdedMerge(b, n, 0, 0);
  }

  lemma SliceLength<T>(s: seq<T>, q: Query)
    ensures |Slice(s, q)| == Max(0, Min(|s|, q.skip + q.limit) - q.skip)
  {
  }

  lemma CrowdedPage(b: nat, n: nat, q: Query)
    requires b <= FetchCap(q)
    ensures |Page(CrowdedFeeds(b, n), MUTES_PA, q)| <= Max(0, FetchCap(q) - b - q.skip)
  {
    var rows := CrowdedFeeds(b, n).inbox;
    CrowdedMerge(b, n, FetchCap(q), 0);
    CrowdedPrefix(b, n, FetchCap(q));
    SliceLength(Finalized(Take(rows, FetchCap(q)), MUTES_PA), q);
  }

  lemma CrowdedInbox(b: nat, n: nat)
    ensures |WholeInbox(CrowdedFeeds(b, n), MUTES_PA)| == n
  {
    var rows := CrowdedFeeds(b, n).inbox;
    CrowdedWhole(b, n);
    CrowdedPrefix(b, n, b + n);
    assert Take(rows, b + n) == rows;
  }

  lemma CrowdedDrops(b: nat, n: nat, k: nat)
    requires b <= k
    ensures Dropped(CrowdedFeeds(b, n), MUTES_PA, k) <= b
  {
    CrowdedWhole(b, n);
    CrowdedPrefix(b, n, k);
    assert |Take(CrowdedFeeds(b, n).inbox, k)| == Min(k, b + n);
  }

  lemma ShortPageIsWrong(f: Feeds, v: Viewer, q: Query, length: nat)
    requires |Page(f, v, q)| < length && |WholeInbox(f, v)| >= q.skip + q.limit && length <= q.limit
    ensures !PageIsExact(f, v, q)
  {
    SliceLength(WholeInbox(f, v), q);
  }

  lemma OneWrongPage(f: Feeds, v: Viewer, q: Query, blocked: nat)
    requires FromOneTable(f) && ScansSuffice(f, FetchCap(q), Need(q, blocked)) && Dropped(f, v, Need(q, blocked)) <= blocked
    requires !PageIsExact(f, v, q)
    ensures !AlwaysExact(q, blocked)
  {
  }

  lemma ShortFeedsAreWrong(f: Feeds, v: Viewer, q: Query, b: nat)
    requires q.limit >= 1 && b <= FetchCap(q) < q.skip + q.limit + b
    requires |Page(f, v, q)| <= Max(0, FetchCap(q) - b - q.skip) && |WholeInbox(f, v)| == q.skip + q.limit
    ensures !PageIsExact(f, v, q)
  {
    ShortPageIsWrong(f, v, q, q.limit);
  }

  /** A store with that many blocked rows whose page is short. */
  lemma CrowdedStore(b: nat, q: Query, k: nat, need: nat) returns (f: Feeds)
    requires q.limit >= 1 && b <= FetchCap(q) < q.skip + q.limit + b && b <= need
    ensures FromOneTable(f) && ScansSuffice(f, k, need) && Dropped(f, MUTES_PA, need) <= b
    ensures |Page(f, MUTES_PA, q)| <= Max(0, FetchCap(q) - b - q.skip) && |WholeInbox(f, MUTES_PA)| == q.skip + q.limit
  {
    var n := q.skip + q.limit;
    f := CrowdedFeeds(b, n);
    CrowdedMerge(b, n, k, need);
    CrowdedDrops(b, n, need);
    CrowdedPage(b, n, q);
    CrowdedInbox(b, n);
  }

  /** When the cap is too small, some store with that many blocked rows yields a short page. */
  lemma CapTooSmall(q: Query, blocked: nat)
    requires q.limit >= 1 && Need(q, blocked) > FetchCap(q)
    ensures !AlwaysExact(q, blocked)
  {
    var b := Min(FetchCap(q), blocked);
    var f := CrowdedStore(b, q, FetchCap(q), Need(q, blocked));
    ShortFeedsAreWrong(f, MUTES_PA, q, b);
    OneWrongPage(f, MUTES_PA, q, blocked);
  }

  ghost function GrantRow(i: nat): Row {
    Plain("PERMISSION").(id := Uuid(seq(i, _ => 'a')))
  }

  /** n grants to the owner, all of one instant, and nothing else. */
  ghost function ManyGrants(n: nat): Feeds {
    var none := Scan([], _ => true);
    Feeds([], none, none, Scan(seq(n, i requires 0 <= i < n => GrantRow(i)), _ => true), none, none, false)
  }

  lemma GrantsAreDistinct(n: nat)
    ensures Distinct(ManyGrants(n).grants.rows)
  {
    var rows := ManyGrants(n).grants.rows;
    forall i, j | 0 <= i < j < n
      ensures rows[i].id != rows[j].id
    {
      assert |GrantRow(i).id.s| == i && |GrantRow(j).id.s| == j;
    }
  }

  lemma DistinctNamesOne(rows: seq<Row>, x: Row, y: Row)
    requires Distinct(rows) && x in rows && y in rows && x.id == y.id
    ensures x == y
  {
    var i :| 0 <= i < |rows| && rows[i] == x;
    var j :| 0 <= j < |rows| && rows[j] == y;
    assert i == j;
  }

  ghost predicate OnlyGrants(f: Feeds) {
    f.inbox == f.permission.rows == f.requests.rows == f.chat.rows == f.geo.rows == []
    && forall x :: x in f.grants.rows ==> f.grants.visible(x)
  }

  lemma GrantsAreOneTable(f: Feeds)
    requires OnlyGrants(f) && Distinct(f.grants.rows) && Descending(f.grants.rows, NEWEST)
    ensures FromOneTable(f)
  {
    assert EventRows(f) == f.grants.rows;
    forall x, y | x in f.grants.rows && y in f.grants.rows && x.id == y.id
      ensures x == y
    {
      DistinctNamesOne(f.grants.rows, x, y);
    }
  }

  /** A feed of grants alone, all of them wanted: 200 are listed. */
  lemma GrantsListed(f: Feeds, maxScan: int)
    requires OnlyGrants(f) && maxScan >= 200
    ensures PermissionFeed(f, maxScan) == Take(f.grants.rows, 200)
    ensures WholeZones(f) == WholeRequests(f) == [] && WholeGrants(f) == f.grants.rows
  {
    var none: seq<Row> := [];
    assert none + none == none;
    FilterAll(Take(f.grants.rows, 200), Unseen([], f.grants.visible));
    FilterAll(f.grants.rows, Unseen([], f.grants.visible));
  }

  lemma GrantsFetched(f: Feeds, k: nat)
    requires OnlyGrants(f)
    ensures Fetched(f, k) == Take(f.grants.rows, 200)
  {
    GrantsListed(f, k + 250);
    assert ChatFeed(f, k + 250) == [] && ScanFeed(f.geo, k + 250) == [] && Take(f.inbox, k) == [];
  }

  lemma GrantsMerged(f: Feeds)
    requires OnlyGrants(f)
    ensures WholeMerge(f) == Sort(f.grants.rows, NEWEST)
  {
    var none: seq<Row> := [];
    GrantsListed(f, 200);
    assert Filter(f.chat.rows, f.chat.visible) == none && Filter(f.geo.rows, f.geo.visible) == none;
    ConcatOfSix([], [], [], f.grants.rows, [], []);
    assert none + none + none + f.grants.rows + (none + none) == f.grants.rows;
    assert WholeFeeds(f) == [none, none, none, f.grants.rows, none, none];
  }

  lemma NothingBlocked(rows: seq<Row>, viewer: int, q: Query)
    requires forall i :: 0 <= i < |rows| ==> rows[i].createdAt == 0
    ensures |Slice(Finalized(Sort(rows, NEWEST), Viewer(viewer, [], [])), q)| == Max(0, Min(|rows|, q.skip + q.limit) - q.skip)
  {
    SortOfOneInstant(rows);
    FilterAll(rows, NotBlocked([], viewer));
    SliceLength(Finalized(rows, Viewer(viewer, [], [])), q);
  }

  lemma GrantsLost(f: Feeds, viewer: int)
    requires OnlyGrants(f) && |f.grants.rows| > 200
    requires forall i :: 0 <= i < |f.grants.rows| ==> f.grants.rows[i].createdAt == 0
    ensures !PageIsExact(f, Viewer(viewer, [], []), Query(200, 1))
  {
    var q := Query(200, 1);
    GrantsFetched(f, FetchCap(q));
    GrantsMerged(f);
    NothingBlocked(f.grants.rows, viewer, q);
    NothingBlocked(Take(f.grants.rows, 200), viewer, q);
  }

  /** The grants query stops at 200 rows whatever the page asks for: of more than 200 grants the
      older ones are never shown, even on the page that should start with them. */
  lemma OlderGrantsAreLost(n: nat, viewer: int)
    requires n > 200
    ensures FromOneTable(ManyGrants(n)) && !PageIsExact(ManyGrants(n), Viewer(viewer, [], []), Query(200, 1))
  {
    var f, q := ManyGrants(n), Query(200, 1);
    GrantsAreDistinct(n);
    GrantsAreOneTable(f);
    GrantsLost(f, viewer);
  }

  // ----- hidden rows in front of a visible one -----------------------------------------------

  /** n events of other owners, then an older one that the viewer may see. */
  ghost function HiddenFeeds(n: nat): Feeds {
    var none := Scan([], _ => true);
    Feeds([], none, none, none, none, Scan(Copies(n, "PANIC") + Copies(1, "SERVICE"), (r: Row) => r.kind == "SERVICE"), false)
  }

  lemma GeoAlone(f: Feeds, k: nat)
    requires f.inbox == f.permission.rows == f.requests.rows == f.grants.rows == f.chat.rows == [] && !f.mergeChat
    ensures Fetched(f, k) == ScanFeed(f.geo, k + 250) && WholeMerge(f) == Sort(Filter(f.geo.rows, f.geo.visible), NEWEST)
  {
    var none: seq<Row> := [];
    var geo := Filter(f.geo.rows, f.geo.visible);
    assert WholeFeeds(f) == [none, none, none, none, none, geo];
    ConcatOfSix([], [], [], [], [], geo);
    assert none + none + none + none + (none + geo) == geo;
  }

  lemma HiddenScan(n: nat, k: nat)
    requires k + 250 <= 8000 && n >= k + 250
    ensures var scan := HiddenFeeds(n).geo;
            ScanFeed(scan, k + 250) == [] && Filter(scan.rows, scan.visible) == Copies(1, "SERVICE")
  {
    var scan, m := HiddenFeeds(n).geo, ScanLimit(k + 250);
    assert Take(scan.rows, m) == Copies(m, "PANIC");
    FilterCopies(m, "PANIC", scan.visible);
    FilterSplits(Copies(n, "PANIC"), Copies(1, "SERVICE"), scan.visible);
    FilterCopies(n, "PANIC", scan.visible);
    FilterCopies(1, "SERVICE", scan.visible);
  }

  lemma HiddenScanFails(n: nat, k: nat, need: nat)
    requires 1 <= need && k + 250 <= 8000 && n >= k + 250
    ensures FromOneTable(HiddenFeeds(n)) && !ScansSuffice(HiddenFeeds(n), k, need)
    ensures OnlyOneVisible(HiddenFeeds(n), k)
  {
    HiddenScan(n, k);
    ScanCovers(HiddenFeeds(n).geo, k, need);
  }

  ghost predicate OnlyOneVisible(f: Feeds, k: nat) {
    f.inbox == f.permission.rows == f.requests.rows == f.grants.rows == f.chat.rows == [] && !f.mergeChat
    && ScanFeed(f.geo, k + 250) == [] && Filter(f.geo.rows, f.geo.visible) == Copies(1, "SERVICE")
  }

  lemma HiddenPage(f: Feeds, viewer: int, q: Query)
    requires OnlyOneVisible(f, FetchCap(q)) && q.skip == 0 && q.limit >= 1
    ensures !PageIsExact(f, Viewer(viewer, [], []), q)
  {
    GeoAlone(f, FetchCap(q));
    NothingBlocked([], viewer, q);
    NothingBlocked(Copies(1, "SERVICE"), viewer, q);
  }

  /** The geo scan reads the newest events of all owners: once more than the cap and the slack of
      them are hidden, the first page misses the visible one behind them, though nothing is blocked. */
  lemma HiddenEventsLoseRows(n: nat, viewer: int, q: Query)
    requires q.skip == 0 && q.limit >= 1 && n >= FetchCap(q) + 250
    ensures FromOneTable(HiddenFeeds(n)) && !ScansSuffice(HiddenFeeds(n), FetchCap(q), q.limit)
    ensures !PageIsExact(HiddenFeeds(n), Viewer(viewer, [], []), q)
  {
    HiddenScanFails(n, FetchCap(q), q.limit);
    HiddenPage(HiddenFeeds(n), viewer, q);
  }

  /** Exactly when a page can be trusted: the cap must hold the window plus the blocked rows. */
  lemma PageExactIff(q: Query, blocked: nat)
    requires q.limit >= 1
    ensures AlwaysExact(q, blocked) <==> Need(q, blocked) <= FetchCap(q)
  {
    if Need(q, blocked) <= FetchCap(q) {
      forall f, v | FromOneTable(f) && ScansSuffice(f, FetchCap(q), Need(q, blocked)) && Dropped(f, v, Need(q, blocked)) <= blocked
        ensures PageIsExact(f, v, q)
      {
        PageIsWindowOfWholeInbox(f, v, q, Need(q, blocked));
      }
    } else {
      CapTooSmall(q, blocked);
    }
  }

  // ----- how many hidden rows a page stands ------------------------------------------------------

  /** A scan with at most this many hidden rows serves the newest n, wherever they lie. */
  ghost predicate StandsHidden(k: nat, n: nat, hidden: int) {
    forall scan: Scan :: Descending(scan.rows, NEWEST) && Hidden(scan, k + 250) <= hidden ==> ScanSuffices(scan, k, n)
  }

  /** h hidden rows, then enough visible ones to go past the cut, all of one instant. */
  ghost function PartlyHidden(h: nat, more: nat): Scan {
    Scan(Copies(h, "PANIC") + Copies(more, "SERVICE"), (r: Row) => r.kind == "SERVICE")
  }

  lemma PartlyHiddenScan(h: nat, more: nat, k: nat)
    requires h <= ScanLimit(k + 250) < h + more
    ensures var scan := PartlyHidden(h, more);
            Hidden(scan, k + 250) == h && |ScanFeed(scan, k + 250)| == ScanLimit(k + 250) - h
  {
    var scan, m := PartlyHidden(h, more), ScanLimit(k + 250);
    assert Take(scan.rows, m) == Copies(h, "PANIC") + Copies(m - h, "SERVICE");
    FilterSplits(Copies(h, "PANIC"), Copies(m - h, "SERVICE"), scan.visible);
    FilterCopies(h, "PANIC", scan.visible);
    FilterCopies(m - h, "SERVICE", scan.visible);
  }

  /** A scan stands exactly the rows it reads beyond the n it has to serve: the cap's room and the
      slack of 250. */
  lemma StandsHiddenIff(k: nat, n: nat, hidden: nat)
    requires n >= 1
    ensures StandsHidden(k, n, hidden) <==> hidden + n <= ScanLimit(k + 250)
  {
    var m := ScanLimit(k + 250);
    if hidden + n > m {
      var h := Min(hidden, m);
      var scan := PartlyHidden(h, m - h + 1);
      PartlyHiddenScan(h, m - h + 1, k);
      assert scan.visible(scan.rows[m]);
      assert !ScanSuffices(scan, k, n);
    }
  }

  ghost predicate HidesAtMost(f: Feeds, k: nat, hidden: nat) {
    Hidden(f.permission, k + 250) <= hidden && Hidden(OtherRequests(f), k + 250) <= hidden
    && Hidden(f.chat, k + 250) <= hidden && Hidden(f.geo, k + 250) <= hidden
  }

  /** A page with at most `blocked` blocked rows is right when every scan hides at most what the cap
      and its slack leave over, and there are no more than 200 grants. */
  lemma PageWithFewHidden(f: Feeds, v: Viewer, q: Query, blocked: nat, hidden: nat)
    requires FromOneTable(f) && Need(q, blocked) <= FetchCap(q) && Dropped(f, v, Need(q, blocked)) <= blocked
    requires hidden + Need(q, blocked) <= FetchCap(q) + 250 && |f.grants.rows| <= 200
    requires HidesAtMost(f, FetchCap(q), hidden)
    ensures PageIsExact(f, v, q)
  {
    PageIsWindowOfWholeInbox(f, v, q, Need(q, blocked));
  }

  /** In plain numbers: the hard ceiling of 2500 rows, and 128 rows of room for blocked ones
      (more on a large first page). */
  lemma CapInNumbers(q: Query, blocked: nat)
    ensures Need(q, blocked) <= FetchCap(q)
            <==> q.skip + q.limit + blocked <= 2500 && (blocked <= 128 || q.skip + blocked <= q.limit)
  {
  }

  lemma TakeGrows<T>(s: seq<T>, n: nat, limit: nat)
    ensures Take(s, n + limit) == Take(s, n) + Slice(s, Query(n, limit))
  {
  }

  /** i * limit */
  function Offset(i: nat, limit: nat): nat {
    if i == 0 then 0 else Offset(i - 1, limit) + limit
  }

  function NthPage(i: nat, limit: nat): Query {
    Query(Offset(i, limit), limit)
  }

  ghost predicate CapCovers(f: Feeds, v: Viewer, q: Query) {
    exists n: nat :: n <= FetchCap(q) && ScansSuffice(f, FetchCap(q), n) && q.skip + q.limit + Dropped(f, v, n) <= n
  }

  /** The pages 0..n-1, one after the other. */
  ghost function Joined<T>(pageOf: nat -> seq<T>, n: nat): seq<T> {
    if n == 0 then [] else Joined(pageOf, n - 1) + pageOf(n - 1)
  }

  ghost function InboxPages(f: Feeds, v: Viewer, limit: nat): nat -> seq<Row> {
    (i: nat) => Page(f, v, NthPage(i, limit))
  }

  lemma {:induction false} WindowsTile<T>(pageOf: nat -> seq<T>, limit: nat, n: nat, whole: seq<T>)
    requires forall i :: 0 <= i < n ==> pageOf(i) == Slice(whole, NthPage(i, limit))
    ensures Joined(pageOf, n) == Take(whole, Offset(n, limit))
  {
    if n > 0 {
      WindowsTile(pageOf, limit, n - 1, whole);
      TakeGrows(whole, Offset(n - 1, limit), limit);
    }
  }

  /** Reading page after page walks the whole inbox with no gap and no repeat, although every page
      fetches with a different cap. */
  lemma PagesTile(f: Feeds, v: Viewer, limit: nat, n: nat)
    requires FromOneTable(f)
    requires forall i :: 0 <= i < n ==> CapCovers(f, v, NthPage(i, limit))
    ensures Joined(InboxPages(f, v, limit), n) == Take(WholeInbox(f, v), Offset(n, limit))
  {
    forall i | 0 <= i < n
      ensures InboxPages(f, v, limit)(i) == Slice(WholeInbox(f, v), NthPage(i, limit))
    {
      var q := NthPage(i, limit);
      assert CapCovers(f, v, q);
      var need: nat :| need <= FetchCap(q) && ScansSuffice(f, FetchCap(q), need) && q.skip + q.limit + Dropped(f, v, need) <= need;
      PageIsWindowOfWholeInbox(f, v, q, need);
    }
    WindowsTile(InboxPages(f, v, limit), limit, n, WholeInbox(f, v));
  }
}

/** What the inbox holds, row by row: which feed rows, which of them the viewer keeps, with which receipts. */
module InboxContents {
  import opened Options
  import opened Lists
  import opened StableSort
  import opened Inbox

  // ----- read receipts --------------------------------------------------------------------

  /** Receipts are read in their order, each for its own event. */
  lemma {:induction false} ReadersSplit(a: seq<Receipt>, b: seq<Receipt>, eventId: string)
    ensures Readers(a + b, eventId) == Readers(a, eventId) + Readers(b, eventId)
  {
    if b == [] {
      assert a + b == a;
    } else {
      var front := b[..|b| - 1];
      assert (a + b)[..|a + b| - 1] == a + front;
      ReadersSplit(a, front, eventId);
    }
  }

  lemma OneReceipt(r: Receipt, eventId: string)
    ensures Readers([], eventId) == []
    ensures Readers([r], eventId) == if r.eventId == eventId then [r.reader] else []
  {
    assert [r][..0] == [];
  }

  lemma {:induction false} ReaderIff(receipts: seq<Receipt>, eventId: string, reader: int)
    ensures reader in Readers(receipts, eventId) <==> Receipt(eventId, reader) in receipts
  {
    if receipts != [] {
      var front, last := receipts[..|receipts| - 1], receipts[|receipts| - 1];
      assert receipts == front + [last];
      ReaderIff(front, eventId, reader);
    }
  }

  /** The row as the viewer gets it: alarm events of the zone log carry exactly their readers and
      whether the viewer is one, nothing else is touched. */
  ghost predicate ShownAs(row: Row, out: Row, viewer: int, receipts: seq<Receipt>) {
    if row.category == Alarm && row.id.Uuid? then
      out == row.(readBy := out.readBy, isReadByViewer := Some(Receipt(row.id.s, viewer) in receipts))
      && out.readBy.Some? && forall o :: o in out.readBy.value <==> Receipt(row.id.s, o) in receipts
    else out == row
  }

  lemma RowIsShown(row: Row, viewer: int, receipts: seq<Receipt>)
    ensures ShownAs(row, WithReads(row, viewer, receipts), viewer, receipts)
  {
    if TracksReads(row) {
      forall o
        ensures o in Readers(receipts, row.id.s) <==> Receipt(row.id.s, o) in receipts
      {
        ReaderIff(receipts, row.id.s, o);
      }
    }
  }

  /** Enrichment keeps number and order of the rows. */
  lemma EnrichedRowsAre(rows: seq<Row>, viewer: int, receipts: seq<Receipt>)
    ensures var out := AllWithReads(rows, viewer, receipts);
            |out| == |rows| && forall i :: 0 <= i < |rows| ==> ShownAs(rows[i], out[i], viewer, receipts)
  {
    forall i | 0 <= i < |rows|
      ensures ShownAs(rows[i], AllWithReads(rows, viewer, receipts)[i], viewer, receipts)
    {
      RowIsShown(rows[i], viewer, receipts);
    }
  }

  // ----- the permission feed --------------------------------------------------------------

  /** A zone event of the owner among the first n. */
  ghost predicate IsZoneEvent(f: Feeds, n: nat, row: Row) {
    row in Take(f.permission.rows, n) && f.permission.visible(row)
  }

  /** A request among the first n that no such zone event repeats. */
  ghost predicate IsRequest(f: Feeds, n: nat, row: Row) {
    row in Take(f.requests.rows, n) && f.requests.visible(row) && !exists z :: IsZoneEvent(f, n, z) && z.id == row.id
  }

  /** A grant among the first g that neither repeats. */
  ghost predicate IsGrant(f: Feeds, n: nat, g: nat, row: Row) {
    row in Take(f.grants.rows, g) && f.grants.visible(row)
    && !(exists z :: IsZoneEvent(f, n, z) && z.id == row.id) && !(exists z :: IsRequest(f, n, z) && z.id == row.id)
  }

  /** The feed lists each of them, events first, with at most 8000 rows read of the first two queries
      and 200 of the third. */
  lemma PermissionFeedIs(f: Feeds, maxScan: int)
    ensures var n := if maxScan < 1 then 1 else if maxScan > 8000 then 8000 else maxScan;
            var g := if maxScan < 1 then 1 else if maxScan > 200 then 200 else maxScan;
            var zones := ScanFeed(f.permission, maxScan);
            var asked := RequestFeed(f, maxScan, zones);
            var granted := GrantFeed(f, maxScan, zones + asked);
            PermissionFeed(f, maxScan) == zones + asked + granted
            && (forall row :: row in zones <==> IsZoneEvent(f, n, row))
            && (forall row :: row in asked <==> IsRequest(f, n, row))
            && (forall row :: row in granted <==> IsGrant(f, n, g, row))
  {
    var zones := ScanFeed(f.permission, maxScan);
    var asked := RequestFeed(f, maxScan, zones);
    FilterHas(Take(f.permission.rows, ScanLimit(maxScan)), f.permission.visible);
    FilterHas(Take(f.requests.rows, ScanLimit(maxScan)), Unseen(zones, f.requests.visible));
    FilterHas(Take(f.grants.rows, GrantLimit(maxScan)), Unseen(zones + asked, f.grants.visible));
  }

  // ----- the whole inbox ------------------------------------------------------------------

  /** Some feed of the owner lists the row. */
  ghost predicate Listed(f: Feeds, row: Row) {
    var n := |f.permission.rows| + |f.requests.rows|;
    row in f.inbox || IsZoneEvent(f, n, row) || IsRequest(f, n, row) || IsGrant(f, n, |f.grants.rows|, row)
    || (f.mergeChat && row in f.chat.rows && f.chat.visible(row)) || (row in f.geo.rows && f.geo.visible(row))
  }

  /** One of the viewer's own rules names the sender, or nobody, and the kind, or none. */
  ghost predicate Muted(v: Viewer, row: Row) {
    exists rule :: rule in v.blocks && rule.owner == v.id
                   && (rule.blockedSender.Some? ==> rule.blockedSender == row.sender && row.sender.value > 0)
                   && (rule.blockedKind.Some? ==> rule.blockedKind == Some(row.kind))
  }

  lemma WholePermissionIs(f: Feeds, row: Row)
    ensures var n := |f.permission.rows| + |f.requests.rows|;
            && (row in WholeZones(f) <==> IsZoneEvent(f, n, row))
            && (row in WholeRequests(f) <==> IsRequest(f, n, row))
            && (row in WholeGrants(f) <==> IsGrant(f, n, |f.grants.rows|, row))
  {
    FilterHas(f.permission.rows, f.permission.visible);
    FilterHas(f.requests.rows, OtherRequests(f).visible);
    FilterHas(f.grants.rows, Unseen(WholeZones(f) + WholeRequests(f), f.grants.visible));
    var n := |f.permission.rows| + |f.requests.rows|;
    assert forall x :: x in WholeZones(f) <==> IsZoneEvent(f, n, x);
    assert forall x :: x in WholeRequests(f) <==> IsRequest(f, n, x);
  }

  lemma MergeLists(f: Feeds, row: Row)
    ensures row in WholeMerge(f) <==> Listed(f, row)
  {
    SortHas(Concat(WholeFeeds(f)), NEWEST, row);
    ConcatOfSix(f.inbox, WholeZones(f), WholeRequests(f), WholeGrants(f), WholeChat(f), Filter(f.geo.rows, f.geo.visible));
    WholePermissionIs(f, row);
    FilterHas(f.chat.rows, f.chat.visible);
    FilterHas(f.geo.rows, f.geo.visible);
  }

  /** The whole inbox holds exactly the listed rows that are not muted, with their receipts. */
  lemma WholeInboxHolds(f: Feeds, v: Viewer, out: Row)
    ensures out in WholeInbox(f, v)
            <==> exists row :: Listed(f, row) && !Muted(v, row) && out == WithReads(row, v.id, v.receipts)
  {
    var merged := WholeMerge(f);
    var kept := VisibleRows(merged, v.id, v.blocks);
    FilterHas(merged, NotBlocked(v.blocks, v.id));
    forall row
      ensures row in kept <==> Listed(f, row) && !Muted(v, row)
    {
      MergeLists(f, row);
    }
    var all := AllWithReads(kept, v.id, v.receipts);
    if out in all {
      var i :| 0 <= i < |all| && all[i] == out;
      assert kept[i] in kept && out == WithReads(kept[i], v.id, v.receipts);
    }
    if row :| Listed(f, row) && !Muted(v, row) && out == WithReads(row, v.id, v.receipts) {
      var i :| 0 <= i < |kept| && kept[i] == row;
      assert all[i] == out;
    }
  }
}

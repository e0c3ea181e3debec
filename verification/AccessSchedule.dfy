/** Guest schedules: create, accept, reject, revoke, and the event log written beside the rows. */
module AccessSchedule {
  import opened Options
  import opened Text
  import opened Lists

  datatype Role = Administrator | User

  datatype Owner = Owner(id: int, zoneId: string, role: Role, active: bool)

  datatype Status = PENDING | ACCEPTED | REJECTED | REVOKED

  datatype Code = SCHEDULE_CREATED | SCHEDULE_ACCEPTED | SCHEDULE_REJECTED | SCHEDULE_REVOKED

  datatype Schedule = Schedule(zoneId: string, eventId: Option<string>, guestId: Option<string>, guestName: Option<string>,
                               status: Status, active: bool, createdBy: int, reviewedBy: Option<int>)

  /** A zone message event of the schedule lifecycle, with the row values it recorded. */
  datatype Event = Event(scheduleId: int, zoneId: string, code: Code, status: Status, reviewedBy: Option<int>,
                         sender: int, receiver: int, delivered: seq<int>)

  datatype Request = Request(zoneId: string, eventId: string, guestId: string, guestName: string)

  datatype ScheduleError = ZoneRequired | Forbidden | UnknownZone | NotFound | InvalidStatus

  datatype Result = Ok(id: int, delivered: seq<int>) | Error(error: ScheduleError)

  type Owners = map<int, Owner>

  // ----- membership and recipients --------------------------------------------------------

  predicate IsZoneMember(owner: Owner, zoneId: string) {
    owner.active && Strip(owner.zoneId) == Strip(zoneId)
  }

  predicate IsZoneAdmin(owner: Owner, zoneId: string) {
    IsZoneMember(owner, zoneId) && owner.role == Administrator
  }

  /** The query compares the stored zone id as it is, without trimming it. */
  function ZoneAdministratorIds(owners: Owners, zoneId: string): set<int> {
    var zid := Strip(zoneId);
    if zid == "" then {}
    else set id | id in owners && owners[id].zoneId == zid && owners[id].role == Administrator && owners[id].active
  }

  /** Who sees the event. The creator is always there, so the branch for an empty set of
      recipients of a new request is never taken. */
  function Recipients(owners: Owners, s: Schedule, code: Code, acting: int): seq<int> {
    var admins := ZoneAdministratorIds(owners, s.zoneId);
    if code == SCHEDULE_CREATED then SortedIds(admins + {s.createdBy})
    else SortedIds({acting} + {s.createdBy} + admins)
  }

  function Sender(s: Schedule, code: Code, acting: int): int {
    if code == SCHEDULE_CREATED then s.createdBy else acting
  }

  /** The first recipient other than the sender, or the sender when there is no other. */
  function FirstOther(ids: seq<int>, sender: int): int {
    if ids == [] then sender else if ids[0] != sender then ids[0] else FirstOther(ids[1..], sender)
  }

  function EventFor(owners: Owners, id: int, s: Schedule, code: Code, acting: int): Event {
    var delivered := Recipients(owners, s, code, acting);
    var sender := Sender(s, code, acting);
    Event(id, s.zoneId, code, s.status, s.reviewedBy, sender, FirstOther(delivered, sender), delivered)
  }

  // ----- one operation --------------------------------------------------------------------

  datatype State = State(rows: map<int, Schedule>, log: seq<Event>, nextId: int)

  const INITIAL := State(map[], [], 1)

  datatype Operation =
    | Create(owner: Owner, request: Request, zoneExists: bool)
    | Accept(owner: Owner, id: int)
    | Reject(owner: Owner, id: int)
    | Revoke(owner: Owner, id: int)

  function NonBlank(raw: string): Option<string> {
    if Strip(raw) == "" then None else Some(Strip(raw))
  }

  function NewSchedule(owner: Owner, r: Request): Schedule {
    var admin := IsZoneAdmin(owner, Strip(r.zoneId));
    Schedule(Strip(r.zoneId), NonBlank(r.eventId), NonBlank(r.guestId), NonBlank(r.guestName),
             if admin then ACCEPTED else PENDING, admin, owner.id, if admin then Some(owner.id) else None)
  }

  /** Stores the row and logs the event that goes with it. */
  function Recorded(s: State, owners: Owners, id: int, row: Schedule, code: Code, acting: int): State {
    State(s.rows[id := row], s.log + [EventFor(owners, id, row, code, acting)], s.nextId)
  }

  function Decided(row: Schedule, status: Status, reviewer: int): Schedule {
    row.(status := status, active := status == ACCEPTED, reviewedBy := Some(reviewer))
  }

  /** The state after the operation, and its answer. */
  function Apply(s: State, owners: Owners, op: Operation): (State, Result) {
    match op
    case Create(owner, request, zoneExists) => Created(s, owners, owner, request, zoneExists)
    case Accept(owner, id) => Decide(s, owners, owner, id, PENDING, ACCEPTED, SCHEDULE_ACCEPTED)
    case Reject(owner, id) => Decide(s, owners, owner, id, PENDING, REJECTED, SCHEDULE_REJECTED)
    case Revoke(owner, id) => Decide(s, owners, owner, id, ACCEPTED, REVOKED, SCHEDULE_REVOKED)
  }

  function OpeningCode(row: Schedule): Code {
    if row.active then SCHEDULE_ACCEPTED else SCHEDULE_CREATED
  }

  function Created(s: State, owners: Owners, owner: Owner, r: Request, zoneExists: bool): (State, Result) {
    if Strip(r.zoneId) == "" then (s, Error(ZoneRequired))
    else if !IsZoneMember(owner, Strip(r.zoneId)) then (s, Error(Forbidden))
    else if !zoneExists then (s, Error(UnknownZone))
    else
      var row := NewSchedule(owner, r);
      var code := OpeningCode(row);
      (Recorded(s.(nextId := s.nextId + 1), owners, s.nextId, row, code, owner.id),
       Ok(s.nextId, Recipients(owners, row, code, owner.id)))
  }

  function Decide(s: State, owners: Owners, owner: Owner, id: int, from: Status, to: Status, code: Code): (State, Result) {
    if id !in s.rows then (s, Error(NotFound))
    else if !IsZoneAdmin(owner, s.rows[id].zoneId) then (s, Error(Forbidden))
    else if s.rows[id].status != from then (s, Error(InvalidStatus))
    else
      var row := Decided(s.rows[id], to, owner.id);
      (Recorded(s, owners, id, row, code, owner.id), Ok(id, Recipients(owners, row, code, owner.id)))
  }

  // ----- the service ----------------------------------------------------------------------

  method BuildSchedule(owner: Owner, request: Request) returns (schedule: Schedule)
    ensures schedule == NewSchedule(owner, request)
  {
    var zid := Strip(request.zoneId);
    var adminCreated := IsZoneAdmin(owner, zid);
    return Schedule(zid, NonBlank(request.eventId), NonBlank(request.guestId), NonBlank(request.guestName),
                    if adminCreated then ACCEPTED else PENDING, adminCreated, owner.id,
                    if adminCreated then Some(owner.id) else None);
  }

  /** The schedule table and the event table. */
  class ScheduleService {
    var rows: map<int, Schedule>
    var log: seq<Event>
    var nextId: int

    function Model(): State
      reads this
    {
      State(rows, log, nextId)
    }

    constructor ()
      ensures Model() == INITIAL
    {
      rows, log, nextId := map[], [], 1;
    }

    method RecordSchedulePermissionZoneEvent(owners: Owners, id: int, code: Code, acting: int) returns (delivered: seq<int>)
      requires id in rows
      modifies this`log
      ensures log == old(log) + [EventFor(owners, id, rows[id], code, acting)]
      ensures delivered == Recipients(owners, rows[id], code, acting)
    {
      delivered := Recipients(owners, rows[id], code, acting);
      var sender := Sender(rows[id], code, acting);
      var i := 0;
      while i < |delivered| && delivered[i] == sender
        invariant i <= |delivered|
        invariant FirstOther(delivered, sender) == FirstOther(delivered[i..], sender)
      {
        i := i + 1;
      }
      var receiver := if i < |delivered| then delivered[i] else sender;
      log := log + [Event(id, rows[id].zoneId, code, rows[id].status, rows[id].reviewedBy, sender, receiver, delivered)];
    }

    method CreateSchedule(owners: Owners, owner: Owner, request: Request, zoneExists: bool) returns (r: Result)
      modifies this
      ensures Model() == Apply(old(Model()), owners, Create(owner, request, zoneExists)).0
      ensures r == Apply(old(Model()), owners, Create(owner, request, zoneExists)).1
    {
      var zid := Strip(request.zoneId);
      if zid == "" {
        return Error(ZoneRequired);
      }
      if !IsZoneMember(owner, zid) {
        return Error(Forbidden);
      }
      if !zoneExists {
        return Error(UnknownZone);
      }
      var schedule := BuildSchedule(owner, request);
      var id := nextId;
      nextId := nextId + 1;
      rows := rows[id := schedule];
      var code := if schedule.active then SCHEDULE_ACCEPTED else SCHEDULE_CREATED;
      var delivered := RecordSchedulePermissionZoneEvent(owners, id, code, owner.id);
      return Ok(id, delivered);
    }

    method AcceptSchedule(owners: Owners, owner: Owner, id: int) returns (r: Result)
      modifies this
      ensures Model() == Apply(old(Model()), owners, Accept(owner, id)).0
      ensures r == Apply(old(Model()), owners, Accept(owner, id)).1
    {
      if id !in rows {
        return Error(NotFound);
      }
      if !IsZoneAdmin(owner, rows[id].zoneId) {
        return Error(Forbidden);
      }
      if rows[id].status != PENDING {
        return Error(InvalidStatus);
      }
      rows := rows[id := rows[id].(status := ACCEPTED, active := true, reviewedBy := Some(owner.id))];
      assert rows[id] == Decided(old(rows)[id], ACCEPTED, owner.id);
      var delivered := RecordSchedulePermissionZoneEvent(owners, id, SCHEDULE_ACCEPTED, owner.id);
      return Ok(id, delivered);
    }

    method RejectSchedule(owners: Owners, owner: Owner, id: int) returns (r: Result)
      modifies this
      ensures Model() == Apply(old(Model()), owners, Reject(owner, id)).0
      ensures r == Apply(old(Model()), owners, Reject(owner, id)).1
    {
      if id !in rows {
        return Error(NotFound);
      }
      if !IsZoneAdmin(owner, rows[id].zoneId) {
        return Error(Forbidden);
      }
      if rows[id].status != PENDING {
        return Error(InvalidStatus);
      }
      rows := rows[id := rows[id].(status := REJECTED, active := false, reviewedBy := Some(owner.id))];
      assert rows[id] == Decided(old(rows)[id], REJECTED, owner.id);
      var delivered := RecordSchedulePermissionZoneEvent(owners, id, SCHEDULE_REJECTED, owner.id);
      return Ok(id, delivered);
    }

    method RevokeSchedule(owners: Owners, owner: Owner, id: int) returns (r: Result)
      modifies this
      ensures Model() == Apply(old(Model()), owners, Revoke(owner, id)).0
      ensures r == Apply(old(Model()), owners, Revoke(owner, id)).1
    {
      if id !in rows {
        return Error(NotFound);
      }
      if !IsZoneAdmin(owner, rows[id].zoneId) {
        return Error(Forbidden);
      }
      if rows[id].status != ACCEPTED {
        return Error(InvalidStatus);
      }
      rows := rows[id := rows[id].(status := REVOKED, active := false, reviewedBy := Some(owner.id))];
      assert rows[id] == Decided(old(rows)[id], REVOKED, owner.id);
      var delivered := RecordSchedulePermissionZoneEvent(owners, id, SCHEDULE_REVOKED, owner.id);
      return Ok(id, delivered);
    }
  }

  // ----- the log as an account of the rows -------------------------------------------------

  /** The status an event code leads to from a status; None is a schedule that does not exist yet,
      and a code that is not allowed there leads nowhere. */
  function Next(from: Option<Status>, code: Code): Option<Status> {
    match (from, code)
    case (None, SCHEDULE_CREATED) => Some(PENDING)
    case (None, SCHEDULE_ACCEPTED) => Some(ACCEPTED)
    case (Some(PENDING), SCHEDULE_ACCEPTED) => Some(ACCEPTED)
    case (Some(PENDING), SCHEDULE_REJECTED) => Some(REJECTED)
    case (Some(ACCEPTED), SCHEDULE_REVOKED) => Some(REVOKED)
    case _ => None
  }

  /** The log entries of one schedule. */
  ghost function History(log: seq<Event>, id: int): seq<Event> {
    if log == [] then []
    else
      var front, last := History(log[..|log| - 1], id), log[|log| - 1];
      if last.scheduleId == id then front + [last] else front
  }

  /** Replaying a non-empty history step by step ends in `status`, every step being allowed. */
  ghost predicate Replays(history: seq<Event>, status: Status) {
    history != [] &&
    var front, last := history[..|history| - 1], history[|history| - 1];
    if front == [] then Next(None, last.code) == Some(status)
    else exists before :: Replays(front, before) && Next(Some(before), last.code) == Some(status)
  }

  /** The row's columns agree with each other and with what the log says happened. */
  ghost predicate Accounted(row: Schedule, history: seq<Event>) {
    Replays(history, row.status)
    && (row.active <==> row.status == ACCEPTED)
    && (row.reviewedBy == None <==> row.status == PENDING)
    && var last := history[|history| - 1];
       last.status == row.status && last.reviewedBy == row.reviewedBy && last.zoneId == row.zoneId
       && (row.reviewedBy.Some? ==> last.sender == row.reviewedBy.value)
       && (row.reviewedBy.None? ==> last.sender == row.createdBy)
  }

  ghost predicate Invariant(s: State) {
    (forall id :: id in s.rows ==> id < s.nextId && Accounted(s.rows[id], History(s.log, id)))
    && (forall e :: e in s.log ==> e.scheduleId in s.rows)
  }

  lemma {:induction false} NoHistory(log: seq<Event>, id: int)
    requires forall e :: e in log ==> e.scheduleId != id
    ensures History(log, id) == []
  {
    if log != [] {
      NoHistory(log[..|log| - 1], id);
      assert log[|log| - 1] in log;
    }
  }

  lemma HistoryGrows(log: seq<Event>, e: Event, id: int)
    ensures History(log + [e], id) == if e.scheduleId == id then History(log, id) + [e] else History(log, id)
  {
    assert (log + [e])[..|log|] == log;
  }

  lemma ReplaysSnoc(history: seq<Event>, e: Event, before: Status, after: Status)
    requires Replays(history, before) && Next(Some(before), e.code) == Some(after)
    ensures Replays(history + [e], after)
  {
    assert (history + [e])[..|history|] == history;
  }

  lemma DecisionIsAccounted(row: Schedule, history: seq<Event>, owners: Owners, id: int, to: Status, code: Code, reviewer: int)
    requires Accounted(row, history) && Next(Some(row.status), code) == Some(to) && code != SCHEDULE_CREATED
    ensures var row' := Decided(row, to, reviewer);
            Accounted(row', history + [EventFor(owners, id, row', code, reviewer)])
  {
    ReplaysSnoc(history, EventFor(owners, id, Decided(row, to, reviewer), code, reviewer), row.status, to);
  }

  /** Writing one row and its event leaves the account of every other row alone. */
  lemma RecordKeepsInvariant(s: State, owners: Owners, id: int, row: Schedule, code: Code, acting: int)
    requires Invariant(s) && id < s.nextId
    requires Accounted(row, History(s.log, id) + [EventFor(owners, id, row, code, acting)])
    ensures Invariant(Recorded(s, owners, id, row, code, acting))
  {
    var e, s' := EventFor(owners, id, row, code, acting), Recorded(s, owners, id, row, code, acting);
    forall k | k in s'.rows
      ensures k < s'.nextId && Accounted(s'.rows[k], History(s'.log, k))
    {
      HistoryGrows(s.log, e, k);
    }
  }

  lemma DecideKeepsInvariant(s: State, owners: Owners, owner: Owner, id: int, from: Status, to: Status, code: Code)
    requires Invariant(s) && Next(Some(from), code) == Some(to) && code != SCHEDULE_CREATED
    ensures Invariant(Decide(s, owners, owner, id, from, to, code).0)
  {
    if id in s.rows && IsZoneAdmin(owner, s.rows[id].zoneId) && s.rows[id].status == from {
      DecisionIsAccounted(s.rows[id], History(s.log, id), owners, id, to, code, owner.id);
      RecordKeepsInvariant(s, owners, id, Decided(s.rows[id], to, owner.id), code, owner.id);
    }
  }

  lemma CreateKeepsInvariant(s: State, owners: Owners, op: Operation)
    requires Invariant(s) && op.Create?
    ensures Invariant(Apply(s, owners, op).0)
  {
    if Apply(s, owners, op).1.Ok? {
      var row := NewSchedule(op.owner, op.request);
      OpeningIsAccounted(row, owners, s.nextId, op.owner.id);
      NoHistory(s.log, s.nextId);
      RecordKeepsInvariant(s.(nextId := s.nextId + 1), owners, s.nextId, row, OpeningCode(row), op.owner.id);
    }
  }

  lemma OpeningIsAccounted(row: Schedule, owners: Owners, id: int, acting: int)
    requires row.active <==> row.status == ACCEPTED
    requires row.status in {PENDING, ACCEPTED} && row.createdBy == acting
    requires row.reviewedBy == if row.active then Some(acting) else None
    ensures Accounted(row, [] + [EventFor(owners, id, row, OpeningCode(row), acting)])
  {
    var history := [EventFor(owners, id, row, OpeningCode(row), acting)];
    assert [] + history == history;
    assert Replays(history, row.status);
  }

  lemma ApplyKeepsInvariant(s: State, owners: Owners, op: Operation)
    requires Invariant(s)
    ensures Invariant(Apply(s, owners, op).0)
  {
    match op
    case Create(_, _, _) => CreateKeepsInvariant(s, owners, op);
    case Accept(owner, id) => DecideKeepsInvariant(s, owners, owner, id, PENDING, ACCEPTED, SCHEDULE_ACCEPTED);
    case Reject(owner, id) => DecideKeepsInvariant(s, owners, owner, id, PENDING, REJECTED, SCHEDULE_REJECTED);
    case Revoke(owner, id) => DecideKeepsInvariant(s, owners, owner, id, ACCEPTED, REVOKED, SCHEDULE_REVOKED);
  }

  /** A call together with the owner table at that moment; owners may change between calls. */
  datatype Call = Call(owners: Owners, op: Operation)

  function Run(calls: seq<Call>): State {
    if calls == [] then INITIAL
    else
      var last := calls[|calls| - 1];
      Apply(Run(calls[..|calls| - 1]), last.owners, last.op).0
  }

  /** After any sequence of calls on any number of schedules, every row is what its log replays to. */
  lemma {:induction false} LogReplaysToRows(calls: seq<Call>)
    ensures Invariant(Run(calls))
  {
    if calls != [] {
      var last := calls[|calls| - 1];
      LogReplaysToRows(calls[..|calls| - 1]);
      ApplyKeepsInvariant(Run(calls[..|calls| - 1]), last.owners, last.op);
    }
  }

  /** One event about one schedule, and no other row touched. */
  ghost predicate OneEvent(s: State, s': State, r: Result)
    requires r.Ok?
  {
    |s'.log| == |s.log| + 1 && s'.log == s.log + [s'.log[|s.log|]]
    && s'.log[|s.log|].scheduleId == r.id && s'.log[|s.log|].delivered == r.delivered
    && s'.rows.Keys == s.rows.Keys + {r.id}
    && forall k :: k in s.rows && k != r.id ==> s'.rows[k] == s.rows[k]
  }

  /** A refused call leaves the rows and the log as they were; an accepted one adds one event. */
  lemma AnswersMatchEffects(s: State, owners: Owners, op: Operation)
    ensures var (s', r) := Apply(s, owners, op);
            (r.Error? ==> s' == s)
            && (r.Ok? ==> OneEvent(s, s', r))
  {
  }

  ghost function Codes(history: seq<Event>): seq<Code> {
    seq(|history|, i requires 0 <= i < |history| => history[i].code)
  }

  /** The only event sequences that end in each status. */
  function LegalPaths(status: Status): set<seq<Code>> {
    match status
    case PENDING => {[SCHEDULE_CREATED]}
    case ACCEPTED => {[SCHEDULE_ACCEPTED], [SCHEDULE_CREATED, SCHEDULE_ACCEPTED]}
    case REJECTED => {[SCHEDULE_CREATED, SCHEDULE_REJECTED]}
    case REVOKED => {[SCHEDULE_ACCEPTED, SCHEDULE_REVOKED], [SCHEDULE_CREATED, SCHEDULE_ACCEPTED, SCHEDULE_REVOKED]}
  }

  lemma LegalStep(path: seq<Code>, before: Status, code: Code, after: Status)
    requires path in LegalPaths(before) && Next(Some(before), code) == Some(after)
    ensures path + [code] in LegalPaths(after)
  {
    assert [SCHEDULE_CREATED] + [code] == [SCHEDULE_CREATED, code];
    assert [SCHEDULE_ACCEPTED] + [code] == [SCHEDULE_ACCEPTED, code];
    assert [SCHEDULE_CREATED, SCHEDULE_ACCEPTED] + [code] == [SCHEDULE_CREATED, SCHEDULE_ACCEPTED, code];
  }

  /** Every replayable history is one of the paths listed for its final status. */
  lemma {:induction false} OnlyLegalPaths(history: seq<Event>, status: Status)
    requires Replays(history, status)
    ensures Codes(history) in LegalPaths(status)
  {
    var front, last := history[..|history| - 1], history[|history| - 1];
    assert Codes(history) == Codes(front) + [last.code];
    if front != [] {
      var before :| Replays(front, before) && Next(Some(before), last.code) == Some(status);
      OnlyLegalPaths(front, before);
      LegalStep(Codes(front), before, last.code, status);
    } else {
      assert Codes(history) == [last.code];
    }
  }

  lemma AnswerNamesOther(s: State, owners: Owners, op: Operation, id: int)
    requires Apply(s, owners, op).1.Ok? && id in s.rows && id < s.nextId && s.rows[id].status in {REJECTED, REVOKED}
    ensures Apply(s, owners, op).1.id != id
  {
  }

  /** Rejected and revoked schedules never change again, whatever is called. */
  lemma TerminalStaysPut(s: State, owners: Owners, op: Operation, id: int)
    requires Invariant(s) && id in s.rows && s.rows[id].status in {REJECTED, REVOKED}
    ensures var s' := Apply(s, owners, op).0;
            id in s'.rows && s'.rows[id] == s.rows[id] && History(s'.log, id) == History(s.log, id)
  {
    var (s', r) := Apply(s, owners, op);
    AnswersMatchEffects(s, owners, op);
    if r.Ok? {
      AnswerNamesOther(s, owners, op, id);
      HistoryGrows(s.log, s'.log[|s.log|], id);
    }
  }

  // ----- who may do what --------------------------------------------------------------------

  /** The call can have caused the event: who its caller was, and which call it was. */
  ghost predicate Explains(op: Operation, e: Event) {
    op.owner.active && Strip(op.owner.zoneId) == Strip(e.zoneId) && e.sender == op.owner.id
    && match e.code
       case SCHEDULE_CREATED => op.Create? && op.owner.role == User
       case SCHEDULE_ACCEPTED => op.owner.role == Administrator && (op.Create? || (op.Accept? && op.id == e.scheduleId))
       case SCHEDULE_REJECTED => op.owner.role == Administrator && op.Reject? && op.id == e.scheduleId
       case SCHEDULE_REVOKED => op.owner.role == Administrator && op.Revoke? && op.id == e.scheduleId
  }

  lemma NewEventIsExplained(s: State, owners: Owners, op: Operation)
    requires Apply(s, owners, op).1.Ok?
    ensures var log := Apply(s, owners, op).0.log; |log| == |s.log| + 1 && Explains(op, log[|s.log|])
  {
    if op.Create? {
      StripIsTrimmed(op.request.zoneId);
      StripFixesTrimmed(Strip(op.request.zoneId));
    }
  }

  /** In every run each event was caused by a call whose caller was active in the zone of the
      schedule: requests come from its plain members, every decision from an administrator. */
  lemma {:induction false} EveryEventIsExplained(calls: seq<Call>, k: nat)
    requires k < |Run(calls).log|
    ensures exists i :: 0 <= i < |calls| && Explains(calls[i].op, Run(calls).log[k])
  {
    var front, last := calls[..|calls| - 1], calls[|calls| - 1];
    AnswersMatchEffects(Run(front), last.owners, last.op);
    if k < |Run(front).log| {
      EveryEventIsExplained(front, k);
      var i :| 0 <= i < |front| && Explains(front[i].op, Run(front).log[k]);
      assert calls[i] == front[i];
    } else {
      NewEventIsExplained(Run(front), last.owners, last.op);
      assert calls[|calls| - 1] == last;
    }
  }

  /** The caller is an active administrator of the schedule's zone. */
  predicate RunsTheZone(o: Owner, row: Schedule) {
    o.active && o.role == Administrator && Strip(o.zoneId) == Strip(row.zoneId)
  }

  /** The outcome of a decision from one status to another: it succeeds exactly when such a caller
      takes it on a schedule of the right status, sets status, activity and reviewer and nothing
      else, and the refusals are told apart. */
  ghost predicate DecidedRightly(s: State, after: (State, Result), o: Owner, id: int, from: Status, to: Status) {
    var (s', r) := after;
    (r.Ok? <==> id in s.rows && RunsTheZone(o, s.rows[id]) && s.rows[id].status == from)
    && (r.Ok? ==> s'.rows == s.rows[id := s.rows[id].(status := to, active := to == ACCEPTED, reviewedBy := Some(o.id))])
    && (r == Error(NotFound) <==> id !in s.rows)
    && (r == Error(Forbidden) <==> id in s.rows && !RunsTheZone(o, s.rows[id]))
  }

  lemma DecisionsSucceedIff(s: State, owners: Owners, o: Owner, id: int)
    ensures DecidedRightly(s, Apply(s, owners, Accept(o, id)), o, id, PENDING, ACCEPTED)
    ensures DecidedRightly(s, Apply(s, owners, Reject(o, id)), o, id, PENDING, REJECTED)
    ensures DecidedRightly(s, Apply(s, owners, Revoke(o, id)), o, id, ACCEPTED, REVOKED)
  {
    DecideRightly(s, owners, o, id, PENDING, ACCEPTED, SCHEDULE_ACCEPTED);
    DecideRightly(s, owners, o, id, PENDING, REJECTED, SCHEDULE_REJECTED);
    DecideRightly(s, owners, o, id, ACCEPTED, REVOKED, SCHEDULE_REVOKED);
  }

  lemma DecideRightly(s: State, owners: Owners, o: Owner, id: int, from: Status, to: Status, code: Code)
    ensures DecidedRightly(s, Decide(s, owners, o, id, from, to, code), o, id, from, to)
  {
  }

  /** A request succeeds exactly for active members of an existing zone, whatever the padding; an
      administrator's is accepted and reviewed at once, a member's waits. */
  lemma CreationSucceedsIff(s: State, owners: Owners, o: Owner, r: Request, zoneExists: bool)
    ensures var (s', answer) := Apply(s, owners, Create(o, r, zoneExists));
            (answer.Ok? <==> Strip(r.zoneId) != "" && o.active && Strip(o.zoneId) == Strip(r.zoneId) && zoneExists)
            && (answer.Ok? ==> answer.id == s.nextId && s'.nextId == s.nextId + 1)
            && (answer.Ok? ==> s.nextId in s'.rows && CreatedBy(s'.rows[s.nextId], o, r))
  {
    StripIsTrimmed(r.zoneId);
    StripFixesTrimmed(Strip(r.zoneId));
  }

  predicate CreatedBy(row: Schedule, o: Owner, r: Request) {
    row.zoneId == Strip(r.zoneId) && row.createdBy == o.id
    && row.eventId == (if Strip(r.eventId) == "" then None else Some(Strip(r.eventId)))
    && row.guestId == (if Strip(r.guestId) == "" then None else Some(Strip(r.guestId)))
    && row.guestName == (if Strip(r.guestName) == "" then None else Some(Strip(r.guestName)))
    && if o.role == Administrator then row.status == ACCEPTED && row.active && row.reviewedBy == Some(o.id)
       else row.status == PENDING && !row.active && row.reviewedBy == None
  }

  // ----- who is told ----------------------------------------------------------------------

  /** Told are exactly the creator, the reviewer of a decision, and the owners stored as active
      administrators under the trimmed zone id; each once, in ascending order. */
  lemma ToldAre(owners: Owners, id: int, s: Schedule, code: Code, acting: int, x: int)
    ensures x in EventFor(owners, id, s, code, acting).delivered <==>
              x == s.createdBy || (code != SCHEDULE_CREATED && x == acting) || IsStoredAdministrator(owners, x, s.zoneId)
    ensures Ascending(EventFor(owners, id, s, code, acting).delivered)
  {
    RecipientsAre(owners, s, code, acting, x);
  }

  predicate Ascending(ids: seq<int>) {
    forall i, j :: 0 <= i < j < |ids| ==> ids[i] < ids[j]
  }

  lemma RecipientsAre(owners: Owners, s: Schedule, code: Code, acting: int, x: int)
    ensures x in Recipients(owners, s, code, acting) <==>
              x == s.createdBy || (code != SCHEDULE_CREATED && x == acting) || IsStoredAdministrator(owners, x, s.zoneId)
    ensures Ascending(Recipients(owners, s, code, acting))
  {
    assert x in ZoneAdministratorIds(owners, s.zoneId) <==> IsStoredAdministrator(owners, x, s.zoneId);
  }

  predicate IsStoredAdministrator(owners: Owners, x: int, zoneId: string) {
    x in owners && owners[x].active && owners[x].role == Administrator
    && owners[x].zoneId == Strip(zoneId) && Strip(zoneId) != ""
  }

  /** The sender is among the recipients, and the addressee is someone else whenever there is one. */
  lemma AddressedToAnother(owners: Owners, id: int, s: Schedule, code: Code, acting: int)
    ensures var e := EventFor(owners, id, s, code, acting);
            && e.sender in e.delivered && e.receiver in e.delivered
            && (e.receiver == e.sender <==> e.delivered == [e.sender])
  {
    var ids, sender := Recipients(owners, s, code, acting), Sender(s, code, acting);
    FirstOtherIs(ids, sender);
    OnlySender(ids, sender);
  }

  lemma OnlySender(ids: seq<int>, sender: int)
    requires sender in ids && forall i, j :: 0 <= i < j < |ids| ==> ids[i] < ids[j]
    ensures (exists x :: x in ids && x != sender) <==> ids != [sender]
  {
    if ids != [sender] {
      assert |ids| > 1;
      assert ids[0] in ids && ids[1] in ids && ids[0] < ids[1];
    }
  }

  lemma {:induction false} FirstOtherIs(ids: seq<int>, sender: int)
    ensures var r := FirstOther(ids, sender);
            if exists x :: x in ids && x != sender then r in ids && r != sender else r == sender
  {
    if ids != [] && ids[0] == sender {
      FirstOtherIs(ids[1..], sender);
      assert ids == [ids[0]] + ids[1..];
      assert forall x :: x in ids && x != sender ==> x in ids[1..];
    }
  }

  /** An administrator who may decide a new request is told about it exactly when the zone id in
      their own row is stored without padding (or the request is theirs): deciding trims the
      stored id, the notification query does not. */
  lemma AdministratorsToldIff(owners: Owners, id: int, s: Schedule, admin: int)
    requires admin in owners && IsZoneAdmin(owners[admin], s.zoneId)
    requires IsTrimmed(s.zoneId) && s.zoneId != ""
    ensures admin in EventFor(owners, id, s, SCHEDULE_CREATED, s.createdBy).delivered
            <==> IsTrimmed(owners[admin].zoneId) || admin == s.createdBy
  {
    StripFixesTrimmed(s.zoneId);
    StripFixesTrimmed(owners[admin].zoneId);
  }

  /** Every stored zone id is trimmed and non-empty, so the condition above covers every run. */
  ghost predicate ZonesTrimmed(s: State) {
    forall id :: id in s.rows ==> IsTrimmed(s.rows[id].zoneId) && s.rows[id].zoneId != ""
  }

  lemma CreateKeepsZonesTrimmed(s: State, owners: Owners, owner: Owner, r: Request, zoneExists: bool)
    requires ZonesTrimmed(s)
    ensures ZonesTrimmed(Created(s, owners, owner, r, zoneExists).0)
  {
    StripIsTrimmed(r.zoneId);
    assert NewSchedule(owner, r).zoneId == Strip(r.zoneId);
  }

  lemma DecideKeepsZonesTrimmed(s: State, owners: Owners, owner: Owner, id: int, from: Status, to: Status, code: Code)
    requires ZonesTrimmed(s)
    ensures ZonesTrimmed(Decide(s, owners, owner, id, from, to, code).0)
  {
  }

  lemma ApplyKeepsZonesTrimmed(s: State, owners: Owners, op: Operation)
    requires ZonesTrimmed(s)
    ensures ZonesTrimmed(Apply(s, owners, op).0)
  {
    match op
    case Create(owner, r, zoneExists) => CreateKeepsZonesTrimmed(s, owners, owner, r, zoneExists);
    case Accept(owner, id) => DecideKeepsZonesTrimmed(s, owners, owner, id, PENDING, ACCEPTED, SCHEDULE_ACCEPTED);
    case Reject(owner, id) => DecideKeepsZonesTrimmed(s, owners, owner, id, PENDING, REJECTED, SCHEDULE_REJECTED);
    case Revoke(owner, id) => DecideKeepsZonesTrimmed(s, owners, owner, id, ACCEPTED, REVOKED, SCHEDULE_REVOKED);
  }

  lemma {:induction false} StoredZonesAreTrimmed(calls: seq<Call>)
    ensures ZonesTrimmed(Run(calls))
  {
    if calls != [] {
      var last := calls[|calls| - 1];
      StoredZonesAreTrimmed(calls[..|calls| - 1]);
      ApplyKeepsZonesTrimmed(Run(calls[..|calls| - 1]), last.owners, last.op);
    }
  }
}

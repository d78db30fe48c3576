/**
 The two audit logs under at-least-once delivery (audit/sqlite.py, audit/memory.py).

 The SQLite table is a sequence of rows in `id` order: ids are assigned in insertion order and
 nothing is ever updated or deleted. Both logs keep the first arrival of every event id.
 */
module AuditLogs {
  import opened Prelude
  import opened Lexical
  import opened Lists
  import opened Uuids
  import opened Timestamps
  import opened AuditEvents

  datatype Row = Row(eventId: string, workflowId: string, workflowType: string, targetId: Option<string>, entry: Entry, timestamp: string)

  // ---- Rows ----

  function TargetText(t: Target): Option<string>
  {
    match t
    case Nothing => None
    case Id(u) => Some(Text(u))
    case Name(s) => Some(s)
  }

  /** A stored target that reads as a UUID becomes one. */
  function TargetOf(text: Option<string>): Target
  {
    if text.None? then Nothing
    else if Parse(text.value).Some? then Id(Parse(text.value).value)
    else Name(text.value)
  }

  /** An event whose timestamp UTC can express; appending any other raises OverflowError. */
  predicate Storable(e: AuditEvent) { ToUtc(e.at).Some? }

  /** The timestamp column of a storable event. */
  function StampOf(at: Aware): string { if UtcText(at).Some? then UtcText(at).value else "" }

  function ToRow(e: AuditEvent): Row
  {
    Row(Text(e.eventId), e.workflowId, e.workflowType, TargetText(e.entry.target), e.entry.(target := Nothing), StampOf(e.at))
  }

  /** `_row_to_event`; None is a ValueError. */
  function FromRow(row: Row): Option<AuditEvent>
  {
    var id, at := Parse(row.eventId), ParseIso(row.timestamp);
    if id.None? || at.None? then None
    else Some(AuditEvent(id.value, row.workflowId, row.workflowType, row.entry.(target := TargetOf(row.targetId)), Utc(at.value)))
  }

  /** The event with its timestamp written in UTC; the instant is the same. */
  function InUtc(e: AuditEvent): AuditEvent
  {
    if Storable(e) then e.(at := Utc(ToUtc(e.at).value)) else e
  }

  /** A target name that reads as UUID text does not survive storage. */
  predicate NamePlain(e: AuditEvent) { e.entry.target.Name? ==> Parse(e.entry.target.text).None? }

  lemma TargetReadsBack(t: Target)
    ensures TargetOf(TargetText(t)) == t <==> (t.Name? ==> Parse(t.text).None?)
  {
    if t.Id? { ParseText(t.id); }
  }

  lemma StampReadsBack(at: Aware)
    requires ToUtc(at).Some?
    ensures ParseIso(StampOf(at)) == Some(ToUtc(at).value) && Instant(Utc(ToUtc(at).value)) == Instant(at)
  {
    UtcKeepsInstant(at);
    ParseIsoText(ToUtc(at).value);
  }

  /** An event read back is the event stored, exactly unless its target is a name that is UUID text. */
  lemma RowRoundTrip(e: AuditEvent)
    requires Storable(e)
    ensures FromRow(ToRow(e)) == Some(InUtc(e)) <==> NamePlain(e)
    ensures Instant(InUtc(e).at) == Instant(e.at)
  {
    ParseText(e.eventId);
    StampReadsBack(e.at);
    TargetReadsBack(e.entry.target);
    assert FromRow(ToRow(e)) ==
      Some(AuditEvent(e.eventId, e.workflowId, e.workflowType, e.entry.(target := TargetOf(TargetText(e.entry.target))), InUtc(e).at));
  }

  // ---- Queries ----

  datatype Query = ByWorkflow(workflowId: string) | ByDevice(device: Uuid) | ByRange(from: Aware, until: Aware)

  /** Time bounds UTC can express; the others raise OverflowError. */
  predicate Answerable(q: Query)
  {
    q.ByRange? ==> ToUtc(q.from).Some? && ToUtc(q.until).Some?
  }

  /** The WHERE clause. */
  predicate RowMatches(q: Query, row: Row)
  {
    match q
    case ByWorkflow(w) => row.workflowId == w
    case ByDevice(u) => row.targetId == Some(Text(u))
    case ByRange(from, until) => !Before(row.timestamp, StampOf(from)) && Before(row.timestamp, StampOf(until))
  }

  predicate EventMatches(q: Query, e: AuditEvent)
  {
    match q
    case ByWorkflow(w) => e.workflowId == w
    case ByDevice(u) => e.entry.target == Id(u)
    case ByRange(from, until) => Instant(from) <= Instant(e.at) < Instant(until)
  }

  lemma SameTarget(t: Target, u: Uuid)
    requires t.Name? ==> Parse(t.text).None?
    ensures TargetText(t) == Some(Text(u)) <==> t == Id(u)
  {
    ParseText(u);
    if t.Id? && Text(t.id) == Text(u) { TextInjective(t.id, u); }
  }

  lemma StampOrder(a: Aware, b: Aware)
    requires ToUtc(a).Some? && ToUtc(b).Some?
    ensures Before(StampOf(a), StampOf(b)) <==> Instant(a) < Instant(b)
  {
    TextOrderIsTimeOrder(a, b);
  }

  lemma {:induction false} SameDevice(e: AuditEvent, u: Uuid)
    requires NamePlain(e)
    ensures RowMatches(ByDevice(u), ToRow(e)) <==> EventMatches(ByDevice(u), e)
  {
    SameTarget(e.entry.target, u);
  }

  lemma {:induction false} SameWorkflow(e: AuditEvent, w: string)
    ensures RowMatches(ByWorkflow(w), ToRow(e)) <==> EventMatches(ByWorkflow(w), e)
  {
  }

  /** Stored texts lie in a range as the instants do. */
  lemma {:induction false} StampsInRange(at: Aware, from: Aware, until: Aware)
    requires ToUtc(at).Some? && ToUtc(from).Some? && ToUtc(until).Some?
    ensures !Before(StampOf(at), StampOf(from)) && Before(StampOf(at), StampOf(until)) <==> Instant(from) <= Instant(at) < Instant(until)
  {
    StampOrder(at, from);
    StampOrder(at, until);
  }

  lemma {:induction false} SameRange(row: Row, e: AuditEvent, from: Aware, until: Aware)
    requires !Before(row.timestamp, StampOf(from)) && Before(row.timestamp, StampOf(until)) <==> Instant(from) <= Instant(e.at) < Instant(until)
    ensures RowMatches(ByRange(from, until), row) <==> EventMatches(ByRange(from, until), e)
  {
  }

  /** SQL and Python select the same events; for a time range this is the text order theorem. */
  lemma {:induction false} SameSelection(q: Query, e: AuditEvent)
    requires Answerable(q) && Storable(e) && NamePlain(e)
    ensures RowMatches(q, ToRow(e)) <==> EventMatches(q, e)
  {
    match q
    case ByWorkflow(w) => SameWorkflow(e, w);
    case ByDevice(u) => SameDevice(e, u);
    case ByRange(from, until) =>
      StampsInRange(e.at, from, until);
      SameRange(ToRow(e), e, from, until);
  }

  function RowTest(q: Query): Row -> bool { (row: Row) => RowMatches(q, row) }

  function EventTest(q: Query): AuditEvent -> bool { (e: AuditEvent) => EventMatches(q, e) }

  function Reader(): Row -> Option<AuditEvent> { (row: Row) => FromRow(row) }

  function Writer(): AuditEvent -> Row { (e: AuditEvent) => ToRow(e) }

  function Rezoned(): AuditEvent -> AuditEvent { (e: AuditEvent) => InUtc(e) }

  function Time(): AuditEvent -> int { (e: AuditEvent) => Instant(e.at) }

  /** `SELECT ... ORDER BY id`, read back as events; None is a ValueError. */
  function SqliteAnswer(rows: seq<Row>, q: Query): Option<seq<AuditEvent>>
  {
    Traverse(Reader(), Filter(RowTest(q), rows))
  }

  /** The matching events, `sorted` by timestamp. */
  function MemoryAnswer(es: seq<AuditEvent>, q: Query): seq<AuditEvent> { SortBy(Time(), Filter(EventTest(q), es)) }

  // ---- Appending ----

  function RowIds(rows: seq<Row>): set<string> { set row | row in rows :: row.eventId }

  function Ids(es: seq<AuditEvent>): set<Uuid> { set e | e in es :: e.eventId }

  /** INSERT ... ON CONFLICT(event_id) DO NOTHING. */
  function InsertRow(rows: seq<Row>, row: Row): seq<Row>
  {
    if row.eventId in RowIds(rows) then rows else rows + [row]
  }

  function Keep(es: seq<AuditEvent>, e: AuditEvent): seq<AuditEvent>
  {
    if e.eventId in Ids(es) then es else es + [e]
  }

  /** The table after some deliveries; one whose timestamp UTC cannot express raises and leaves it alone. */
  function RowsAfter(rows: seq<Row>, arrivals: seq<AuditEvent>): seq<Row>
    decreases arrivals
  {
    if arrivals == [] then rows
    else RowsAfter(if Storable(arrivals[0]) then InsertRow(rows, ToRow(arrivals[0])) else rows, arrivals[1..])
  }

  function StorableTest(): AuditEvent -> bool { (e: AuditEvent) => Storable(e) }

  /** The deliveries that do not raise. */
  function Accepted(arrivals: seq<AuditEvent>): seq<AuditEvent> { Filter(StorableTest(), arrivals) }

  function EventsAfter(es: seq<AuditEvent>, arrivals: seq<AuditEvent>): seq<AuditEvent>
    decreases arrivals
  {
    if arrivals == [] then es else EventsAfter(Keep(es, arrivals[0]), arrivals[1..])
  }

  function ToRows(es: seq<AuditEvent>): seq<Row> { Map(Writer(), es) }

  lemma IdTexts(es: seq<AuditEvent>, id: Uuid)
    ensures Text(id) in RowIds(ToRows(es)) <==> id in Ids(es)
  {
    if Text(id) in RowIds(ToRows(es)) {
      var i :| 0 <= i < |es| && ToRows(es)[i].eventId == Text(id);
      TextInjective(es[i].eventId, id);
    }
    if id in Ids(es) {
      var i :| 0 <= i < |es| && es[i].eventId == id;
      assert ToRows(es)[i] in ToRows(es);
    }
  }

  lemma InsertAsKeep(es: seq<AuditEvent>, e: AuditEvent)
    ensures InsertRow(ToRows(es), ToRow(e)) == ToRows(Keep(es, e))
  {
    IdTexts(es, e.eventId);
    assert Map(Writer(), es + [e]) == Map(Writer(), es) + [ToRow(e)];
  }

  /** The table always holds the rows of what the in-memory log holds of the accepted deliveries. */
  lemma {:induction false} LogsHoldTheSame(es: seq<AuditEvent>, arrivals: seq<AuditEvent>)
    ensures RowsAfter(ToRows(es), arrivals) == ToRows(EventsAfter(es, Accepted(arrivals)))
    decreases arrivals
  {
    if arrivals != [] {
      var rest := Accepted(arrivals[1..]);
      if Storable(arrivals[0]) {
        InsertAsKeep(es, arrivals[0]);
        assert Accepted(arrivals) == [arrivals[0]] + rest && ([arrivals[0]] + rest)[1..] == rest;
        LogsHoldTheSame(Keep(es, arrivals[0]), arrivals[1..]);
      } else {
        assert Accepted(arrivals) == [] + rest == rest;
        LogsHoldTheSame(es, arrivals[1..]);
      }
    }
  }

  // ---- First arrivals ----

  predicate IsFirstArrival(arrivals: seq<AuditEvent>, i: nat)
    requires i < |arrivals|
  {
    forall j :: 0 <= j < i ==> arrivals[j].eventId != arrivals[i].eventId
  }

  /** Each event at its first arrival, in arrival order. */
  function FirstArrivals(arrivals: seq<AuditEvent>, i: nat): seq<AuditEvent>
    requires i <= |arrivals|
    decreases |arrivals| - i
  {
    if i == |arrivals| then []
    else (if IsFirstArrival(arrivals, i) then [arrivals[i]] else []) + FirstArrivals(arrivals, i + 1)
  }

  lemma ArrivedBefore(arrivals: seq<AuditEvent>, i: nat)
    requires i < |arrivals|
    ensures IsFirstArrival(arrivals, i) <==> arrivals[i].eventId !in Ids(arrivals[..i])
  {
    if j :| 0 <= j < i && arrivals[j].eventId == arrivals[i].eventId {
      assert arrivals[..i][j] in arrivals[..i];
    }
  }

  lemma KeepAdds(es: seq<AuditEvent>, e: AuditEvent)
    ensures Ids(Keep(es, e)) == Ids(es) + {e.eventId}
  {
    assert Ids(es + [e]) == Ids(es) + {e.eventId};
  }

  lemma {:induction false} KeepsFirstFrom(es: seq<AuditEvent>, arrivals: seq<AuditEvent>, i: nat)
    requires i <= |arrivals| && Ids(es) == Ids(arrivals[..i])
    ensures EventsAfter(es, arrivals[i..]) == es + FirstArrivals(arrivals, i)
    decreases |arrivals| - i
  {
    if i < |arrivals| {
      var e := arrivals[i];
      ArrivedBefore(arrivals, i);
      KeepAdds(es, e);
      assert arrivals[..i + 1] == arrivals[..i] + [e];
      assert Ids(arrivals[..i] + [e]) == Ids(arrivals[..i]) + {e.eventId};
      assert arrivals[i..][1..] == arrivals[i + 1..];
      KeepsFirstFrom(Keep(es, e), arrivals, i + 1);
    }
  }

  lemma KeepsFirst(arrivals: seq<AuditEvent>)
    ensures EventsAfter([], arrivals) == FirstArrivals(arrivals, 0)
  {
    assert arrivals[0..] == arrivals;
    KeepsFirstFrom([], arrivals, 0);
  }

  lemma TableKeepsAccepted(arrivals: seq<AuditEvent>)
    ensures RowsAfter([], arrivals) == ToRows(EventsAfter([], Accepted(arrivals)))
  {
    assert ToRows([]) == [];
    LogsHoldTheSame([], arrivals);
  }

  /**
   Under any re-delivery the in-memory log holds each event once, at its first arrival, and the table
   does so for the deliveries it accepts: the logs differ by exactly the timestamps UTC cannot express.
   */
  lemma EachEventOnce(arrivals: seq<AuditEvent>)
    ensures EventsAfter([], arrivals) == FirstArrivals(arrivals, 0)
    ensures RowsAfter([], arrivals) == ToRows(FirstArrivals(Accepted(arrivals), 0))
  {
    KeepsFirst(arrivals);
    KeepsFirst(Accepted(arrivals));
    TableKeepsAccepted(arrivals);
  }

  /** Both logs hold the same events when UTC can express every timestamp. */
  lemma NothingRejected(arrivals: seq<AuditEvent>)
    requires forall i :: 0 <= i < |arrivals| ==> Storable(arrivals[i])
    ensures RowsAfter([], arrivals) == ToRows(EventsAfter([], arrivals))
  {
    FilterAll(StorableTest(), arrivals);
    TableKeepsAccepted(arrivals);
  }

  // ---- The two logs answer alike ----

  /** Every event is stored and read back as itself. */
  ghost predicate AllKept(es: seq<AuditEvent>)
  {
    forall i :: 0 <= i < |es| ==> Storable(es[i]) && NamePlain(es[i])
  }

  lemma SameSelections(es: seq<AuditEvent>, q: Query)
    requires Answerable(q) && AllKept(es)
    ensures Filter(RowTest(q), ToRows(es)) == ToRows(Filter(EventTest(q), es))
  {
    forall i | 0 <= i < |es| ensures RowTest(q)(Writer()(es[i])) <==> EventTest(q)(es[i]) { SameSelection(q, es[i]); }
    FilterMap(Writer(), EventTest(q), RowTest(q), es);
  }

  lemma AllReadBack(es: seq<AuditEvent>)
    requires AllKept(es)
    ensures Traverse(Reader(), ToRows(es)) == Some(Map(Rezoned(), es))
  {
    forall i | 0 <= i < |es| ensures Reader()(Writer()(es[i])) == Some(Rezoned()(es[i])) { RowRoundTrip(es[i]); }
    TraverseMap(Writer(), Reader(), Rezoned(), es);
  }

  /**
   Every query on one log is a permutation of the same query on the other, and the same
   sequence when the stored events are in time order.
   */
  lemma LogsAnswerAlike(es: seq<AuditEvent>, q: Query)
    requires Answerable(q) && AllKept(es)
    ensures var sql := SqliteAnswer(ToRows(es), q); var memory := Map(Rezoned(), MemoryAnswer(es, q));
            sql.Some? && multiset(sql.value) == multiset(memory) && (InOrder(Time(), es) ==> sql.value == memory)
  {
    var chosen := Filter(EventTest(q), es);
    SameSelections(es, q);
    FilterKeeps(EventTest(q), es);
    AllReadBack(chosen);
    MapSort(Time(), Rezoned(), chosen);
    if InOrder(Time(), es) {
      FilterInOrder(Time(), EventTest(q), es);
      SortedAlready(Time(), chosen);
    }
  }

  lemma {:induction false} ArrivalsComeFrom(arrivals: seq<AuditEvent>, i: nat)
    requires i <= |arrivals|
    ensures forall e :: e in FirstArrivals(arrivals, i) ==> exists j :: i <= j < |arrivals| && arrivals[j] == e
    decreases |arrivals| - i
  {
    if i < |arrivals| { ArrivalsComeFrom(arrivals, i + 1); }
  }

  lemma {:induction false} ArrivalsKeepOrder(arrivals: seq<AuditEvent>, i: nat)
    requires i <= |arrivals| && InOrder(Time(), arrivals)
    ensures InOrder(Time(), FirstArrivals(arrivals, i))
    decreases |arrivals| - i
  {
    if i < |arrivals| {
      var rest := FirstArrivals(arrivals, i + 1);
      ArrivalsKeepOrder(arrivals, i + 1);
      ArrivalsComeFrom(arrivals, i + 1);
      forall k | 0 <= k < |rest| ensures Time()(arrivals[i]) <= Time()(rest[k]) {
        assert rest[k] in rest;
        var j :| i + 1 <= j < |arrivals| && arrivals[j] == rest[k];
      }
    }
  }

  /** Deliver anything any number of times, then ask either log. */
  lemma DeliverThenAsk(arrivals: seq<AuditEvent>, q: Query)
    requires Answerable(q) && AllKept(arrivals)
    ensures var sql := SqliteAnswer(RowsAfter([], arrivals), q);
            var memory := Map(Rezoned(), MemoryAnswer(EventsAfter([], arrivals), q));
            sql.Some? && multiset(sql.value) == multiset(memory) && (InOrder(Time(), arrivals) ==> sql.value == memory)
  {
    var es := FirstArrivals(arrivals, 0);
    KeepsFirst(arrivals);
    NothingRejected(arrivals);
    ArrivalsComeFrom(arrivals, 0);
    forall i | 0 <= i < |es| ensures Storable(es[i]) && NamePlain(es[i]) { assert es[i] in es; }
    if InOrder(Time(), arrivals) { ArrivalsKeepOrder(arrivals, 0); }
    LogsAnswerAlike(es, q);
  }

  /** An answer holds exactly the events asked for: of the workflow, about the device, or from the start of a range up to but not at its end. */
  lemma AnswerHolds(es: seq<AuditEvent>, q: Query, e: AuditEvent)
    ensures q.ByWorkflow? ==> (e in MemoryAnswer(es, q) <==> e in es && e.workflowId == q.workflowId)
    ensures q.ByDevice? ==> (e in MemoryAnswer(es, q) <==> e in es && e.entry.target == Id(q.device))
    ensures q.ByRange? ==> (e in MemoryAnswer(es, q) <==> e in es && Instant(q.from) <= Instant(e.at) < Instant(q.until))
  {
    var found := Filter(EventTest(q), es);
    SortSorts(Time(), found);
    assert e in SortBy(Time(), found) <==> e in multiset(SortBy(Time(), found));
    assert e in found <==> e in multiset(found);
    FilterHas(EventTest(q), es, e);
  }

  // ---- The classes ----

  class SqliteAuditLog {
    var rows: seq<Row>

    constructor ()
      ensures rows == []
    {
      rows := [];
    }

    /** False is the OverflowError of a timestamp UTC cannot express; nothing is written then. */
    method Append(e: AuditEvent) returns (ok: bool)
      modifies this
      ensures ok <==> Storable(e)
      ensures rows == if ok then InsertRow(old(rows), ToRow(e)) else old(rows)
    {
      if UtcText(e.at).None? {
        return false;
      }
      var row := ToRow(e);
      if row.eventId !in RowIds(rows) {
        rows := rows + [row];
      }
      ok := true;
    }

    method Ask(q: Query) returns (r: Option<seq<AuditEvent>>)
      ensures r == if Answerable(q) then SqliteAnswer(rows, q) else None
    {
      if q.ByRange? && (UtcText(q.from).None? || UtcText(q.until).None?) {
        return None;
      }
      r := Traverse(Reader(), Filter(RowTest(q), rows));
    }
  }

  class InMemoryAuditLog {
    var events: seq<AuditEvent>
    var ids: set<Uuid>

    ghost predicate Valid()
      reads this
    {
      ids == Ids(events)
    }

    constructor ()
      ensures Valid() && events == []
    {
      events := [];
      ids := {};
    }

    method Append(e: AuditEvent)
      requires Valid()
      modifies this
      ensures Valid() && events == Keep(old(events), e)
    {
      if e.eventId in ids {
        return;
      }
      KeepAdds(events, e);
      ids := ids + {e.eventId};
      events := events + [e];
    }

    method Ask(q: Query) returns (r: seq<AuditEvent>)
      ensures r == MemoryAnswer(events, q)
    {
      r := SortBy(Time(), Filter(EventTest(q), events));
    }
  }
}

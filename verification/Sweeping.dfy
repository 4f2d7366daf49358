// Attach or enqueue on arrival, and the retry sweep:
// internal/identity/resolve.go and internal/identity/sweep.go.
module Sweeping {
  import opened Wrappers
  import opened Models
  import opened Score
  import opened Places
  import opened Matching
  import opened Unmatched

  // ---- Matching does not look at references ----

  // The same places up to their external_ids.
  ghost predicate RefsOnly(rows: map<Id, Place>, rows': map<Id, Place>) {
    && rows.Keys == rows'.Keys
    && forall id | id in rows :: rows'[id].(externalIds := map[]) == rows[id].(externalIds := map[])
  }

  lemma ScoreIgnoresRefs(w: World, r: Record, p: Place, q: Place)
    requires p.(externalIds := map[]) == q.(externalIds := map[])
    ensures Scorer(w, r)(p) == Scorer(w, r)(q)
  {
  }

  lemma SameButRefs(p: Place, q: Place)
    requires p.(externalIds := map[]) == q.(externalIds := map[])
    ensures p.id == q.id && p.at == q.at && p.category == q.category && p.status == q.status
  {
    assert p.id == p.(externalIds := map[]).id && p.at == p.(externalIds := map[]).at;
    assert p.category == p.(externalIds := map[]).category && p.status == p.(externalIds := map[]).status;
  }

  lemma EligibleIgnoresRefs(w: World, rows: map<Id, Place>, rows': map<Id, Place>, at: Point, cats: set<string>)
    requires RefsOnly(rows, rows')
    ensures Eligible(w, rows', at, RADIUS_M, cats) == Eligible(w, rows, at, RADIUS_M, cats)
  {
    forall id | id in rows
      ensures id in Eligible(w, rows', at, RADIUS_M, cats) <==> id in Eligible(w, rows, at, RADIUS_M, cats)
    {
      SameButRefs(rows[id], rows'[id]);
    }
  }

  lemma FetchIgnoresRefs(w: World, rows: map<Id, Place>, rows': map<Id, Place>, at: Point, cats: set<string>,
                         out: seq<Place>)
    returns (out': seq<Place>)
    requires RefsOnly(rows, rows') && IsFetch(w, rows, at, RADIUS_M, cats, out)
    requires forall id | id in rows' :: rows'[id].id == id
    ensures IsFetch(w, rows', at, RADIUS_M, cats, out')
    ensures |out'| == |out|
    ensures forall i | 0 <= i < |out| ::
              out[i].(externalIds := map[]) == out'[i].(externalIds := map[]) && out'[i].id == out[i].id
  {
    EligibleIgnoresRefs(w, rows, rows', at, cats);
    out' := seq(|out|, i requires 0 <= i < |out| && out[i].id in rows' => rows'[out[i].id]);
    forall i | 0 <= i < |out|
      ensures out'[i].at == out[i].at && out'[i].id == out[i].id
    {
      SameButRefs(out[i], out'[i]);
    }
    SameIds(out, out');
    forall i, id | 0 <= i < |out| && id in Eligible(w, rows, at, RADIUS_M, cats) - Ids(out)
      ensures w.geodesic(out'[i].at, at) <= w.geodesic(rows'[id].at, at)
    {
      SameButRefs(rows[id], rows'[id]);
    }
  }

  lemma ScoresIgnoreRefs(w: World, r: Record, out: seq<Place>, out': seq<Place>)
    requires |out'| == |out|
    requires forall i | 0 <= i < |out| :: out[i].(externalIds := map[]) == out'[i].(externalIds := map[])
    ensures Scores(w, r, out) == Scores(w, r, out')
  {
    forall i | 0 <= i < |out|
      ensures Scores(w, r, out)[i] == Scores(w, r, out')[i]
    {
      ScoreIgnoresRefs(w, r, out[i], out'[i]);
    }
  }

  lemma AnswerIgnoresRefs(w: World, rows: map<Id, Place>, rows': map<Id, Place>, r: Record, d: Decision)
    requires RefsOnly(rows, rows') && MatchAnswers(w, rows, r, d)
    requires forall id | id in rows' :: rows'[id].id == id
    ensures MatchAnswers(w, rows', r, d)
  {
    var out: seq<Place> :| IsFetch(w, rows, r.at, RADIUS_M, Compatible(r.category), out) && DecidedBy(w, r, out, d);
    var out' := FetchIgnoresRefs(w, rows, rows', r.at, Compatible(r.category), out);
    ScoresIgnoreRefs(w, r, out, out');
    ChosenSameIds(Scores(w, r, out), out, out', d);
  }

  lemma SameIds(out: seq<Place>, out': seq<Place>)
    requires |out| == |out'| && forall i | 0 <= i < |out| :: out'[i].id == out[i].id
    ensures Ids(out) == Ids(out')
  {
  }

  lemma ChosenSameIds(scores: seq<real>, out: seq<Place>, out': seq<Place>, d: Decision)
    requires |scores| == |out| == |out'| && forall i | 0 <= i < |out| :: out'[i].id == out[i].id
    requires Chosen(scores, out, d)
    ensures Chosen(scores, out', d)
  {
  }

  // An answer other than NoMatch names a stored place and is banded by its confidence.
  lemma AnswerNamesPlace(w: World, rows: map<Id, Place>, r: Record, d: Decision)
    requires MatchAnswers(w, rows, r, d) && !d.kind.NoMatch?
    ensures d.placeId in rows && d.kind == Band(d.confidence)
    ensures d.confidence == ScoreCandidate(w, r, rows[d.placeId])
  {
    var out: seq<Place> :| IsFetch(w, rows, r.at, RADIUS_M, Compatible(r.category), out) && DecidedBy(w, r, out, d);
    var i: nat :| FirstBest(Scores(w, r, out), i)
               && d == Decision(Band(Scores(w, r, out)[i]), out[i].id, Scores(w, r, out)[i]);
    assert Scores(w, r, out)[i] == Scorer(w, r)(out[i]);
  }

  // ---- Resolve ----

  datatype Db = Db(rows: map<Id, Place>, queue: Queue)

  function RefFor(r: Record, d: Decision, now: int): ExternalRef {
    ExternalRef(r.sourceId, d.confidence, now)
  }

  // The row Resolve enqueues: the record's full matchable signal, {} for a missing payload.
  function RowFor(r: Record, now: int): QueueRow {
    QueueRow(0, r.source, r.sourceId, r.name, r.at, r.category, r.street, r.houseNumber,
             if r.payload.Some? then r.payload.value else "{}", now, 1)
  }

  // The effect of a decision on a record that has just arrived.
  ghost function Resolved(db: Db, r: Record, d: Decision, now: int): Db
    requires !d.kind.NoMatch? ==> d.placeId in db.rows
  {
    if d.kind.NoMatch? then db.(queue := Enqueued(db.queue, RowFor(r, now)))
    else db.(rows := Attach(db.rows, d.placeId, r.source, RefFor(r, d, now)))
  }

  datatype ResolveFault = ResolveFault(find: bool, attach: bool, enqueue: bool)

  method Resolve(w: World, places: PlaceRepository, unmatched: UnmatchedRepository, r: Record, now: int,
                 fault: ResolveFault)
    returns (res: Result<Decision, string>)
    requires NonNegativeDistances(w) && Sound(places.table) && SoundQueue(unmatched.queue)
    modifies places, unmatched
    ensures Sound(places.table) && SoundQueue(unmatched.queue)
    ensures places.table.minted == old(places.table.minted)
    ensures res.Success? ==>
              && MatchAnswers(w, old(places.table.rows), r, res.value)
              && (!res.value.kind.NoMatch? ==> res.value.placeId in old(places.table.rows))
              && Db(places.table.rows, unmatched.queue)
                 == Resolved(old(Db(places.table.rows, unmatched.queue)), r, res.value, now)
    ensures res.Failure? ==> places.table == old(places.table) && unmatched.queue == old(unmatched.queue)
    ensures fault == ResolveFault(false, false, false) ==> res.Success?
  {
    var m := Match(w, places, r, fault.find);
    if m.Failure? {
      return Failure("match: " + m.error);
    }
    var d := m.value;
    match d.kind {
      case Confident | LowConfidence =>
        AnswerNamesPlace(w, places.table.rows, r, d);
        AttachSound(places.table, d.placeId, r.source, RefFor(r, d, now));
        var err := places.AttachExternalRef(d.placeId, r.source, RefFor(r, d, now), fault.attach);
        if err.Some? {
          return Failure("attach external ref: " + err.value);
        }
      case NoMatch =>
        var err := unmatched.Enqueue(RowFor(r, now), fault.enqueue);
        if err.Some? {
          return Failure("enqueue unmatched: " + err.value);
        }
    }
    return Success(d);
  }

  // What the sweep rebuilds from an enqueued row is the record itself.
  lemma EnqueueRoundTrips(r: Record, now: int)
    ensures r.payload.Some? ==> RecordOf(RowFor(r, now)) == r
    ensures r.payload.None? ==> RecordOf(RowFor(r, now)) == r.(payload := Some("{}"))
  {
  }

  // ---- Sweep ----

  // How one iteration of the sweep ended.
  datatype RowOutcome =
    | MatchFailed
    | AttachFailed(d: Decision)
    | DeleteFailed(d: Decision)
    | Drained(d: Decision)
    | BumpFailed
    | Kept

  // Which database calls of one iteration fail.
  datatype RowFault = RowFault(find: bool, attach: bool, delete: bool, bump: bool)

  const NO_FAULT := RowFault(false, false, false, false)

  ghost predicate Justified(w: World, rows: map<Id, Place>, row: QueueRow, fault: RowFault, o: RowOutcome) {
    match o
    case MatchFailed => fault.find
    case AttachFailed(d) => !fault.find && fault.attach && Attachable(w, rows, row, d)
    case DeleteFailed(d) => !fault.find && !fault.attach && fault.delete && Attachable(w, rows, row, d)
    case Drained(d) => !fault.find && !fault.attach && !fault.delete && Attachable(w, rows, row, d)
    case BumpFailed => !fault.find && fault.bump && MatchAnswers(w, rows, RecordOf(row), Decision(NoMatch, Unset, 0.0))
    case Kept => !fault.find && !fault.bump && MatchAnswers(w, rows, RecordOf(row), Decision(NoMatch, Unset, 0.0))
  }

  ghost predicate Attachable(w: World, rows: map<Id, Place>, row: QueueRow, d: Decision) {
    && MatchAnswers(w, rows, RecordOf(row), d)
    && !d.kind.NoMatch?
    && d.placeId in rows
  }

  function AttachRow(db: Db, row: QueueRow, d: Decision, now: int): Db {
    if d.placeId in db.rows then
      db.(rows := Attach(db.rows, d.placeId, row.source, RefFor(RecordOf(row), d, now)))
    else db
  }

  // The effect of one iteration. A failed delete leaves the reference attached.
  function AfterRow(db: Db, row: QueueRow, o: RowOutcome, now: int): Db {
    match o
    case MatchFailed | AttachFailed(_) | BumpFailed => db
    case DeleteFailed(d) => AttachRow(db, row, d, now)
    case Drained(d) => var att := AttachRow(db, row, d, now); att.(queue := Deleted(att.queue, row.id))
    case Kept => if row.id in db.queue.rows then db.(queue := Unmatched.Bumped(db.queue, row.id, now)) else db
  }

  // now(i) is the clock when iteration i reads it.
  function Replay(db: Db, rows: seq<QueueRow>, outcomes: seq<RowOutcome>, now: nat -> int): Db
    requires |rows| == |outcomes|
  {
    if rows == [] then db
    else
      var n := |rows| - 1;
      AfterRow(Replay(db, rows[..n], outcomes[..n], now), rows[n], outcomes[n], now(n))
  }

  datatype SweepResult = SweepResult(considered: int, confident: int, lowConfidence: int, noMatch: int, errors: int)

  const EMPTY_RESULT := SweepResult(0, 0, 0, 0, 0)

  function Count(res: SweepResult, o: RowOutcome): SweepResult {
    match o
    case MatchFailed | AttachFailed(_) | DeleteFailed(_) | BumpFailed => res.(errors := res.errors + 1)
    case Drained(d) =>
      if d.kind.Confident? then res.(confident := res.confident + 1)
      else res.(lowConfidence := res.lowConfidence + 1)
    case Kept => res.(noMatch := res.noMatch + 1)
  }

  function Tally(considered: int, outcomes: seq<RowOutcome>): SweepResult {
    if outcomes == [] then EMPTY_RESULT.(considered := considered)
    else Count(Tally(considered, outcomes[..|outcomes| - 1]), outcomes[|outcomes| - 1])
  }

  // Every row that Considered counts ends in exactly one of the four counters.
  lemma {:induction false} SweepAccounting(considered: int, outcomes: seq<RowOutcome>)
    requires considered == |outcomes|
    ensures var res := Tally(considered, outcomes);
            res.considered == res.confident + res.lowConfidence + res.noMatch + res.errors
  {
    TallySums(considered, outcomes);
  }

  lemma {:induction false} TallySums(considered: int, outcomes: seq<RowOutcome>)
    ensures var res := Tally(considered, outcomes);
            && res.considered == considered
            && res.confident + res.lowConfidence + res.noMatch + res.errors == |outcomes|
  {
    if outcomes != [] {
      TallySums(considered, outcomes[..|outcomes| - 1]);
    }
  }

  function DrainedIds(rows: seq<QueueRow>, outcomes: seq<RowOutcome>): set<int>
    requires |rows| == |outcomes|
  {
    set i | 0 <= i < |rows| && outcomes[i].Drained? :: rows[i].id
  }

  // Rows that stay keep everything Match reads.
  ghost predicate SameRecords(before: Queue, after: Queue) {
    && after.nextId == before.nextId
    && forall id | id in after.rows ::
         && id in before.rows
         && RecordOf(after.rows[id]) == RecordOf(before.rows[id])
         && after.rows[id].id == before.rows[id].id
  }

  // What a prefix of the sweep has done: places differ in references only, and
  // exactly the drained rows have left the queue.
  ghost predicate Progress(before: Db, rows: seq<QueueRow>, outcomes: seq<RowOutcome>, after: Db)
    requires |rows| == |outcomes|
  {
    && RefsOnly(before.rows, after.rows)
    && SameRecords(before.queue, after.queue)
    && after.queue.rows.Keys == before.queue.rows.Keys - DrainedIds(rows, outcomes)
  }

  lemma DrainedIdsSnoc(rows: seq<QueueRow>, outcomes: seq<RowOutcome>, row: QueueRow, o: RowOutcome)
    requires |rows| == |outcomes|
    ensures DrainedIds(rows + [row], outcomes + [o]) == DrainedIds(rows, outcomes) + if o.Drained? then {row.id} else {}
  {
    var rows', outcomes' := rows + [row], outcomes + [o];
    forall id | id in DrainedIds(rows, outcomes)
      ensures id in DrainedIds(rows', outcomes')
    {
      var i :| 0 <= i < |rows| && outcomes[i].Drained? && rows[i].id == id;
      assert outcomes'[i].Drained? && rows'[i].id == id;
    }
    if o.Drained? {
      assert outcomes'[|rows|].Drained? && rows'[|rows|].id == row.id;
    }
  }

  lemma ProgressStep(before: Db, rows: seq<QueueRow>, outcomes: seq<RowOutcome>, after: Db, row: QueueRow,
                     o: RowOutcome, now: int)
    requires |rows| == |outcomes| && Progress(before, rows, outcomes, after)
    ensures Progress(before, rows + [row], outcomes + [o], AfterRow(after, row, o, now))
  {
    DrainedIdsSnoc(rows, outcomes, row, o);
    AttachRowProgress(before.rows, after, row, o, now);
    RecordsProgress(before.queue, after, row, o, now);
  }

  lemma RecordsProgress(before: Queue, after: Db, row: QueueRow, o: RowOutcome, now: int)
    requires SameRecords(before, after.queue)
    ensures SameRecords(before, AfterRow(after, row, o, now).queue)
  {
  }

  lemma AttachRowProgress(rows: map<Id, Place>, after: Db, row: QueueRow, o: RowOutcome, now: int)
    requires RefsOnly(rows, after.rows)
    ensures RefsOnly(rows, AfterRow(after, row, o, now).rows)
  {
    if o.Drained? || o.DeleteFailed? {
      if o.d.placeId in after.rows {
        AttachRefsOnly(rows, after.rows, o.d.placeId, row.source, RefFor(RecordOf(row), o.d, now));
      }
    }
  }

  lemma AttachRefsOnly(rows: map<Id, Place>, rows': map<Id, Place>, id: Id, source: string, ref: ExternalRef)
    requires RefsOnly(rows, rows') && id in rows'
    ensures RefsOnly(rows, Attach(rows', id, source, ref))
  {
  }

  lemma {:induction false} ReplayProgress(before: Db, rows: seq<QueueRow>, outcomes: seq<RowOutcome>, now: nat -> int)
    requires |rows| == |outcomes|
    ensures Progress(before, rows, outcomes, Replay(before, rows, outcomes, now))
  {
    if rows != [] {
      var n := |rows| - 1;
      ReplayProgress(before, rows[..n], outcomes[..n], now);
      ProgressStep(before, rows[..n], outcomes[..n], Replay(before, rows[..n], outcomes[..n], now), rows[n],
          outcomes[n], now(n));
      assert rows[..n] + [rows[n]] == rows && outcomes[..n] + [outcomes[n]] == outcomes;
    }
  }

  // ---- The sweep itself ----

  lemma AttachSound(t: Table, id: Id, source: string, ref: ExternalRef)
    requires Sound(t) && id in t.rows
    ensures Sound(t.(rows := Attach(t.rows, id, source, ref)))
  {
  }

  lemma QueueStaysSound(q: Queue, id: int, now: int)
    requires SoundQueue(q) && id in q.rows
    ensures SoundQueue(Deleted(q, id)) && SoundQueue(Unmatched.Bumped(q, id, now))
  {
  }

  // One iteration: attach strictly before delete, bump when nothing matched.
  method SweepRow(w: World, places: PlaceRepository, unmatched: UnmatchedRepository, row: QueueRow, now: int,
                  fault: RowFault)
    returns (o: RowOutcome)
    requires NonNegativeDistances(w) && Sound(places.table) && SoundQueue(unmatched.queue)
    requires row.id in unmatched.queue.rows
    modifies places, unmatched
    ensures Sound(places.table) && SoundQueue(unmatched.queue)
    ensures places.table.minted == old(places.table.minted)
    ensures Justified(w, old(places.table.rows), row, fault, o)
    ensures Db(places.table.rows, unmatched.queue) == AfterRow(old(Db(places.table.rows, unmatched.queue)), row, o, now)
  {
    var rec := RecordOf(row);
    var m := Match(w, places, rec, fault.find);
    if m.Failure? {
      return MatchFailed;
    }
    var d := m.value;
    QueueStaysSound(unmatched.queue, row.id, now);
    match d.kind {
      case Confident | LowConfidence =>
        AnswerNamesPlace(w, places.table.rows, rec, d);
        AttachSound(places.table, d.placeId, rec.source, RefFor(rec, d, now));
        var err := places.AttachExternalRef(d.placeId, rec.source, RefFor(rec, d, now), fault.attach);
        if err.Some? {
          return AttachFailed(d);
        }
        err := unmatched.Delete(row.id, fault.delete);
        if err.Some? {
          return DeleteFailed(d);
        }
        return Drained(d);
      case NoMatch =>
        assert d == Decision(NoMatch, Unset, 0.0);
        var err := unmatched.BumpAttempts(row.id, now, fault.bump);
        if err.Some? {
          return BumpFailed;
        }
        return Kept;
    }
  }

  lemma RefsOnlySymmetric(rows: map<Id, Place>, rows': map<Id, Place>)
    requires RefsOnly(rows, rows')
    ensures RefsOnly(rows', rows)
  {
  }

  lemma JustifiedBefore(w: World, before: map<Id, Place>, now: map<Id, Place>, row: QueueRow, fault: RowFault,
                        o: RowOutcome)
    requires RefsOnly(before, now) && forall id | id in before :: before[id].id == id
    requires Justified(w, now, row, fault, o)
    ensures Justified(w, before, row, fault, o)
  {
    RefsOnlySymmetric(before, now);
    match o {
      case MatchFailed =>
      case AttachFailed(d) => AnswerIgnoresRefs(w, now, before, RecordOf(row), d);
      case DeleteFailed(d) => AnswerIgnoresRefs(w, now, before, RecordOf(row), d);
      case Drained(d) => AnswerIgnoresRefs(w, now, before, RecordOf(row), d);
      case BumpFailed => AnswerIgnoresRefs(w, now, before, RecordOf(row), Decision(NoMatch, Unset, 0.0));
      case Kept => AnswerIgnoresRefs(w, now, before, RecordOf(row), Decision(NoMatch, Unset, 0.0));
    }
  }

  // Every outcome is the one that Match over the swept table and the injected
  // faults call for, and together they explain the final state.
  ghost predicate SweptAs(w: World, before: Db, rows: seq<QueueRow>, faults: nat -> RowFault,
                          outcomes: seq<RowOutcome>, now: nat -> int, after: Db) {
    && |rows| == |outcomes|
    && (forall i: nat | i < |rows| :: Justified(w, before.rows, rows[i], faults(i), outcomes[i]))
    && after == Replay(before, rows, outcomes, now)
  }

  lemma StillQueued(before: Db, rows: seq<QueueRow>, outcomes: seq<RowOutcome>, after: Db, row: QueueRow)
    requires |rows| == |outcomes| && Progress(before, rows, outcomes, after)
    requires row.id in before.queue.rows && forall i | 0 <= i < |rows| :: rows[i].id != row.id
    ensures row.id in after.queue.rows
  {
  }

  method Sweep(w: World, places: PlaceRepository, unmatched: UnmatchedRepository, touched: seq<Id>, now: nat -> int,
               findFault: bool, faults: nat -> RowFault)
    returns (res: SweepResult, err: Option<string>, ghost rows: seq<QueueRow>, ghost outcomes: seq<RowOutcome>)
    requires NonNegativeDistances(w) && Sound(places.table) && SoundQueue(unmatched.queue)
    modifies places, unmatched
    ensures Sound(places.table) && SoundQueue(unmatched.queue)
    ensures places.table.minted == old(places.table.minted)
    ensures err.Some? <==> findFault && touched != []
    ensures err.Some? ==> res == EMPTY_RESULT && rows == [] && outcomes == []
    ensures err.None? ==>
              ListsRows(old(unmatched.queue), Near(w, old(places.table.rows), old(unmatched.queue), touched, RADIUS_M),
                  rows)
    ensures SweptAs(w, old(Db(places.table.rows, unmatched.queue)), rows, faults, outcomes, now,
              Db(places.table.rows, unmatched.queue))
    ensures res == Tally(|rows|, outcomes)
  {
    rows, outcomes := [], [];
    if |touched| == 0 {
      return EMPTY_RESULT, None, [], [];
    }
    var found := unmatched.FindCandidatesNearTouched(w, places.table.rows, touched, RADIUS_M, findFault);
    if found.Failure? {
      return EMPTY_RESULT, Some("find candidates near touched: " + found.error), [], [];
    }
    var list := found.value;
    ghost var before := Db(places.table.rows, unmatched.queue);
    res := EMPTY_RESULT.(considered := |list|);
    for i := 0 to |list|
      invariant |outcomes| == i
      invariant Sound(places.table) && SoundQueue(unmatched.queue)
      invariant places.table.minted == old(places.table.minted)
      invariant SweptAs(w, before, list[..i], faults, outcomes, now, Db(places.table.rows, unmatched.queue))
      invariant res == Tally(|list|, outcomes)
    {
      ghost var mid := Db(places.table.rows, unmatched.queue);
      ReplayProgress(before, list[..i], outcomes, now);
      StillQueued(before, list[..i], outcomes, mid, list[i]);
      var o := SweepRow(w, places, unmatched, list[i], now(i), faults(i));
      JustifiedBefore(w, before.rows, mid.rows, list[i], faults(i), o);
      SweptSnoc(w, before, list, i, faults, outcomes, o, now, mid);
      outcomes := outcomes + [o];
      res := Count(res, o);
      assert outcomes[..|outcomes| - 1] == outcomes[..i];
    }
    rows := list;
    assert list[..|list|] == list;
    err := None;
  }

  lemma SweptSnoc(w: World, before: Db, rows: seq<QueueRow>, i: nat, faults: nat -> RowFault, outcomes: seq<RowOutcome>,
                  o: RowOutcome, now: nat -> int, mid: Db)
    requires i < |rows| && SweptAs(w, before, rows[..i], faults, outcomes, now, mid)
    requires Justified(w, before.rows, rows[i], faults(i), o)
    ensures SweptAs(w, before, rows[..i + 1], faults, outcomes + [o], now, AfterRow(mid, rows[i], o, now(i)))
  {
    assert rows[..i + 1][..i] == rows[..i] && (outcomes + [o])[..i] == outcomes;
  }

  // The row's reference is on the place and the row is gone.
  ghost predicate Moved(after: Db, row: QueueRow, d: Decision, now: int) {
    && row.id !in after.queue.rows
    && d.placeId in after.rows
    && row.source in after.rows[d.placeId].externalIds
    && after.rows[d.placeId].externalIds[row.source] == ExternalRef(row.sourceId, d.confidence, now)
  }

  lemma DrainMoves(prev: Db, row: QueueRow, d: Decision, now: int)
    requires d.placeId in prev.rows
    ensures Moved(AfterRow(prev, row, Drained(d), now), row, d, now)
  {
  }

  lemma ReplayAt(before: Db, rows: seq<QueueRow>, outcomes: seq<RowOutcome>, now: nat -> int, i: nat)
    requires |rows| == |outcomes| && i < |rows|
    ensures Replay(before, rows[..i + 1], outcomes[..i + 1], now)
         == AfterRow(Replay(before, rows[..i], outcomes[..i], now), rows[i], outcomes[i], now(i))
  {
    assert rows[..i + 1][..i] == rows[..i] && outcomes[..i + 1][..i] == outcomes[..i];
  }

  // No row leaves the queue unless its own reference was attached, in the same
  // iteration, to the place that Match named for it.
  lemma DeletedOnlyAfterAttach(w: World, before: Db, rows: seq<QueueRow>, faults: nat -> RowFault,
                               outcomes: seq<RowOutcome>,
                               now: nat -> int, after: Db, id: int) returns (i: nat, d: Decision)
    requires SweptAs(w, before, rows, faults, outcomes, now, after)
    requires id in before.queue.rows && id !in after.queue.rows
    ensures i < |rows| && rows[i].id == id && outcomes[i] == Drained(d)
    ensures Attachable(w, before.rows, rows[i], d)
    ensures Moved(Replay(before, rows[..i + 1], outcomes[..i + 1], now), rows[i], d, now(i))
  {
    ReplayProgress(before, rows, outcomes, now);
    assert id in DrainedIds(rows, outcomes);
    i :| i < |rows| && outcomes[i].Drained? && rows[i].id == id;
    d := outcomes[i].d;
    assert Justified(w, before.rows, rows[i], faults(i), outcomes[i]);
    ReplayProgress(before, rows[..i], outcomes[..i], now);
    ReplayAt(before, rows, outcomes, now, i);
    DrainMoves(Replay(before, rows[..i], outcomes[..i], now), rows[i], d, now(i));
  }

  // ---- What a sweep does to each row, each place and each counter ----

  ghost predicate DistinctRows(rows: seq<QueueRow>) {
    forall i, j | 0 <= i < j < |rows| :: rows[i].id != rows[j].id
  }

  // The queue holds under id what it held before.
  ghost predicate SameRow(q: Queue, q': Queue, id: int) {
    (id in q.rows <==> id in q'.rows) && (id in q.rows ==> q'.rows[id] == q.rows[id])
  }

  lemma {:induction false} UnlistedRowIsKept(before: Db, rows: seq<QueueRow>, outcomes: seq<RowOutcome>,
                                             now: nat -> int, id: int)
    requires |rows| == |outcomes| && forall i | 0 <= i < |rows| :: rows[i].id != id
    ensures SameRow(before.queue, Replay(before, rows, outcomes, now).queue, id)
  {
    if rows != [] {
      var n := |rows| - 1;
      UnlistedRowIsKept(before, rows[..n], outcomes[..n], now, id);
      assert rows[n].id != id;
    }
  }

  // What one sweep makes of a row it lists: a drained one is gone, one that got
  // NoMatch counts one more attempt at the time of its iteration, and one whose
  // iteration failed is exactly as it was.
  ghost predicate RowSweptAs(q: Queue, q': Queue, id: int, o: RowOutcome, at: int)
    requires id in q.rows
  {
    match o
    case Drained(_) => id !in q'.rows
    case Kept =>
      && id in q'.rows
      && q'.rows[id] == q.rows[id].(attempts := q.rows[id].attempts + 1, lastAttempted := at)
    case MatchFailed | AttachFailed(_) | DeleteFailed(_) | BumpFailed => id in q'.rows && q'.rows[id] == q.rows[id]
  }

  lemma {:induction false} EachRowIsSweptOnce(before: Db, rows: seq<QueueRow>, outcomes: seq<RowOutcome>,
                                              now: nat -> int, i: nat)
    requires |rows| == |outcomes| && DistinctRows(rows) && i < |rows| && rows[i].id in before.queue.rows
    ensures RowSweptAs(before.queue, Replay(before, rows, outcomes, now).queue, rows[i].id, outcomes[i], now(i))
    decreases |rows|
  {
    var n := |rows| - 1;
    var id := rows[i].id;
    if i == n {
      UnlistedRowIsKept(before, rows[..n], outcomes[..n], now, id);
    } else {
      EachRowIsSweptOnce(before, rows[..n], outcomes[..n], now, i);
      assert rows[n].id != id;
    }
  }

  // Iteration i attaches a reference of this source to place p.
  ghost predicate Attaches(rows: seq<QueueRow>, outcomes: seq<RowOutcome>, i: nat, p: Id, source: string) {
    && i < |rows| == |outcomes|
    && (outcomes[i].Drained? || outcomes[i].DeleteFailed?)
    && outcomes[i].d.placeId == p && rows[i].source == source
  }

  // The reference that iteration i attaches.
  function RefOfRow(row: QueueRow, o: RowOutcome, at: int): ExternalRef
    requires o.Drained? || o.DeleteFailed?
  {
    ExternalRef(row.sourceId, o.d.confidence, at)
  }

  ghost predicate SameRef(refs: map<string, ExternalRef>, refs': map<string, ExternalRef>, source: string) {
    (source in refs <==> source in refs') && (source in refs ==> refs'[source] == refs[source])
  }

  // refs holds for this source what the last iteration to attach one to p put
  // there, or what it held before if none did.
  ghost predicate LastAttached(before: map<string, ExternalRef>, rows: seq<QueueRow>, outcomes: seq<RowOutcome>,
                               now: nat -> int, p: Id, source: string, refs: map<string, ExternalRef>)
    requires |rows| == |outcomes|
  {
    || ((forall i | 0 <= i < |rows| :: !Attaches(rows, outcomes, i, p, source)) && SameRef(before, refs, source))
    || (exists i :: 0 <= i < |rows| && Attaches(rows, outcomes, i, p, source)
                    && source in refs && refs[source] == RefOfRow(rows[i], outcomes[i], now(i))
                    && forall j | i < j < |rows| :: !Attaches(rows, outcomes, j, p, source))
  }

  lemma LastAttachedSnoc(before: map<string, ExternalRef>, rows: seq<QueueRow>, outcomes: seq<RowOutcome>,
                         now: nat -> int, p: Id, source: string, mid: map<string, ExternalRef>,
                         refs: map<string, ExternalRef>)
    requires rows != [] && |rows| == |outcomes|
    requires var n := |rows| - 1;
             && LastAttached(before, rows[..n], outcomes[..n], now, p, source, mid)
             && if Attaches(rows, outcomes, n, p, source) then
                  source in refs && refs[source] == RefOfRow(rows[n], outcomes[n], now(n))
                else SameRef(mid, refs, source)
    ensures LastAttached(before, rows, outcomes, now, p, source, refs)
  {
    var n := |rows| - 1;
    var init, inits := rows[..n], outcomes[..n];
    forall i: nat | i < n
      ensures Attaches(rows, outcomes, i, p, source) <==> Attaches(init, inits, i, p, source)
    {
    }
    if !Attaches(rows, outcomes, n, p, source) {
      if i :| 0 <= i < n && Attaches(init, inits, i, p, source)
              && source in mid && mid[source] == RefOfRow(init[i], inits[i], now(i))
              && forall j | i < j < n :: !Attaches(init, inits, j, p, source) {
        assert Attaches(rows, outcomes, i, p, source) && refs[source] == RefOfRow(rows[i], outcomes[i], now(i));
      }
    }
  }

  lemma AttachOne(db: Db, row: QueueRow, o: RowOutcome, at: int, p: Id, source: string)
    requires p in db.rows
    ensures p in AfterRow(db, row, o, at).rows
    ensures var refs := AfterRow(db, row, o, at).rows[p].externalIds;
            if (o.Drained? || o.DeleteFailed?) && o.d.placeId == p && row.source == source then
              source in refs && refs[source] == RefOfRow(row, o, at)
            else SameRef(db.rows[p].externalIds, refs, source)
  {
  }

  // Every reference of every place after a sweep is the one that the last
  // iteration to attach there put there, also when the row could not be deleted
  // afterwards; if none did, it is the one it had.
  lemma {:induction false} LastAttachWins(before: Db, rows: seq<QueueRow>, outcomes: seq<RowOutcome>, now: nat -> int,
                                          p: Id, source: string)
    requires |rows| == |outcomes| && p in before.rows
    ensures p in Replay(before, rows, outcomes, now).rows
    ensures LastAttached(before.rows[p].externalIds, rows, outcomes, now, p, source,
                         Replay(before, rows, outcomes, now).rows[p].externalIds)
  {
    if rows != [] {
      var n := |rows| - 1;
      var mid := Replay(before, rows[..n], outcomes[..n], now);
      LastAttachWins(before, rows[..n], outcomes[..n], now, p, source);
      AttachOne(mid, rows[n], outcomes[n], now(n), p, source);
      LastAttachedSnoc(before.rows[p].externalIds, rows, outcomes, now, p, source, mid.rows[p].externalIds,
                       Replay(before, rows, outcomes, now).rows[p].externalIds);
    }
  }

  // The iterations that ended in a way p describes.
  ghost function Ended(outcomes: seq<RowOutcome>, p: RowOutcome -> bool): set<nat> {
    set i: nat | i < |outcomes| && p(outcomes[i])
  }

  lemma EndedSnoc(outcomes: seq<RowOutcome>, p: RowOutcome -> bool)
    requires outcomes != []
    ensures |Ended(outcomes, p)|
            == |Ended(outcomes[..|outcomes| - 1], p)| + if p(outcomes[|outcomes| - 1]) then 1 else 0
  {
    var n: nat := |outcomes| - 1;
    var init := Ended(outcomes[..n], p);
    assert n !in init;
    assert Ended(outcomes, p) == init + if p(outcomes[n]) then {n} else {};
  }

  const DRAINED_CONFIDENTLY: RowOutcome -> bool := (o: RowOutcome) => o.Drained? && o.d.kind.Confident?

  const DRAINED_OTHERWISE: RowOutcome -> bool := (o: RowOutcome) => o.Drained? && !o.d.kind.Confident?

  const KEPT: RowOutcome -> bool := (o: RowOutcome) => o.Kept?

  const FAILED: RowOutcome -> bool := (o: RowOutcome) => !o.Drained? && !o.Kept?

  // Each counter is the number of iterations that ended its way.
  lemma {:induction false} CountersMean(considered: int, outcomes: seq<RowOutcome>)
    ensures var res := Tally(considered, outcomes);
            && res.considered == considered
            && res.confident == |Ended(outcomes, DRAINED_CONFIDENTLY)|
            && res.lowConfidence == |Ended(outcomes, DRAINED_OTHERWISE)|
            && res.noMatch == |Ended(outcomes, KEPT)|
            && res.errors == |Ended(outcomes, FAILED)|
  {
    if outcomes != [] {
      CountersMean(considered, outcomes[..|outcomes| - 1]);
      EndedSnoc(outcomes, DRAINED_CONFIDENTLY);
      EndedSnoc(outcomes, DRAINED_OTHERWISE);
      EndedSnoc(outcomes, KEPT);
      EndedSnoc(outcomes, FAILED);
    }
  }

  // A row's outcome follows from its faults and its match.
  lemma OutcomeFollows(w: World, rows: map<Id, Place>, row: QueueRow, fault: RowFault, o: RowOutcome)
    requires Justified(w, rows, row, fault, o)
    ensures o.MatchFailed? <==> fault.find
    ensures o.AttachFailed? ==> fault.attach
    ensures o.DeleteFailed? ==> !fault.attach && fault.delete
    ensures o.Drained? ==> !fault.attach && !fault.delete
    ensures o.BumpFailed? ==> fault.bump
    ensures o.Kept? ==> !fault.bump
    ensures o.AttachFailed? || o.DeleteFailed? || o.Drained? ==>
              MatchAnswers(w, rows, RecordOf(row), o.d) && !o.d.kind.NoMatch? && o.d.placeId in rows
    ensures o.BumpFailed? || o.Kept? ==> MatchAnswers(w, rows, RecordOf(row), Decision(NoMatch, Unset, 0.0))
  {
  }

  // The row that a record is queued as, column by column.
  lemma QueuedColumns(r: Record, now: int)
    ensures var row := RowFor(r, now);
            && row.source == r.source && row.sourceId == r.sourceId
            && row.name == r.name && row.at == r.at && row.category == r.category
            && row.street == r.street && row.houseNumber == r.houseNumber
            && row.payload == (if r.payload.Some? then r.payload.value else "{}")
            && row.lastAttempted == now && row.attempts == 1
  {
  }

  // ---- A sweep as statements on the queue ----

  function StatementOf(row: QueueRow, o: RowOutcome, at: int): seq<QueueOp> {
    match o
    case Drained(_) => [OpDelete(row.id)]
    case Kept => [OpBump(row.id, at)]
    case MatchFailed | AttachFailed(_) | DeleteFailed(_) | BumpFailed => []
  }

  function StatementsOf(rows: seq<QueueRow>, outcomes: seq<RowOutcome>, now: nat -> int): seq<QueueOp>
    requires |rows| == |outcomes|
  {
    if rows == [] then []
    else
      var n := |rows| - 1;
      StatementsOf(rows[..n], outcomes[..n], now) + StatementOf(rows[n], outcomes[n], now(n))
  }

  lemma RowIsStatement(db: Db, ops: seq<QueueOp>, row: QueueRow, o: RowOutcome, at: int)
    requires db.queue == QueueAfter(ops)
    ensures AfterRow(db, row, o, at).queue == QueueAfter(ops + StatementOf(row, o, at))
  {
    var next := StatementOf(row, o, at);
    if next == [] {
      assert ops + next == ops;
    } else {
      assert (ops + next)[..|ops + next| - 1] == ops;
    }
  }

  lemma {:induction false} SweepIsStatements(before: Db, ops: seq<QueueOp>, rows: seq<QueueRow>,
                                             outcomes: seq<RowOutcome>, now: nat -> int)
    requires |rows| == |outcomes| && before.queue == QueueAfter(ops)
    ensures Replay(before, rows, outcomes, now).queue == QueueAfter(ops + StatementsOf(rows, outcomes, now))
  {
    if rows == [] {
      assert ops + [] == ops;
    } else {
      var n := |rows| - 1;
      var earlier, last := StatementsOf(rows[..n], outcomes[..n], now), StatementOf(rows[n], outcomes[n], now(n));
      SweepIsStatements(before, ops, rows[..n], outcomes[..n], now);
      RowIsStatement(Replay(before, rows[..n], outcomes[..n], now), ops + earlier, rows[n], outcomes[n], now(n));
      assert ops + (earlier + last) == (ops + earlier) + last;
    }
  }
}

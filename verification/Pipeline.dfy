// The canonical ingest and whole runs of the matching pipeline,
// cmd/ingestion/main.go:106-159 and internal/identity.
module Pipeline {
  import opened Wrappers
  import opened Models
  import opened A11y
  import opened Score
  import opened Places
  import opened Matching
  import opened Unmatched
  import opened Sweeping
  import opened Profiles
  import opened Batching

  // ---- Steps over values ----

  datatype State = State(table: Table, queue: Queue)

  // A record arrives from an external source and is resolved.
  ghost predicate ResolveStep(w: World, s: State, s': State, r: Record, d: Decision, now: int) {
    && MatchAnswers(w, s.table.rows, r, d)
    && (!d.kind.NoMatch? ==> d.placeId in s.table.rows)
    && Db(s'.table.rows, s'.queue) == Resolved(Db(s.table.rows, s.queue), r, d, now)
    && s'.table.minted == s.table.minted
  }

  // The sink of an external source: every record counts once, and an error
  // does not stop the stream.
  class RecordSink {
    var confident: int
    var lowConfidence: int
    var noMatch: int
    var errors: int

    constructor ()
      ensures confident == lowConfidence == noMatch == errors == 0
    {
      confident, lowConfidence, noMatch, errors := 0, 0, 0, 0;
    }

    method Accept(w: World, places: PlaceRepository, unmatched: UnmatchedRepository, r: Record, now: int,
                  fault: ResolveFault)
      returns (ghost answer: Option<Decision>)
      requires NonNegativeDistances(w) && Sound(places.table) && SoundQueue(unmatched.queue)
      modifies this, places, unmatched
      ensures Sound(places.table) && SoundQueue(unmatched.queue)
      ensures answer.None? ==> places.table == old(places.table) && unmatched.queue == old(unmatched.queue)
      ensures answer.Some? ==>
                ResolveStep(w, old(State(places.table, unmatched.queue)), State(places.table, unmatched.queue), r,
                    answer.value, now)
      ensures fault == ResolveFault(false, false, false) ==> answer.Some?
      ensures errors == old(errors) + if answer.None? then 1 else 0
      ensures confident == old(confident) + if answer.Some? && answer.value.kind.Confident? then 1 else 0
      ensures lowConfidence == old(lowConfidence) + if answer.Some? && answer.value.kind.LowConfidence? then 1 else 0
      ensures noMatch == old(noMatch) + if answer.Some? && answer.value.kind.NoMatch? then 1 else 0
    {
      var d := Resolve(w, places, unmatched, r, now, fault);
      if d.Failure? {
        errors := errors + 1;
        return None;
      }
      match d.value.kind {
        case Confident => confident := confident + 1;
        case LowConfidence => lowConfidence := lowConfidence + 1;
        case NoMatch => noMatch := noMatch + 1;
      }
      return Some(d.value);
    }
  }

  // One pass of the sweep: the rows it listed, the faults injected, how each
  // iteration ended, and the tables it left.
  datatype SweepRun = SweepRun(ids: set<int>, rows: seq<QueueRow>, faults: nat -> RowFault,
                               outcomes: seq<RowOutcome>, at: nat -> int, after: Db)

  ghost predicate IsSweep(w: World, table: Table, q: Queue, sweep: SweepRun) {
    && ListsRows(q, sweep.ids, sweep.rows)
    && SweptAs(w, Db(table.rows, q), sweep.rows, sweep.faults, sweep.outcomes, sweep.at, sweep.after)
  }

  // A canonical ingest upserts ps and sweeps the queue near the returned ids.
  ghost predicate IngestStep(w: World, s: State, s': State, ps: seq<Place>, sweep: SweepRun) {
    && UpsertAll(s.table, ps).Some?
    && var (table, touched) := UpsertAll(s.table, ps).value;
       && sweep.ids == Near(w, table.rows, s.queue, touched, RADIUS_M)
       && IsSweep(w, table, s.queue, sweep)
       && sweep.after == Db(s'.table.rows, s'.queue)
       && s'.table.minted == table.minted
  }

  // No database call of the sweep fails, and no fetch is cut by LIMIT 32.
  ghost predicate IsClean(w: World, table: Table, sweep: SweepRun) {
    forall i: nat | i < |sweep.rows| :: sweep.faults(i) == NO_FAULT && Uncut(w, table.rows, RecordOf(sweep.rows[i]))
  }

  // ---- The invariant ----

  // No place Match would consider reaches the attaching threshold.
  ghost predicate Hopeless(w: World, rows: map<Id, Place>, r: Record) {
    AllBelow(Scorer(w, r), rows, Eligible(w, rows, r.at, RADIUS_M, Compatible(r.category)))
  }

  ghost predicate QueueHopeless(w: World, s: State) {
    forall id | id in s.queue.rows :: Hopeless(w, s.table.rows, RecordOf(s.queue.rows[id]))
  }

  ghost predicate SoundState(s: State) {
    Sound(s.table) && SoundQueue(s.queue)
  }

  ghost predicate AllBelow(score: Place -> real, rows: map<Id, Place>, ids: set<Id>) {
    forall id | id in ids && id in rows :: score(rows[id]) < LOW_CONFIDENCE_THRESHOLD
  }

  lemma BelowMeansNoMatch(score: Place -> real, rows: map<Id, Place>, ids: set<Id>, out: seq<Place>, d: Decision)
    requires Chosen(ScoreAll(score, out), out, d)
    requires forall i | 0 <= i < |out| :: out[i].id in ids && out[i].id in rows && rows[out[i].id] == out[i]
    ensures AllBelow(score, rows, ids) ==> d.kind.NoMatch?
    ensures Ids(out) == ids && d.kind.NoMatch? ==> AllBelow(score, rows, ids)
  {
    ChosenMeans(score, out, d);
    if Ids(out) == ids && d.kind.NoMatch? {
      forall id | id in ids && id in rows
        ensures score(rows[id]) < LOW_CONFIDENCE_THRESHOLD
      {
        assert id in Ids(out);
        var i :| 0 <= i < |out| && out[i].id == id;
        assert score(out[i]) < LOW_CONFIDENCE_THRESHOLD;
      }
    }
  }

  // A hopeless record gets NoMatch from every answer of the database; an uncut
  // NoMatch means hopeless.
  lemma HopelessMeansNoMatch(w: World, rows: map<Id, Place>, r: Record, d: Decision)
    requires MatchAnswers(w, rows, r, d)
    ensures Hopeless(w, rows, r) ==> d.kind.NoMatch?
    ensures Uncut(w, rows, r) && d.kind.NoMatch? ==> Hopeless(w, rows, r)
  {
    var cats := Compatible(r.category);
    var out: seq<Place> :| IsFetch(w, rows, r.at, RADIUS_M, cats, out) && DecidedBy(w, r, out, d);
    if Uncut(w, rows, r) {
      UncutFetch(w, rows, r.at, RADIUS_M, cats, out);
    }
    BelowMeansNoMatch(Scorer(w, r), rows, Eligible(w, rows, r.at, RADIUS_M, cats), out, d);
  }

  lemma HopelessIgnoresRefs(w: World, rows: map<Id, Place>, rows': map<Id, Place>, r: Record)
    requires RefsOnly(rows, rows') && Hopeless(w, rows, r)
    ensures Hopeless(w, rows', r)
  {
    EligibleIgnoresRefs(w, rows, rows', r.at, Compatible(r.category));
    forall id | id in Eligible(w, rows', r.at, RADIUS_M, Compatible(r.category))
      ensures Scorer(w, r)(rows'[id]) < LOW_CONFIDENCE_THRESHOLD
    {
      ScoreIgnoresRefs(w, r, rows[id], rows'[id]);
    }
  }

  // Payload and identity of a record play no part.
  lemma HopelessReads(w: World, rows: map<Id, Place>, r: Record, r': Record)
    requires r'.name == r.name && r'.at == r.at && r'.category == r.category
    requires r'.street == r.street && r'.houseNumber == r.houseNumber
    ensures Hopeless(w, rows, r) <==> Hopeless(w, rows, r')
  {
    forall id | id in rows
      ensures Scorer(w, r)(rows[id]) == Scorer(w, r')(rows[id])
    {
    }
  }

  lemma AttachIsRefsOnly(rows: map<Id, Place>, id: Id, source: string, ref: ExternalRef)
    requires id in rows
    ensures RefsOnly(rows, Attach(rows, id, source, ref))
  {
  }

  lemma ResolveKeepsInvariant(w: World, s: State, s': State, r: Record, d: Decision, now: int)
    requires SoundState(s) && QueueHopeless(w, s) && ResolveStep(w, s, s', r, d, now)
    requires Uncut(w, s.table.rows, r)
    ensures SoundState(s') && QueueHopeless(w, s')
  {
    HopelessMeansNoMatch(w, s.table.rows, r, d);
    if d.kind.NoMatch? {
      EnqueuedEffect(s.queue, RowFor(r, now));
      HopelessReads(w, s.table.rows, r, RecordOf(RowFor(r, now)));
    } else {
      var ref := RefFor(r, d, now);
      AttachSound(s.table, d.placeId, r.source, ref);
      AttachIsRefsOnly(s.table.rows, d.placeId, r.source, ref);
      forall id | id in s'.queue.rows
        ensures Hopeless(w, s'.table.rows, RecordOf(s'.queue.rows[id]))
      {
        HopelessIgnoresRefs(w, s.table.rows, s'.table.rows, RecordOf(s.queue.rows[id]));
      }
    }
  }

  // The heart of the touched-only sweep: a hopeless row away from every
  // touched place stays hopeless, wherever the touched places moved from.
  lemma FarRowStaysHopeless(w: World, t: Table, t': Table, touched: seq<Id>, q: Queue, id: int)
    requires Symmetric(w) && id in q.rows && id !in Near(w, t'.rows, q, touched, RADIUS_M)
    requires forall k | k in t'.rows && k !in touched :: k in t.rows && t.rows[k] == t'.rows[k]
    requires Hopeless(w, t.rows, RecordOf(q.rows[id]))
    ensures Hopeless(w, t'.rows, RecordOf(q.rows[id]))
  {
    var r := RecordOf(q.rows[id]);
    forall k | k in Eligible(w, t'.rows, r.at, RADIUS_M, Compatible(r.category))
      ensures k in Eligible(w, t.rows, r.at, RADIUS_M, Compatible(r.category)) && t.rows[k] == t'.rows[k]
    {
      assert w.geodesic(r.at, t'.rows[k].at) == w.geodesic(t'.rows[k].at, r.at);
    }
  }

  ghost predicate Symmetric(w: World) {
    forall p, q :: w.geodesic(p, q) == w.geodesic(q, p)
  }

  // After a clean sweep a considered row has left exactly when it was matchable.
  lemma SweptRowIsSettled(w: World, table: Table, q: Queue, sweep: SweepRun, i: nat)
    requires IsSweep(w, table, q, sweep) && IsClean(w, table, sweep) && i < |sweep.rows|
    ensures sweep.outcomes[i].Drained? <==> !Hopeless(w, table.rows, RecordOf(sweep.rows[i]))
    ensures sweep.outcomes[i].Drained? ==>
              Attachable(w, table.rows, sweep.rows[i], sweep.outcomes[i].d)
                  && Uncut(w, table.rows, RecordOf(sweep.rows[i]))
  {
    var row, o := sweep.rows[i], sweep.outcomes[i];
    assert sweep.faults(i) == NO_FAULT && Uncut(w, table.rows, RecordOf(row));
    assert Justified(w, table.rows, row, sweep.faults(i), o);
    HopelessMeansNoMatch(w, table.rows, RecordOf(row), if o.Drained? then o.d else Decision(NoMatch, Unset, 0.0));
  }

  lemma ProgressStaysSound(before: Db, rows: seq<QueueRow>, outcomes: seq<RowOutcome>, after: Db, minted: nat)
    requires |rows| == |outcomes| && Progress(before, rows, outcomes, after)
    requires Sound(Table(before.rows, minted)) && SoundQueue(before.queue)
    ensures Sound(Table(after.rows, minted)) && SoundQueue(after.queue)
  {
    forall id | id in after.rows
      ensures after.rows[id].id == before.rows[id].id
      ensures after.rows[id].osmId == before.rows[id].osmId && after.rows[id].osmType == before.rows[id].osmType
    {
      assert before.rows[id].osmId == before.rows[id].(externalIds := map[]).osmId;
      assert before.rows[id].osmType == before.rows[id].(externalIds := map[]).osmType;
      SameButRefs(before.rows[id], after.rows[id]);
    }
    forall a, b | a in after.rows && b in after.rows && SameKey(after.rows[a], after.rows[b])
      ensures a == b
    {
      assert SameKey(before.rows[a], before.rows[b]);
    }
    forall a, b | a in after.queue.rows && b in after.queue.rows && SameSource(after.queue.rows[a], after.queue.rows[b])
      ensures a == b
    {
      assert RecordOf(after.queue.rows[a]) == RecordOf(before.queue.rows[a]);
      assert RecordOf(after.queue.rows[b]) == RecordOf(before.queue.rows[b]);
      assert SameSource(before.queue.rows[a], before.queue.rows[b]);
    }
  }

  // A row is in the queue after a clean sweep exactly when it was there before
  // and is hopeless or was not considered.
  lemma SurvivesIffHopeless(w: World, table: Table, q: Queue, sweep: SweepRun, id: int)
    requires IsSweep(w, table, q, sweep) && IsClean(w, table, sweep) && id in q.rows
    ensures id in sweep.after.queue.rows <==> id !in sweep.ids || Hopeless(w, table.rows, RecordOf(q.rows[id]))
  {
    if id in sweep.ids {
      var i :| 0 <= i < |sweep.rows| && sweep.rows[i].id == id;
      SweptRowIsSettled(w, table, q, sweep, i);
      LeavesIffDrained(w, table, q, sweep, i);
    } else {
      UnlistedRowStays(w, table, q, sweep, id);
    }
  }

  lemma LeavesIffDrained(w: World, table: Table, q: Queue, sweep: SweepRun, i: nat)
    requires IsSweep(w, table, q, sweep) && i < |sweep.rows|
    ensures q.rows[sweep.rows[i].id] == sweep.rows[i]
    ensures sweep.rows[i].id in sweep.after.queue.rows <==> !sweep.outcomes[i].Drained?
  {
    ReplayProgress(Db(table.rows, q), sweep.rows, sweep.outcomes, sweep.at);
    DrainedOnce(sweep.rows, sweep.outcomes, i);
  }

  lemma DrainedOnce(rows: seq<QueueRow>, outcomes: seq<RowOutcome>, i: nat)
    requires i < |rows| == |outcomes| && forall j, k | 0 <= j < k < |rows| :: rows[j].id != rows[k].id
    ensures rows[i].id in DrainedIds(rows, outcomes) <==> outcomes[i].Drained?
  {
  }

  lemma UnlistedRowStays(w: World, table: Table, q: Queue, sweep: SweepRun, id: int)
    requires IsSweep(w, table, q, sweep) && id in q.rows && id !in sweep.ids
    ensures id in sweep.after.queue.rows
  {
    ReplayProgress(Db(table.rows, q), sweep.rows, sweep.outcomes, sweep.at);
    assert id !in DrainedIds(sweep.rows, sweep.outcomes);
  }

  lemma IngestKeepsInvariant(w: World, s: State, s': State, ps: seq<Place>, sweep: SweepRun)
    requires Symmetric(w) && SoundState(s) && QueueHopeless(w, s)
    requires IngestStep(w, s, s', ps, sweep) && IsClean(w, UpsertAll(s.table, ps).value.0, sweep)
    ensures SoundState(s') && QueueHopeless(w, s')
  {
    var (table, touched) := UpsertAll(s.table, ps).value;
    UpsertAllEffect(s.table, ps);
    ReplayProgress(Db(table.rows, s.queue), sweep.rows, sweep.outcomes, sweep.at);
    ProgressStaysSound(Db(table.rows, s.queue), sweep.rows, sweep.outcomes, sweep.after, table.minted);
    forall id | id in s'.queue.rows
      ensures Hopeless(w, s'.table.rows, RecordOf(s'.queue.rows[id]))
    {
      SurvivesIffHopeless(w, table, s.queue, sweep, id);
      if id !in sweep.ids {
        FarRowStaysHopeless(w, s.table, table, touched, s.queue, id);
      }
      HopelessIgnoresRefs(w, table.rows, s'.table.rows, RecordOf(s.queue.rows[id]));
    }
  }

  // A queued record is attached by the first clean ingest that brings, or
  // moves, a place it matches: nothing that waits is ever passed over.
  lemma ArrivalDrainsWaitingRow(w: World, s: State, s': State, ps: seq<Place>, sweep: SweepRun, id: int, k: Id)
    requires Symmetric(w) && SoundState(s) && IngestStep(w, s, s', ps, sweep)
    requires IsClean(w, UpsertAll(s.table, ps).value.0, sweep) && id in s.queue.rows
    requires var (table, touched) := UpsertAll(s.table, ps).value;
             var r := RecordOf(s.queue.rows[id]);
             k in touched && k in Eligible(w, table.rows, r.at, RADIUS_M, Compatible(r.category))
             && Scorer(w, r)(table.rows[k]) >= LOW_CONFIDENCE_THRESHOLD
    ensures id !in s'.queue.rows
    ensures exists kind, confidence :: DrainedAs(sweep, id, kind, confidence)
  {
    var (table, touched) := UpsertAll(s.table, ps).value;
    var j :| 0 <= j < |touched| && touched[j] == k;
    var row := s.queue.rows[id];
    assert w.geodesic(row.at, table.rows[touched[j]].at) == w.geodesic(table.rows[touched[j]].at, row.at);
    assert id in sweep.ids;
    SurvivesIffHopeless(w, table, s.queue, sweep, id);
    var d := GoneMeansDrained(w, table, s.queue, sweep, id);
  }

  // A row that a sweep should have drained but did not, because it never
  // started or a statement failed, is not reconsidered by the next ingest as
  // such: away from the places that ingest touches it stays queued, and stays
  // matchable by the place it matched before.
  lemma MissedRowIsNotReconsidered(w: World, s: State, s': State, ps: seq<Place>, sweep: SweepRun, id: int, k: Id)
    requires SoundState(s) && IngestStep(w, s, s', ps, sweep)
    requires id in s.queue.rows && id !in sweep.ids
    requires k in s.table.rows && k !in UpsertAll(s.table, ps).value.1
    requires var r := RecordOf(s.queue.rows[id]);
             k in Eligible(w, s.table.rows, r.at, RADIUS_M, Compatible(r.category))
             && Scorer(w, r)(s.table.rows[k]) >= LOW_CONFIDENCE_THRESHOLD
    ensures id in s'.queue.rows && !Hopeless(w, s'.table.rows, RecordOf(s'.queue.rows[id]))
  {
    var (table, touched) := UpsertAll(s.table, ps).value;
    var r := RecordOf(s.queue.rows[id]);
    UpsertAllEffect(s.table, ps);
    ReplayProgress(Db(table.rows, s.queue), sweep.rows, sweep.outcomes, sweep.at);
    EligibleIgnoresRefs(w, table.rows, s'.table.rows, r.at, Compatible(r.category));
    ScoreIgnoresRefs(w, r, table.rows[k], s'.table.rows[k]);
    assert k in Eligible(w, table.rows, r.at, RADIUS_M, Compatible(r.category));
  }

  // ---- Whole runs ----

  datatype Step = Resolving(r: Record, d: Decision, at: int) | Ingesting(ps: seq<Place>, sweep: SweepRun)

  // One error-free step in which LIMIT 32 cuts nothing.
  ghost predicate CleanStep(w: World, s: State, s': State, step: Step) {
    match step
    case Resolving(r, d, at) => ResolveStep(w, s, s', r, d, at) && Uncut(w, s.table.rows, r)
    case Ingesting(ps, sweep) => IngestStep(w, s, s', ps, sweep) && IsClean(w, UpsertAll(s.table, ps).value.0, sweep)
  }

  ghost predicate CleanRun(w: World, states: seq<State>, steps: seq<Step>) {
    && |states| == |steps| + 1
    && forall i | 0 <= i < |steps| :: CleanStep(w, states[i], states[i + 1], steps[i])
  }

  // Every row left in the queue is one that Match answers NoMatch for.
  ghost predicate QueueSettled(w: World, s: State) {
    forall id, d | id in s.queue.rows && MatchAnswers(w, s.table.rows, RecordOf(s.queue.rows[id]), d) :: d.kind.NoMatch?
  }

  lemma StepKeepsInvariant(w: World, s: State, s': State, step: Step)
    requires Symmetric(w) && SoundState(s) && QueueHopeless(w, s) && CleanStep(w, s, s', step)
    ensures SoundState(s') && QueueHopeless(w, s')
  {
    match step {
      case Resolving(r, d, at) => ResolveKeepsInvariant(w, s, s', r, d, at);
      case Ingesting(ps, sweep) => IngestKeepsInvariant(w, s, s', ps, sweep);
    }
  }

  lemma {:induction false} RunKeepsInvariant(w: World, states: seq<State>, steps: seq<Step>, n: nat)
    requires Symmetric(w) && CleanRun(w, states, steps) && n < |states|
    requires SoundState(states[0]) && states[0].queue.rows == map[]
    ensures SoundState(states[n]) && QueueHopeless(w, states[n])
  {
    if n > 0 {
      RunKeepsInvariant(w, states, steps, n - 1);
      StepKeepsInvariant(w, states[n - 1], states[n - 1 + 1], steps[n - 1]);
    }
  }

  // Over every error-free run that starts with an empty queue, the queue holds
  // only records that no current place matches.
  lemma QueueStaysDrained(w: World, states: seq<State>, steps: seq<Step>)
    requires Symmetric(w) && CleanRun(w, states, steps)
    requires SoundState(states[0]) && states[0].queue.rows == map[]
    ensures forall n | 0 <= n < |states| :: QueueSettled(w, states[n])
  {
    forall n | 0 <= n < |states|
      ensures QueueSettled(w, states[n])
    {
      RunKeepsInvariant(w, states, steps, n);
      forall id, d | id in states[n].queue.rows
          && MatchAnswers(w, states[n].table.rows, RecordOf(states[n].queue.rows[id]), d)
        ensures d.kind.NoMatch?
      {
        HopelessMeansNoMatch(w, states[n].table.rows, RecordOf(states[n].queue.rows[id]), d);
      }
    }
  }

  // ---- What a record's arrival leaves ----

  // A matched record is attached: its own reference stands on the place that
  // Match named, nothing else of any place changes, and the queue is as it was.
  lemma MatchedRecordIsAttached(w: World, s: State, s': State, r: Record, d: Decision, now: int)
    requires ResolveStep(w, s, s', r, d, now) && !d.kind.NoMatch?
    ensures s'.queue == s.queue && s'.table.rows.Keys == s.table.rows.Keys && d.placeId in s'.table.rows
    ensures r.source in s'.table.rows[d.placeId].externalIds
    ensures s'.table.rows[d.placeId].externalIds[r.source] == ExternalRef(r.sourceId, d.confidence, now)
    ensures forall source | source != r.source ::
              SameRef(s.table.rows[d.placeId].externalIds, s'.table.rows[d.placeId].externalIds, source)
    ensures s'.table.rows[d.placeId].(externalIds := map[]) == s.table.rows[d.placeId].(externalIds := map[])
    ensures forall k | k in s.table.rows && k != d.placeId :: s'.table.rows[k] == s.table.rows[k]
  {
  }

  // An unmatched record is queued: the row of its source key carries the whole
  // record, was last tried now and counts one attempt more than before, or one.
  // Places and all other rows are as they were.
  lemma UnmatchedRecordIsQueued(w: World, s: State, s': State, r: Record, d: Decision, now: int) returns (id: int)
    requires ResolveStep(w, s, s', r, d, now) && d.kind.NoMatch? && SoundQueue(s.queue)
    ensures s'.table == s.table && id in s'.queue.rows
    ensures forall k | k != id :: SameRow(s.queue, s'.queue, k)
    ensures var row := s'.queue.rows[id];
            && row.source == r.source && row.sourceId == r.sourceId
            && row.name == r.name && row.at == r.at && row.category == r.category
            && row.street == r.street && row.houseNumber == r.houseNumber
            && row.payload == (if r.payload.Some? then r.payload.value else "{}")
            && row.lastAttempted == now
            && row.attempts == if id in s.queue.rows then s.queue.rows[id].attempts + 1 else 1
    ensures forall k | k in s.queue.rows && s.queue.rows[k].source == r.source
              && s.queue.rows[k].sourceId == r.sourceId ::
              k == id
  {
    var u := RowFor(r, now);
    QueuedColumns(r, now);
    id := if Twin(s.queue, u).Some? then Twin(s.queue, u).value else s.queue.nextId;
    forall k | k in s.queue.rows && s.queue.rows[k].source == r.source && s.queue.rows[k].sourceId == r.sourceId
      ensures k == id
    {
      TwinIsUnique(s.queue, u, k);
    }
  }

  // ---- Attempts over whole runs ----

  // A step with any faults and any cuts.
  ghost predicate AnyStep(w: World, s: State, s': State, step: Step) {
    match step
    case Resolving(r, d, at) => ResolveStep(w, s, s', r, d, at)
    case Ingesting(ps, sweep) => IngestStep(w, s, s', ps, sweep)
  }

  ghost predicate AnyRun(w: World, states: seq<State>, steps: seq<Step>) {
    && |states| == |steps| + 1
    && forall i | 0 <= i < |steps| :: AnyStep(w, states[i], states[i + 1], steps[i])
  }

  function StepStatements(step: Step): seq<QueueOp> {
    match step
    case Resolving(r, d, at) => if d.kind.NoMatch? then [OpEnqueue(RowFor(r, at))] else []
    case Ingesting(ps, sweep) =>
      if |sweep.rows| == |sweep.outcomes| then StatementsOf(sweep.rows, sweep.outcomes, sweep.at) else []
  }

  function RunStatements(steps: seq<Step>): seq<QueueOp> {
    if steps == [] then [] else RunStatements(steps[..|steps| - 1]) + StepStatements(steps[|steps| - 1])
  }

  lemma StepIsStatements(w: World, s: State, s': State, step: Step, ops: seq<QueueOp>)
    requires AnyStep(w, s, s', step) && s.queue == QueueAfter(ops)
    ensures s'.queue == QueueAfter(ops + StepStatements(step))
  {
    var next := StepStatements(step);
    match step {
      case Resolving(r, d, at) =>
        if d.kind.NoMatch? {
          assert (ops + next)[..|ops + next| - 1] == ops;
        } else {
          assert ops + next == ops;
        }
      case Ingesting(ps, sweep) =>
        SweepIsStatements(Db(UpsertAll(s.table, ps).value.0.rows, s.queue), ops, sweep.rows, sweep.outcomes, sweep.at);
    }
  }

  lemma {:induction false} RunIsStatements(w: World, states: seq<State>, steps: seq<Step>)
    requires AnyRun(w, states, steps) && states[0].queue == Queue(map[], 1)
    ensures states[|steps|].queue == QueueAfter(RunStatements(steps))
    decreases |steps|
  {
    if steps != [] {
      var n := |steps| - 1;
      RunIsStatements(w, states[..n + 1], steps[..n]);
      assert AnyStep(w, states[n], states[n + 1], steps[n]);
      StepIsStatements(w, states[n], states[n + 1], steps[n], RunStatements(steps[..n]));
    }
  }

  // Over every run of arrivals and ingests, whatever fails in them, the
  // attempts of a queued row are 1 plus the arrivals of its record and the
  // sweeps that found no match for it since it was queued.
  lemma AttemptsOverRuns(w: World, states: seq<State>, steps: seq<Step>, id: int) returns (born: nat)
    requires AnyRun(w, states, steps) && states[0].queue == Queue(map[], 1)
    requires id in states[|steps|].queue.rows
    ensures BornAt(RunStatements(steps), born, id)
    ensures CountedSince(RunStatements(steps), states[|steps|].queue.rows[id], born)
  {
    RunIsStatements(w, states, steps);
    NewRowsStartAtOne(steps);
    born := AttemptsCountVisits(RunStatements(steps), id);
  }

  lemma {:induction false} NewRowsStartAtOne(steps: seq<Step>)
    ensures forall i | 0 <= i < |RunStatements(steps)| && RunStatements(steps)[i].OpEnqueue? ::
              RunStatements(steps)[i].u.attempts == 1
  {
    if steps != [] {
      NewRowsStartAtOne(steps[..|steps| - 1]);
      var step := steps[|steps| - 1];
      if step.Ingesting? && |step.sweep.rows| == |step.sweep.outcomes| {
        SweepsEnqueueNothing(step.sweep.rows, step.sweep.outcomes, step.sweep.at);
      }
    }
  }

  lemma {:induction false} SweepsEnqueueNothing(rows: seq<QueueRow>, outcomes: seq<RowOutcome>, now: nat -> int)
    requires |rows| == |outcomes|
    ensures forall i | 0 <= i < |StatementsOf(rows, outcomes, now)| :: !StatementsOf(rows, outcomes, now)[i].OpEnqueue?
  {
    if rows != [] {
      SweepsEnqueueNothing(rows[..|rows| - 1], outcomes[..|rows| - 1], now);
    }
  }

  // ---- The touched-only sweep is the full sweep ----

  // Row id left the queue in a sweep that matched it in this band with this score.
  ghost predicate DrainedAs(sweep: SweepRun, id: int, kind: Kind, confidence: real)
    requires |sweep.rows| == |sweep.outcomes|
  {
    exists i :: 0 <= i < |sweep.rows| && sweep.rows[i].id == id && sweep.outcomes[i].Drained?
                && sweep.outcomes[i].d.kind == kind && sweep.outcomes[i].d.confidence == confidence
  }

  // A drained row was in the queue, has left it, and got an uncut answer.
  lemma DrainedMeans(w: World, table: Table, q: Queue, sweep: SweepRun, id: int, kind: Kind, confidence: real)
    returns (d: Decision)
    requires IsSweep(w, table, q, sweep) && IsClean(w, table, sweep) && DrainedAs(sweep, id, kind, confidence)
    ensures id in q.rows && id !in sweep.after.queue.rows
    ensures MatchAnswers(w, table.rows, RecordOf(q.rows[id]), d) && Uncut(w, table.rows, RecordOf(q.rows[id]))
    ensures d.kind == kind && d.confidence == confidence
  {
    var i :| 0 <= i < |sweep.rows| && sweep.rows[i].id == id && sweep.outcomes[i].Drained?
             && sweep.outcomes[i].d.kind == kind && sweep.outcomes[i].d.confidence == confidence;
    d := sweep.outcomes[i].d;
    SweptRowIsSettled(w, table, q, sweep, i);
    LeavesIffDrained(w, table, q, sweep, i);
  }

  lemma GoneMeansDrained(w: World, table: Table, q: Queue, sweep: SweepRun, id: int) returns (d: Decision)
    requires IsSweep(w, table, q, sweep) && IsClean(w, table, sweep) && id in q.rows && id !in sweep.after.queue.rows
    ensures MatchAnswers(w, table.rows, RecordOf(q.rows[id]), d)
    ensures DrainedAs(sweep, id, d.kind, d.confidence)
  {
    var i := GoneAt(w, table, q, sweep, id);
    SweptRowIsSettled(w, table, q, sweep, i);
    d := sweep.outcomes[i].d;
  }

  lemma GoneAt(w: World, table: Table, q: Queue, sweep: SweepRun, id: int) returns (i: nat)
    requires IsSweep(w, table, q, sweep) && id in q.rows && id !in sweep.after.queue.rows
    ensures i < |sweep.rows| && sweep.outcomes[i].Drained? && sweep.rows[i].id == id
    ensures sweep.rows[i] == q.rows[id]
  {
    ReplayProgress(Db(table.rows, q), sweep.rows, sweep.outcomes, sweep.at);
    assert id in DrainedIds(sweep.rows, sweep.outcomes);
    i :| 0 <= i < |sweep.rows| && sweep.outcomes[i].Drained? && sweep.rows[i].id == id;
  }

  lemma SameDrained(w: World, table: Table, q: Queue, sweep: SweepRun, other: SweepRun, id: int, kind: Kind,
                    confidence: real)
    requires IsSweep(w, table, q, sweep) && IsClean(w, table, sweep)
    requires IsSweep(w, table, q, other) && IsClean(w, table, other)
    requires sweep.after.queue.rows.Keys == other.after.queue.rows.Keys
    ensures DrainedAs(sweep, id, kind, confidence) ==> DrainedAs(other, id, kind, confidence)
  {
    if DrainedAs(sweep, id, kind, confidence) {
      var d := DrainedMeans(w, table, q, sweep, id, kind, confidence);
      var e := GoneMeansDrained(w, table, q, other, id);
      UncutAnswersAgree(w, table.rows, RecordOf(q.rows[id]), d, e);
    }
  }

  lemma SameSurvivors(w: World, s: State, table: Table, touched: seq<Id>, sweep: SweepRun, full: SweepRun, id: int)
    requires Symmetric(w) && QueueHopeless(w, s) && id in s.queue.rows
    requires forall k | k in table.rows && k !in touched :: k in s.table.rows && s.table.rows[k] == table.rows[k]
    requires sweep.ids == Near(w, table.rows, s.queue, touched, RADIUS_M) && full.ids == s.queue.rows.Keys
    requires IsSweep(w, table, s.queue, sweep) && IsClean(w, table, sweep)
    requires IsSweep(w, table, s.queue, full) && IsClean(w, table, full)
    ensures id in sweep.after.queue.rows <==> id in full.after.queue.rows
  {
    SurvivesIffHopeless(w, table, s.queue, sweep, id);
    SurvivesIffHopeless(w, table, s.queue, full, id);
    if id !in sweep.ids {
      FarRowStaysHopeless(w, s.table, table, touched, s.queue, id);
    }
  }

  // Re-matching only the rows near touched places drains the same rows, with
  // the same band and confidence, as re-matching the whole queue in any order.
  lemma TouchedSweepIsFullSweep(w: World, s: State, ps: seq<Place>, sweep: SweepRun, full: SweepRun)
    requires Symmetric(w) && SoundState(s) && QueueHopeless(w, s) && UpsertAll(s.table, ps).Some?
    requires var (table, touched) := UpsertAll(s.table, ps).value;
             && sweep.ids == Near(w, table.rows, s.queue, touched, RADIUS_M)
             && full.ids == s.queue.rows.Keys
             && IsSweep(w, table, s.queue, sweep) && IsClean(w, table, sweep)
             && IsSweep(w, table, s.queue, full) && IsClean(w, table, full)
    ensures sweep.after.queue.rows.Keys == full.after.queue.rows.Keys
    ensures forall id | id in sweep.after.queue.rows ::
              RecordOf(sweep.after.queue.rows[id]) == RecordOf(full.after.queue.rows[id])
    ensures forall id, kind, confidence ::
              DrainedAs(sweep, id, kind, confidence) <==> DrainedAs(full, id, kind, confidence)
  {
    var (table, touched) := UpsertAll(s.table, ps).value;
    UpsertAllEffect(s.table, ps);
    ReplayProgress(Db(table.rows, s.queue), sweep.rows, sweep.outcomes, sweep.at);
    ReplayProgress(Db(table.rows, s.queue), full.rows, full.outcomes, full.at);
    forall id | id in s.queue.rows
      ensures id in sweep.after.queue.rows <==> id in full.after.queue.rows
    {
      SameSurvivors(w, s, table, touched, sweep, full, id);
    }
    assert sweep.after.queue.rows.Keys == full.after.queue.rows.Keys;
    forall id, kind, confidence
      ensures DrainedAs(sweep, id, kind, confidence) <==> DrainedAs(full, id, kind, confidence)
    {
      SameDrained(w, table, s.queue, sweep, full, id, kind, confidence);
      SameDrained(w, table, s.queue, full, sweep, id, kind, confidence);
    }
  }

  // ---- The ingest itself ----

  ghost function PlacesOf(stream: seq<(Place, Option<Profile>)>): seq<Place> {
    seq(|stream|, i requires 0 <= i < |stream| => stream[i].0)
  }

  ghost function ProfilesOf(stream: seq<(Place, Option<Profile>)>): seq<Option<Profile>> {
    seq(|stream|, i requires 0 <= i < |stream| => stream[i].1)
  }

  lemma NextBatch(stream: seq<(Place, Option<Profile>)>, flushed: seq<Place>, buffer: seq<Place>, i: nat)
    requires i < |stream| && flushed + buffer == PlacesOf(stream)[..i]
    ensures PlacesOf(stream)[..i + 1] == PlacesOf(stream)[..i] + [stream[i].0]
    ensures ProfilesOf(stream)[..i + 1] == ProfilesOf(stream)[..i] + [stream[i].1]
    ensures DistinctKeys(PlacesOf(stream)) ==> DistinctKeys(buffer + [stream[i].0])
    ensures Fresh(PlacesOf(stream)) ==> Fresh(buffer + [stream[i].0])
  {
    assert PlacesOf(stream)[..i + 1] == flushed + (buffer + [stream[i].0]);
    PartOfStream(flushed, buffer + [stream[i].0], PlacesOf(stream));
  }

  // Sink the whole stream and flush what is left. What the tables hold then
  // does not depend on the batch size.
  method FlushAll(stream: seq<(Place, Option<Profile>)>, size: int, places: PlaceRepository,
                  profiles: ProfileRepository,
                  now: int, faults: nat -> FlushFault)
    returns (err: Option<string>, touched: seq<Id>)
    requires Sound(places.table)
    modifies places, profiles
    ensures Sound(places.table)
    ensures err.None? ==>
              && UpsertAll(old(places.table), PlacesOf(stream)) == Some((places.table, touched))
              && |touched| == |stream|
              && profiles.rows == WriteAll(old(profiles.rows), touched, ProfilesOf(stream), now).0
    ensures DistinctKeys(PlacesOf(stream)) && Fresh(PlacesOf(stream)) && (forall i :: faults(i) == NO_FLUSH_FAULT) ==>
              err.None?
  {
    var b := new Batcher(size, places, profiles, now);
    for i := 0 to |stream|
      invariant fresh(b) && b.places == places && b.profiles == profiles && b.now == now
      invariant b.baseTable == old(places.table) && b.baseProfiles == old(profiles.rows)
      invariant b.Valid()
      invariant b.Stream() == PlacesOf(stream)[..i] && b.ProfileStream() == ProfilesOf(stream)[..i]
    {
      NextBatch(stream, b.flushed, b.buffer, i);
      err := b.Sink(stream[i].0, stream[i].1, faults(i));
      if err.Some? {
        return err, [];
      }
    }
    assert PlacesOf(stream)[..|stream|] == PlacesOf(stream) && ProfilesOf(stream)[..|stream|] == ProfilesOf(stream);
    PartOfStream(b.flushed, b.buffer, PlacesOf(stream));
    err := b.FlushNow(faults(|stream|));
    if err.Some? {
      return err, [];
    }
    assert b.flushed == PlacesOf(stream) && b.flushedProfiles == ProfilesOf(stream);
    return None, b.touchedIDs;
  }

  // An ingest whose sweep cannot start: the places are in, the queue is as it was.
  ghost predicate SweepFailedStep(s: State, s': State, ps: seq<Place>) {
    && UpsertAll(s.table, ps).Some?
    && s' == State(UpsertAll(s.table, ps).value.0, s.queue)
  }

  // What a stream makes of the profiles, each written to its own place's id.
  ghost predicate ProfilesWritten(table: Table, before: ProfileTable, after: ProfileTable,
                                  stream: seq<(Place, Option<Profile>)>, now: int) {
    && UpsertAll(table, PlacesOf(stream)).Some?
    && var ids := UpsertAll(table, PlacesOf(stream)).value.1;
       |ids| == |stream| && after == WriteAll(before, ids, ProfilesOf(stream), now).0
  }

  // Flush everything, then sweep near everything touched; a sweep that fails
  // to start does not fail the run.
  method RunCanonical(w: World, stream: seq<(Place, Option<Profile>)>, size: int,
                      places: PlaceRepository, profiles: ProfileRepository, unmatched: UnmatchedRepository,
                      now: int, sweepNow: nat -> int, flushFaults: nat -> FlushFault, findFault: bool,
                      sweepFaults: nat -> RowFault)
    returns (err: Option<string>, ghost sweep: SweepRun)
    requires NonNegativeDistances(w) && Sound(places.table) && SoundQueue(unmatched.queue)
    modifies places, profiles, unmatched
    ensures Sound(places.table) && SoundQueue(unmatched.queue)
    ensures err.None? ==> ProfilesWritten(old(places.table), old(profiles.rows), profiles.rows, stream, now)
    ensures err.None? && !findFault ==>
              sweep.faults == sweepFaults
              && IngestStep(w, old(State(places.table, unmatched.queue)), State(places.table, unmatched.queue),
                  PlacesOf(stream), sweep)
    ensures err.None? && findFault ==>
              SweepFailedStep(old(State(places.table, unmatched.queue)), State(places.table, unmatched.queue),
                  PlacesOf(stream))
    ensures err.Some? ==> unmatched.queue == old(unmatched.queue)
    ensures DistinctKeys(PlacesOf(stream)) && Fresh(PlacesOf(stream))
              && (forall i :: flushFaults(i) == NO_FLUSH_FAULT) ==>
              err.None?
  {
    sweep := SweepRun({}, [], sweepFaults, [], sweepNow, Db(places.table.rows, unmatched.queue));
    var touched;
    err, touched := FlushAll(stream, size, places, profiles, now, flushFaults);
    if err.Some? {
      return;
    }
    ghost var table := places.table;
    ghost var near := Near(w, table.rows, unmatched.queue, touched, RADIUS_M);
    var res, sweepErr;
    ghost var rows, outcomes;
    res, sweepErr, rows, outcomes := Sweep(w, places, unmatched, touched, sweepNow, findFault, sweepFaults);
    sweep := SweepRun(near, rows, sweepFaults, outcomes, sweepNow, Db(places.table.rows, unmatched.queue));
    if findFault {
      assert rows == [];
      SameTable(table, places.table);
    }
  }

  lemma SameTable(t: Table, t': Table)
    requires t'.rows == t.rows && t'.minted == t.minted
    ensures t' == t
  {
  }

  lemma PartOfStream(a: seq<Place>, part: seq<Place>, all: seq<Place>)
    requires |a| + |part| <= |all| && all[..|a| + |part|] == a + part
    ensures DistinctKeys(all) ==> DistinctKeys(part)
    ensures Fresh(all) ==> Fresh(part)
  {
    assert forall i | 0 <= i < |part| :: part[i] == all[|a| + i];
  }
}

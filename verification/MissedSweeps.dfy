// What a failed sweep leaves behind, internal/identity/sweep.go:46-57 and
// cmd/ingestion/main.go:126-138.
module MissedSweeps {
  import opened Wrappers
  import opened Models
  import opened Normalization
  import opened Score
  import opened Places
  import opened Matching
  import opened Unmatched
  import opened Sweeping
  import opened Pipeline

  const NOTHING := State(Table(map[], 0), Queue(map[], 1))

  const NO_MATCH := Decision(NoMatch, Unset, 0.0)

  // Match would attach r to p.
  ghost predicate Matches(w: World, r: Record, p: Place) {
    && p.status.Active? && p.category in Compatible(r.category)
    && w.geodesic(p.at, r.at) <= RADIUS_M
    && Scorer(w, r)(p) >= LOW_CONFIDENCE_THRESHOLD
  }

  // Row id is queued although every answer of Match attaches its record.
  ghost predicate Overlooked(w: World, s: State, id: int) {
    && id in s.queue.rows
    && Uncut(w, s.table.rows, RecordOf(s.queue.rows[id]))
    && forall d | MatchAnswers(w, s.table.rows, RecordOf(s.queue.rows[id]), d) :: !d.kind.NoMatch?
  }

  lemma OneUpsert(t: Table, p: Place, t': Table, id: Id)
    requires UpsertRow(t, p) == Some((t', id))
    ensures UpsertAll(t, [p]) == Some((t', [id]))
  {
    var ps := [p];
    assert ps[..|ps| - 1] == [];
    assert UpsertAll(t, []) == Some((t, []));
    assert [] + [id] == [id];
  }

  lemma NewRow(t: Table, p: Place)
    requires Sound(t) && p.id.Unset? && !Conflicts(t, p)
    ensures var id := Uuid(t.minted); UpsertRow(t, p) == Some((Table(t.rows[id := p.(id := id)], t.minted + 1), id))
  {
    assert p.id !in t.rows;
  }

  // A new place is stored under the next UUID.
  lemma NewPlace(t: Table, p: Place)
    requires Sound(t) && p.id.Unset? && !Conflicts(t, p)
    ensures var id := Uuid(t.minted);
            UpsertAll(t, [p]) == Some((Table(t.rows[id := p.(id := id)], t.minted + 1), [id]))
  {
    var id := Uuid(t.minted);
    NewRow(t, p);
    OneUpsert(t, p, Table(t.rows[id := p.(id := id)], t.minted + 1), id);
  }

  lemma ScoreIgnoresId(w: World, r: Record, p: Place, id: Id)
    ensures Scorer(w, r)(p.(id := id)) == Scorer(w, r)(p)
  {
  }

  lemma MatchableIsOverlooked(w: World, s: State, id: int, k: Id)
    requires id in s.queue.rows && k in s.table.rows && |s.table.rows| <= CANDIDATE_LIMIT
    requires Matches(w, RecordOf(s.queue.rows[id]), s.table.rows[k])
    ensures Overlooked(w, s, id)
  {
    var rows, r := s.table.rows, RecordOf(s.queue.rows[id]);
    SubsetSize(Eligible(w, rows, r.at, RADIUS_M, Compatible(r.category)), rows.Keys);
    assert k in Eligible(w, rows, r.at, RADIUS_M, Compatible(r.category));
    forall d | MatchAnswers(w, rows, r, d)
      ensures !d.kind.NoMatch?
    {
      HopelessMeansNoMatch(w, rows, r, d);
    }
  }

  // The steps of the run below, each from the state before it.
  function Queued(r: Record, now: int): State {
    State(Table(map[], 0), Queue(map[1 := RowFor(r, now).(id := 1)], 2))
  }

  function Stored(r: Record, now: int, p: Place): State {
    Queued(r, now).(table := Table(map[Uuid(0) := p.(id := Uuid(0))], 1))
  }

  function StoredToo(r: Record, now: int, p: Place, q: Place): State {
    Queued(r, now).(table := Table(map[Uuid(0) := p.(id := Uuid(0)), Uuid(1) := q.(id := Uuid(1))], 2))
  }

  lemma QueuedStep(w: World, r: Record, now: int)
    ensures ResolveStep(w, NOTHING, Queued(r, now), r, NO_MATCH, now)
  {
    var out: seq<Place> := [];
    assert IsFetch(w, map[], r.at, RADIUS_M, Compatible(r.category), out);
    assert DecidedBy(w, r, out, NO_MATCH);
    assert Enqueued(NOTHING.queue, RowFor(r, now)) == Queued(r, now).queue;
  }

  function NoRows(s: State): SweepRun {
    SweepRun({}, [], _ => NO_FAULT, [], _ => 0, Db(s.table.rows, s.queue))
  }

  lemma FarIngest(w: World, r: Record, now: int, p: Place, q: Place)
    requires p.id.Unset? && q.id.Unset? && !SameKey(p, q) && w.geodesic(r.at, q.at) > RADIUS_M
    ensures var (s, s') := (Stored(r, now, p), StoredToo(r, now, p, q));
            IngestStep(w, s, s', [q], NoRows(s')) && IsClean(w, s'.table, NoRows(s'))
  {
    var s, s' := Stored(r, now, p), StoredToo(r, now, p, q);
    NewPlace(s.table, q);
    assert s'.table.rows == s.table.rows[Uuid(1) := q.(id := Uuid(1))];
    assert Near(w, s'.table.rows, s.queue, [Uuid(1)], RADIUS_M) == {};
  }

  lemma StoredStep(r: Record, now: int, p: Place)
    requires p.id.Unset?
    ensures SweepFailedStep(Queued(r, now), Stored(r, now, p), [p])
  {
    NewPlace(NOTHING.table, p);
    assert Stored(r, now, p).table.rows == map[][Uuid(0) := p.(id := Uuid(0))];
  }

  lemma LastIsOverlooked(w: World, r: Record, now: int, p: Place, q: Place)
    requires Matches(w, r, p)
    ensures Overlooked(w, StoredToo(r, now, p, q), 1)
  {
    var last := StoredToo(r, now, p, q);
    ScoreIgnoresId(w, r, p, Uuid(0));
    ScoreIgnoresPayload(w, r, now, last.table.rows[Uuid(0)]);
    assert last.table.rows.Keys == {Uuid(0), Uuid(1)};
    MatchableIsOverlooked(w, last, 1, Uuid(0));
  }

  // For every world, every record, every place that matches it and every
  // other place away from it there is this run: the record arrives and is
  // queued, an ingest brings the matching place but its sweep fails, and a
  // clean ingest brings the other place. The record is still queued, and every
  // answer of Match would attach it.
  lemma FailedSweepIsNotCaughtUp(w: World, r: Record, now: int, p: Place, q: Place)
    returns (s: seq<State>, sweep: SweepRun)
    requires Matches(w, r, p) && w.geodesic(r.at, q.at) > RADIUS_M
    requires p.id.Unset? && q.id.Unset? && !SameKey(p, q)
    ensures |s| == 4 && s[0] == NOTHING
    ensures ResolveStep(w, s[0], s[1], r, NO_MATCH, now)
    ensures SweepFailedStep(s[1], s[2], [p])
    ensures IngestStep(w, s[2], s[3], [q], sweep) && IsClean(w, s[3].table, sweep)
    ensures Overlooked(w, s[3], 1)
  {
    QueuedStep(w, r, now);
    StoredStep(r, now, p);
    FarIngest(w, r, now, p, q);
    LastIsOverlooked(w, r, now, p, q);
    sweep := NoRows(StoredToo(r, now, p, q));
    s := [NOTHING, Queued(r, now), Stored(r, now, p), StoredToo(r, now, p, q)];
  }

  lemma ScoreIgnoresPayload(w: World, r: Record, now: int, p: Place)
    ensures Scorer(w, RecordOf(RowFor(r, now).(id := 1)))(p) == Scorer(w, r)(p)
  {
  }

  // ---- Such a run exists ----

  // Points on a line, measured in metres; letters that fold to themselves.
  function Gap(a: Point, b: Point): real {
    if a.lat >= b.lat then a.lat - b.lat else b.lat - a.lat
  }

  const PLAIN_ALPHABET := Alphabet((c: char) => [c], (c: char) => c != ' ')

  const LINE := World(PLAIN_ALPHABET, (a: string, b: string) => a == b, (a: Point, b: Point) => Gap(a, b),
                      (a: Point, b: Point) => Gap(a, b))

  function CafeAt(lat: real, osmId: int): Place {
    Place(Unset, osmId, "node", "x", Point(lat, 0.0), "cafe", 0, map[], map[], Active, "osm")
  }

  const CAFE_RECORD := Record("wheelmap", "1", "x", Point(0.0, 0.0), "cafe", "", "", None)

  lemma OneToken()
    ensures Tokens(PLAIN_ALPHABET, "x") == ["x"]
  {
    assert Folded(PLAIN_ALPHABET, "x") == "x" by {
      assert "x"[1..] == "";
    }
    assert Spaced(PLAIN_ALPHABET, "x") == "x";
    FieldsOfWord("x");
    assert forall suffix | suffix in BUSINESS_SUFFIXES :: |suffix| > 1;
    DropSuffixesFixed(["x"]);
  }

  lemma CafeMatches()
    ensures Matches(LINE, CAFE_RECORD, CafeAt(0.0, 1))
  {
    var tokens := NameTokens(PLAIN_ALPHABET, "x");
    OneToken();
    assert "x" in tokens;
    JaccardRange(tokens, tokens);
    DroppedRescales(1.0, 1.0);
  }

  // So the promise that the next ingest makes up for a failed sweep fails.
  lemma SomeFailedSweepIsNotCaughtUp() returns (w: World, s: seq<State>, r: Record, p: Place, q: Place, sweep: SweepRun)
    ensures |s| == 4 && s[0] == NOTHING
    ensures ResolveStep(w, s[0], s[1], r, NO_MATCH, 0)
    ensures SweepFailedStep(s[1], s[2], [p])
    ensures IngestStep(w, s[2], s[3], [q], sweep) && IsClean(w, s[3].table, sweep)
    ensures Overlooked(w, s[3], 1)
  {
    w, r, p, q := LINE, CAFE_RECORD, CafeAt(0.0, 1), CafeAt(1000.0, 2);
    CafeMatches();
    s, sweep := FailedSweepIsNotCaughtUp(w, r, 0, p, q);
  }
}

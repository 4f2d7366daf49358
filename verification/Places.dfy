// The places table and its queries, internal/place/repository.go:42-123.
module Places {
  import opened Wrappers
  import opened Models
  import opened Score

  const CANDIDATE_LIMIT := 32

  // Rows by primary key. UUIDs are numbered in the order the database draws them.
  datatype Table = Table(rows: map<Id, Place>, minted: nat)

  // The partial unique index places_osm_unique: zero OSM ids never collide.
  predicate SameKey(p: Place, q: Place) {
    p.osmId != 0 && p.osmId == q.osmId && p.osmType == q.osmType
  }

  ghost predicate Sound(t: Table) {
    && (forall id | id in t.rows :: id.Uuid? && id.n < t.minted && t.rows[id].id == id)
    && (forall a, b | a in t.rows && b in t.rows && SameKey(t.rows[a], t.rows[b]) :: a == b)
  }

  // ---- UpsertBatch ----

  predicate DistinctKeys(ps: seq<Place>) {
    forall i, j | 0 <= i < j < |ps| :: !SameKey(ps[i], ps[j])
  }

  // The columns of repository.go:57-59; id, OSM key and source stay.
  function Overwrite(row: Place, p: Place): Place {
    row.(name := p.name, at := p.at, category := p.category, rank := p.rank,
         tags := p.tags, externalIds := p.externalIds, status := p.status)
  }

  ghost predicate Conflicts(t: Table, p: Place) {
    exists id :: id in t.rows && SameKey(t.rows[id], p)
  }

  // One row of INSERT ... ON CONFLICT DO UPDATE ... RETURNING id; None is a
  // primary-key violation by a caller-supplied id.
  ghost function UpsertRow(t: Table, p: Place): Option<(Table, Id)> {
    if Conflicts(t, p) then
      var id :| id in t.rows && SameKey(t.rows[id], p);
      Some((t.(rows := t.rows[id := Overwrite(t.rows[id], p)]), id))
    else if p.id in t.rows then None
    else
      var id := if p.id.Unset? then Uuid(t.minted) else p.id;
      Some((Table(t.rows[id := p.(id := id)], if id.n < t.minted then t.minted else id.n + 1), id))
  }

  ghost function UpsertAll(t: Table, ps: seq<Place>): Option<(Table, seq<Id>)> {
    if ps == [] then Some((t, []))
    else
      match UpsertAll(t, ps[..|ps| - 1])
      case None => None
      case Some((mid, ids)) =>
        match UpsertRow(mid, ps[|ps| - 1])
        case None => None
        case Some((end, id)) => Some((end, ids + [id]))
  }

  lemma UpsertAllSnoc(t: Table, ps: seq<Place>, p: Place)
    requires UpsertAll(t, ps).Some?
    ensures UpsertAll(t, ps + [p]) ==
            match UpsertRow(UpsertAll(t, ps).value.0, p)
            case None => None
            case Some((end, id)) => Some((end, UpsertAll(t, ps).value.1 + [id]))
  {
    assert (ps + [p])[..|ps|] == ps;
  }

  // Splitting a stream into batches does not change what it does.
  lemma {:induction false} UpsertAllConcat(t: Table, a: seq<Place>, b: seq<Place>)
    requires UpsertAll(t, a).Some?
    ensures UpsertAll(t, a + b) ==
            match UpsertAll(UpsertAll(t, a).value.0, b)
            case None => None
            case Some((end, ids)) => Some((end, UpsertAll(t, a).value.1 + ids))
    decreases |b|
  {
    if b == [] {
      assert a + b == a;
      assert UpsertAll(t, a).value.1 + [] == UpsertAll(t, a).value.1;
    } else {
      var n := |b| - 1;
      UpsertAllConcat(t, a, b[..n]);
      assert (a + b)[..|a + b| - 1] == a + b[..n];
      assert (a + b)[|a + b| - 1] == b[n];
      if UpsertAll(UpsertAll(t, a).value.0, b).Some? {
        var first := UpsertAll(t, a).value;
        var ids := UpsertAll(first.0, b[..n]).value.1;
        var last := UpsertRow(UpsertAll(first.0, b[..n]).value.0, b[n]).value.1;
        assert first.1 + ids + [last] == first.1 + (ids + [last]);
      }
    }
  }

  lemma UpsertRowSound(t: Table, p: Place)
    requires Sound(t)
    ensures p.id.Unset? ==> UpsertRow(t, p).Some?
    ensures UpsertRow(t, p).Some? ==> Sound(UpsertRow(t, p).value.0)
  {
    if Conflicts(t, p) {
      OverwriteSound(t, p, UpsertRow(t, p).value.1);
    } else if UpsertRow(t, p).Some? {
      InsertSound(t, p, UpsertRow(t, p).value.1, UpsertRow(t, p).value.0.minted);
    }
  }

  lemma OverwriteSound(t: Table, p: Place, id: Id)
    requires Sound(t) && id in t.rows
    ensures Sound(t.(rows := t.rows[id := Overwrite(t.rows[id], p)]))
  {
  }

  lemma InsertSound(t: Table, p: Place, id: Id, minted: nat)
    requires Sound(t) && !Conflicts(t, p) && id.Uuid? && id.n < minted && t.minted <= minted && id !in t.rows
    ensures Sound(Table(t.rows[id := p.(id := id)], minted))
  {
  }

  // The row carries what an upsert of p writes.
  predicate Holds(row: Place, p: Place) {
    && row.name == p.name && row.at == p.at && row.category == p.category && row.rank == p.rank
    && row.tags == p.tags && row.externalIds == p.externalIds && row.status == p.status
  }

  // What the returned ids mean: they name the only rows that changed, no row
  // disappears, and each row holds what its last writer in ps put there.
  lemma UpsertRowEffect(t: Table, p: Place)
    requires Sound(t) && UpsertRow(t, p).Some?
    ensures var (t', id) := UpsertRow(t, p).value;
            && t'.rows.Keys == t.rows.Keys + {id}
            && (forall k | k in t.rows && k != id :: t'.rows[k] == t.rows[k])
            && Holds(t'.rows[id], p)
            && (p.osmId != 0 ==> SameKey(t'.rows[id], p))
            && (id in t.rows ==> t'.rows[id].source == t.rows[id].source)
            && (id !in t.rows ==> t'.rows[id] == p.(id := id))
  {
  }

  // A place that comes again keeps its row, id, key and source, but its
  // references are the incoming ones: whatever was attached before is gone.
  lemma ReingestReplacesRefs(t: Table, p: Place, id: Id)
    requires Sound(t) && id in t.rows && SameKey(t.rows[id], p)
    ensures UpsertRow(t, p).Some? && UpsertRow(t, p).value.1 == id
    ensures var row := UpsertRow(t, p).value.0.rows[id];
            && row.externalIds == p.externalIds
            && row.id == id && row.source == t.rows[id].source && SameKey(row, p)
  {
    forall other | other in t.rows && SameKey(t.rows[other], p)
      ensures other == id
    {
      assert SameKey(t.rows[other], t.rows[id]);
    }
  }

  // Which row an upsert writes: the one with the same OSM id and type, if the
  // id is not zero and there is one; otherwise a new one, under the id the place
  // brings or the next the database draws. It fails only for an id already used.
  lemma UpsertRowPicks(t: Table, p: Place)
    requires Sound(t)
    ensures forall k | k in t.rows && p.osmId != 0 && t.rows[k].osmId == p.osmId && t.rows[k].osmType == p.osmType ::
              UpsertRow(t, p).Some? && UpsertRow(t, p).value.1 == k
    ensures (forall k | k in t.rows :: p.osmId == 0 || t.rows[k].osmId != p.osmId || t.rows[k].osmType != p.osmType) ==>
              if p.id in t.rows then UpsertRow(t, p).None?
              else UpsertRow(t, p).Some?
                   && UpsertRow(t, p).value.1 !in t.rows
                   && (p.id.Uuid? ==> UpsertRow(t, p).value.1 == p.id)
  {
    forall k | k in t.rows && p.osmId != 0 && t.rows[k].osmId == p.osmId && t.rows[k].osmType == p.osmType
      ensures UpsertRow(t, p).Some? && UpsertRow(t, p).value.1 == k
    {
      ReingestReplacesRefs(t, p, k);
    }
  }

  lemma {:induction false} UpsertAllEffect(t: Table, ps: seq<Place>)
    requires Sound(t) && UpsertAll(t, ps).Some?
    ensures var (t', ids) := UpsertAll(t, ps).value;
            && Sound(t')
            && |ids| == |ps|
            && t'.rows.Keys == t.rows.Keys + (set id | id in ids)
            && (forall k | k in t.rows && k !in ids :: t'.rows[k] == t.rows[k])
    decreases |ps|
  {
    if ps != [] {
      var n := |ps| - 1;
      UpsertAllEffect(t, ps[..n]);
      var mid := UpsertAll(t, ps[..n]).value.0;
      UpsertRowSound(mid, ps[n]);
      UpsertRowEffect(mid, ps[n]);
    }
  }

  lemma {:induction false} UpsertAllSucceeds(t: Table, ps: seq<Place>)
    requires Sound(t) && forall p | p in ps :: p.id.Unset?
    ensures UpsertAll(t, ps).Some?
    decreases |ps|
  {
    if ps != [] {
      var n := |ps| - 1;
      UpsertAllSucceeds(t, ps[..n]);
      UpsertAllEffect(t, ps[..n]);
      UpsertRowSound(UpsertAll(t, ps[..n]).value.0, ps[n]);
    }
  }

  // Position i is the last of the batch that its row was written at.
  ghost predicate LastWriter(ids: seq<Id>, i: nat) {
    i < |ids| && forall j | i < j < |ids| :: ids[j] != ids[i]
  }

  // After a batch each row it wrote holds what the last place written to it brought.
  lemma {:induction false} LastPlaceWins(t: Table, ps: seq<Place>, i: nat)
    requires Sound(t) && UpsertAll(t, ps).Some? && |UpsertAll(t, ps).value.1| == |ps|
    requires LastWriter(UpsertAll(t, ps).value.1, i)
    ensures var (t', ids) := UpsertAll(t, ps).value; ids[i] in t'.rows && Holds(t'.rows[ids[i]], ps[i])
    decreases |ps|
  {
    var n := |ps| - 1;
    var (mid, before) := UpsertAll(t, ps[..n]).value;
    UpsertAllEffect(t, ps[..n]);
    UpsertRowEffect(mid, ps[n]);
    if i < n {
      var ids := UpsertAll(t, ps).value.1;
      assert ids[i] == before[i] && ids[n] != ids[i];
      assert forall j | i < j < n :: before[j] == ids[j];
      LastPlaceWins(t, ps[..n], i);
    }
  }

  // ---- AttachExternalRef ----

  function Attach(rows: map<Id, Place>, id: Id, source: string, ref: ExternalRef): map<Id, Place>
    requires id in rows
  {
    rows[id := rows[id].(externalIds := rows[id].externalIds[source := ref])]
  }

  // Attaches to different places, or for different sources, do not clobber
  // each other: they commute, and both references are there.
  lemma AttachesCommute(rows: map<Id, Place>, a: Id, s: string, x: ExternalRef, b: Id, t: string, y: ExternalRef)
    requires a in rows && b in rows && (a != b || s != t)
    ensures var both := Attach(Attach(rows, a, s, x), b, t, y);
            && both == Attach(Attach(rows, b, t, y), a, s, x)
            && s in both[a].externalIds && both[a].externalIds[s] == x
            && t in both[b].externalIds && both[b].externalIds[t] == y
  {
    if a == b {
      assert rows[a].externalIds[s := x][t := y] == rows[a].externalIds[t := y][s := x];
    }
    assert Attach(Attach(rows, a, s, x), b, t, y) == Attach(Attach(rows, b, t, y), a, s, x);
  }

  // ---- FindCandidates ----

  function Eligible(w: World, rows: map<Id, Place>, at: Point, radius: real, cats: set<string>): set<Id> {
    set id | id in rows && rows[id].status.Active? && rows[id].category in cats
             && w.geodesic(rows[id].at, at) <= radius
  }

  function Ids(out: seq<Place>): set<Id> {
    set i | 0 <= i < |out| :: out[i].id
  }

  ghost predicate Distinct(out: seq<Place>) {
    forall i, j | 0 <= i < j < |out| :: out[i].id != out[j].id
  }

  // The nearest rows of a pool, nearest first: none left out is nearer.
  ghost predicate NearestFirst(w: World, rows: map<Id, Place>, at: Point, pool: set<Id>, out: seq<Place>) {
    && pool <= rows.Keys
    && (forall i | 0 <= i < |out| :: out[i].id in pool && rows[out[i].id] == out[i])
    && Distinct(out)
    && (forall i, j | 0 <= i < j < |out| :: w.geodesic(out[i].at, at) <= w.geodesic(out[j].at, at))
    && (forall i, id | 0 <= i < |out| && id in pool - Ids(out) ::
        w.geodesic(out[i].at, at) <= w.geodesic(rows[id].at, at))
  }

  // Any answer PostgreSQL may give: the nearest eligible rows in ascending
  // distance, ties in any order, cut at 32.
  ghost predicate IsFetch(w: World, rows: map<Id, Place>, at: Point, radius: real, cats: set<string>, out: seq<Place>) {
    var eligible := Eligible(w, rows, at, radius, cats);
    && NearestFirst(w, rows, at, eligible, out)
    && |out| <= CANDIDATE_LIMIT
    && (|out| < CANDIDATE_LIMIT ==> Ids(out) == eligible)
  }

  lemma {:induction false} DistinctSize(out: seq<Place>)
    requires Distinct(out)
    ensures |Ids(out)| == |out|
  {
    if out != [] {
      var n := |out| - 1;
      var init := out[..n];
      DistinctSize(init);
      assert Ids(out) == Ids(init) + {out[n].id};
      assert forall i | 0 <= i < n :: init[i] == out[i];
      assert out[n].id !in Ids(init);
    }
  }

  // A fetch from at most 32 eligible rows returns them all.
  lemma UncutFetch(w: World, rows: map<Id, Place>, at: Point, radius: real, cats: set<string>, out: seq<Place>)
    requires IsFetch(w, rows, at, radius, cats, out)
    requires |Eligible(w, rows, at, radius, cats)| <= CANDIDATE_LIMIT
    ensures Ids(out) == Eligible(w, rows, at, radius, cats)
  {
    var eligible := Eligible(w, rows, at, radius, cats);
    DistinctSize(out);
    assert Ids(out) <= eligible;
    SubsetSize(Ids(out), eligible);
  }

  // What a fetch returns: at most 32 active rows of the categories within the
  // radius, each once, by ascending distance; one that is missing is no nearer
  // than any of them, and none is missing from fewer than 32.
  lemma FetchMeans(w: World, rows: map<Id, Place>, at: Point, radius: real, cats: set<string>, out: seq<Place>)
    requires IsFetch(w, rows, at, radius, cats, out)
    ensures |out| <= 32
    ensures forall i | 0 <= i < |out| ::
              && out[i].id in rows && rows[out[i].id] == out[i] && out[i].status == Active && out[i].category in cats
              && w.geodesic(out[i].at, at) <= radius
    ensures forall i, j | 0 <= i < j < |out| ::
              out[i].id != out[j].id && w.geodesic(out[i].at, at) <= w.geodesic(out[j].at, at)
    ensures forall id | id in rows && rows[id].status == Active && rows[id].category in cats
                        && w.geodesic(rows[id].at, at) <= radius && !(exists i :: 0 <= i < |out| && out[i].id == id) ::
              |out| == 32 && forall i | 0 <= i < |out| :: w.geodesic(out[i].at, at) <= w.geodesic(rows[id].at, at)
  {
    forall id | id in rows && rows[id].status == Active && rows[id].category in cats
                && w.geodesic(rows[id].at, at) <= radius && !(exists i :: 0 <= i < |out| && out[i].id == id)
      ensures |out| == 32 && forall i | 0 <= i < |out| :: w.geodesic(out[i].at, at) <= w.geodesic(rows[id].at, at)
    {
      assert id in Eligible(w, rows, at, radius, cats);
      assert id !in Ids(out);
    }
  }

  lemma {:induction false} NearestExists(w: World, rows: map<Id, Place>, at: Point, pool: set<Id>) returns (near: Id)
    requires pool != {} && pool <= rows.Keys
    ensures near in pool && forall id | id in pool :: w.geodesic(rows[near].at, at) <= w.geodesic(rows[id].at, at)
    decreases |pool|
  {
    var first :| first in pool;
    var rest := pool - {first};
    near := first;
    if rest != {} {
      var other := NearestExists(w, rows, at, rest);
      near := if w.geodesic(rows[other].at, at) <= w.geodesic(rows[first].at, at) then other else first;
    }
    forall id | id in pool
      ensures w.geodesic(rows[near].at, at) <= w.geodesic(rows[id].at, at)
    {
      assert id == first || id in rest;
    }
  }

  method WriteRow(t: Table, p: Place) returns (r: Option<(Table, Id)>)
    requires Sound(t)
    ensures r == UpsertRow(t, p)
  {
    if exists id :: id in t.rows && SameKey(t.rows[id], p) {
      var id :| id in t.rows && SameKey(t.rows[id], p);
      OneConflict(t, p);
      return Some((t.(rows := t.rows[id := Overwrite(t.rows[id], p)]), id));
    }
    if p.id in t.rows {
      return None;
    }
    var id := if p.id.Unset? then Uuid(t.minted) else p.id;
    return Some((Table(t.rows[id := p.(id := id)], if id.n < t.minted then t.minted else id.n + 1), id));
  }

  lemma OneConflict(t: Table, p: Place)
    requires Sound(t)
    ensures forall a, b | a in t.rows && b in t.rows && SameKey(t.rows[a], p) && SameKey(t.rows[b], p) :: a == b
  {
    forall a, b | a in t.rows && b in t.rows && SameKey(t.rows[a], p) && SameKey(t.rows[b], p)
      ensures a == b
    {
      assert SameKey(t.rows[a], t.rows[b]);
    }
  }

  lemma NearestSnoc(w: World, rows: map<Id, Place>, at: Point, pool: set<Id>, out: seq<Place>, near: Id)
    requires NearestFirst(w, rows, at, pool, out) && near in pool - Ids(out) && rows[near].id == near
    requires forall id | id in pool - Ids(out) :: w.geodesic(rows[near].at, at) <= w.geodesic(rows[id].at, at)
    ensures NearestFirst(w, rows, at, pool, out + [rows[near]])
    ensures Ids(out + [rows[near]]) == Ids(out) + {near}
  {
    var more := out + [rows[near]];
    assert more[|out|].id == near;
    assert forall i | 0 <= i < |out| :: more[i] == out[i];
  }

  class PlaceRepository {
    var table: Table

    constructor ()
      ensures table == Table(map[], 0) && Sound(table)
    {
      table := Table(map[], 0);
    }

    // One SQL statement: all rows or none. The batch comes back with its ids.
    method UpsertBatch(batch: seq<Place>, fault: bool) returns (r: Result<seq<Id>, string>)
      requires Sound(table)
      modifies this
      ensures Sound(table)
      ensures r.Success? <==> batch == [] || (!fault && DistinctKeys(batch) && UpsertAll(old(table), batch).Some?)
      ensures r.Success? ==> UpsertAll(old(table), batch) == Some((table, r.value))
      ensures r.Failure? ==> table == old(table)
    {
      if |batch| == 0 {
        return Success([]);
      }
      if fault || !DistinctKeys(batch) {
        return Failure("upsert places");
      }
      var before := table;
      var ids := [];
      for i := 0 to |batch|
        invariant Sound(table)
        invariant UpsertAll(before, batch[..i]) == Some((table, ids))
      {
        assert batch[..i + 1] == batch[..i] + [batch[i]];
        UpsertAllSnoc(before, batch[..i], batch[i]);
        UpsertRowSound(table, batch[i]);
        var written := WriteRow(table, batch[i]);
        if written.None? {
          UpsertAllPrefixFails(before, batch, i + 1);
          table := before;
          return Failure("upsert places");
        }
        table := written.value.0;
        ids := ids + [written.value.1];
      }
      assert batch[..|batch|] == batch;
      return Success(ids);
    }

    method FindCandidates(w: World, at: Point, radius: real, cats: set<string>, fault: bool)
      returns (r: Result<seq<Place>, string>)
      requires Sound(table)
      ensures r.Failure? <==> fault && cats != {}
      ensures r.Success? ==> IsFetch(w, table.rows, at, radius, cats, r.value)
    {
      if cats == {} {
        assert Eligible(w, table.rows, at, radius, cats) == {};
        return Success([]);
      }
      if fault {
        return Failure("find candidates");
      }
      var rows := table.rows;
      var eligible := Eligible(w, rows, at, radius, cats);
      var out: seq<Place>, pool := [], eligible;
      while |out| < CANDIDATE_LIMIT && pool != {}
        invariant |out| <= CANDIDATE_LIMIT
        invariant NearestFirst(w, rows, at, eligible, out) && pool == eligible - Ids(out)
        decreases pool
      {
        ghost var nearest := NearestExists(w, rows, at, pool);
        var near :| near in pool && forall id | id in pool ::
            w.geodesic(rows[near].at, at) <= w.geodesic(rows[id].at, at);
        NearestSnoc(w, rows, at, eligible, out, near);
        out, pool := out + [rows[near]], pool - {near};
      }
      if |out| < CANDIDATE_LIMIT {
        forall id | id in eligible
          ensures id in Ids(out)
        {
          assert id !in pool;
        }
        assert Ids(out) == eligible;
      }
      return Success(out);
    }

    method AttachExternalRef(id: Id, source: string, ref: ExternalRef, fault: bool) returns (err: Option<string>)
      modifies this
      ensures err.None? <==> !fault && id in old(table.rows)
      ensures err.None? ==> table == old(table).(rows := Attach(old(table.rows), id, source, ref))
      ensures err.Some? ==> table == old(table)
    {
      if fault || id !in table.rows {
        return Some("attach external ref");
      }
      table := table.(rows := Attach(table.rows, id, source, ref));
      return None;
    }
  }

  lemma {:induction false} UpsertAllPrefixFails(t: Table, ps: seq<Place>, n: nat)
    requires n <= |ps| && UpsertAll(t, ps[..n]).None?
    ensures UpsertAll(t, ps).None?
    decreases |ps|
  {
    if n < |ps| {
      assert ps[..|ps| - 1][..n] == ps[..n];
      UpsertAllPrefixFails(t, ps[..|ps| - 1], n);
    } else {
      assert ps[..n] == ps;
    }
  }
}

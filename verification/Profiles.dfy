// Profile writes of the ingestion path, internal/place/repository.go:207-253
// and cmd/ingestion/main.go:114-117.
module Profiles {
  import opened Wrappers
  import opened Models
  import opened A11y

  // Rows of accessibility_profiles by place_id, its unique column.
  type ProfileTable = map<Id, Profile>

  // The row an ingestion inserts: never verified.
  function IngestedRow(placeId: Id, p: Profile, now: int): Profile {
    p.(placeId := placeId, updatedAt := now, userVerified := false)
  }

  // The row an ingestion updates: everything but id, place and verification.
  function ReplacedRow(row: Profile, p: Profile, now: int): Profile {
    row.(sourceReports := p.sourceReports, components := p.components, updatedAt := now,
         submittedBy := None, submittedAt := None)
  }

  // Insert, skip a verified row, or replace.
  function IngestWrite(rows: ProfileTable, placeId: Id, p: Profile, now: int): ProfileTable {
    if placeId !in rows then rows[placeId := IngestedRow(placeId, p, now)]
    else if rows[placeId].userVerified then rows
    else rows[placeId := ReplacedRow(rows[placeId], p, now)]
  }

  // What every API write does to a profile before it is stored: flags
  // recomputed, stamped, and verified when a key authenticated the caller.
  function Prepared(p: Profile, key: string, now: int): Profile {
    var flagged := p.(components := Flagged(p.components), submittedAt := Some(now));
    if key == "" then flagged else flagged.(submittedBy := Some(key), userVerified := true)
  }

  // The row a PATCH stores after merging to m. An UPDATE leaves id and place_id alone.
  function PatchedRow(existing: Option<Profile>, m: Profile, placeId: Id, key: string, now: int): Profile {
    var prepared := Prepared(m, key, now).(updatedAt := now);
    if existing.None? then prepared.(placeId := placeId)
    else prepared.(id := existing.value.id, placeId := existing.value.placeId)
  }

  function RowAt(rows: ProfileTable, placeId: Id): Option<Profile> {
    if placeId in rows then Some(rows[placeId]) else None
  }

  datatype PatchError = PlaceNotFound | Rejected(reason: string) | UniqueViolation

  predicate Writes(rows: ProfileTable, placeId: Id) {
    placeId in rows ==> !rows[placeId].userVerified
  }

  class ProfileRepository {
    var rows: ProfileTable

    constructor ()
      ensures rows == map[]
    {
      rows := map[];
    }

    method UpsertProfileIngestion(placeId: Id, profile: AccessibilityProfile?, now: int, fault: bool)
      returns (r: Result<bool, string>)
      modifies this
      ensures r.Success? <==> profile != null && !fault
      ensures r.Success? ==> rows == IngestWrite(old(rows), placeId, profile.Value(), now)
                             && r.value == Writes(old(rows), placeId)
      ensures r.Failure? ==> rows == old(rows)
    {
      if profile == null {
        return Failure("upsert profile ingestion: nil profile");
      }
      if fault {
        return Failure("upsert profile ingestion: load existing");
      }
      if placeId !in rows {
        rows := rows[placeId := IngestedRow(placeId, profile.Value(), now)];
        return Success(true);
      }
      if rows[placeId].userVerified {
        return Success(false);
      }
      rows := rows[placeId := ReplacedRow(rows[placeId], profile.Value(), now)];
      return Success(true);
    }

    // The retry loop. `merge` is marshal, MergePatch and unmarshal; a rival is the
    // row that other transactions, however many, have left there by the time of
    // this attempt's INSERT, when its look-up found none; idTaken says that
    // another place's profile has the merged id.
    method UpsertProfile(placeId: Id, placeExists: bool, merge: Option<Profile> -> Result<Profile, string>, key: string,
                         now: int,
                         rivals: nat -> Option<Profile>, idTaken: bool)
      returns (r: Result<Profile, PatchError>, created: bool)
      modifies this
      ensures r == Failure(PlaceNotFound) <==> !placeExists
      ensures r == Failure(UniqueViolation) ==> idTaken
      ensures r.Success? ==>
                var prior := if placeId in old(rows) then Some(old(rows)[placeId]) else rivals(0);
                && merge(prior).Success?
                && r.value == PatchedRow(prior, merge(prior).value, placeId, key, now)
                && rows == old(rows)[placeId := r.value]
                && (created <==> prior.None?)
      ensures placeId in old(rows) && r.Failure? ==> rows == old(rows)
      ensures placeExists && (forall o :: merge(o).Success?) && !idTaken ==> r.Success?
    {
      r, created := Failure(UniqueViolation), false;
      for attempt := 0 to 2
        invariant attempt > 0 ==> r == Failure(UniqueViolation)
        invariant attempt == 0 ==> rows == old(rows)
        invariant attempt > 0 ==> placeExists && placeId !in old(rows)
        invariant attempt == 1 && rivals(0).Some? ==> rows == old(rows)[placeId := rivals(0).value]
        invariant attempt == 1 && rivals(0).None? ==> rows == old(rows) && idTaken
        invariant attempt == 2 ==> idTaken
        invariant attempt > 0 && !idTaken ==> rivals(0).Some?
      {
        r, created := Attempt(placeId, placeExists, merge, key, now, rivals(attempt), idTaken);
        if r != Failure(UniqueViolation) {
          return;
        }
      }
    }

    method Attempt(placeId: Id, placeExists: bool, merge: Option<Profile> -> Result<Profile, string>, key: string,
                   now: int,
                   rival: Option<Profile>, idTaken: bool)
      returns (r: Result<Profile, PatchError>, created: bool)
      modifies this
      ensures !placeExists ==> r == Failure(PlaceNotFound) && rows == old(rows)
      ensures placeExists ==>
                var existing := RowAt(old(rows), placeId);
                if merge(existing).Failure? then r == Failure(Rejected(merge(existing).error)) && rows == old(rows)
                else if existing.None? && (idTaken || rival.Some?) then
                  r == Failure(UniqueViolation)
                      && rows == if rival.Some? then old(rows)[placeId := rival.value] else old(rows)
                else
                  r == Success(PatchedRow(existing, merge(existing).value, placeId, key, now))
                  && rows == old(rows)[placeId := r.value] && (created <==> existing.None?)
    {
      created := false;
      if !placeExists {
        return Failure(PlaceNotFound), false;
      }
      var existing := RowAt(rows, placeId);
      var merged := merge(existing);
      if merged.Failure? {
        return Failure(Rejected(merged.error)), false;
      }
      var row := PatchedRow(existing, merged.value, placeId, key, now);
      if existing.None? {
        created := true;
        if rival.Some? {
          rows := rows[placeId := rival.value];
        }
        if idTaken || placeId in rows {
          return Failure(UniqueViolation), created;
        }
      }
      rows := rows[placeId := row];
      return Success(row), created;
    }
  }

  // The ingestion binary computes flags before every write.
  function FlagAndWrite(rows: ProfileTable, placeId: Id, p: Profile, now: int): ProfileTable {
    IngestWrite(rows, placeId, p.(components := Flagged(p.components)), now)
  }

  method WriteProfile(repo: ProfileRepository, placeId: Id, p: Profile, now: int, fault: bool)
    returns (r: Result<bool, string>)
    modifies repo
    ensures r.Failure? <==> fault
    ensures r.Success? ==>
              repo.rows == FlagAndWrite(old(repo.rows), placeId, p, now) && r.value == Writes(old(repo.rows), placeId)
    ensures r.Failure? ==> repo.rows == old(repo.rows)
  {
    var profile := new AccessibilityProfile(p);
    WithAuditFlags(profile);
    r := repo.UpsertProfileIngestion(placeId, profile, now, fault);
  }

  ghost predicate AllCurrent(rows: ProfileTable) {
    forall id | id in rows :: FlagsCurrent(rows[id].components)
  }

  // An ingestion write leaves verified rows and other places alone, never
  // changes a verification flag, and keeps every row's flags current.
  lemma IngestionRespectsVerified(rows: ProfileTable, placeId: Id, p: Profile, now: int)
    ensures var rows' := FlagAndWrite(rows, placeId, p, now);
            && (forall id | id in rows && (id != placeId || rows[id].userVerified) ::
                id in rows' && rows'[id] == rows[id])
            && (forall id | id in rows :: id in rows' && rows'[id].userVerified == rows[id].userVerified)
            && (placeId !in rows ==> placeId in rows' && !rows'[placeId].userVerified)
            && (AllCurrent(rows) ==> AllCurrent(rows'))
  {
    FlaggedSettles(p.components);
  }

  // What a written profile leaves: its reports and flagged components, no
  // trace of an earlier submission, and the id of the row it replaced.
  lemma IngestionStores(rows: ProfileTable, placeId: Id, p: Profile, now: int)
    requires Writes(rows, placeId)
    ensures var rows' := FlagAndWrite(rows, placeId, p, now);
            && placeId in rows'
            && var row := rows'[placeId];
               && row.components == Flagged(p.components) && row.sourceReports == p.sourceReports
               && row.updatedAt == now && !row.userVerified
               && (placeId in rows ==>
                     && row.id == rows[placeId].id && row.placeId == rows[placeId].placeId
                     && row.submittedBy.None? && row.submittedAt.None?)
               && (placeId !in rows ==>
                     && row.id == p.id && row.placeId == placeId
                     && row.submittedBy == p.submittedBy && row.submittedAt == p.submittedAt)
  {
  }

  // Only a verified row stops an ingestion from writing.
  lemma WritesMeans(rows: ProfileTable, placeId: Id)
    ensures Writes(rows, placeId) <==> placeId !in rows || !rows[placeId].userVerified
  {
  }

  // What every API write stores: the facts as they came with current flags,
  // stamped with the time and, for an authenticated caller, with the key.
  lemma PreparedMeans(p: Profile, key: string, now: int)
    ensures var q := Prepared(p, key, now);
            && q.components == Flagged(p.components) && q.sourceReports == p.sourceReports
            && q.id == p.id && q.placeId == p.placeId && q.updatedAt == p.updatedAt
            && q.submittedAt == Some(now)
            && q.submittedBy == (if key != "" then Some(key) else p.submittedBy)
            && q.userVerified == (key != "" || p.userVerified)
  {
  }

  // What a PATCH stores: the merged facts and reports with current flags under
  // the id the row had, or under its place for a new row.
  lemma PatchStores(existing: Option<Profile>, m: Profile, placeId: Id, key: string, now: int)
    ensures var row := PatchedRow(existing, m, placeId, key, now);
            && row.components == Flagged(m.components) && row.sourceReports == m.sourceReports
            && row.updatedAt == now && row.submittedAt == Some(now)
            && row.submittedBy == (if key != "" then Some(key) else m.submittedBy)
            && row.userVerified == (key != "" || m.userVerified)
            && (existing.Some? ==> row.id == existing.value.id && row.placeId == existing.value.placeId)
            && (existing.None? ==> row.id == m.id && row.placeId == placeId)
  {
  }

  // The writes of one batch, in order; places without a profile are skipped.
  function WriteAll(rows: ProfileTable, ids: seq<Id>, ps: seq<Option<Profile>>, now: int): (ProfileTable, int)
    requires |ids| == |ps|
  {
    if ids == [] then (rows, 0)
    else
      var n := |ids| - 1;
      var (mid, count) := WriteAll(rows, ids[..n], ps[..n], now);
      if ps[n].None? then (mid, count)
      else (FlagAndWrite(mid, ids[n], ps[n].value, now), count + if Writes(mid, ids[n]) then 1 else 0)
  }

  lemma WriteAllSnoc(rows: ProfileTable, ids: seq<Id>, ps: seq<Option<Profile>>, now: int, id: Id, p: Option<Profile>)
    requires |ids| == |ps|
    ensures var (mid, count) := WriteAll(rows, ids, ps, now);
            WriteAll(rows, ids + [id], ps + [p], now) ==
            if p.None? then (mid, count)
            else (FlagAndWrite(mid, id, p.value, now), count + if Writes(mid, id) then 1 else 0)
  {
    assert (ids + [id])[..|ids|] == ids && (ps + [p])[..|ps|] == ps;
  }

  // A whole run of ingestion writes never touches a verified row.
  lemma {:induction false} WriteAllRespectsVerified(rows: ProfileTable, ids: seq<Id>, ps: seq<Option<Profile>>,
                                                    now: int)
    requires |ids| == |ps|
    ensures var rows' := WriteAll(rows, ids, ps, now).0;
            && (forall id | id in rows && rows[id].userVerified :: id in rows' && rows'[id] == rows[id])
            && (forall id | id in rows && id !in ids :: id in rows' && rows'[id] == rows[id])
            && (AllCurrent(rows) ==> AllCurrent(rows'))
  {
    if ids != [] {
      var n := |ids| - 1;
      WriteAllRespectsVerified(rows, ids[..n], ps[..n], now);
      if ps[n].Some? {
        IngestionRespectsVerified(WriteAll(rows, ids[..n], ps[..n], now).0, ids[n], ps[n].value, now);
      }
    }
  }

  // ---- What a batch of profiles leaves ----

  // Position i is the last one with a profile for its place.
  ghost predicate LastFor(ids: seq<Id>, ps: seq<Option<Profile>>, i: nat) {
    i < |ids| == |ps| && ps[i].Some? && forall j | i < j < |ids| && ids[j] == ids[i] :: ps[j].None?
  }

  // Each unverified place ends with the last profile written for it.
  lemma {:induction false} LastProfileWins(rows: ProfileTable, ids: seq<Id>, ps: seq<Option<Profile>>, now: int, i: nat)
    requires LastFor(ids, ps, i) && Writes(rows, ids[i])
    ensures var rows' := WriteAll(rows, ids, ps, now).0;
            && ids[i] in rows' && !rows'[ids[i]].userVerified
            && rows'[ids[i]].components == Flagged(ps[i].value.components)
            && rows'[ids[i]].sourceReports == ps[i].value.sourceReports
    decreases |ids|
  {
    var n := |ids| - 1;
    var mid := WriteAll(rows, ids[..n], ps[..n], now).0;
    if i == n {
      StaysWritable(rows, ids[..n], ps[..n], now, ids[i]);
      IngestionStores(mid, ids[i], ps[i].value, now);
    } else {
      assert LastFor(ids[..n], ps[..n], i);
      LastProfileWins(rows, ids[..n], ps[..n], now, i);
    }
  }

  lemma {:induction false} StaysWritable(rows: ProfileTable, ids: seq<Id>, ps: seq<Option<Profile>>, now: int, id: Id)
    requires |ids| == |ps|
    ensures Writes(WriteAll(rows, ids, ps, now).0, id) <==> Writes(rows, id)
  {
    if ids != [] {
      var n := |ids| - 1;
      StaysWritable(rows, ids[..n], ps[..n], now, id);
      if ps[n].Some? {
        IngestionRespectsVerified(WriteAll(rows, ids[..n], ps[..n], now).0, ids[n], ps[n].value, now);
      }
    }
  }

  // The count of written profiles: those whose place was not verified.
  lemma {:induction false} WriteAllCounts(rows: ProfileTable, ids: seq<Id>, ps: seq<Option<Profile>>, now: int)
    requires |ids| == |ps|
    ensures WriteAll(rows, ids, ps, now).1 == |set i | 0 <= i < |ids| && ps[i].Some? && Writes(rows, ids[i])|
  {
    var written := set i | 0 <= i < |ids| && ps[i].Some? && Writes(rows, ids[i]);
    if ids == [] {
      assert written == {};
    } else {
      var n := |ids| - 1;
      var before := set i | 0 <= i < n && ps[..n][i].Some? && Writes(rows, ids[..n][i]);
      WriteAllCounts(rows, ids[..n], ps[..n], now);
      StaysWritable(rows, ids[..n], ps[..n], now, ids[n]);
      assert n !in before;
      assert written == before + if ps[n].Some? && Writes(rows, ids[n]) then {n} else {};
    }
  }
}

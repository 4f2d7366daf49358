// Buffering a canonical source into batches, cmd/ingestion/batcher.go.
module Batching {
  import opened Wrappers
  import opened Models
  import opened A11y
  import opened Places
  import opened Profiles

  // A failing statement: the upsert, or the write of the profile at an index.
  datatype FlushFault = FlushFault(upsert: bool, writes: set<int>)

  const NO_FLUSH_FAULT := FlushFault(false, {})

  class Batcher {
    const size: int
    const places: PlaceRepository
    const profiles: ProfileRepository
    const now: int
    var buffer: seq<Place>
    var pendingProfiles: seq<Option<Profile>>
    var written: int
    var touchedIDs: seq<Id>
    var profilesWritten: int

    // What the run started from, and what it has flushed so far.
    ghost const baseTable: Table
    ghost const baseProfiles: ProfileTable
    ghost var flushed: seq<Place>
    ghost var flushedProfiles: seq<Option<Profile>>

    // Everything flushed is in the tables exactly as if written in one go, and
    // buffer and profiles stay aligned.
    ghost predicate Valid()
      reads this, places, profiles
    {
      && Sound(places.table)
      && |buffer| == |pendingProfiles|
      && |flushed| == |flushedProfiles| == written == |touchedIDs|
      && UpsertAll(baseTable, flushed) == Some((places.table, touchedIDs))
      && WriteAll(baseProfiles, touchedIDs, flushedProfiles, now) == (profiles.rows, profilesWritten)
    }

    // All places sunk so far, in order.
    ghost function Stream(): seq<Place>
      reads this
    {
      flushed + buffer
    }

    ghost function ProfileStream(): seq<Option<Profile>>
      reads this
    {
      flushedProfiles + pendingProfiles
    }

    constructor (size: int, places: PlaceRepository, profiles: ProfileRepository, now: int)
      requires Sound(places.table)
      ensures Valid()
      ensures this.size == size && this.places == places && this.profiles == profiles && this.now == now
      ensures baseTable == places.table && baseProfiles == profiles.rows
      ensures Stream() == [] && ProfileStream() == [] && buffer == []
    {
      this.size, this.places, this.profiles, this.now := size, places, profiles, now;
      buffer, pendingProfiles, written, touchedIDs, profilesWritten := [], [], 0, [], 0;
      baseTable, baseProfiles := places.table, profiles.rows;
      flushed, flushedProfiles := [], [];
    }

    // The stream is conserved, and the buffer stays below the batch size.
    method Sink(p: Place, profile: Option<Profile>, fault: FlushFault) returns (err: Option<string>)
      requires Valid()
      modifies this, places, profiles
      ensures Sound(places.table)
      ensures err.None? ==>
                Valid() && Stream() == old(Stream()) + [p] && ProfileStream() == old(ProfileStream()) + [profile]
      ensures err.None? ==> |buffer| < size || buffer == []
      ensures fault == NO_FLUSH_FAULT && DistinctKeys(old(buffer) + [p]) && Fresh(old(buffer) + [p]) ==> err.None?
    {
      buffer := buffer + [p];
      pendingProfiles := pendingProfiles + [profile];
      assert Stream() == old(Stream()) + [p] && ProfileStream() == old(ProfileStream()) + [profile];
      err := None;
      if |buffer| >= size {
        err := FlushNow(fault);
      }
    }

    method FlushNow(fault: FlushFault) returns (err: Option<string>)
      requires Valid()
      modifies this, places, profiles
      ensures Sound(places.table)
      ensures err.None? ==>
                Valid() && buffer == [] && Stream() == old(Stream()) && ProfileStream() == old(ProfileStream())
      ensures fault == NO_FLUSH_FAULT && DistinctKeys(old(buffer)) && Fresh(old(buffer)) ==> err.None?
    {
      if |buffer| == 0 {
        return None;
      }
      var r := FlushPlaces(fault.upsert);
      if r.Failure? {
        return Some(r.error);
      }
      written := written + |buffer|;
      err := WritePending(r.value, fault.writes);
      if err.None? {
        flushed, flushedProfiles := flushed + buffer, flushedProfiles + pendingProfiles;
        buffer, pendingProfiles := [], [];
      }
    }

    // The statement that writes the buffered places.
    method FlushPlaces(fault: bool) returns (r: Result<seq<Id>, string>)
      requires Sound(places.table) && UpsertAll(baseTable, flushed) == Some((places.table, touchedIDs)) && buffer != []
      modifies places
      ensures Sound(places.table)
      ensures r.Success? ==>
                && |r.value| == |buffer| && NoneUnset(r.value)
                && UpsertAll(baseTable, flushed + buffer) == Some((places.table, touchedIDs + r.value))
      ensures !fault && DistinctKeys(buffer) && Fresh(buffer) ==> r.Success?
    {
      ghost var before := places.table;
      FreshSucceeds(before, buffer);
      r := places.UpsertBatch(buffer, fault);
      if r.Success? {
        FlushJoins(baseTable, flushed, buffer, before, touchedIDs, places.table, r.value);
      }
    }

    // Each profile goes to the id its own place got.
    method WritePending(ids: seq<Id>, faults: set<int>) returns (err: Option<string>)
      requires |ids| == |pendingProfiles| && NoneUnset(ids) && |touchedIDs| == |flushedProfiles|
      requires WriteAll(baseProfiles, touchedIDs, flushedProfiles, now) == (profiles.rows, profilesWritten)
      modifies this`touchedIDs, this`profilesWritten, profiles
      ensures err.None? ==>
                && touchedIDs == old(touchedIDs) + ids
                && |touchedIDs| == |flushedProfiles + pendingProfiles|
                && WriteAll(baseProfiles, touchedIDs, flushedProfiles + pendingProfiles, now)
                    == (profiles.rows, profilesWritten)
      ensures faults == {} ==> err.None?
    {
      ghost var before := touchedIDs;
      ghost var done := flushedProfiles;
      for i := 0 to |ids|
        invariant touchedIDs == before + ids[..i] && done == flushedProfiles + pendingProfiles[..i]
        invariant WriteAll(baseProfiles, touchedIDs, done, now) == (profiles.rows, profilesWritten)
      {
        err := WriteOne(ids[i], pendingProfiles[i], i in faults, done);
        if err.Some? {
          return;
        }
        done := done + [pendingProfiles[i]];
      }
      assert ids[..|ids|] == ids && pendingProfiles[..|ids|] == pendingProfiles;
      return None;
    }

    // A place that came back without an id is passed over.
    method WriteOne(id: Id, profile: Option<Profile>, fault: bool, ghost done: seq<Option<Profile>>)
      returns (err: Option<string>)
      requires |touchedIDs| == |done|
      requires WriteAll(baseProfiles, touchedIDs, done, now) == (profiles.rows, profilesWritten)
      modifies this`touchedIDs, this`profilesWritten, profiles
      ensures err.None? && id.Uuid? ==>
                && touchedIDs == old(touchedIDs) + [id]
                && WriteAll(baseProfiles, touchedIDs, done + [profile], now) == (profiles.rows, profilesWritten)
      ensures id.Unset? ==>
                err.None? && touchedIDs == old(touchedIDs)
                && profilesWritten == old(profilesWritten) && profiles.rows == old(profiles.rows)
      ensures !fault ==> err.None?
    {
      if id.Unset? {
        return None;
      }
      WriteAllSnoc(baseProfiles, touchedIDs, done, now, id, profile);
      touchedIDs := touchedIDs + [id];
      if profile.Some? {
        var ok := WriteProfile(profiles, id, profile.value, now, fault);
        if ok.Failure? {
          return Some(ok.error);
        }
        if ok.value {
          profilesWritten := profilesWritten + 1;
        }
      }
      return None;
    }
  }

  // The statement for one more batch continues the one for what went before.
  lemma FlushJoins(base: Table, flushed: seq<Place>, batch: seq<Place>, t: Table, touched: seq<Id>, t': Table,
                   ids: seq<Id>)
    requires UpsertAll(base, flushed) == Some((t, touched)) && UpsertAll(t, batch) == Some((t', ids)) && Sound(t)
    ensures UpsertAll(base, flushed + batch) == Some((t', touched + ids)) && |ids| == |batch| && NoneUnset(ids)
  {
    UpsertAllConcat(base, flushed, batch);
    UpsertAllEffect(t, batch);
    forall i | 0 <= i < |ids|
      ensures ids[i].Uuid?
    {
      assert ids[i] in t'.rows;
    }
  }

  ghost predicate NoneUnset(ids: seq<Id>) {
    forall i | 0 <= i < |ids| :: ids[i].Uuid?
  }

  // Places as a source emits them: the database has given them no id yet.
  ghost predicate Fresh(ps: seq<Place>) {
    forall i | 0 <= i < |ps| :: ps[i].id.Unset?
  }

  lemma FreshSucceeds(t: Table, ps: seq<Place>)
    requires Sound(t)
    ensures Fresh(ps) ==> UpsertAll(t, ps).Some?
  {
    if Fresh(ps) {
      UpsertAllSucceeds(t, ps);
    }
  }
}

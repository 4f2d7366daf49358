// The profile race with the calls the two binaries make: merge patches on JSON
// documents, authenticated PATCHes and ingestions on typed rows.
module ProfilePatches {
  import opened Wrappers
  import opened Models
  import opened Folds
  import opened MergePatch
  import opened A11y
  import opened Profiles
  import opened ProfileRace

  // ---- Concurrent merge patches ----

  ghost predicate InRange(log: seq<nat>, n: nat) {
    forall k | 0 <= k < |log| :: log[k] < n
  }

  // A log without repeats that names every index below n.
  ghost predicate FullLog(log: seq<nat>, n: nat) {
    && InRange(log, n)
    && (forall k, l | 0 <= k < l < |log| :: log[k] != log[l])
    && (forall i: nat | i < n :: i in log)
  }

  function Pick<T>(items: seq<T>, log: seq<nat>): seq<T>
    requires InRange(log, |items|)
  {
    seq(|log|, k requires 0 <= k < |log| => items[log[k]])
  }

  // Seen as a document, the row that calls[i] leaves is the one it found with
  // patches[i] merged in, whenever it succeeds.
  ghost predicate MergesInView<R(!new)>(calls: seq<Call<R>>, patches: seq<Json>, view: Option<R> -> Json) {
    && |calls| == |patches|
    && forall i, o | 0 <= i < |calls| && Effect(calls[i], o).Some? ::
         view(Effect(calls[i], o)) == Merge(view(o), patches[i])
  }

  lemma {:induction false} SerialMerges<R(!new)>(calls: seq<Call<R>>, patches: seq<Json>, view: Option<R> -> Json,
                                                 initial: Option<R>, log: seq<nat>)
    requires MergesInView(calls, patches, view) && InRange(log, |patches|)
    requires forall k | 0 < k <= |log| :: Serial(calls, initial, log[..k]).Some?
    ensures view(Serial(calls, initial, log)) == MergeAll(view(initial), Pick(patches, log))
    decreases |log|
  {
    if log != [] {
      var n := |log| - 1;
      var init := log[..n];
      forall k | 0 < k <= |init|
        ensures Serial(calls, initial, init[..k]).Some?
      {
        assert init[..k] == log[..k];
      }
      SerialMerges(calls, patches, view, initial, init);
      assert log[..|log|] == log;
      assert Pick(patches, log) == Pick(patches, init) + [patches[log[n]]];
      FoldAllSnoc(Merge, view(initial), Pick(patches, init), patches[log[n]]);
    }
  }

  lemma FullLogWithout(log: seq<nat>, k: nat, n: nat)
    requires k < |log| && log[k] == n && FullLog(log, n + 1)
    ensures FullLog(Without(log, k), n)
  {
    var rest := Without(log, k);
    assert forall i | 0 <= i < |rest| :: rest[i] == log[if i < k then i else i + 1];
    forall i: nat | i < n
      ensures i in rest
    {
      assert i in log;
      var j :| 0 <= j < |log| && log[j] == i;
      assert rest[if j < k then j else j - 1] == i;
    }
  }

  lemma PickWithout<T>(items: seq<T>, log: seq<nat>, k: nat)
    requires items != [] && k < |log| && InRange(log, |items|) && InRange(Without(log, k), |items| - 1)
    ensures Pick(items[..|items| - 1], Without(log, k)) == Without(Pick(items, log), k)
  {
    var init, rest := items[..|items| - 1], Without(log, k);
    forall i | 0 <= i < |rest|
      ensures Pick(init, rest)[i] == Without(Pick(items, log), k)[i]
    {
      assert rest[i] == log[if i < k then i else i + 1];
    }
  }

  lemma SameRest<T>(a: multiset<T>, b: multiset<T>, x: T)
    requires x in a && x in b && a - multiset{x} == b - multiset{x}
    ensures a == b
  {
    assert a == (a - multiset{x}) + multiset{x};
    assert b == (b - multiset{x}) + multiset{x};
  }

  lemma PutBack<T>(s: seq<T>, i: nat, t: seq<T>, j: nat)
    requires i < |s| && j < |t| && s[i] == t[j]
    requires multiset(Without(s, i)) == multiset(Without(t, j))
    ensures multiset(s) == multiset(t)
  {
    WithoutMultiset(s, i);
    WithoutMultiset(t, j);
    SameRest(multiset(s), multiset(t), s[i]);
  }

  lemma SomeIndex(log: seq<nat>, n: nat)
    requires InRange(log, n)
    ensures log == [] || 0 < n
  {
    if log != [] {
      assert log[0] < n;
    }
  }

  lemma {:induction false} FullLogReorders<T>(items: seq<T>, log: seq<nat>)
    requires FullLog(log, |items|)
    ensures multiset(Pick(items, log)) == multiset(items)
    decreases |items|
  {
    if items == [] {
      SomeIndex(log, |items|);
    } else {
      var n := |items| - 1;
      assert n in log;
      var k :| 0 <= k < |log| && log[k] == n;
      FullLogWithout(log, k, n);
      FullLogReorders(items[..n], Without(log, k));
      PickWithout(items, log, k);
      assert Without(items, n) == items[..n];
      PutBack(Pick(items, log), k, items, n);
    }
  }

  // The patches in log have made doc out of start; agreeing ones did so in any
  // order, and each of them is still in effect.
  ghost predicate Survive(patches: seq<Json>, log: seq<nat>, start: Json, doc: Json)
    requires InRange(log, |patches|)
  {
    && doc == MergeAll(start, Pick(patches, log))
    && (PairwiseAgree(Pick(patches, log)) ==>
          && (forall order | multiset(order) == multiset(Pick(patches, log)) :: MergeAll(start, order) == doc)
          && (forall i | i in log :: Merge(doc, patches[i]) == doc))
  }

  lemma MergedPatchesSurvive(patches: seq<Json>, log: seq<nat>, start: Json, doc: Json)
    requires InRange(log, |patches|) && doc == MergeAll(start, Pick(patches, log))
    ensures Survive(patches, log, start, doc)
  {
    var picked := Pick(patches, log);
    if PairwiseAgree(picked) {
      forall order | multiset(order) == multiset(picked)
        ensures MergeAll(start, order) == doc
      {
        MergeAllAnyOrder(start, picked, order);
      }
      forall i | i in log
        ensures Merge(doc, patches[i]) == doc
      {
        var k :| 0 <= k < |log| && log[k] == i;
        EveryPatchSurvives(start, picked, k);
      }
    }
  }

  ghost predicate HasReturned<R>(s: State<R>, i: nat)
    requires i < |s.writers|
  {
    s.writers[i].phase.Done? && s.writers[i].phase.outcome.Returned?
  }

  lemma EveryPrefixLeavesARow<R>(calls: seq<Call<R>>, placeExists: bool, initial: Option<R>, states: seq<State<R>>,
                                 n: nat)
    requires Run(calls, placeExists, initial, states) && n < |states|
    ensures LogOk(calls, states[n])
    ensures forall k | 0 < k <= |states[n].log| :: Serial(calls, initial, states[n].log[..k]).Some?
  {
    RunKeepsInv(calls, placeExists, initial, states, n);
    forall k | 0 < k <= |states[n].log|
      ensures Serial(calls, initial, states[n].log[..k]).Some?
    {
      CommitsLeaveARow(calls, initial, states[n], k);
    }
  }

  // In every reachable state the document holds the patches of exactly the
  // calls that have returned, each merged once, in commit order, whatever the
  // other calls came to; and when those patches pairwise agree the order is
  // irrelevant and each of them survives.
  lemma ConcurrentPatchesSurvive<R(!new)>(calls: seq<Call<R>>, patches: seq<Json>, view: Option<R> -> Json,
                                          placeExists: bool,
                                          initial: Option<R>, states: seq<State<R>>, n: nat)
    requires Run(calls, placeExists, initial, states) && n < |states| && MergesInView(calls, patches, view)
    ensures var s := states[n];
            && |s.writers| == |calls| && LogOk(calls, s)
            && (forall i | 0 <= i < |calls| :: i in s.log <==> HasReturned(s, i))
            && Survive(patches, s.log, view(initial), view(s.committed))
  {
    var s := states[n];
    CommittedRowIsSerial(calls, placeExists, initial, states, n);
    EveryPrefixLeavesARow(calls, placeExists, initial, states, n);
    SerialMerges(calls, patches, view, initial, s.log);
    MergedPatchesSurvive(patches, s.log, view(initial), view(s.committed));
  }

  // When all of them have returned, that is all the patches in some order.
  lemma AllPatchesSurvive<R(!new)>(calls: seq<Call<R>>, patches: seq<Json>, view: Option<R> -> Json, placeExists: bool,
                                   initial: Option<R>, states: seq<State<R>>, n: nat) returns (order: seq<Json>)
    requires Run(calls, placeExists, initial, states) && n < |states| && MergesInView(calls, patches, view)
    requires |states[n].writers| == |patches| && forall i | 0 <= i < |patches| :: HasReturned(states[n], i)
    ensures multiset(order) == multiset(patches) && view(states[n].committed) == MergeAll(view(initial), order)
    ensures PairwiseAgree(patches) ==>
              && view(states[n].committed) == MergeAll(view(initial), patches)
              && forall i | 0 <= i < |patches| ::
                  Merge(view(states[n].committed), patches[i]) == view(states[n].committed)
  {
    var log := states[n].log;
    ConcurrentPatchesSurvive(calls, patches, view, placeExists, initial, states, n);
    FullLogReorders(patches, log);
    order := Pick(patches, log);
    if PairwiseAgree(patches) {
      MergeAllAnyOrder(view(initial), patches, order);
      assert PairwiseAgree(order);
    }
  }

  // ---- Authenticated PATCHes and ingestions ----

  function PatchCall(merge: Option<Profile> -> Result<Profile, string>, placeId: Id, key: string, now: int,
                     newId: nat): Call<Profile> {
    Patch(o => match merge(o)
               case Failure(e) => Failure(e)
               case Success(m) => Success(PatchedRow(o, m, placeId, key, now)), newId)
  }

  function IngestCall(p: Profile, placeId: Id, now: int, newId: nat): Call<Profile> {
    var flagged := p.(components := Flagged(p.components));
    Ingest((r: Profile) => r.userVerified, IngestedRow(placeId, flagged, now),
        (r: Profile) => ReplacedRow(r, flagged, now), newId)
  }

  // A call made by one of the two binaries, with any merge and any profile; the
  // API lets no PATCH through without a key.
  ghost predicate FromBinaries(call: Call<Profile>) {
    || (exists merge, placeId, key, now, newId :: key != "" && call == PatchCall(merge, placeId, key, now, newId))
    || (exists p, placeId, now, newId :: call == IngestCall(p, placeId, now, newId))
  }

  // An ingestion call run alone is the repository's ingestion write.
  lemma IngestCallIsRepositoryWrite(rows: ProfileTable, p: Profile, placeId: Id, now: int, newId: nat)
    ensures var call := IngestCall(p, placeId, now, newId);
            var row := RowAt(rows, placeId);
            RowAt(FlagAndWrite(rows, placeId, p, now), placeId) ==
            if row.Some? && call.blocked(row.value) then row else Effect(call, row)
  {
  }

  // A PATCH of the race run alone, with a place and no rivals, is the write of
  // the repository's attempt.
  lemma PatchCallIsRepositoryWrite(merge: Option<Profile> -> Result<Profile, string>, rows: ProfileTable, placeId: Id,
                                   key: string, now: int, newId: nat)
    ensures var existing := RowAt(rows, placeId);
            Effect(PatchCall(merge, placeId, key, now, newId), existing)
            == if merge(existing).Success? then Some(PatchedRow(existing, merge(existing).value, placeId, key,
                now)) else None
  {
  }

  const HAS_CURRENT_FLAGS: Profile -> bool := (r: Profile) => FlagsCurrent(r.components)

  const IS_USER_VERIFIED: Profile -> bool := (r: Profile) => r.userVerified

  lemma BinariesKeepFlags(call: Call<Profile>)
    requires FromBinaries(call)
    ensures Keeps(call, HAS_CURRENT_FLAGS)
  {
    if merge, placeId, key, now, newId :| key != "" && call == PatchCall(merge, placeId, key, now, newId) {
      PatchKeepsFlags(merge, placeId, key, now, newId);
    } else {
      var p, placeId, now, newId :| call == IngestCall(p, placeId, now, newId);
      FlaggedSettles(p.components);
    }
  }

  lemma PatchKeepsFlags(merge: Option<Profile> -> Result<Profile, string>, placeId: Id, key: string, now: int,
                        newId: nat)
    ensures Keeps(PatchCall(merge, placeId, key, now, newId), HAS_CURRENT_FLAGS)
  {
    forall o: Option<Profile> | PatchCall(merge, placeId, key, now, newId).apply(o).Success?
      ensures HAS_CURRENT_FLAGS(PatchCall(merge, placeId, key, now, newId).apply(o).value)
    {
      PatchedIsCurrent(o, merge(o).value, placeId, key, now);
    }
  }

  lemma PatchedIsCurrent(o: Option<Profile>, m: Profile, placeId: Id, key: string, now: int)
    ensures var row := PatchedRow(o, m, placeId, key, now); Flagged(row.components) == row.components
  {
    FlaggedSettles(m.components);
    FlaggedSettles(Flagged(m.components));
    assert PatchedRow(o, m, placeId, key, now).components == Flagged(m.components);
  }

  lemma BinariesAreGated(call: Call<Profile>)
    requires FromBinaries(call)
    ensures Gated(call, IS_USER_VERIFIED)
  {
    if merge, placeId, key, now, newId :| key != "" && call == PatchCall(merge, placeId, key, now, newId) {
      PatchIsGated(merge, placeId, key, now, newId);
    } else {
      var p, placeId, now, newId :| call == IngestCall(p, placeId, now, newId);
      IngestIsGated(p, placeId, now, newId);
    }
  }

  lemma PatchIsGated(merge: Option<Profile> -> Result<Profile, string>, placeId: Id, key: string, now: int, newId: nat)
    requires key != ""
    ensures Gated(PatchCall(merge, placeId, key, now, newId), IS_USER_VERIFIED)
  {
    forall o: Option<Profile> | PatchCall(merge, placeId, key, now, newId).apply(o).Success?
      ensures IS_USER_VERIFIED(PatchCall(merge, placeId, key, now, newId).apply(o).value)
    {
      assert PatchedRow(o, merge(o).value, placeId, key, now).userVerified;
    }
  }

  lemma IngestIsGated(p: Profile, placeId: Id, now: int, newId: nat)
    ensures Gated(IngestCall(p, placeId, now, newId), IS_USER_VERIFIED)
  {
  }

  // ---- Merge patches on typed rows ----

  // How a row is marshalled to a document and a document unmarshalled.
  datatype Codec = Codec(encode: Profile -> Json, decode: Json -> Result<Profile, string>)

  function DocOf(codec: Codec, row: Option<Profile>): Json {
    if row.None? then JObject(map[]) else codec.encode(row.value)
  }

  // Marshal the row found, {} for none, merge the patch and unmarshal.
  function JsonMerge(codec: Codec, patch: Json): Option<Profile> -> Result<Profile, string> {
    o => codec.decode(Merge(DocOf(codec, o), patch))
  }

  // Members that the server writes itself and the schema makes read-only.
  const SERVER_MEMBERS: set<string> :=
    {"id", "place_id", "audit_flags", "user_verified", "submitted_by", "submitted_at", "updated_at"}

  // A row as clients edit it.
  function ClientView(codec: Codec, row: Option<Profile>): Json {
    Omit(SERVER_MEMBERS, DocOf(codec, row))
  }

  function WithoutFlags<F>(c: Option<Component<F>>): Option<Component<F>> {
    Reflag(c, _ => [])
  }

  // The part of a row that clients write.
  function ClientPart(p: Profile): (seq<SourceReport>, Components) {
    var c := p.components;
    (p.sourceReports, Components(WithoutFlags(c.entrance), WithoutFlags(c.pathways), WithoutFlags(c.restroom),
                                 WithoutFlags(c.parking), WithoutFlags(c.elevator)))
  }

  lemma SameFactsSameFlags<F>(c: Option<Component<F>>, d: Option<Component<F>>, rule: F -> seq<string>)
    requires WithoutFlags(c) == WithoutFlags(d)
    ensures Reflag(c, rule) == Reflag(d, rule)
  {
    if c.Some? {
      assert c.value.facts == WithoutFlags(c).value.facts && d.value.facts == WithoutFlags(d).value.facts;
      assert Reflag(c, rule) == Some(WithoutFlags(c).value.(auditFlags := rule(c.value.facts)));
      assert Reflag(d, rule) == Some(WithoutFlags(d).value.(auditFlags := rule(d.value.facts)));
    }
  }

  // Profiles that clients cannot tell apart report the same and, once flagged,
  // have the same components.
  lemma ClientPartMeans(p: Profile, q: Profile)
    requires ClientPart(p) == ClientPart(q)
    ensures p.sourceReports == q.sourceReports && Flagged(p.components) == Flagged(q.components)
  {
    var c, d := p.components, q.components;
    SameFactsSameFlags(c.entrance, d.entrance, EntranceFlags);
    SameFactsSameFlags(c.pathways, d.pathways, PathwayFlags);
    SameFactsSameFlags(c.restroom, d.restroom, RestroomFlags);
    SameFactsSameFlags(c.parking, d.parking, ParkingFlags);
    SameFactsSameFlags(c.elevator, d.elevator, ElevatorFlags);
  }

  // What the server writes appears under its own members only.
  ghost predicate KeepsServerMembers(codec: Codec) {
    forall p, q :: ClientPart(p) == ClientPart(q) ==> ClientView(codec, Some(p)) == ClientView(codec, Some(q))
  }

  // The patch names no member of the server, and no member it names is lost or
  // altered between document and row.
  ghost predicate Carries(codec: Codec, patch: Json) {
    && Omit(SERVER_MEMBERS, patch) == patch
    && forall o, m | codec.decode(Merge(DocOf(codec, o), patch)) == Success(m) ::
         ClientView(codec, Some(m)) == Omit(SERVER_MEMBERS, Merge(DocOf(codec, o), patch))
  }

  // One PATCH as a handler sees it: who calls, when, and the id a new row gets.
  datatype Caller = Caller(key: string, now: int, newId: nat)

  function ProfileCalls(codec: Codec, patches: seq<Json>, placeId: Id, callers: seq<Caller>): seq<Call<Profile>>
    requires |callers| == |patches|
  {
    seq(|patches|, i requires 0 <= i < |patches| =>
      PatchCall(JsonMerge(codec, patches[i]), placeId, callers[i].key, callers[i].now, callers[i].newId))
  }

  lemma FlagsAreServers<F>(c: Option<Component<F>>, rule: F -> seq<string>)
    ensures WithoutFlags(Reflag(c, rule)) == WithoutFlags(c)
  {
  }

  lemma PatchedClientPart(o: Option<Profile>, m: Profile, placeId: Id, key: string, now: int)
    ensures ClientPart(PatchedRow(o, m, placeId, key, now)) == ClientPart(m)
  {
    var c := m.components;
    assert PatchedRow(o, m, placeId, key, now).components == Flagged(c);
    FlagsAreServers(c.entrance, EntranceFlags);
    FlagsAreServers(c.pathways, PathwayFlags);
    FlagsAreServers(c.restroom, RestroomFlags);
    FlagsAreServers(c.parking, ParkingFlags);
    FlagsAreServers(c.elevator, ElevatorFlags);
  }

  // In the clients' view a PATCH merges its patch and does nothing else.
  lemma PatchMergesInView(codec: Codec, patch: Json, placeId: Id, c: Caller, o: Option<Profile>)
    requires KeepsServerMembers(codec) && Carries(codec, patch)
    ensures var call := PatchCall(JsonMerge(codec, patch), placeId, c.key, c.now, c.newId);
            Effect(call, o).Some? ==> ClientView(codec, Effect(call, o)) == Merge(ClientView(codec, o), patch)
  {
    var merged := JsonMerge(codec, patch)(o);
    if merged.Success? {
      var row := PatchedRow(o, merged.value, placeId, c.key, c.now);
      PatchedClientPart(o, merged.value, placeId, c.key, c.now);
      assert ClientView(codec, Some(row)) == ClientView(codec, Some(merged.value));
      OmitMerge(SERVER_MEMBERS, DocOf(codec, o), patch);
    }
  }

  // The same on the stored rows: in every reachable state of any PATCHes, what
  // clients see of the row is the merge of exactly the patches that returned,
  // rejected ones leaving no trace.
  lemma ProfilePatchesSurvive(codec: Codec, patches: seq<Json>, placeId: Id, callers: seq<Caller>, placeExists: bool,
                              initial: Option<Profile>, states: seq<State<Profile>>, n: nat)
    requires KeepsServerMembers(codec) && (forall i | 0 <= i < |patches| :: Carries(codec, patches[i]))
    requires |callers| == |patches|
    requires Run(ProfileCalls(codec, patches, placeId, callers), placeExists, initial, states) && n < |states|
    ensures var s := states[n];
            && |s.writers| == |patches| && InRange(s.log, |patches|)
            && (forall i | 0 <= i < |patches| :: i in s.log <==> HasReturned(s, i))
            && Survive(patches, s.log, ClientView(codec, initial), ClientView(codec, s.committed))
    ensures initial.None? ==> ClientView(codec, initial) == JObject(map[])
  {
    var calls := ProfileCalls(codec, patches, placeId, callers);
    var view := (o: Option<Profile>) => ClientView(codec, o);
    forall i, o | 0 <= i < |calls| && Effect(calls[i], o).Some?
      ensures view(Effect(calls[i], o)) == Merge(view(o), patches[i])
    {
      PatchMergesInView(codec, patches[i], placeId, callers[i], o);
    }
    ConcurrentPatchesSurvive(calls, patches, view, placeExists, initial, states, n);
  }

  // ---- Flags and verification ----

  // In every reachable state the stored flags are the ones recomputed from the
  // stored facts, whatever interleaves; reading through a parent keeps that.
  lemma StoredFlagsAreCurrent(calls: seq<Call<Profile>>, placeExists: bool, initial: Option<Profile>,
                              states: seq<State<Profile>>, n: nat,
                              parentId: Id, parent: Option<Profile>)
    requires Run(calls, placeExists, initial, states) && n < |states|
    requires forall i | 0 <= i < |calls| :: FromBinaries(calls[i])
    requires initial.Some? ==> FlagsCurrent(initial.value.components)
    requires parent.Some? ==> FlagsCurrent(parent.value.components)
    ensures states[n].committed.Some? ==> FlagsCurrent(states[n].committed.value.components)
    ensures FlagsCurrent(Effective(states[n].committed, parentId, parent).components)
  {
    forall i | 0 <= i < |calls|
      ensures Keeps(calls[i], HAS_CURRENT_FLAGS)
    {
      BinariesKeepFlags(calls[i]);
    }
    if initial.Some? {
      FlaggedSettles(initial.value.components);
    }
    CommittedRowKeeps(calls, placeExists, initial, states, n, HAS_CURRENT_FLAGS);
    if states[n].committed.Some? {
      FlaggedSettles(states[n].committed.value.components);
    }
    EffectiveIsCurrent(states[n].committed, parentId, parent);
  }

  lemma CallsAreGated(calls: seq<Call<Profile>>)
    requires forall i | 0 <= i < |calls| :: FromBinaries(calls[i])
    ensures AllGated(calls, IS_USER_VERIFIED)
  {
    forall i | 0 <= i < |calls|
      ensures Gated(calls[i], IS_USER_VERIFIED)
    {
      BinariesAreGated(calls[i]);
    }
  }

  // Once a PATCH has verified a profile it stays verified over every run; and
  // as long as no PATCH commits between an ingestion's read and its write, in
  // particular if ingestions are atomic, only PATCHes change it from then on.
  lemma VerifiedProfileIsProtected(calls: seq<Call<Profile>>, placeExists: bool, initial: Option<Profile>,
                                   states: seq<State<Profile>>, n: nat)
    requires Run(calls, placeExists, initial, states) && n + 1 < |states|
    requires forall i | 0 <= i < |calls| :: FromBinaries(calls[i])
    requires states[n].committed.Some? && states[n].committed.value.userVerified
    ensures states[n + 1].committed.Some? && states[n + 1].committed.value.userVerified
    ensures NoPatchBetween(calls, states) && states[n + 1].committed != states[n].committed ==>
              exists i :: 0 <= i < |calls| && calls[i].Patch? && CommitStep(calls, states[n], states[n + 1], i)
  {
    CallsAreGated(calls);
    VerifiedSticks(calls, placeExists, initial, states, IS_USER_VERIFIED, n);
    if NoPatchBetween(calls, states) && states[n + 1].committed != states[n].committed {
      VerifiedRowsAreSafe(calls, placeExists, initial, states, IS_USER_VERIFIED, n);
    }
  }

  // And otherwise some ingestion has a pending write over a verified profile:
  // the condition is exact.
  lemma PatchBetweenBreaksGate(calls: seq<Call<Profile>>, placeExists: bool, initial: Option<Profile>,
                               states: seq<State<Profile>>)
    returns (n: nat, i: nat)
    requires Run(calls, placeExists, initial, states) && !NoPatchBetween(calls, states)
    requires forall i | 0 <= i < |calls| :: FromBinaries(calls[i])
    ensures n < |states| && i < |calls| == |states[n].writers|
    ensures calls[i].Ingest? && states[n].writers[i].phase.Written?
    ensures states[n].committed.Some? && states[n].committed.value.userVerified
  {
    CallsAreGated(calls);
    GateHoldsIffNoPatchBetween(calls, placeExists, initial, states, IS_USER_VERIFIED);
    n :| 0 <= n < |states| && !IngestsMeetUnverified(calls, states[n], IS_USER_VERIFIED);
    i :| 0 <= i < |calls| && calls[i].Ingest? && states[n].writers[i].phase.Written?
        && IsVerified(states[n].committed, IS_USER_VERIFIED);
  }

  // The unlocked read matters: an ingestion that reads before a PATCH commits
  // and writes after it replaces the verified components, while the row still
  // says it is verified. The run is one that the code allows for every
  // unverified row, every ingested profile and every merge that succeeds on it.
  lemma UnlockedReadLosesPatch(row: Profile, p: Profile, merge: Option<Profile> -> Result<Profile, string>,
                               placeId: Id, key: string, now: int, otherIds: set<nat>)
    returns (states: seq<State<Profile>>)
    requires !row.userVerified && merge(Some(row)).Success? && key != ""
    ensures Run([IngestCall(p, placeId, now, 0), PatchCall(merge, placeId, key, now, 1)], true, Some(row), states)
    ensures |states| == 7
    ensures states[4].committed == Some(PatchedRow(Some(row), merge(Some(row)).value, placeId, key, now))
    ensures states[6].committed.Some? && states[6].committed.value.userVerified
    ensures states[6].committed.value.components == Flagged(p.components)
  {
    states := UnlockedReadOverwrites(IngestCall(p, placeId, now, 0), PatchCall(merge, placeId, key, now, 1), row,
        otherIds);
  }
}

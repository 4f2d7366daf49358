// Concurrent writes to one place's accessibility profile, statement by
// statement under READ COMMITTED: UpsertProfile with its row lock, unique
// constraint and single retry, and UpsertProfileIngestion with its unlocked
// read (internal/place/repository.go:127-253).
module ProfileRace {
  import opened Wrappers

  // One call. A patch computes the new row from the row it read (None: no row)
  // or rejects. An ingestion skips a row it saw as blocked, and otherwise
  // overwrites whatever row is there when its UPDATE runs. newId is the
  // primary key an INSERT of this call would use.
  datatype Call<!R> =
    | Patch(apply: Option<R> -> Result<R, string>, newId: nat)
    | Ingest(blocked: R -> bool, create: R, overwrite: R -> R, newId: nat)

  datatype Error = UniqueViolation | Rejected(reason: string) | PlaceNotFound | Aborted

  datatype Outcome<+R> = Returned(row: R, created: bool) | Skipped | Failed(error: Error)

  // Where a call stands. Looked holds the row lock when it saw a row; at is the
  // number of commits when an unlocked read ran.
  datatype Phase<+R> =
    | Begin
    | Looked(locked: Option<R>)
    | Read(seen: Option<R>, at: nat)
    | Written(row: R, isNew: bool)
    | Done(outcome: Outcome<R>)

  datatype Writer<+R> = Writer(phase: Phase<R>, attempt: nat)

  // The committed row, the transaction holding its lock, the transaction with
  // an uncommitted INSERT, profile ids used by other places, and the callers
  // that committed, in order.
  datatype State<+R> = State(
    committed: Option<R>, lock: Option<nat>, inserting: Option<nat>,
    writers: seq<Writer<R>>, otherIds: set<nat>, log: seq<nat>)

  function Start<R>(initial: Option<R>, n: nat, otherIds: set<nat>): State<R> {
    State(initial, None, None, seq(n, _ => Writer(Begin, 0)), otherIds, [])
  }

  function SetPhase<R>(s: State<R>, i: nat, phase: Phase<R>): State<R>
    requires i < |s.writers|
  {
    s.(writers := s.writers[i := s.writers[i].(phase := phase)])
  }

  function Release<R>(s: State<R>, i: nat): State<R> {
    s.(lock := if s.lock == Some(i) then None else s.lock,
       inserting := if s.inserting == Some(i) then None else s.inserting)
  }

  // ---- Statements ----

  // The first statements of a transaction: the place exists, then SELECT ...
  // FOR UPDATE, which waits for the lock; ingestion reads without it.
  ghost predicate LookupStep<R>(calls: seq<Call<R>>, placeExists: bool, s: State<R>, s': State<R>, i: nat) {
    && i < |calls| == |s.writers| && s.writers[i].phase.Begin?
    && if calls[i].Ingest? then
         s' == SetPhase(s, i, Read(s.committed, |s.log|))
       else if !placeExists then
         s' == SetPhase(s, i, Done(Failed(PlaceNotFound)))
       else if s.committed.None? then
         s' == SetPhase(s, i, Looked(None))
       else
         s.lock.None? && s' == SetPhase(s, i, Looked(s.committed)).(lock := Some(i))
  }

  // An attempt that ended in a unique violation: a patch tries once more.
  function AfterViolation<R>(calls: seq<Call<R>>, s: State<R>, i: nat): State<R>
    requires i < |calls| == |s.writers|
  {
    if calls[i].Patch? && s.writers[i].attempt == 0 then
      s.(writers := s.writers[i := Writer(Begin, 1)])
    else
      SetPhase(s, i, Done(Failed(UniqueViolation)))
  }

  // INSERT: violates a taken id or an existing row, and waits for a rival
  // insert to commit or roll back.
  ghost predicate InsertStep<R>(calls: seq<Call<R>>, s: State<R>, s': State<R>, i: nat, row: R)
    requires i < |calls| == |s.writers|
  {
    if calls[i].newId in s.otherIds || s.committed.Some? then
      s' == AfterViolation(calls, s, i)
    else
      s.inserting.None? && s' == SetPhase(s, i, Written(row, true)).(inserting := Some(i))
  }

  ghost predicate WriteStep<R>(calls: seq<Call<R>>, s: State<R>, s': State<R>, i: nat) {
    && i < |calls| == |s.writers|
    && match s.writers[i].phase
       case Looked(locked) =>
         calls[i].Patch?
         && (match calls[i].apply(locked)
             case Failure(e) => s' == Release(SetPhase(s, i, Done(Failed(Rejected(e)))), i)
             case Success(row) =>
               if locked.Some? then s' == SetPhase(s, i, Written(row, false))
               else InsertStep(calls, s, s', i, row))
       case Read(seen, at) =>
         calls[i].Ingest?
         && (if seen.None? then InsertStep(calls, s, s', i, calls[i].create)
             else if calls[i].blocked(seen.value) then s' == SetPhase(s, i, Done(Skipped))
             else s.lock.None? && s.committed.Some?
                  && s' == SetPhase(s, i, Written(calls[i].overwrite(s.committed.value), false)).(lock := Some(i)))
       case _ => false
  }

  ghost predicate CommitStep<R>(calls: seq<Call<R>>, s: State<R>, s': State<R>, i: nat) {
    && i < |calls| == |s.writers| && s.writers[i].phase.Written?
    && var (row, isNew) := (s.writers[i].phase.row, s.writers[i].phase.isNew);
       s' == Release(SetPhase(s, i, Done(Returned(row, isNew))), i).(committed := Some(row), log := s.log + [i])
  }

  // A transaction may fail at any point for any other reason and roll back.
  ghost predicate AbortStep<R>(calls: seq<Call<R>>, s: State<R>, s': State<R>, i: nat) {
    && i < |calls| == |s.writers| && !s.writers[i].phase.Done?
    && s' == Release(SetPhase(s, i, Done(Failed(Aborted))), i)
  }

  // A profile of another place takes an id.
  ghost predicate OtherPlaceStep<R>(s: State<R>, s': State<R>) {
    s.otherIds <= s'.otherIds && s' == s.(otherIds := s'.otherIds)
  }

  ghost predicate Next<R>(calls: seq<Call<R>>, placeExists: bool, s: State<R>, s': State<R>) {
    || (exists i :: LookupStep(calls, placeExists, s, s', i))
    || (exists i :: WriteStep(calls, s, s', i))
    || (exists i :: CommitStep(calls, s, s', i))
    || (exists i :: AbortStep(calls, s, s', i))
    || OtherPlaceStep(s, s')
  }

  ghost predicate Run<R>(calls: seq<Call<R>>, placeExists: bool, initial: Option<R>, states: seq<State<R>>) {
    && states != []
    && states[0] == Start(initial, |calls|, states[0].otherIds)
    && forall k | 0 <= k < |states| - 1 :: Next(calls, placeExists, states[k], states[k + 1])
  }

  // ---- Serial meaning ----

  // What a call does to the row when it runs alone, given that it writes.
  function Effect<R>(call: Call<R>, row: Option<R>): Option<R> {
    match call
    case Patch(apply, _) => (match apply(row) case Success(r) => Some(r) case Failure(_) => None)
    case Ingest(_, create, overwrite, _) => if row.None? then Some(create) else Some(overwrite(row.value))
  }

  function Serial<R>(calls: seq<Call<R>>, initial: Option<R>, log: seq<nat>): Option<R>
    requires forall k | 0 <= k < |log| :: log[k] < |calls|
  {
    if log == [] then initial
    else Effect(calls[log[|log| - 1]], Serial(calls, initial, log[..|log| - 1]))
  }

  // ---- The invariant ----

  ghost predicate Holds<R>(s: State<R>, i: nat)
    requires i < |s.writers|
  {
    var p := s.writers[i].phase;
    (p.Looked? && p.locked.Some?) || (p.Written? && !p.isNew)
  }

  ghost predicate WriterOk<R>(calls: seq<Call<R>>, initial: Option<R>, s: State<R>, i: nat)
    requires i < |calls| == |s.writers| && LogOk(calls, s)
  {
    var Writer(p, attempt) := s.writers[i];
    var clash := calls[i].newId in s.otherIds;
    && (s.lock == Some(i) <==> Holds(s, i))
    && (s.inserting == Some(i) <==> p.Written? && p.isNew)
    && attempt <= 1
    && (attempt == 1 && !p.Done? ==> clash || s.committed.Some?)
    && (p.Done? && p.outcome == Failed(UniqueViolation) ==> clash || calls[i].Ingest?)
    && (p.Looked? ==> calls[i].Patch? && (p.locked.Some? ==> p.locked == s.committed))
    && (p.Looked? && p.locked.None? && attempt == 1 ==> clash)
    && (p.Read? ==> calls[i].Ingest? && p.at <= |s.log| && p.seen == Serial(calls, initial, s.log[..p.at]))
    && (p.Written? ==> (p.isNew <==> s.committed.None?) && Effect(calls[i], s.committed) == Some(p.row))
    && (i in s.log <==> p.Done? && p.outcome.Returned?)
    && (p.Done? && p.outcome.Returned? ==> ReturnedAt(calls, initial, s.log, i, p.outcome))
  }

  // The call's result is the row right after its own commit, and created says
  // that it found none.
  ghost predicate ReturnedAt<R>(calls: seq<Call<R>>, initial: Option<R>, log: seq<nat>, i: nat, o: Outcome<R>)
    requires forall k | 0 <= k < |log| :: log[k] < |calls|
    requires o.Returned?
  {
    exists k :: 0 <= k < |log| && log[k] == i
                && Serial(calls, initial, log[..k + 1]) == Some(o.row)
                && (o.created <==> Serial(calls, initial, log[..k]).None?)
  }

  ghost predicate LogOk<R>(calls: seq<Call<R>>, s: State<R>) {
    && (forall k | 0 <= k < |s.log| :: s.log[k] < |calls|)
    && (forall k, l | 0 <= k < l < |s.log| :: s.log[k] != s.log[l])
  }

  ghost predicate Inv<R>(calls: seq<Call<R>>, initial: Option<R>, s: State<R>) {
    && |s.writers| == |calls|
    && LogOk(calls, s)
    && s.committed == Serial(calls, initial, s.log)
    && (s.lock.Some? ==> s.lock.value < |calls| && s.committed.Some?)
    && (s.inserting.Some? ==> s.inserting.value < |calls| && s.committed.None?)
    && (forall i | 0 <= i < |calls| :: WriterOk(calls, initial, s, i))
  }

  lemma InvInit<R>(calls: seq<Call<R>>, initial: Option<R>, otherIds: set<nat>)
    ensures Inv(calls, initial, Start(initial, |calls|, otherIds))
  {
  }

  // What a look-up leaves of a call's own invariant.
  lemma LookupKeepsOwn<R>(calls: seq<Call<R>>, placeExists: bool, initial: Option<R>, s: State<R>, s': State<R>, i: nat)
    requires Inv(calls, initial, s) && LookupStep(calls, placeExists, s, s', i)
    ensures LogOk(calls, s') && WriterOk(calls, initial, s', i)
  {
    assert WriterOk(calls, initial, s, i);
    assert s.log[..|s.log|] == s.log;
  }

  lemma LookupKeepsInv<R>(calls: seq<Call<R>>, placeExists: bool, initial: Option<R>, s: State<R>, s': State<R>, i: nat)
    requires Inv(calls, initial, s) && LookupStep(calls, placeExists, s, s', i)
    ensures Inv(calls, initial, s')
  {
    LookupKeepsOwn(calls, placeExists, initial, s, s', i);
    forall j | 0 <= j < |calls|
      ensures WriterOk(calls, initial, s', j)
    {
      assert WriterOk(calls, initial, s, j);
      assert WriterOk(calls, initial, s, i);
    }
  }

  lemma InsertKeepsInv<R>(calls: seq<Call<R>>, initial: Option<R>, s: State<R>, s': State<R>, i: nat, row: R)
    requires Inv(calls, initial, s) && i < |calls| && InsertStep(calls, s, s', i, row)
    requires s.writers[i].phase == Looked(None) || (s.writers[i].phase.Read? && s.writers[i].phase.seen.None?)
    requires Effect(calls[i], None) == Some(row)
    ensures Inv(calls, initial, s')
  {
    assert WriterOk(calls, initial, s, i);
    forall j | 0 <= j < |calls|
      ensures WriterOk(calls, initial, s', j)
    {
      assert WriterOk(calls, initial, s, j);
    }
  }

  lemma UpdateKeepsInv<R>(calls: seq<Call<R>>, initial: Option<R>, s: State<R>, s': State<R>, i: nat, row: R)
    requires Inv(calls, initial, s) && i < |calls| && !s.writers[i].phase.Written? && !s.writers[i].phase.Done?
    requires s.lock == Some(i) || s.lock.None?
    requires s.committed.Some? && Effect(calls[i], s.committed) == Some(row)
    requires s' == SetPhase(s, i, Written(row, false)).(lock := Some(i))
    ensures Inv(calls, initial, s')
  {
    assert WriterOk(calls, initial, s, i);
    forall j | 0 <= j < |calls|
      ensures WriterOk(calls, initial, s', j)
    {
      assert WriterOk(calls, initial, s, j);
    }
  }

  lemma GiveUpKeepsInv<R>(calls: seq<Call<R>>, initial: Option<R>, s: State<R>, s': State<R>, i: nat, o: Outcome<R>)
    requires Inv(calls, initial, s) && i < |calls| && !s.writers[i].phase.Done?
    requires !o.Returned? && o != Failed(UniqueViolation)
    requires s' == Release(SetPhase(s, i, Done(o)), i)
    ensures Inv(calls, initial, s')
  {
    assert WriterOk(calls, initial, s, i);
    forall j | 0 <= j < |calls|
      ensures WriterOk(calls, initial, s', j)
    {
      assert WriterOk(calls, initial, s, j);
    }
  }

  lemma WriteKeepsInv<R>(calls: seq<Call<R>>, initial: Option<R>, s: State<R>, s': State<R>, i: nat)
    requires Inv(calls, initial, s) && WriteStep(calls, s, s', i)
    ensures Inv(calls, initial, s')
  {
    assert WriterOk(calls, initial, s, i);
    match s.writers[i].phase {
      case Looked(locked) =>
        match calls[i].apply(locked) {
          case Failure(e) => GiveUpKeepsInv(calls, initial, s, s', i, Failed(Rejected(e)));
          case Success(row) =>
            if locked.Some? {
              UpdateKeepsInv(calls, initial, s, s', i, row);
            } else {
              InsertKeepsInv(calls, initial, s, s', i, row);
            }
        }
      case Read(seen, at) =>
        if seen.None? {
          InsertKeepsInv(calls, initial, s, s', i, calls[i].create);
        } else if calls[i].blocked(seen.value) {
          GiveUpKeepsInv(calls, initial, s, s', i, Skipped);
        } else {
          UpdateKeepsInv(calls, initial, s, s', i, calls[i].overwrite(s.committed.value));
        }
      case _ => assert false;
    }
  }

  lemma OtherPlaceKeepsInv<R>(calls: seq<Call<R>>, initial: Option<R>, s: State<R>, s': State<R>)
    requires Inv(calls, initial, s) && OtherPlaceStep(s, s')
    ensures Inv(calls, initial, s')
  {
    forall j | 0 <= j < |calls|
      ensures WriterOk(calls, initial, s', j)
    {
      assert WriterOk(calls, initial, s, j);
    }
  }

  lemma ReturnedAtGrows<R>(calls: seq<Call<R>>, initial: Option<R>, log: seq<nat>, n: nat, i: nat, o: Outcome<R>)
    requires n < |calls| && o.Returned?
    requires forall k | 0 <= k < |log| :: log[k] < |calls|
    requires ReturnedAt(calls, initial, log, i, o)
    ensures ReturnedAt(calls, initial, log + [n], i, o)
  {
    var k :| 0 <= k < |log| && log[k] == i
             && Serial(calls, initial, log[..k + 1]) == Some(o.row)
             && (o.created <==> Serial(calls, initial, log[..k]).None?);
    assert (log + [n])[..k + 1] == log[..k + 1] && (log + [n])[..k] == log[..k];
  }

  lemma CommitKeepsOther<R>(calls: seq<Call<R>>, initial: Option<R>, s: State<R>, s': State<R>, i: nat, j: nat)
    requires Inv(calls, initial, s) && CommitStep(calls, s, s', i) && j < |calls| && j != i
    ensures LogOk(calls, s') && WriterOk(calls, initial, s', j)
  {
    assert WriterOk(calls, initial, s, i);
    assert WriterOk(calls, initial, s, j);
    var p := s.writers[j].phase;
    if p.Done? && p.outcome.Returned? {
      ReturnedAtGrows(calls, initial, s.log, i, j, p.outcome);
    } else if p.Read? {
      assert s'.log[..p.at] == s.log[..p.at];
    }
  }

  lemma CommitKeepsOwn<R>(calls: seq<Call<R>>, initial: Option<R>, s: State<R>, s': State<R>, i: nat)
    requires Inv(calls, initial, s) && CommitStep(calls, s, s', i)
    ensures LogOk(calls, s') && s'.committed == Serial(calls, initial, s'.log) && WriterOk(calls, initial, s', i)
  {
    assert WriterOk(calls, initial, s, i);
    var n := |s.log|;
    assert s'.log[..n] == s.log && s'.log[..n + 1] == s'.log;
    assert s'.log[n] == i;
  }

  lemma CommitKeepsInv<R>(calls: seq<Call<R>>, initial: Option<R>, s: State<R>, s': State<R>, i: nat)
    requires Inv(calls, initial, s) && CommitStep(calls, s, s', i)
    ensures Inv(calls, initial, s')
  {
    CommitKeepsOwn(calls, initial, s, s', i);
    forall j | 0 <= j < |calls|
      ensures WriterOk(calls, initial, s', j)
    {
      if j != i {
        CommitKeepsOther(calls, initial, s, s', i, j);
      }
    }
    assert WriterOk(calls, initial, s, i);
  }

  lemma NextKeepsInv<R>(calls: seq<Call<R>>, placeExists: bool, initial: Option<R>, s: State<R>, s': State<R>)
    requires Inv(calls, initial, s) && Next(calls, placeExists, s, s')
    ensures Inv(calls, initial, s')
  {
    if i :| LookupStep(calls, placeExists, s, s', i) {
      LookupKeepsInv(calls, placeExists, initial, s, s', i);
    } else if i :| WriteStep(calls, s, s', i) {
      WriteKeepsInv(calls, initial, s, s', i);
    } else if i :| CommitStep(calls, s, s', i) {
      CommitKeepsInv(calls, initial, s, s', i);
    } else if i :| AbortStep(calls, s, s', i) {
      GiveUpKeepsInv(calls, initial, s, s', i, Failed(Aborted));
    } else {
      OtherPlaceKeepsInv(calls, initial, s, s');
    }
  }

  lemma {:induction false} RunKeepsInv<R>(calls: seq<Call<R>>, placeExists: bool, initial: Option<R>,
                                          states: seq<State<R>>, n: nat)
    requires Run(calls, placeExists, initial, states) && n < |states|
    ensures Inv(calls, initial, states[n])
  {
    if n == 0 {
      InvInit(calls, initial, states[0].otherIds);
    } else {
      RunKeepsInv(calls, placeExists, initial, states, n - 1);
      assert Next(calls, placeExists, states[n - 1], states[n - 1 + 1]);
      NextKeepsInv(calls, placeExists, initial, states[n - 1], states[n]);
    }
  }

  // ---- Two attempts suffice ----

  // However many calls interleave, a patch never ends in a unique violation
  // unless the id it would insert belongs to another place's profile.
  lemma TwoAttemptsSuffice<R>(calls: seq<Call<R>>, placeExists: bool, initial: Option<R>, states: seq<State<R>>, n: nat,
                              i: nat)
    requires Run(calls, placeExists, initial, states) && n < |states| && i < |calls|
    requires |states[n].writers| == |calls|
    requires calls[i].Patch? && states[n].writers[i].phase == Done(Failed(UniqueViolation))
    ensures calls[i].newId in states[n].otherIds
  {
    RunKeepsInv(calls, placeExists, initial, states, n);
    assert WriterOk(calls, initial, states[n], i);
  }

  // When such ids never occur, no patch ends in a unique violation at all.
  lemma FreshIdsNeverViolate<R>(calls: seq<Call<R>>, placeExists: bool, initial: Option<R>, states: seq<State<R>>)
    requires Run(calls, placeExists, initial, states)
    requires forall n, i | 0 <= n < |states| && 0 <= i < |calls| :: calls[i].newId !in states[n].otherIds
    ensures forall n, i | 0 <= n < |states| && 0 <= i < |states[n].writers| && i < |calls| && calls[i].Patch? ::
              states[n].writers[i].phase != Done(Failed(UniqueViolation))
  {
    forall n, i | 0 <= n < |states| && 0 <= i < |states[n].writers| && i < |calls| && calls[i].Patch?
      ensures states[n].writers[i].phase != Done(Failed(UniqueViolation))
    {
      RunKeepsInv(calls, placeExists, initial, states, n);
      if states[n].writers[i].phase == Done(Failed(UniqueViolation)) {
        TwoAttemptsSuffice(calls, placeExists, initial, states, n, i);
      }
    }
  }

  // With such an id and no row to update, the retry cannot help: the call alone
  // violates the primary key twice. Only a caller of the repository can bring
  // such an id; the HTTP schema makes it read-only.
  lemma TakenIdFailsTwice<R>(call: Call<R>, row: R, otherIds: set<nat>) returns (states: seq<State<R>>)
    requires call.Patch? && call.apply(None) == Success(row) && call.newId in otherIds
    ensures Run([call], true, None, states)
    ensures |states| == 5 && |states[4].writers| == 1
    ensures states[4].writers[0] == Writer(Done(Failed(UniqueViolation)), 1)
  {
    var calls := [call];
    var s0: State<R> := Start(None, 1, otherIds);
    var s1 := SetPhase(s0, 0, Looked(None));
    var s2 := AfterViolation(calls, s1, 0);
    var s3 := SetPhase(s2, 0, Looked(None));
    var s4 := AfterViolation(calls, s3, 0);
    states := [s0, s1, s2, s3, s4];
    assert LookupStep(calls, true, s0, s1, 0);
    assert WriteStep(calls, s1, s2, 0);
    assert LookupStep(calls, true, s2, s3, 0);
    assert WriteStep(calls, s3, s4, 0);
    assert Next(calls, true, s0, s1) && Next(calls, true, s1, s2) && Next(calls, true, s2, s3)
        && Next(calls, true, s3, s4);
  }

  // ---- Serial order and creation ----

  lemma CommitsLeaveARow<R>(calls: seq<Call<R>>, initial: Option<R>, s: State<R>, k: nat)
    requires Inv(calls, initial, s) && 0 < k <= |s.log|
    ensures Serial(calls, initial, s.log[..k]).Some?
  {
    var i := s.log[k - 1];
    assert WriterOk(calls, initial, s, i) && i in s.log;
    var o := s.writers[i].phase.outcome;
    var l :| 0 <= l < |s.log| && s.log[l] == i && Serial(calls, initial, s.log[..l + 1]) == Some(o.row);
    assert l == k - 1;
  }

  // The calls that returned are exactly the logged ones, each once, in an order
  // whose one-at-a-time execution gives the committed row.
  lemma CommittedRowIsSerial<R>(calls: seq<Call<R>>, placeExists: bool, initial: Option<R>, states: seq<State<R>>,
                                n: nat)
    requires Run(calls, placeExists, initial, states) && n < |states|
    ensures var s := states[n];
            && LogOk(calls, s)
            && |s.writers| == |calls|
            && s.committed == Serial(calls, initial, s.log)
            && forall i | 0 <= i < |calls| ::
                i in s.log <==> s.writers[i].phase.Done? && s.writers[i].phase.outcome.Returned?
  {
    RunKeepsInv(calls, placeExists, initial, states, n);
    forall i | 0 <= i < |calls|
      ensures i in states[n].log <==> states[n].writers[i].phase.Done? && states[n].writers[i].phase.outcome.Returned?
    {
      assert WriterOk(calls, initial, states[n], i);
    }
  }

  ghost predicate Created<R>(s: State<R>, i: nat)
    requires i < |s.writers|
  {
    s.writers[i].phase.Done? && s.writers[i].phase.outcome.Returned? && s.writers[i].phase.outcome.created
  }

  lemma CreatedIsFirst<R>(calls: seq<Call<R>>, initial: Option<R>, s: State<R>, i: nat)
    requires Inv(calls, initial, s) && i < |calls|
    ensures Created(s, i) <==> initial.None? && s.log != [] && s.log[0] == i
  {
    assert WriterOk(calls, initial, s, i);
    if i in s.log {
      var o := s.writers[i].phase.outcome;
      var k :| 0 <= k < |s.log| && s.log[k] == i && (o.created <==> Serial(calls, initial, s.log[..k]).None?);
      if k > 0 {
        CommitsLeaveARow(calls, initial, s, k);
      }
    }
  }

  // With no profile to start from, exactly one of the calls that returned
  // reports created, and with one, none does.
  lemma ExactlyOneCreates<R>(calls: seq<Call<R>>, placeExists: bool, initial: Option<R>, states: seq<State<R>>, n: nat)
    requires Run(calls, placeExists, initial, states) && n < |states|
    ensures |states[n].writers| == |calls|
    ensures initial.Some? ==> forall i | 0 <= i < |calls| :: !Created(states[n], i)
    ensures initial.None? && states[n].log != [] ==>
              exists i :: 0 <= i < |calls| && Created(states[n], i)
                          && forall j | 0 <= j < |calls| && Created(states[n], j) :: j == i
  {
    RunKeepsInv(calls, placeExists, initial, states, n);
    forall i | 0 <= i < |calls|
      ensures Created(states[n], i) <==> initial.None? && states[n].log != [] && states[n].log[0] == i
    {
      CreatedIsFirst(calls, initial, states[n], i);
    }
    if initial.None? && states[n].log != [] {
      assert Created(states[n], states[n].log[0]);
    }
  }

  // ---- Nobody waits forever ----

  // The state an unblocked call moves to.
  function StepOf<R>(calls: seq<Call<R>>, placeExists: bool, s: State<R>, i: nat): State<R>
    requires i < |calls| == |s.writers|
  {
    match s.writers[i].phase
    case Begin =>
      if calls[i].Ingest? then SetPhase(s, i, Read(s.committed, |s.log|))
      else if !placeExists then SetPhase(s, i, Done(Failed(PlaceNotFound)))
      else if s.committed.None? then SetPhase(s, i, Looked(None))
      else SetPhase(s, i, Looked(s.committed)).(lock := Some(i))
    case Looked(locked) =>
      if calls[i].Ingest? then s else
      (match calls[i].apply(locked)
       case Failure(e) => Release(SetPhase(s, i, Done(Failed(Rejected(e)))), i)
       case Success(row) => if locked.Some? then SetPhase(s, i, Written(row, false)) else InsertOf(calls, s, i, row))
    case Read(seen, at) =>
      if calls[i].Patch? then s
      else if seen.None? then InsertOf(calls, s, i, calls[i].create)
      else if calls[i].blocked(seen.value) then SetPhase(s, i, Done(Skipped))
      else if s.committed.None? then s
      else SetPhase(s, i, Written(calls[i].overwrite(s.committed.value), false)).(lock := Some(i))
    case Written(row, isNew) =>
      Release(SetPhase(s, i, Done(Returned(row, isNew))), i).(committed := Some(row), log := s.log + [i])
    case Done(_) => s
  }

  function InsertOf<R>(calls: seq<Call<R>>, s: State<R>, i: nat, row: R): State<R>
    requires i < |calls| == |s.writers|
  {
    if calls[i].newId in s.otherIds || s.committed.Some? then AfterViolation(calls, s, i)
    else SetPhase(s, i, Written(row, true)).(inserting := Some(i))
  }

  ghost predicate CanStep<R>(calls: seq<Call<R>>, placeExists: bool, s: State<R>, i: nat)
    requires i < |calls| == |s.writers|
  {
    var s' := StepOf(calls, placeExists, s, i);
    LookupStep(calls, placeExists, s, s', i) || WriteStep(calls, s, s', i) || CommitStep(calls, s, s', i)
  }

  // A call that has begun writing can always go on; if none has, any other can.
  lemma NoDeadlock<R>(calls: seq<Call<R>>, placeExists: bool, initial: Option<R>, states: seq<State<R>>, n: nat, i: nat)
    requires Run(calls, placeExists, initial, states) && n < |states|
    requires i < |calls| == |states[n].writers| && !states[n].writers[i].phase.Done?
    ensures |states[n].writers| == |calls|
    ensures exists j ::
              0 <= j < |calls| && !states[n].writers[j].phase.Done? && CanStep(calls, placeExists, states[n], j)
  {
    RunKeepsInv(calls, placeExists, initial, states, n);
    var s := states[n];
    var j := if s.lock.Some? then s.lock.value else if s.inserting.Some? then s.inserting.value else i;
    assert WriterOk(calls, initial, s, j);
    assert WriterOk(calls, initial, s, i);
    if s.log != [] {
      CommitsLeaveARow(calls, initial, s, |s.log|);
      assert s.log[..|s.log|] == s.log;
    }
    assert CanStep(calls, placeExists, s, j);
  }

  // ---- Properties every write keeps ----

  ghost predicate Keeps<R(!new)>(call: Call<R>, p: R -> bool) {
    match call
    case Patch(apply, _) => forall o: Option<R> | o.Some? ==> p(o.value) :: apply(o).Success? ==> p(apply(o).value)
    case Ingest(_, create, overwrite, _) => p(create) && forall r | p(r) :: p(overwrite(r))
  }

  lemma {:induction false} SerialKeeps<R(!new)>(calls: seq<Call<R>>, initial: Option<R>, log: seq<nat>, p: R -> bool)
    requires forall k | 0 <= k < |log| :: log[k] < |calls|
    requires forall i | 0 <= i < |calls| :: Keeps(calls[i], p)
    requires initial.Some? ==> p(initial.value)
    ensures Serial(calls, initial, log).Some? ==> p(Serial(calls, initial, log).value)
    decreases |log|
  {
    if log != [] {
      var n := |log| - 1;
      SerialKeeps(calls, initial, log[..n], p);
      assert Keeps(calls[log[n]], p);
    }
  }

  // What every call keeps holds of the committed row in every reachable state.
  lemma CommittedRowKeeps<R(!new)>(calls: seq<Call<R>>, placeExists: bool, initial: Option<R>, states: seq<State<R>>,
                                   n: nat, p: R -> bool)
    requires Run(calls, placeExists, initial, states) && n < |states|
    requires forall i | 0 <= i < |calls| :: Keeps(calls[i], p)
    requires initial.Some? ==> p(initial.value)
    ensures states[n].committed.Some? ==> p(states[n].committed.value)
  {
    RunKeepsInv(calls, placeExists, initial, states, n);
    SerialKeeps(calls, initial, states[n].log, p);
  }

  // ---- The verification gate ----

  // Patches verify, ingestion never does, and ingestion skips what it saw verified.
  ghost predicate Gated<R(!new)>(call: Call<R>, verified: R -> bool) {
    match call
    case Patch(apply, _) => forall o: Option<R> :: apply(o).Success? ==> verified(apply(o).value)
    case Ingest(blocked, create, overwrite, _) =>
      && !verified(create)
      && forall r :: (blocked(r) <==> verified(r)) && (verified(overwrite(r)) <==> verified(r))
  }

  ghost predicate AllGated<R(!new)>(calls: seq<Call<R>>, verified: R -> bool) {
    forall i | 0 <= i < |calls| :: Gated(calls[i], verified)
  }

  ghost predicate IsVerified<R>(row: Option<R>, verified: R -> bool) {
    row.Some? && verified(row.value)
  }

  // Between two moments the row is verified at the later one exactly when it
  // already was or a patch has committed since.
  lemma {:induction false} VerifiedSince<R(!new)>(calls: seq<Call<R>>, initial: Option<R>, s: State<R>,
                                                  verified: R -> bool, lo: nat, hi: nat)
    requires Inv(calls, initial, s) && AllGated(calls, verified) && lo <= hi <= |s.log|
    ensures IsVerified(Serial(calls, initial, s.log[..hi]), verified) <==>
              IsVerified(Serial(calls, initial, s.log[..lo]), verified)
              || exists k :: lo <= k < hi && calls[s.log[k]].Patch?
    decreases hi
  {
    if lo < hi {
      VerifiedSince(calls, initial, s, verified, lo, hi - 1);
      CommitsLeaveARow(calls, initial, s, hi);
      assert s.log[..hi][..hi - 1] == s.log[..hi - 1];
      assert Gated(calls[s.log[hi - 1]], verified);
    }
  }

  lemma LogGrows<R>(calls: seq<Call<R>>, placeExists: bool, s: State<R>, s': State<R>)
    requires Next(calls, placeExists, s, s')
    ensures |s.log| <= |s'.log| && s'.log[..|s.log|] == s.log
  {
  }

  lemma CommittedInLog<R>(calls: seq<Call<R>>, initial: Option<R>, s: State<R>)
    requires Inv(calls, initial, s)
    ensures s.committed == Serial(calls, initial, s.log[..|s.log|])
  {
    assert s.log[..|s.log|] == s.log;
  }

  // Once verified, always verified: over every run, at every granularity.
  lemma VerifiedSticks<R(!new)>(calls: seq<Call<R>>, placeExists: bool, initial: Option<R>, states: seq<State<R>>,
                                verified: R -> bool, n: nat)
    requires Run(calls, placeExists, initial, states) && AllGated(calls, verified) && n + 1 < |states|
    requires IsVerified(states[n].committed, verified)
    ensures IsVerified(states[n + 1].committed, verified)
  {
    RunKeepsInv(calls, placeExists, initial, states, n);
    RunKeepsInv(calls, placeExists, initial, states, n + 1);
    assert Next(calls, placeExists, states[n], states[n + 1]);
    VerifiedSticksAt(calls, placeExists, initial, states[n], states[n + 1], verified);
  }

  lemma VerifiedSticksAt<R(!new)>(calls: seq<Call<R>>, placeExists: bool, initial: Option<R>, s: State<R>, s': State<R>,
                                  verified: R -> bool)
    requires Inv(calls, initial, s) && Inv(calls, initial, s') && Next(calls, placeExists, s, s')
    requires AllGated(calls, verified) && IsVerified(s.committed, verified)
    ensures IsVerified(s'.committed, verified)
  {
    LogGrows(calls, placeExists, s, s');
    CommittedInLog(calls, initial, s');
    VerifiedSince(calls, initial, s', verified, |s.log|, |s'.log|);
  }

  // An ingestion about to overwrite meets a verified row exactly when a patch
  // committed after its unlocked read.
  lemma OverwriteMeetsVerified<R(!new)>(calls: seq<Call<R>>, placeExists: bool, initial: Option<R>,
                                        states: seq<State<R>>,
                                        verified: R -> bool, n: nat, i: nat)
    requires Run(calls, placeExists, initial, states) && AllGated(calls, verified)
    requires n < |states| && i < |calls| == |states[n].writers| && states[n].writers[i].phase.Read?
    requires var seen := states[n].writers[i].phase.seen; seen.Some? && !verified(seen.value)
    ensures var s := states[n];
            LogOk(calls, s) &&
            (IsVerified(s.committed, verified) <==>
               exists k :: s.writers[i].phase.at <= k < |s.log| && calls[s.log[k]].Patch?)
  {
    var s := states[n];
    RunKeepsInv(calls, placeExists, initial, states, n);
    assert WriterOk(calls, initial, s, i);
    assert s.log[..|s.log|] == s.log;
    VerifiedSince(calls, initial, s, verified, s.writers[i].phase.at, |s.log|);
  }

  // A patch has committed since call i read.
  ghost predicate PatchSince<R>(calls: seq<Call<R>>, s: State<R>, i: nat)
    requires i < |s.writers|
  {
    s.writers[i].phase.Read?
    && exists k :: s.writers[i].phase.at <= k < |s.log| && s.log[k] < |calls| && calls[s.log[k]].Patch?
  }

  // At step n ingestion i writes: its INSERT or UPDATE goes through.
  ghost predicate IngestWrites<R>(calls: seq<Call<R>>, states: seq<State<R>>, n: nat, i: nat) {
    && n + 1 < |states| && i < |calls| && calls[i].Ingest? && WriteStep(calls, states[n], states[n + 1], i)
    && i < |states[n + 1].writers| && states[n + 1].writers[i].phase.Written?
  }

  // No patch commits between an ingestion's read and its write. Other
  // ingestions may.
  ghost predicate NoPatchBetween<R>(calls: seq<Call<R>>, states: seq<State<R>>) {
    forall n: nat, i: nat | IngestWrites(calls, states, n, i) :: !PatchSince(calls, states[n], i)
  }

  // No ingestion has a pending write over a verified row.
  ghost predicate IngestsMeetUnverified<R>(calls: seq<Call<R>>, s: State<R>, verified: R -> bool)
    requires |s.writers| == |calls|
  {
    forall i | 0 <= i < |calls| && calls[i].Ingest? && s.writers[i].phase.Written? :: !IsVerified(s.committed, verified)
  }

  // Only a call's own write puts it in phase Written.
  lemma WhoWrote<R>(calls: seq<Call<R>>, placeExists: bool, s: State<R>, s': State<R>, i: nat)
    requires Next(calls, placeExists, s, s') && i < |calls| == |s.writers| == |s'.writers|
    requires !s.writers[i].phase.Written? && s'.writers[i].phase.Written?
    ensures WriteStep(calls, s, s', i)
  {
    if j :| LookupStep(calls, placeExists, s, s', j) {
    } else if j :| WriteStep(calls, s, s', j) {
      assert i == j;
    } else {
    }
  }

  // A write changes no committed row, and an ingestion that overwrites saw a
  // row it was not blocked by.
  lemma IngestWriteStep<R>(calls: seq<Call<R>>, initial: Option<R>, s: State<R>, s': State<R>, i: nat)
    requires Inv(calls, initial, s) && i < |calls| == |s'.writers| && calls[i].Ingest?
    requires WriteStep(calls, s, s', i) && s'.writers[i].phase.Written?
    ensures s'.committed == s.committed
    ensures s.writers[i].phase.Read?
    ensures var seen := s.writers[i].phase.seen;
            if seen.None? then s.committed.None? else !calls[i].blocked(seen.value)
  {
    assert WriterOk(calls, initial, s, i);
  }

  lemma NoRowNoCommits<R>(calls: seq<Call<R>>, initial: Option<R>, s: State<R>)
    requires Inv(calls, initial, s)
    ensures s.committed.Some? || s.log == []
  {
    if s.log != [] {
      CommitsLeaveARow(calls, initial, s, |s.log|);
      assert s.log[..|s.log|] == s.log;
    }
  }

  // What an ingestion writes is pending over a verified row exactly when a
  // patch has committed since it read.
  lemma IngestWriteMeets<R(!new)>(calls: seq<Call<R>>, placeExists: bool, initial: Option<R>, states: seq<State<R>>,
                                  verified: R -> bool, n: nat, i: nat)
    requires Run(calls, placeExists, initial, states) && AllGated(calls, verified)
    requires IngestWrites(calls, states, n, i)
    ensures IsVerified(states[n + 1].committed, verified) <==> PatchSince(calls, states[n], i)
  {
    var s := states[n];
    RunKeepsInv(calls, placeExists, initial, states, n);
    IngestWriteStep(calls, initial, s, states[n + 1], i);
    assert Gated(calls[i], verified);
    if s.writers[i].phase.seen.None? {
      NoRowNoCommits(calls, initial, s);
    } else {
      OverwriteMeetsVerified(calls, placeExists, initial, states, verified, n, i);
    }
  }

  lemma {:induction false} NoPatchBetweenProtects<R(!new)>(calls: seq<Call<R>>, placeExists: bool, initial: Option<R>,
                                                           states: seq<State<R>>, verified: R -> bool, n: nat)
    requires Run(calls, placeExists, initial, states) && AllGated(calls, verified) && NoPatchBetween(calls, states)
    requires n < |states|
    ensures |states[n].writers| == |calls| && IngestsMeetUnverified(calls, states[n], verified)
  {
    RunKeepsInv(calls, placeExists, initial, states, n);
    if n > 0 {
      RunKeepsInv(calls, placeExists, initial, states, n - 1);
      NoPatchBetweenProtects(calls, placeExists, initial, states, verified, n - 1);
      forall i | 0 <= i < |calls| && calls[i].Ingest? && states[n].writers[i].phase.Written?
        ensures !IsVerified(states[n].committed, verified)
      {
        PendingStaysSafe(calls, placeExists, initial, states, verified, n - 1, i);
      }
    }
  }

  lemma PendingStaysSafe<R(!new)>(calls: seq<Call<R>>, placeExists: bool, initial: Option<R>, states: seq<State<R>>,
                                  verified: R -> bool, n: nat, i: nat)
    requires Run(calls, placeExists, initial, states) && AllGated(calls, verified) && NoPatchBetween(calls, states)
    requires n + 1 < |states| && Inv(calls, initial, states[n]) && IngestsMeetUnverified(calls, states[n], verified)
    requires i < |calls| == |states[n + 1].writers| && calls[i].Ingest? && states[n + 1].writers[i].phase.Written?
    ensures !IsVerified(states[n + 1].committed, verified)
  {
    assert Next(calls, placeExists, states[n], states[n + 1]);
    if states[n].writers[i].phase.Written? {
      WrittenKeepsRow(calls, placeExists, initial, states[n], states[n + 1], i);
    } else {
      WhoWrote(calls, placeExists, states[n], states[n + 1], i);
      assert IngestWrites(calls, states, n, i);
      IngestWriteMeets(calls, placeExists, initial, states, verified, n, i);
    }
  }

  // The gate holds in every state of a run, that is, no ingestion ever has a
  // pending write over a verified row, exactly when no patch commits between
  // an ingestion's read and its write.
  lemma GateHoldsIffNoPatchBetween<R(!new)>(calls: seq<Call<R>>, placeExists: bool, initial: Option<R>,
                                            states: seq<State<R>>, verified: R -> bool)
    requires Run(calls, placeExists, initial, states) && AllGated(calls, verified)
    ensures forall n | 0 <= n < |states| :: |states[n].writers| == |calls|
    ensures NoPatchBetween(calls, states) <==>
            forall n | 0 <= n < |states| :: IngestsMeetUnverified(calls, states[n], verified)
  {
    forall n | 0 <= n < |states|
      ensures |states[n].writers| == |calls|
    {
      RunKeepsInv(calls, placeExists, initial, states, n);
    }
    if NoPatchBetween(calls, states) {
      forall n | 0 <= n < |states|
        ensures IngestsMeetUnverified(calls, states[n], verified)
      {
        NoPatchBetweenProtects(calls, placeExists, initial, states, verified, n);
      }
    } else {
      var n: nat, i: nat :| IngestWrites(calls, states, n, i) && PatchSince(calls, states[n], i);
      IngestWriteMeets(calls, placeExists, initial, states, verified, n, i);
      assert !IngestsMeetUnverified(calls, states[n + 1], verified);
    }
  }

  // Each ingestion's read and write are one atomic step: nothing at all
  // commits between. That is more than the gate needs.
  ghost predicate AtomicIngestion<R>(calls: seq<Call<R>>, states: seq<State<R>>) {
    forall n: nat, i: nat | IngestWrites(calls, states, n, i) && states[n].writers[i].phase.Read? ::
      states[n].writers[i].phase.at == |states[n].log|
  }

  lemma AtomicIngestionIsEnough<R>(calls: seq<Call<R>>, states: seq<State<R>>)
    requires AtomicIngestion(calls, states)
    ensures NoPatchBetween(calls, states)
  {
  }

  lemma OneWritten<R>(calls: seq<Call<R>>, initial: Option<R>, s: State<R>, i: nat, j: nat)
    requires Inv(calls, initial, s) && i < |calls| && j < |calls|
    requires s.writers[i].phase.Written? && s.writers[j].phase.Written?
    ensures i == j
  {
    assert WriterOk(calls, initial, s, i) && WriterOk(calls, initial, s, j);
  }

  // While a call's write is pending, nobody else can commit.
  lemma WrittenKeepsRow<R>(calls: seq<Call<R>>, placeExists: bool, initial: Option<R>, s: State<R>, s': State<R>,
                           i: nat)
    requires Inv(calls, initial, s) && Next(calls, placeExists, s, s') && i < |calls| == |s'.writers|
    requires s.writers[i].phase.Written? && s'.writers[i].phase.Written?
    ensures s'.committed == s.committed
  {
    forall j | 0 <= j < |calls| && s.writers[j].phase.Written?
      ensures j == i
    {
      OneWritten(calls, initial, s, i, j);
    }
  }

  // As long as no patch commits between an ingestion's read and its write,
  // only a patch ever changes a verified row.
  lemma VerifiedRowsAreSafe<R(!new)>(calls: seq<Call<R>>, placeExists: bool, initial: Option<R>, states: seq<State<R>>,
                                     verified: R -> bool, n: nat)
    requires Run(calls, placeExists, initial, states) && AllGated(calls, verified) && NoPatchBetween(calls, states)
    requires n + 1 < |states| && IsVerified(states[n].committed, verified)
    requires states[n + 1].committed != states[n].committed
    ensures exists i :: 0 <= i < |calls| && calls[i].Patch? && CommitStep(calls, states[n], states[n + 1], i)
  {
    NoPatchBetweenProtects(calls, placeExists, initial, states, verified, n);
    assert Next(calls, placeExists, states[n], states[n + 1]);
    var i :| CommitStep(calls, states[n], states[n + 1], i);
  }

  // The run that breaks it otherwise: an ingestion reads, a patch commits, and
  // the ingestion overwrites what the patch wrote.
  lemma UnlockedReadOverwrites<R>(ingest: Call<R>, patch: Call<R>, row: R, otherIds: set<nat>)
    returns (states: seq<State<R>>)
    requires ingest.Ingest? && !ingest.blocked(row)
    requires patch.Patch? && patch.apply(Some(row)).Success?
    ensures Run([ingest, patch], true, Some(row), states) && |states| == 7
    ensures states[4].committed == Some(patch.apply(Some(row)).value)
    ensures states[6].committed == Some(ingest.overwrite(patch.apply(Some(row)).value))
  {
    var calls, patched := [ingest, patch], patch.apply(Some(row)).value;
    var s0: State<R> := Start(Some(row), 2, otherIds);
    var s1 := SetPhase(s0, 0, Read(Some(row), 0));
    assert Next(calls, true, s0, s1) by {
      assert LookupStep(calls, true, s0, s1, 0);
    }
    var s2 := SetPhase(s1, 1, Looked(Some(row))).(lock := Some(1));
    assert Next(calls, true, s1, s2) by {
      assert LookupStep(calls, true, s1, s2, 1);
    }
    var s3 := SetPhase(s2, 1, Written(patched, false));
    assert Next(calls, true, s2, s3) by {
      assert WriteStep(calls, s2, s3, 1);
    }
    var s4 := Release(SetPhase(s3, 1, Done(Returned(patched, false))), 1).(committed := Some(patched), log := [1]);
    assert Next(calls, true, s3, s4) by {
      assert CommitStep(calls, s3, s4, 1);
    }
    var replaced := ingest.overwrite(patched);
    var s5 := SetPhase(s4, 0, Written(replaced, false)).(lock := Some(0));
    assert Next(calls, true, s4, s5) by {
      assert WriteStep(calls, s4, s5, 0);
    }
    var s6 := Release(SetPhase(s5, 0, Done(Returned(replaced, false))), 0).(committed := Some(replaced), log := [1, 0]);
    assert CommitStep(calls, s5, s6, 0);
    states := [s0, s1, s2, s3, s4, s5, s6];
    assert Next(calls, true, s5, s6);
  }
}

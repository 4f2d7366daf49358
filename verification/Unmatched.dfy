// The retry queue, internal/unmatched/repository.go.
module Unmatched {
  import opened Wrappers
  import opened Models
  import opened Score

  // Rows by serial id; nextId is the sequence, which every INSERT advances,
  // conflicting ones included.
  datatype Queue = Queue(rows: map<int, QueueRow>, nextId: int)

  predicate SameSource(a: QueueRow, b: QueueRow) {
    a.source == b.source && a.sourceId == b.sourceId
  }

  ghost predicate SoundQueue(q: Queue) {
    && (forall id | id in q.rows :: id < q.nextId && q.rows[id].id == id)
    && (forall a, b | a in q.rows && b in q.rows && SameSource(q.rows[a], q.rows[b]) :: a == b)
  }

  // The record a sweep rebuilds from a row's columns.
  function RecordOf(row: QueueRow): Record {
    Record(row.source, row.sourceId, row.name, row.at, row.category, row.street, row.houseNumber, Some(row.payload))
  }

  // ON CONFLICT (source, source_id): everything but id and key comes from u,
  // and attempts goes up by one.
  function Refresh(row: QueueRow, u: QueueRow): QueueRow {
    u.(id := row.id, attempts := row.attempts + 1)
  }

  // The row that u conflicts with.
  ghost function Twin(q: Queue, u: QueueRow): Option<int> {
    if exists id :: id in q.rows && SameSource(q.rows[id], u) then
      var id :| id in q.rows && SameSource(q.rows[id], u);
      Some(id)
    else None
  }

  ghost function Enqueued(q: Queue, u: QueueRow): Queue {
    match Twin(q, u)
    case Some(id) => Queue(q.rows[id := Refresh(q.rows[id], u)], q.nextId + 1)
    case None => Queue(q.rows[q.nextId := u.(id := q.nextId)], q.nextId + 1)
  }

  function Bumped(q: Queue, id: int, now: int): Queue
    requires id in q.rows
  {
    q.(rows := q.rows[id := q.rows[id].(attempts := q.rows[id].attempts + 1, lastAttempted := now)])
  }

  function Deleted(q: Queue, id: int): Queue {
    q.(rows := map k | k in q.rows && k != id :: q.rows[k])
  }

  lemma TwinIsUnique(q: Queue, u: QueueRow, id: int)
    requires SoundQueue(q) && id in q.rows && SameSource(q.rows[id], u)
    ensures Twin(q, u) == Some(id)
  {
    var twin := Twin(q, u).value;
    assert SameSource(q.rows[twin], q.rows[id]);
  }

  // After Enqueue there is exactly one row for the record's source key, it
  // carries the whole matchable signal of u, and no other row changed.
  lemma EnqueuedEffect(q: Queue, u: QueueRow)
    requires SoundQueue(q)
    ensures var q' := Enqueued(q, u);
            && SoundQueue(q') && q'.nextId == q.nextId + 1
            && (exists id :: id in q'.rows && RecordOf(q'.rows[id]) == RecordOf(u)
                  && q'.rows[id].lastAttempted == u.lastAttempted
                  && q'.rows[id].attempts == (if id in q.rows then q.rows[id].attempts + 1 else u.attempts)
                  && forall k | k != id :: (k in q'.rows <==> k in q.rows) && (k in q.rows ==> q'.rows[k] == q.rows[k]))
  {
    var id := if Twin(q, u).Some? then Twin(q, u).value else q.nextId;
    var q' := Enqueued(q, u);
    assert id in q'.rows && RecordOf(q'.rows[id]) == RecordOf(u);
  }

  // Rows within the radius of some touched place that exists.
  function Near(w: World, places: map<Id, Place>, q: Queue, touched: seq<Id>, radius: real): set<int> {
    set id | id in q.rows
             && exists i :: 0 <= i < |touched| && touched[i] in places
                            && w.geodesic(q.rows[id].at, places[touched[i]].at) <= radius
  }

  // SELECT DISTINCT without ORDER BY: each row of a set once, in any order.
  ghost predicate ListsRows(q: Queue, ids: set<int>, out: seq<QueueRow>) {
    && (forall i | 0 <= i < |out| :: out[i].id in ids && out[i].id in q.rows && q.rows[out[i].id] == out[i])
    && (forall i, j | 0 <= i < j < |out| :: out[i].id != out[j].id)
    && (forall id | id in ids :: exists i :: 0 <= i < |out| && out[i].id == id)
  }

  // A row is listed exactly when some touched place that is still there lies
  // within the radius of it.
  lemma ListedMeansNear(w: World, places: map<Id, Place>, q: Queue, touched: seq<Id>, radius: real, out: seq<QueueRow>,
                        id: int)
    requires ListsRows(q, Near(w, places, q, touched, radius), out) && id in q.rows
    ensures (exists i :: 0 <= i < |out| && out[i].id == id && out[i] == q.rows[id]) <==>
              (exists k :: k in touched && k in places && w.geodesic(q.rows[id].at, places[k].at) <= radius)
  {
    if k :| k in touched && k in places && w.geodesic(q.rows[id].at, places[k].at) <= radius {
      var j :| 0 <= j < |touched| && touched[j] == k;
      assert id in Near(w, places, q, touched, radius);
      var i :| 0 <= i < |out| && out[i].id == id;
      assert out[i] == q.rows[id];
    }
  }

  class UnmatchedRepository {
    var queue: Queue

    constructor ()
      ensures queue == Queue(map[], 1) && SoundQueue(queue)
    {
      queue := Queue(map[], 1);
    }

    method Enqueue(u: QueueRow, fault: bool) returns (err: Option<string>)
      requires SoundQueue(queue)
      modifies this
      ensures SoundQueue(queue)
      ensures err.Some? <==> fault
      ensures queue == if fault then old(queue) else Enqueued(old(queue), u)
    {
      if fault {
        return Some("enqueue unmatched");
      }
      EnqueuedEffect(queue, u);
      if exists id :: id in queue.rows && SameSource(queue.rows[id], u) {
        var id :| id in queue.rows && SameSource(queue.rows[id], u);
        TwinIsUnique(queue, u, id);
        queue := Queue(queue.rows[id := Refresh(queue.rows[id], u)], queue.nextId + 1);
      } else {
        queue := Queue(queue.rows[queue.nextId := u.(id := queue.nextId)], queue.nextId + 1);
      }
      return None;
    }

    method FindCandidatesNearTouched(w: World, places: map<Id, Place>, touched: seq<Id>, radius: real, fault: bool)
      returns (r: Result<seq<QueueRow>, string>)
      requires SoundQueue(queue)
      ensures r.Failure? <==> fault && touched != []
      ensures r.Success? ==> ListsRows(queue, Near(w, places, queue, touched, radius), r.value)
    {
      if |touched| == 0 {
        return Success([]);
      }
      if fault {
        return Failure("find candidates near touched");
      }
      var near := Near(w, places, queue, touched, radius);
      var out: seq<QueueRow>, rest: set<int> := [], near;
      while rest != {}
        invariant rest <= near
        invariant ListsRows(queue, near - rest, out)
      {
        var id := AnyOf(rest);
        ghost var before := near - rest;
        rest := rest - {id};
        assert near - rest == before + {id};
        assert id !in before;
        out := ListOneMore(queue, before, out, id);
      }
      assert near - rest == near;
      return Success(out);
    }

    method BumpAttempts(id: int, lastAttempted: int, fault: bool) returns (err: Option<string>)
      modifies this
      ensures err.None? <==> !fault && id in old(queue.rows)
      ensures queue == if err.None? then Bumped(old(queue), id, lastAttempted) else old(queue)
    {
      if fault || id !in queue.rows {
        return Some("bump attempts");
      }
      queue := Bumped(queue, id, lastAttempted);
      return None;
    }

    method Delete(id: int, fault: bool) returns (err: Option<string>)
      modifies this
      ensures err.None? <==> !fault && id in old(queue.rows)
      ensures queue == if err.None? then Deleted(old(queue), id) else old(queue)
    {
      if fault || id !in queue.rows {
        return Some("delete unmatched");
      }
      queue := Deleted(queue, id);
      return None;
    }
  }

  method AnyOf<T>(s: set<T>) returns (x: T)
    requires s != {}
    ensures x in s
  {
    x :| x in s;
  }

  method ListOneMore(q: Queue, ghost ids: set<int>, out: seq<QueueRow>, id: int) returns (more: seq<QueueRow>)
    requires SoundQueue(q) && ListsRows(q, ids, out) && id in q.rows && id !in ids
    ensures ListsRows(q, ids + {id}, more)
  {
    more := out + [q.rows[id]];
    forall k | k in ids + {id}
      ensures exists i :: 0 <= i < |more| && more[i].id == k
    {
      if k == id {
        assert more[|out|].id == id;
      } else {
        var i :| 0 <= i < |out| && out[i].id == k;
        assert more[i].id == k;
      }
    }
  }

  // ---- The attempts counter over a row's whole life ----

  datatype QueueOp = OpEnqueue(u: QueueRow) | OpBump(id: int, now: int) | OpDelete(id: int)

  // A statement that finds no row changes nothing.
  ghost function ApplyOp(q: Queue, op: QueueOp): Queue {
    match op
    case OpEnqueue(u) => Enqueued(q, u)
    case OpBump(id, now) => if id in q.rows then Bumped(q, id, now) else q
    case OpDelete(id) => Deleted(q, id)
  }

  ghost function QueueAfter(ops: seq<QueueOp>): Queue {
    if ops == [] then Queue(map[], 1) else ApplyOp(QueueAfter(ops[..|ops| - 1]), ops[|ops| - 1])
  }

  // The statement bumps row id or enqueues its source key.
  predicate Visits(op: QueueOp, id: int, source: string, sourceId: string) {
    match op
    case OpEnqueue(u) => u.source == source && u.sourceId == sourceId
    case OpBump(k, _) => k == id
    case OpDelete(_) => false
  }

  // Visits from position `since` on; it reads the statements, never the rows.
  function CountVisits(ops: seq<QueueOp>, since: nat, id: int, source: string, sourceId: string): nat {
    if |ops| <= since then 0
    else
      CountVisits(ops[..|ops| - 1], since, id, source, sourceId)
      + if Visits(ops[|ops| - 1], id, source, sourceId) then 1 else 0
  }

  // ops[born] is the statement that inserted the row.
  ghost predicate BornAt(ops: seq<QueueOp>, born: nat, id: int) {
    && born < |ops|
    && id !in QueueAfter(ops[..born]).rows
    && id in QueueAfter(ops[..born + 1]).rows
  }

  lemma {:induction false} QueueAfterSound(ops: seq<QueueOp>)
    ensures SoundQueue(QueueAfter(ops))
  {
    if ops != [] {
      var q, op := QueueAfter(ops[..|ops| - 1]), ops[|ops| - 1];
      QueueAfterSound(ops[..|ops| - 1]);
      if op.OpEnqueue? {
        EnqueuedEffect(q, op.u);
      }
    }
  }

  // CountVisits is the number of visiting statements.
  lemma {:induction false} CountVisitsMeans(ops: seq<QueueOp>, since: nat, id: int, source: string, sourceId: string)
    ensures CountVisits(ops, since, id, source, sourceId)
            == |set i: nat | since <= i < |ops| && Visits(ops[i], id, source, sourceId)|
  {
    var visits := set i: nat | since <= i < |ops| && Visits(ops[i], id, source, sourceId);
    if |ops| <= since {
      assert visits == {};
    } else {
      var n: nat := |ops| - 1;
      var init := set i: nat | since <= i < n && Visits(ops[..n][i], id, source, sourceId);
      CountVisitsMeans(ops[..n], since, id, source, sourceId);
      assert n !in init;
      assert visits == init + if Visits(ops[n], id, source, sourceId) then {n} else {};
    }
  }

  // A row that outlives a statement keeps its key and counts the visit.
  lemma OneVisit(q: Queue, op: QueueOp, id: int)
    requires SoundQueue(q) && id in q.rows && id in ApplyOp(q, op).rows
    ensures var row, row' := q.rows[id], ApplyOp(q, op).rows[id];
            && SameSource(row', row)
            && row'.attempts == row.attempts + if Visits(op, id, row.source, row.sourceId) then 1 else 0
  {
    if op.OpEnqueue? && SameSource(q.rows[id], op.u) {
      TwinIsUnique(q, op.u, id);
    }
  }

  lemma NewRow(q: Queue, op: QueueOp, id: int)
    requires SoundQueue(q) && id !in q.rows && id in ApplyOp(q, op).rows
    ensures op.OpEnqueue? && ApplyOp(q, op).rows[id].attempts == op.u.attempts
  {
  }

  ghost predicate CountedSince(ops: seq<QueueOp>, row: QueueRow, born: nat) {
    row.attempts == 1 + CountVisits(ops, born + 1, row.id, row.source, row.sourceId)
  }

  // A row's attempts are 1 plus its re-enqueues and bumps since insertion,
  // when new rows start at 1 as Resolve makes them.
  lemma {:induction false} AttemptsCountVisits(ops: seq<QueueOp>, id: int) returns (born: nat)
    requires forall i | 0 <= i < |ops| && ops[i].OpEnqueue? :: ops[i].u.attempts == 1
    requires id in QueueAfter(ops).rows
    ensures BornAt(ops, born, id) && CountedSince(ops, QueueAfter(ops).rows[id], born)
    decreases |ops|
  {
    var n := |ops| - 1;
    var init := ops[..n];
    QueueAfterSound(init);
    QueueAfterSound(ops);
    if id in QueueAfter(init).rows {
      born := AttemptsCountVisits(init, id);
      assert init[..born] == ops[..born] && init[..born + 1] == ops[..born + 1];
      OneVisit(QueueAfter(init), ops[n], id);
    } else {
      NewRow(QueueAfter(init), ops[n], id);
      born := n;
      assert ops[..n + 1] == ops;
    }
  }
}

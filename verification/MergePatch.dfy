// JSON Merge Patch (section 2 of RFC 7396): the document algebra behind
// UpsertProfile, internal/place/repository.go:154-165.
module MergePatch {
  import opened Wrappers
  import opened Folds

  datatype Json =
    | JNull
    | JBool(flag: bool)
    | JNumber(number: real)
    | JString(text: string)
    | JArray(items: seq<Json>)
    | JObject(fields: map<string, Json>)

  // Members of an object; any other value is treated as the empty object.
  function Members(t: Json): map<string, Json> {
    if t.JObject? then t.fields else map[]
  }

  // The member k of t, or null when t has none.
  function Member(t: Json, k: string): Json {
    if k in Members(t) then Members(t)[k] else JNull
  }

  // MergePatch of RFC 7396: an object patch edits member by member, null
  // removes a member, and any other patch replaces the target.
  function Merge(t: Json, p: Json): Json
    decreases p
  {
    if !p.JObject? then p
    else
      JObject(map k | k in Members(t).Keys + p.fields.Keys && !(k in p.fields && p.fields[k].JNull?) ::
                if k in p.fields then Merge(Member(t, k), p.fields[k]) else Members(t)[k])
  }

  // Two patches agree when they never demand different things of one path.
  ghost predicate Agree(p: Json, q: Json)
    decreases p
  {
    if p.JObject? && q.JObject? then
      forall k | k in p.fields && k in q.fields :: Agree(p.fields[k], q.fields[k])
    else
      p == q
  }

  lemma {:induction false} MergeTwice(t: Json, p: Json)
    ensures Merge(Merge(t, p), p) == Merge(t, p)
    decreases p
  {
    if p.JObject? {
      var once := Merge(t, p);
      forall k | k in p.fields && !p.fields[k].JNull? {
        MergeTwice(Member(t, k), p.fields[k]);
      }
      assert Merge(once, p).fields == once.fields;
    }
  }

  lemma {:induction false} AgreeSymmetric(p: Json, q: Json)
    ensures Agree(p, q) <==> Agree(q, p)
    decreases p
  {
    if p.JObject? && q.JObject? {
      forall k | k in p.fields && k in q.fields {
        AgreeSymmetric(p.fields[k], q.fields[k]);
      }
    }
  }

  // Patches commute exactly when they agree, whatever the target.
  lemma {:induction false} MergeCommutesIffAgree(t: Json, p: Json, q: Json)
    ensures Merge(Merge(t, p), q) == Merge(Merge(t, q), p) <==> Agree(p, q)
    decreases p, 1
  {
    if p.JObject? && q.JObject? {
      var pq, qp := Merge(Merge(t, p), q), Merge(Merge(t, q), p);
      forall k | k in p.fields && k in q.fields
        ensures (k in pq.fields <==> k in qp.fields) && Member(pq, k) == Member(qp, k)
           <==> Agree(p.fields[k], q.fields[k])
      {
        MembersCommuteIffAgree(t, p, q, k);
      }
      if Agree(p, q) {
        SameMembers(t, p, q);
      } else {
        var k :| k in p.fields && k in q.fields && !Agree(p.fields[k], q.fields[k]);
        assert Member(pq, k) != Member(qp, k) || (k in pq.fields) != (k in qp.fields);
      }
    }
  }

  // Two object patches can only differ in order at members both mention.
  lemma {:induction false} SameMembers(t: Json, p: Json, q: Json)
    requires p.JObject? && q.JObject?
    requires forall k | k in p.fields && k in q.fields ::
               var (pq, qp) := (Merge(Merge(t, p), q), Merge(Merge(t, q), p));
               (k in pq.fields <==> k in qp.fields) && Member(pq, k) == Member(qp, k)
    ensures Merge(Merge(t, p), q) == Merge(Merge(t, q), p)
  {
    var pq, qp := Merge(Merge(t, p), q), Merge(Merge(t, q), p);
    forall k
      ensures (k in pq.fields <==> k in qp.fields) && Member(pq, k) == Member(qp, k)
    {
    }
    assert pq.fields == qp.fields by {
      assert forall k | k in pq.fields :: pq.fields[k] == Member(pq, k) && qp.fields[k] == Member(qp, k);
    }
  }

  lemma {:induction false} MembersCommuteIffAgree(t: Json, p: Json, q: Json, k: string)
    requires p.JObject? && q.JObject? && k in p.fields && k in q.fields
    ensures var pq, qp := Merge(Merge(t, p), q), Merge(Merge(t, q), p);
            (k in Members(pq) <==> k in Members(qp)) && Member(pq, k) == Member(qp, k)
            <==> Agree(p.fields[k], q.fields[k])
    decreases p, 0
  {
    MergeCommutesIffAgree(Member(t, k), p.fields[k], q.fields[k]);
    MemberAfterBoth(t, p, q, k);
    MemberAfterBoth(t, q, p, k);
  }

  // What two patches in a row leave at a member both mention.
  lemma MemberAfterBoth(t: Json, p: Json, q: Json, k: string)
    requires p.JObject? && q.JObject? && k in p.fields && k in q.fields
    ensures Member(Merge(Merge(t, p), q), k) == Merge(Merge(Member(t, k), p.fields[k]), q.fields[k])
    ensures k in Members(Merge(Merge(t, p), q)) <==> !q.fields[k].JNull?
  {
    var tp := Merge(t, p);
    assert Member(tp, k) == Merge(Member(t, k), p.fields[k]);
  }

  // ---- What a merge does, path by path ----

  // The value at a path of member names, if there is one.
  function At(t: Json, path: seq<string>): Option<Json> {
    if path == [] then Some(t)
    else if path[0] in Members(t) then At(Members(t)[path[0]], path[1..])
    else None
  }

  // The patch never reaches path: it is still an object where it stops naming it.
  ghost predicate Silent(p: Json, path: seq<string>) {
    && p.JObject?
    && path != []
    && (path[0] in p.fields ==> Silent(p.fields[path[0]], path[1..]))
  }

  lemma {:induction false} MergeKeepsUnmentioned(t: Json, p: Json, path: seq<string>)
    requires Silent(p, path)
    ensures At(Merge(t, p), path) == At(t, path)
    decreases |path|
  {
    var k := path[0];
    if k in p.fields {
      MergeKeepsUnmentioned(Member(t, k), p.fields[k], path[1..]);
    }
  }

  lemma {:induction false} MergeObeysPatch(t: Json, p: Json, path: seq<string>)
    requires path != [] && At(p, path).Some?
    ensures At(p, path).value.JNull? ==> At(Merge(t, p), path).None?
    ensures At(p, path).value.JObject? ==> At(Merge(t, p), path).Some? && At(Merge(t, p), path).value.JObject?
    ensures !At(p, path).value.JNull? && !At(p, path).value.JObject? ==> At(Merge(t, p), path) == At(p, path)
    decreases |path|
  {
    var k := path[0];
    if |path| > 1 {
      MergeObeysPatch(Member(t, k), p.fields[k], path[1..]);
    }
  }

  // ---- Leaving members out ----

  // t without the members named in keys, at every depth.
  function Omit(keys: set<string>, t: Json): Json {
    if t.JObject? then JObject(map k | k in t.fields && k !in keys :: Omit(keys, t.fields[k])) else t
  }

  lemma OmitMember(keys: set<string>, t: Json, k: string)
    ensures k in Members(Omit(keys, t)) <==> k in Members(t) && k !in keys
    ensures k !in keys ==> Member(Omit(keys, t), k) == Omit(keys, Member(t, k))
    ensures !t.JObject? ==> Omit(keys, t) == t
  {
  }

  // A patch that names none of keys can be merged before or after leaving them out.
  lemma {:induction false} OmitMerge(keys: set<string>, t: Json, p: Json)
    requires Omit(keys, p) == p
    ensures Omit(keys, Merge(t, p)) == Merge(Omit(keys, t), p)
    decreases p
  {
    if p.JObject? {
      var left, right := Omit(keys, Merge(t, p)), Merge(Omit(keys, t), p);
      forall k | k !in keys
        ensures (k in left.fields <==> k in right.fields) && Member(left, k) == Member(right, k)
      {
        OmitMember(keys, t, k);
        OmitMember(keys, Merge(t, p), k);
        if k in p.fields {
          assert Omit(keys, p).fields[k] == p.fields[k];
          OmitMerge(keys, Member(t, k), p.fields[k]);
        }
      }
      assert left.fields == right.fields by {
        assert forall k | k in keys :: k !in p.fields;
      }
    }
  }

  // ---- Many patches ----

  function MergeAll(t: Json, ps: seq<Json>): Json {
    FoldAll(Merge, t, ps)
  }

  ghost predicate PairwiseAgree(ps: seq<Json>) {
    forall i, j | 0 <= i < |ps| && 0 <= j < |ps| :: Agree(ps[i], ps[j])
  }

  lemma AgreeingPatchesCommute(ps: seq<Json>)
    requires PairwiseAgree(ps)
    ensures PairwiseCommute(Merge, ps)
  {
    forall i, j, t | 0 <= i < |ps| && 0 <= j < |ps|
      ensures Merge(Merge(t, ps[i]), ps[j]) == Merge(Merge(t, ps[j]), ps[i])
    {
      MergeCommutesIffAgree(t, ps[i], ps[j]);
    }
  }

  // Patches that pairwise agree give one document in every order.
  lemma MergeAllAnyOrder(t: Json, ps: seq<Json>, qs: seq<Json>)
    requires PairwiseAgree(ps) && multiset(ps) == multiset(qs)
    ensures MergeAll(t, ps) == MergeAll(t, qs)
  {
    AgreeingPatchesCommute(ps);
    FoldAllAnyOrder(Merge, t, ps, qs);
  }

  // Each of them survives in the result: applying it again changes nothing.
  lemma EveryPatchSurvives(t: Json, ps: seq<Json>, i: nat)
    requires PairwiseAgree(ps) && i < |ps|
    ensures Merge(MergeAll(t, ps), ps[i]) == MergeAll(t, ps)
  {
    AgreeingPatchesCommute(ps);
    MoveToEnd(Merge, t, ps, i);
    MergeTwice(FoldAll(Merge, t, Without(ps, i)), ps[i]);
  }
}

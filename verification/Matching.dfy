// Deciding which place a record refers to, internal/identity/matcher.go and compat.go.
module Matching {
  import opened Wrappers
  import opened Models
  import opened Score
  import opened Places

  const FOOD: set<string> := {"cafe", "restaurant", "bar"}

  // Categories a record may match against; an unlisted category matches itself.
  function Compatible(category: string): set<string> {
    if category in FOOD then FOOD else {category}
  }

  // The allowlist partitions the categories.
  lemma CompatibleIsEquivalence(a: string, b: string, c: string)
    ensures a in Compatible(a)
    ensures b in Compatible(a) <==> Compatible(a) == Compatible(b)
    ensures b in Compatible(a) && c in Compatible(b) ==> c in Compatible(a)
  {
    if b in Compatible(a) && a !in FOOD {
      assert b == a;
    }
    assert b in Compatible(b);
  }

  datatype Kind = NoMatch | LowConfidence | Confident

  datatype Decision = Decision(kind: Kind, placeId: Id, confidence: real)

  function Band(score: real): Kind {
    if score >= CONFIDENT_THRESHOLD then Confident
    else if score >= LOW_CONFIDENCE_THRESHOLD then LowConfidence
    else NoMatch
  }

  function Scorer(w: World, r: Record): Place -> real {
    p => ScoreCandidate(w, r, p)
  }

  function ScoreAll(score: Place -> real, out: seq<Place>): (s: seq<real>)
    ensures |s| == |out| && forall j | 0 <= j < |s| :: s[j] == score(out[j])
  {
    seq(|out|, j requires 0 <= j < |out| => score(out[j]))
  }

  function Scores(w: World, r: Record, out: seq<Place>): seq<real> {
    ScoreAll(Scorer(w, r), out)
  }

  lemma ScoreAllSnoc(score: Place -> real, out: seq<Place>, i: nat)
    requires i < |out|
    ensures ScoreAll(score, out[..i + 1]) == ScoreAll(score, out[..i]) + [score(out[i])]
  {
  }

  // i is the first position of the maximal score.
  ghost predicate FirstBest(scores: seq<real>, i: nat) {
    && i < |scores|
    && (forall j | 0 <= j < |scores| :: scores[j] <= scores[i])
    && (forall j | 0 <= j < i :: scores[j] < scores[i])
  }

  // What a decision means, independently of how the loop finds it.
  ghost predicate Chosen(scores: seq<real>, out: seq<Place>, d: Decision)
    requires |scores| == |out|
  {
    if d.kind.NoMatch? then
      && d == Decision(NoMatch, Unset, 0.0)
      && (forall j | 0 <= j < |scores| :: scores[j] < LOW_CONFIDENCE_THRESHOLD)
    else
      exists i: nat :: FirstBest(scores, i) && d == Decision(Band(scores[i]), out[i].id, scores[i])
  }

  ghost predicate DecidedBy(w: World, r: Record, out: seq<Place>, d: Decision) {
    Chosen(Scores(w, r, out), out, d)
  }

  lemma ChoiceIsUnique(scores: seq<real>, out: seq<Place>, d: Decision, e: Decision)
    requires |scores| == |out| && Chosen(scores, out, d) && Chosen(scores, out, e)
    ensures d == e
  {
    if !d.kind.NoMatch? && !e.kind.NoMatch? {
      var i: nat :| FirstBest(scores, i) && d == Decision(Band(scores[i]), out[i].id, scores[i]);
      var j: nat :| FirstBest(scores, j) && e == Decision(Band(scores[j]), out[j].id, scores[j]);
      assert !(i < j) && !(j < i);
    }
  }

  // The first candidate of maximal score, banded by the thresholds; no
  // candidates, or none at 0.55 or above, is no match.
  method Decide(w: World, r: Record, out: seq<Place>) returns (d: Decision)
    requires NonNegativeDistances(w)
    ensures DecidedBy(w, r, out, d)
  {
    if |out| == 0 {
      return Decision(NoMatch, Unset, 0.0);
    }
    var bestIdx, bestScore := -1, -1.0;
    ghost var scores: seq<real> := [];
    for i := 0 to |out|
      invariant scores == Scores(w, r, out[..i])
      invariant i == 0 ==> bestScore == -1.0
      invariant i > 0 ==> 0 <= bestIdx < i && FirstBest(scores, bestIdx) && bestScore == scores[bestIdx]
    {
      var score := NextScore(w, r, out[i]);
      ScoreAllSnoc(Scorer(w, r), out, i);
      if i > 0 {
        BestOfSnoc(scores, bestIdx, score);
      }
      scores := scores + [score];
      if score > bestScore {
        bestScore, bestIdx := score, i;
      }
    }
    assert out[..|out|] == out;
    d := Pick(scores, out, bestIdx, bestScore);
  }

  method NextScore(w: World, r: Record, p: Place) returns (score: real)
    requires NonNegativeDistances(w)
    ensures score >= 0.0 && score == Scorer(w, r)(p)
  {
    score := ComputeScore(w, r, p);
    ScoreRange(w, r, p);
  }

  // A decision read through its scores.
  lemma ChosenMeans(score: Place -> real, out: seq<Place>, d: Decision)
    requires Chosen(ScoreAll(score, out), out, d)
    ensures d.kind.NoMatch? ==> forall i | 0 <= i < |out| :: score(out[i]) < LOW_CONFIDENCE_THRESHOLD
    ensures !d.kind.NoMatch? ==>
              exists i ::
                  0 <= i < |out| && score(out[i]) >= LOW_CONFIDENCE_THRESHOLD
                      && d == Decision(Band(score(out[i])), out[i].id, score(out[i]))
  {
    var s := ScoreAll(score, out);
    if d.kind.NoMatch? {
      forall i | 0 <= i < |out|
        ensures score(out[i]) < LOW_CONFIDENCE_THRESHOLD
      {
        assert s[i] < LOW_CONFIDENCE_THRESHOLD;
      }
    } else {
      var i: nat :| FirstBest(s, i) && d == Decision(Band(s[i]), out[i].id, s[i]);
      assert score(out[i]) == s[i];
    }
  }

  // The running maximum: only a strictly better score replaces it.
  lemma BestOfSnoc(scores: seq<real>, best: nat, score: real)
    requires FirstBest(scores, best)
    ensures FirstBest(scores + [score], if score > scores[best] then |scores| else best)
  {
  }

  method Pick(ghost scores: seq<real>, out: seq<Place>, bestIdx: nat, bestScore: real) returns (d: Decision)
    requires |scores| == |out| && FirstBest(scores, bestIdx) && bestScore == scores[bestIdx]
    ensures Chosen(scores, out, d)
  {
    if bestScore >= CONFIDENT_THRESHOLD {
      return Decision(Confident, out[bestIdx].id, bestScore);
    } else if bestScore >= LOW_CONFIDENCE_THRESHOLD {
      return Decision(LowConfidence, out[bestIdx].id, bestScore);
    } else {
      return Decision(NoMatch, Unset, 0.0);
    }
  }

  // The decision Match reaches over a table, for some answer of FindCandidates.
  ghost predicate MatchAnswers(w: World, rows: map<Id, Place>, r: Record, d: Decision) {
    exists out: seq<Place> :: IsFetch(w, rows, r.at, RADIUS_M, Compatible(r.category), out) && DecidedBy(w, r, out, d)
  }

  method Match(w: World, repo: PlaceRepository, r: Record, fault: bool) returns (d: Result<Decision, string>)
    requires NonNegativeDistances(w) && Sound(repo.table)
    ensures d.Success? ==> MatchAnswers(w, repo.table.rows, r, d.value)
    ensures d.Failure? <==> fault
  {
    var cats := Compatible(r.category);
    CompatibleIsEquivalence(r.category, r.category, r.category);
    assert r.category in cats && cats != {};
    var found := repo.FindCandidates(w, r.at, RADIUS_M, cats, fault);
    if found.Failure? {
      return Failure("find candidates: " + found.error);
    }
    var decision := Decide(w, r, found.value);
    return Success(decision);
  }

  // ---- What an answer says, in the program's own numbers ----

  // Two categories are compatible when they are equal or both serve food.
  lemma CompatibleMeans(a: string, b: string)
    ensures b in Compatible(a) <==> b == a || (a in {"cafe", "restaurant", "bar"} && b in {"cafe", "restaurant", "bar"})
  {
  }

  // A decision names the first candidate that no other beats, with its score;
  // NoMatch is the answer exactly when no candidate reaches 0.55.
  lemma ChoiceMeans(scores: seq<real>, out: seq<Place>, d: Decision)
    requires |scores| == |out| && Chosen(scores, out, d)
    ensures d.kind.NoMatch? <==> forall j | 0 <= j < |scores| :: scores[j] < 0.55
    ensures d.kind.NoMatch? ==> d.placeId.Unset? && d.confidence == 0.0
    ensures !d.kind.NoMatch? ==>
              exists i :: 0 <= i < |scores| && d.placeId == out[i].id && d.confidence == scores[i]
                          && (forall j | 0 <= j < |scores| :: scores[j] <= scores[i])
                          && (forall j | 0 <= j < i :: scores[j] < scores[i])
    ensures d.kind.Confident? <==> d.confidence >= 0.8
    ensures d.kind.LowConfidence? <==> 0.55 <= d.confidence < 0.8
  {
    if !d.kind.NoMatch? {
      var i: nat :| FirstBest(scores, i) && d == Decision(Band(scores[i]), out[i].id, scores[i]);
      assert scores[i] >= 0.55;
    }
  }

  // An answer is Confident from 0.8 and LowConfidence from 0.55, and it names a
  // stored active compatible place. A Confident one lies within 20 m and shares
  // at least half of its name tokens; no answer attaches beyond 45 m.
  lemma AnswerMeans(w: World, rows: map<Id, Place>, r: Record, d: Decision)
    requires NonNegativeDistances(w) && MatchAnswers(w, rows, r, d)
    ensures d.kind.Confident? <==> d.confidence >= 0.8
    ensures d.kind.LowConfidence? <==> 0.55 <= d.confidence < 0.8
    ensures d.kind.NoMatch? ==> d.placeId.Unset? && d.confidence == 0.0
    ensures !d.kind.NoMatch? ==>
              && d.placeId in rows && d.confidence == ScoreCandidate(w, r, rows[d.placeId])
              && rows[d.placeId].status.Active? && rows[d.placeId].category in Compatible(r.category)
              && w.geodesic(rows[d.placeId].at, r.at) <= 50.0 && w.haversine(r.at, rows[d.placeId].at) <= 45.0
    ensures d.kind.Confident? ==>
              && w.haversine(r.at, rows[d.placeId].at) <= 20.0
              && Jaccard(NameTokens(w.alphabet, r.name), NameTokens(w.alphabet, rows[d.placeId].name)) >= 0.5
  {
    var cats := Compatible(r.category);
    var out: seq<Place> :| IsFetch(w, rows, r.at, RADIUS_M, cats, out) && DecidedBy(w, r, out, d);
    ChoiceMeans(Scores(w, r, out), out, d);
    if !d.kind.NoMatch? {
      var i :| 0 <= i < |out| && d.placeId == out[i].id && d.confidence == Scores(w, r, out)[i];
      assert Scores(w, r, out)[i] == Scorer(w, r)(out[i]);
      FetchedPlace(w, rows, r.at, cats, out, i);
      ScoreBoundsDistance(w, r, out[i]);
    }
  }

  lemma FetchedPlace(w: World, rows: map<Id, Place>, at: Point, cats: set<string>, out: seq<Place>, i: nat)
    requires IsFetch(w, rows, at, RADIUS_M, cats, out) && i < |out|
    ensures out[i].id in rows && rows[out[i].id] == out[i] && out[i].status.Active? && out[i].category in cats
    ensures w.geodesic(out[i].at, at) <= 50.0
  {
  }

  // ---- Blocking loses no match ----

  // PostGIS measures on an ellipsoid, haversine on a sphere.
  ghost predicate DistancesClose(w: World) {
    && NonNegativeDistances(w)
    && forall p, q :: w.haversine(p, q) >= 0.9 * w.geodesic(q, p)
  }

  // Every active place of a compatible category, however far away.
  function Blocked(rows: map<Id, Place>, category: string): set<Id> {
    set id | id in rows && rows[id].status.Active? && rows[id].category in Compatible(category)
  }

  ghost predicate Lists(rows: map<Id, Place>, ids: set<Id>, all: seq<Place>) {
    && Ids(all) == ids
    && Distinct(all)
    && forall i | 0 <= i < |all| :: all[i].id in rows && rows[all[i].id] == all[i]
  }

  // No fetch for r is cut by the limit.
  ghost predicate Uncut(w: World, rows: map<Id, Place>, r: Record) {
    |Eligible(w, rows, r.at, RADIUS_M, Compatible(r.category))| <= CANDIDATE_LIMIT
  }

  lemma FetchHasEveryContender(w: World, rows: map<Id, Place>, r: Record, out: seq<Place>, id: Id)
    requires DistancesClose(w) && Uncut(w, rows, r)
    requires IsFetch(w, rows, r.at, RADIUS_M, Compatible(r.category), out)
    requires id in Blocked(rows, r.category)
    requires ScoreCandidate(w, r, rows[id]) >= LOW_CONFIDENCE_THRESHOLD
    ensures exists i :: 0 <= i < |out| && out[i] == rows[id]
  {
    ScoreBoundsDistance(w, r, rows[id]);
    assert w.haversine(r.at, rows[id].at) >= 0.9 * w.geodesic(rows[id].at, r.at);
    UncutFetch(w, rows, r.at, RADIUS_M, Compatible(r.category), out);
    assert id in Ids(out);
    var i :| 0 <= i < |out| && out[i].id == id;
    assert out[i] == rows[id];
  }

  // Two candidate lists with the same contenders reach the same band and score.
  lemma SameContenders(s: seq<real>, out: seq<Place>, d: Decision, t: seq<real>, all: seq<Place>, e: Decision)
    requires |s| == |out| && Chosen(s, out, d) && |t| == |all| && Chosen(t, all, e)
    requires forall x | x in s :: x in t
    requires forall x | x in t && x >= LOW_CONFIDENCE_THRESHOLD :: x in s
    ensures d.kind == e.kind && d.confidence == e.confidence
  {
    if !e.kind.NoMatch? {
      var i: nat :| FirstBest(t, i) && e == Decision(Band(t[i]), all[i].id, t[i]);
      assert t[i] in t;
    }
    if !d.kind.NoMatch? {
      var i: nat :| FirstBest(s, i) && d == Decision(Band(s[i]), out[i].id, s[i]);
      assert s[i] in s;
    }
  }

  lemma ScoreListed(w: World, r: Record, out: seq<Place>, i: nat)
    requires i < |out|
    ensures ScoreCandidate(w, r, out[i]) in Scores(w, r, out)
  {
    assert Scores(w, r, out)[i] == ScoreCandidate(w, r, out[i]);
  }

  // Matching within 50 m gives the same kind and confidence as scoring every
  // active compatible place in any order.
  lemma BlockingLosesNoMatch(w: World, rows: map<Id, Place>, r: Record, d: Decision, all: seq<Place>, e: Decision)
    requires DistancesClose(w) && Uncut(w, rows, r)
    requires MatchAnswers(w, rows, r, d)
    requires Lists(rows, Blocked(rows, r.category), all) && DecidedBy(w, r, all, e)
    ensures d.kind == e.kind && d.confidence == e.confidence
  {
    var out: seq<Place> :| IsFetch(w, rows, r.at, RADIUS_M, Compatible(r.category), out) && DecidedBy(w, r, out, d);
    var s, t := Scores(w, r, out), Scores(w, r, all);
    forall x | x in s
      ensures x in t
    {
      var j :| 0 <= j < |s| && s[j] == x;
      assert out[j].id in Ids(all);
      var i :| 0 <= i < |all| && all[i].id == out[j].id;
      assert all[i] == out[j];
      ScoreListed(w, r, all, i);
    }
    forall x | x in t && x >= LOW_CONFIDENCE_THRESHOLD
      ensures x in s
    {
      var j :| 0 <= j < |t| && t[j] == x;
      assert all[j].id in Ids(all);
      FetchHasEveryContender(w, rows, r, out, all[j].id);
      var i :| 0 <= i < |out| && out[i] == rows[all[j].id];
      ScoreListed(w, r, out, i);
    }
    SameContenders(s, out, d, t, all, e);
  }

  // When nothing is cut, every answer the database may give leads to the same
  // band and confidence; only ties between places are left open.
  lemma UncutAnswersAgree(w: World, rows: map<Id, Place>, r: Record, d: Decision, e: Decision)
    requires Uncut(w, rows, r) && MatchAnswers(w, rows, r, d) && MatchAnswers(w, rows, r, e)
    ensures d.kind == e.kind && d.confidence == e.confidence
  {
    var cats := Compatible(r.category);
    var out: seq<Place> :| IsFetch(w, rows, r.at, RADIUS_M, cats, out) && DecidedBy(w, r, out, d);
    var all: seq<Place> :| IsFetch(w, rows, r.at, RADIUS_M, cats, all) && DecidedBy(w, r, all, e);
    UncutFetch(w, rows, r.at, RADIUS_M, cats, out);
    UncutFetch(w, rows, r.at, RADIUS_M, cats, all);
    SameIdsSameScores(Scorer(w, r), rows, out, all);
    SameIdsSameScores(Scorer(w, r), rows, all, out);
    SameContenders(Scores(w, r, out), out, d, Scores(w, r, all), all, e);
  }

  lemma SameIdsSameScores(score: Place -> real, rows: map<Id, Place>, out: seq<Place>, all: seq<Place>)
    requires Ids(out) <= Ids(all)
    requires forall i | 0 <= i < |out| :: out[i].id in rows && rows[out[i].id] == out[i]
    requires forall i | 0 <= i < |all| :: all[i].id in rows && rows[all[i].id] == all[i]
    ensures forall x | x in ScoreAll(score, out) :: x in ScoreAll(score, all)
  {
    forall x | x in ScoreAll(score, out)
      ensures x in ScoreAll(score, all)
    {
      var i :| 0 <= i < |out| && score(out[i]) == x;
      assert out[i].id in Ids(all);
      var j :| 0 <= j < |all| && all[j].id == out[i].id;
      assert ScoreAll(score, all)[j] == x;
    }
  }
}

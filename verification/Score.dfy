// Candidate scoring, internal/identity/score.go and matcher.go:53-60, over
// exact reals and an abstract earth.
module Score {
  import opened Models
  import opened Normalization

  const RADIUS_M := 50.0
  const CONFIDENT_THRESHOLD := 0.80
  const LOW_CONFIDENCE_THRESHOLD := 0.55
  const WEIGHT_DISTANCE := 0.5
  const WEIGHT_NAME := 0.4
  const WEIGHT_ADDRESS := 0.1

  // What the matcher calls but does not define: the Unicode tables,
  // strings.EqualFold, the haversine formula, and PostGIS geography distance.
  datatype World = World(
    alphabet: Alphabet,
    equalFold: (string, string) -> bool,
    haversine: (Point, Point) -> real,
    geodesic: (Point, Point) -> real)

  ghost predicate NonNegativeDistances(w: World) {
    forall p, q :: w.haversine(p, q) >= 0.0
  }

  // ---- Distance ----

  function DistanceScore(meters: real): real {
    if meters >= RADIUS_M then 0.0 else 1.0 - meters / RADIUS_M
  }

  // The falloff read backwards: a score of at least d means at most 50(1 - d) metres.
  lemma DistanceScoreRange(meters: real, d: real)
    requires meters >= 0.0
    ensures 0.0 <= DistanceScore(meters) <= 1.0
    ensures 0.0 < d <= 1.0 ==> (DistanceScore(meters) >= d <==> meters <= 50.0 * (1.0 - d))
  {
  }

  // ---- Names ----

  method TokenSet(toks: seq<string>) returns (s: set<string>)
    ensures s == set t | t in toks
  {
    s := {};
    for i := 0 to |toks|
      invariant s == set t | t in toks[..i]
    {
      assert toks[..i + 1] == toks[..i] + [toks[i]];
      s := s + {toks[i]};
    }
    assert toks[..|toks|] == toks;
  }

  function NameTokens(a: Alphabet, name: string): set<string> {
    set t | t in Tokens(a, name)
  }

  // Jaccard similarity; 0 when either side is empty.
  function Jaccard<T(==)>(r: set<T>, p: set<T>): real {
    if r == {} || p == {} then 0.0 else |r * p| as real / |r + p| as real
  }

  method IntersectionSize(r: set<string>, p: set<string>) returns (intersect: int)
    ensures intersect == |r * p|
  {
    intersect := 0;
    var rest := r;
    while rest != {}
      invariant rest <= r
      invariant intersect == |(r - rest) * p|
    {
      var tok :| tok in rest;
      ghost var seen := r - rest;
      rest := rest - {tok};
      assert r - rest == seen + {tok};
      if tok in p {
        assert (r - rest) * p == seen * p + {tok};
        intersect := intersect + 1;
      } else {
        assert (r - rest) * p == seen * p;
      }
    }
    assert r - rest == r;
  }

  method NameScore(a: Alphabet, rName: string, pName: string) returns (score: real)
    ensures score == Jaccard(NameTokens(a, rName), NameTokens(a, pName))
  {
    var rToks := Normalize(a, rName);
    var pToks := Normalize(a, pName);
    var r := TokenSet(rToks);
    var p := TokenSet(pToks);
    if |r| == 0 || |p| == 0 {
      return 0.0;
    }
    var intersect := IntersectionSize(r, p);
    UnionSize(r, p);
    var union := |r| + |p| - intersect;
    if union == 0 {
      return 0.0;
    }
    score := intersect as real / union as real;
  }

  lemma UnionSize<T>(r: set<T>, p: set<T>)
    ensures |r + p| == |r| + |p| - |r * p|
  {
    assert r + p == r + (p - r);
    assert p == (p - r) + r * p;
  }

  lemma SubsetSize<T>(a: set<T>, b: set<T>)
    requires a <= b
    ensures |a| <= |b|
    ensures |a| == |b| ==> a == b
  {
    assert b == a + (b - a);
    assert |b| == |a| + |b - a|;
  }

  lemma DivBounds(x: int, y: int)
    requires 0 <= x <= y && 0 < y
    ensures 0.0 <= x as real / y as real <= 1.0
    ensures x as real / y as real == 1.0 <==> x == y
  {
  }

  lemma JaccardRange<T>(r: set<T>, p: set<T>)
    ensures 0.0 <= Jaccard(r, p) <= 1.0
    ensures Jaccard(r, p) == 1.0 <==> r == p && r != {}
    ensures Jaccard(r, p) == Jaccard(p, r)
  {
    assert r * p == p * r && r + p == p + r;
    if r != {} && p != {} {
      var x :| x in r;
      assert x in r + p;
      SubsetSize(r * p, r + p);
      DivBounds(|r * p|, |r + p|);
      if r * p == r + p {
        assert forall t | t in r + p :: t in r * p;
        assert r == p;
      }
    }
  }

  // The share of all tokens that both names have.
  lemma JaccardIsShare<T>(r: set<T>, p: set<T>)
    ensures Jaccard(r, p) * |r + p| as real == |r * p| as real
  {
    if r == {} || p == {} {
      assert r * p == {};
    } else {
      var x :| x in r;
      assert x in r + p;
    }
  }

  // |A Δ B| / |A ∪ B|, the Jaccard distance of non-empty sets.
  function SymDiff<T(==)>(a: set<T>, b: set<T>): set<T> {
    (a - b) + (b - a)
  }

  lemma SameQuotient(q: real, z: real, a: real)
    requires z > 0.0 && q * z == a
    ensures q == a / z
  {
    assert (q - a / z) * z == 0.0;
  }

  lemma AddFractions(a: real, b: real, z: real)
    requires z > 0.0
    ensures a / z + b / z == (a + b) / z
  {
    var u, v := a / z, b / z;
    assert (u + v) * z == u * z + v * z == a + b;
    SameQuotient(u + v, z, a + b);
  }

  lemma DistanceAsFraction<T>(a: set<T>, b: set<T>)
    requires a != {} && b != {}
    ensures |a + b| > 0
    ensures 1.0 - Jaccard(a, b) == |SymDiff(a, b)| as real / |a + b| as real
  {
    var x :| x in a;
    assert x in a + b;
    assert a + b == SymDiff(a, b) + a * b;
    UnionSize(SymDiff(a, b), a * b);
    assert SymDiff(a, b) * (a * b) == {};
    var s, i, u := |SymDiff(a, b)| as real, |a * b| as real, |a + b| as real;
    AddFractions(s, i, u);
    SameQuotient(1.0, u, s + i);
  }

  lemma NonPositiveFactor(x: real, k: real)
    requires k > 0.0 && x * k <= 0.0
    ensures x <= 0.0
  {
  }

  lemma FractionOrder(a: real, b: real, c: real, d: real)
    requires b > 0.0 && d > 0.0 && a * d <= c * b
    ensures a / b <= c / d
  {
    var u, v := a / b, c / d;
    assert (u - v) * (b * d) == u * b * d - v * d * b == a * d - c * b;
    NonPositiveFactor(u - v, b * d);
  }

  // Widening a fraction at most 1 by z on both sides does not lower it.
  lemma WidenFraction(x: real, y: real, z: real)
    requires 0.0 <= x <= y && 0.0 < y && 0.0 <= z
    ensures x / y <= (x + z) / (y + z)
  {
    assert x * z <= y * z;
    FractionOrder(x, y, x + z, y + z);
  }

  lemma LargerDenominator(x: real, y: real, z: real)
    requires 0.0 <= x && 0.0 < y <= z
    ensures x / z <= x / y
  {
    FractionOrder(x, z, x, y);
  }

  // The arithmetic of the triangle inequality: ac/ac' <= (ac + e)/all <= (ab + bc)/all.
  lemma TriangleOfFractions(ac: real, acU: real, ab: real, abU: real, bc: real, bcU: real, e: real, all: real)
    requires 0.0 <= ac <= acU && 0.0 < acU && 0.0 <= e && all == acU + e
    requires 0.0 <= ab && 0.0 < abU <= all
    requires 0.0 <= bc && 0.0 < bcU <= all
    requires ac + e <= ab + bc
    ensures ac / acU <= ab / abU + bc / bcU
  {
    WidenFraction(ac, acU, e);
    LargerDenominator(ab, abU, all);
    LargerDenominator(bc, bcU, all);
    FractionOrder(ac + e, all, ab + bc, all);
    AddFractions(ab, bc, all);
  }

  lemma SymDiffSizes<T>(a: set<T>, b: set<T>, c: set<T>)
    ensures |a + b + c| == |a + c| + |b - (a + c)|
    ensures |SymDiff(a, c)| + |b - (a + c)| <= |SymDiff(a, b)| + |SymDiff(b, c)|
  {
    var extra := b - (a + c);
    assert a + b + c == (a + c) + extra;
    SubsetSize(SymDiff(a, c) + extra, SymDiff(a, b) + SymDiff(b, c));
    UnionSize(SymDiff(a, b), SymDiff(b, c));
    UnionSize(SymDiff(a, c), extra);
    assert SymDiff(a, c) * extra == {};
  }

  // 1 - nameScore satisfies the triangle inequality for all names, the ones
  // that normalize to nothing included.
  lemma JaccardTriangle<T>(a: set<T>, b: set<T>, c: set<T>)
    ensures 1.0 - Jaccard(a, c) <= (1.0 - Jaccard(a, b)) + (1.0 - Jaccard(b, c))
  {
    JaccardRange(a, b);
    JaccardRange(b, c);
    JaccardRange(a, c);
    if a != {} && b != {} && c != {} {
      DistanceAsFraction(a, b);
      DistanceAsFraction(b, c);
      DistanceAsFraction(a, c);
      SymDiffSizes(a, b, c);
      SubsetSize(SymDiff(a, c), a + c);
      SubsetSize(a + b, a + b + c);
      SubsetSize(b + c, a + b + c);
      TriangleOfFractions(
        |SymDiff(a, c)| as real, |a + c| as real,
        |SymDiff(a, b)| as real, |a + b| as real,
        |SymDiff(b, c)| as real, |b + c| as real,
        |b - (a + c)| as real, |a + b + c| as real);
    }
  }

  // ---- Addresses ----

  method StreetsMatch(a: Alphabet, x: string, y: string) returns (same: bool)
    ensures same <==> Tokens(a, x) == Tokens(a, y)
  {
    var xt := Normalize(a, x);
    var yt := Normalize(a, y);
    if |xt| != |yt| {
      return false;
    }
    for i := 0 to |xt|
      invariant xt[..i] == yt[..i]
    {
      if xt[i] != yt[i] {
        return false;
      }
    }
    assert xt[..|xt|] == xt && yt[..|yt|] == yt;
    return true;
  }

  datatype AddressSignal = Dropped | Present(score: real)

  function AddressScore(w: World, rStreet: string, rHouse: string, pStreet: string, pHouse: string): AddressSignal {
    if rStreet == "" || pStreet == "" then Dropped
    else if Tokens(w.alphabet, rStreet) != Tokens(w.alphabet, pStreet) then Present(0.0)
    else if rHouse != "" && pHouse != "" && w.equalFold(rHouse, pHouse) then Present(1.0)
    else Present(0.5)
  }

  // The address signal, case by case. It is left out, rather than counted
  // against a place, exactly when one side has no street.
  lemma AddressMeans(w: World, rStreet: string, rHouse: string, pStreet: string, pHouse: string)
    ensures var a := AddressScore(w, rStreet, rHouse, pStreet, pHouse);
            var same := Tokens(w.alphabet, rStreet) == Tokens(w.alphabet, pStreet);
            && (a == Dropped <==> rStreet == "" || pStreet == "")
            && (a.Present? ==> (a.score > 0.0 <==> same))
            && (a.Present? ==> a.score in {0.0, 0.5, 1.0})
            && (a == Present(1.0) <==>
                  rStreet != "" && pStreet != "" && same && rHouse != "" && pHouse != "" && w.equalFold(rHouse, pHouse))
            && UnitSignal(a)
  {
  }

  // ---- The combined score ----

  function CombinedScore(distance: real, name: real, address: AddressSignal): real {
    match address
    case Present(score) =>
      WEIGHT_DISTANCE * distance + WEIGHT_NAME * name + WEIGHT_ADDRESS * score
    case Dropped =>
      var denom := WEIGHT_DISTANCE + WEIGHT_NAME;
      var wDist := WEIGHT_DISTANCE + WEIGHT_ADDRESS * WEIGHT_DISTANCE / denom;
      var wName := WEIGHT_NAME + WEIGHT_ADDRESS * WEIGHT_NAME / denom;
      wDist * distance + wName * name
  }

  ghost predicate UnitSignal(a: AddressSignal) {
    a.Present? ==> 0.0 <= a.score <= 1.0
  }

  // Dropping the address rescales the other two weights to sum to one.
  lemma DroppedRescales(distance: real, name: real)
    ensures CombinedScore(distance, name, Dropped) == (0.5 * distance + 0.4 * name) / 0.9
  {
  }

  // With an address the three signals weigh 0.5, 0.4 and 0.1.
  lemma PresentWeighs(distance: real, name: real, address: real)
    ensures CombinedScore(distance, name, Present(address)) == 0.5 * distance + 0.4 * name + 0.1 * address
  {
  }

  lemma CombinedScoreRange(distance: real, name: real, address: AddressSignal)
    requires 0.0 <= distance <= 1.0 && 0.0 <= name <= 1.0 && UnitSignal(address)
    ensures 0.0 <= CombinedScore(distance, name, address) <= 1.0
  {
    DroppedRescales(distance, name);
  }

  lemma CombinedScoreMonotone(d1: real, n1: real, a1: AddressSignal, d2: real, n2: real, a2: AddressSignal)
    requires d1 <= d2 && n1 <= n2
    requires a1.Present? == a2.Present? && (a1.Present? ==> a1.score <= a2.score)
    ensures CombinedScore(d1, n1, a1) <= CombinedScore(d2, n2, a2)
  {
    DroppedRescales(d1, n1);
    DroppedRescales(d2, n2);
  }

  // ---- Scoring a candidate ----

  function ScoreCandidate(w: World, r: Record, p: Place): real {
    CombinedScore(
      DistanceScore(w.haversine(r.at, p.at)),
      Jaccard(NameTokens(w.alphabet, r.name), NameTokens(w.alphabet, p.name)),
      AddressScore(w, r.street, r.houseNumber, Tag(p.tags, "addr:street"), Tag(p.tags, "addr:housenumber")))
  }

  method ComputeScore(w: World, r: Record, p: Place) returns (score: real)
    ensures score == ScoreCandidate(w, r, p)
  {
    var name := NameScore(w.alphabet, r.name, p.name);
    var street, house := Tag(p.tags, "addr:street"), Tag(p.tags, "addr:housenumber");
    var address := Dropped;
    if r.street != "" && street != "" {
      var same := StreetsMatch(w.alphabet, r.street, street);
      if !same {
        address := Present(0.0);
      } else if r.houseNumber != "" && house != "" && w.equalFold(r.houseNumber, house) {
        address := Present(1.0);
      } else {
        address := Present(0.5);
      }
    }
    score := CombinedScore(DistanceScore(w.haversine(r.at, p.at)), name, address);
  }

  function TagOf(p: Place, key: string): string {
    if key in p.tags then p.tags[key] else ""
  }

  // A candidate's score in full: where the record and the place are, what they
  // are called, and their addr:street and addr:housenumber.
  lemma ScoreMeans(w: World, r: Record, p: Place)
    ensures var meters := w.haversine(r.at, p.at);
            var distance := if meters >= 50.0 then 0.0 else 1.0 - meters / 50.0;
            var name := Jaccard(NameTokens(w.alphabet, r.name), NameTokens(w.alphabet, p.name));
            var street, house := TagOf(p, "addr:street"), TagOf(p, "addr:housenumber");
            ScoreCandidate(w, r, p) ==
              if r.street == "" || street == "" then (0.5 * distance + 0.4 * name) / 0.9
              else if Tokens(w.alphabet, r.street) != Tokens(w.alphabet, street) then 0.5 * distance + 0.4 * name
              else if r.houseNumber != "" && house != "" && w.equalFold(r.houseNumber, house) then
                0.5 * distance + 0.4 * name + 0.1
              else 0.5 * distance + 0.4 * name + 0.05
  {
    var distance := DistanceScore(w.haversine(r.at, p.at));
    DroppedRescales(distance, Jaccard(NameTokens(w.alphabet, r.name), NameTokens(w.alphabet, p.name)));
  }

  lemma ScoreRange(w: World, r: Record, p: Place)
    requires NonNegativeDistances(w)
    ensures 0.0 <= ScoreCandidate(w, r, p) <= 1.0
  {
    DistanceScoreRange(w.haversine(r.at, p.at), 1.0);
    JaccardRange(NameTokens(w.alphabet, r.name), NameTokens(w.alphabet, p.name));
    CombinedScoreRange(
      DistanceScore(w.haversine(r.at, p.at)),
      Jaccard(NameTokens(w.alphabet, r.name), NameTokens(w.alphabet, p.name)),
      AddressScore(w, r.street, r.houseNumber, Tag(p.tags, "addr:street"), Tag(p.tags, "addr:housenumber")));
  }

  // No place beyond 45 m can be attached at all, and a confident match is
  // within 20 m and shares at least half of its name tokens.
  lemma ScoreBoundsDistance(w: World, r: Record, p: Place)
    requires NonNegativeDistances(w)
    ensures ScoreCandidate(w, r, p) >= LOW_CONFIDENCE_THRESHOLD ==> w.haversine(r.at, p.at) <= 45.0
    ensures ScoreCandidate(w, r, p) >= CONFIDENT_THRESHOLD ==>
              w.haversine(r.at, p.at) <= 20.0
              && Jaccard(NameTokens(w.alphabet, r.name), NameTokens(w.alphabet, p.name)) >= 0.5
  {
    var d := DistanceScore(w.haversine(r.at, p.at));
    var n := Jaccard(NameTokens(w.alphabet, r.name), NameTokens(w.alphabet, p.name));
    DistanceScoreRange(w.haversine(r.at, p.at), 1.0);
    JaccardRange(NameTokens(w.alphabet, r.name), NameTokens(w.alphabet, p.name));
    DroppedRescales(d, n);
  }
}

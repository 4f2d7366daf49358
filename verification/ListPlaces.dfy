// Keyset pagination of GET /places: ListPlaces in cmd/api/main.go:226-285.
module Paging {
  import opened Wrappers
  import opened Numerals
  import opened Pagination
  import opened LikePattern

  // What the listing reads of a row of places; rest stands for the columns
  // that only the area conditions and the client look at.
  datatype Row<T> = Row(id: seq<nat>, updatedAt: Time, name: string, rest: T)

  // The table as one request finds it.
  type Snapshot<T> = map<seq<nat>, Row<T>>

  datatype Page<T> = Page(data: seq<Row<T>>, next: Option<string>)

  // What PostgreSQL computes: the case folding of ILIKE, and the PostGIS
  // conditions on a row, near a point within a radius or inside an envelope.
  datatype Database<!T> = Database(
    fold: char -> char,
    near: (T, real, real, real) -> bool,
    inEnvelope: (T, real, real, real, real) -> bool)

  // A listing request; q is already trimmed.
  datatype Request<!T> = Request(
    lib: Library, db: Database<T>, q: Option<string>,
    lng: Option<real>, lat: Option<real>, radius: Option<real>,
    minLng: Option<real>, minLat: Option<real>, maxLng: Option<real>, maxLat: Option<real>,
    limit: Option<nat>)

  // Ids are UUIDs and times lie in years 0 to 9999.
  predicate IsPlace<T>(p: Row<T>) {
    Fits(Hexadecimal, UUID, p.id) && IsTime(p.updatedAt)
  }

  // The OpenAPI schema admits limits from 1 to 100; 20 when there is none.
  predicate InSchema<T>(r: Request<T>) {
    r.limit.Some? ==> 1 <= r.limit.value <= 100
  }

  // ---- Validation, internal/validation/validation.go:88-124 ----

  function Given(o: Option<real>): nat {
    if o.Some? then 1 else 0
  }

  function When(condition: bool, reason: string): seq<string> {
    if condition then [reason] else []
  }

  // Which coordinates may come together; the first fault is the only one reported.
  function GroupErrors<T>(r: Request<T>): seq<string> {
    var circular := Given(r.lng) + Given(r.lat) + Given(r.radius);
    var bbox := Given(r.minLng) + Given(r.minLat) + Given(r.maxLng) + Given(r.maxLat);
    if circular != 0 && circular != 3 then ["lng, lat, and radius must all be provided together"]
    else if bbox != 0 && bbox != 4 then ["min_lng, min_lat, max_lng, and max_lat must all be provided together"]
    else if circular > 0 && bbox > 0 then ["proximity and bounding-box parameters are mutually exclusive"]
    else []
  }

  function BoundErrors<T>(r: Request<T>): seq<string> {
    When(r.minLng.Some? && r.maxLng.Some? && r.minLng.value >= r.maxLng.value, "min_lng must be less than max_lng")
    + When(r.minLat.Some? && r.maxLat.Some? && r.minLat.value >= r.maxLat.value, "min_lat must be less than max_lat")
  }

  function PlacesQuery<T>(r: Request<T>, cursor: Option<string>): seq<string> {
    if GroupErrors(r) != [] then GroupErrors(r)
    else
      BoundErrors(r)
      + When(cursor.Some? && Decode(r.lib, cursor.value).Failure?, "invalid cursor")
      + When(r.q == Some(""), "q must not be blank")
  }

  // The area a request names; its coordinates come together or not at all.
  datatype Area =
    | Everywhere
    | Circle(lng: real, lat: real, radius: real)
    | Box(minLng: real, minLat: real, maxLng: real, maxLat: real)

  predicate Names<T>(r: Request<T>, area: Area) {
    match area
    case Everywhere =>
      r.lng.None? && r.lat.None? && r.radius.None?
      && r.minLng.None? && r.minLat.None? && r.maxLng.None? && r.maxLat.None?
    case Circle(lng, lat, radius) =>
      r.lng == Some(lng) && r.lat == Some(lat) && r.radius == Some(radius)
      && r.minLng.None? && r.minLat.None? && r.maxLng.None? && r.maxLat.None?
    case Box(minLng, minLat, maxLng, maxLat) =>
      r.lng.None? && r.lat.None? && r.radius.None?
      && r.minLng == Some(minLng) && r.minLat == Some(minLat) && r.maxLng == Some(maxLng) && r.maxLat == Some(maxLat)
      && minLng < maxLng && minLat < maxLat
  }

  // The request names an area, so no coordinate the handler reads is missing.
  ghost predicate AreaOk<T>(r: Request<T>) {
    exists area :: Names(r, area)
  }

  predicate InArea<T>(db: Database<T>, area: Area, rest: T) {
    match area
    case Everywhere => true
    case Circle(lng, lat, radius) => db.near(rest, lng, lat, radius)
    case Box(minLng, minLat, maxLng, maxLat) => db.inEnvelope(rest, minLng, minLat, maxLng, maxLat)
  }

  // The handler's switch; it reads lat and radius whenever there is a lng, and
  // the other three bounds whenever there is a min_lng.
  function AreaOf<T>(r: Request<T>): (area: Area)
    requires AreaOk(r)
    ensures forall other :: Names(r, other) <==> other == area
  {
    if r.lng.Some? then Circle(r.lng.value, r.lat.value, r.radius.value)
    else if r.minLng.Some? then Box(r.minLng.value, r.minLat.value, r.maxLng.value, r.maxLat.value)
    else Everywhere
  }

  lemma CircleOk<T>(r: Request<T>)
    requires r.lng.Some? && r.lat.Some? && r.radius.Some?
    ensures AreaOk(r) <==> r.minLng.None? && r.minLat.None? && r.maxLng.None? && r.maxLat.None?
  {
    if r.minLng.None? && r.minLat.None? && r.maxLng.None? && r.maxLat.None? {
      assert Names(r, Circle(r.lng.value, r.lat.value, r.radius.value));
    }
  }

  lemma BoxOk<T>(r: Request<T>)
    requires r.lng.None? && r.lat.None? && r.radius.None?
    requires r.minLng.Some? && r.minLat.Some? && r.maxLng.Some? && r.maxLat.Some?
    ensures AreaOk(r) <==> r.minLng.value < r.maxLng.value && r.minLat.value < r.maxLat.value
  {
    if r.minLng.value < r.maxLng.value && r.minLat.value < r.maxLat.value {
      assert Names(r, Box(r.minLng.value, r.minLat.value, r.maxLng.value, r.maxLat.value));
    }
  }

  lemma AreaErrorsMean<T>(r: Request<T>)
    ensures GroupErrors(r) == [] && BoundErrors(r) == [] <==> AreaOk(r)
  {
    if GroupErrors(r) == [] {
      if r.lng.Some? {
        CircleOk(r);
      } else if r.minLng.Some? {
        BoxOk(r);
      } else {
        assert Names(r, Everywhere);
      }
    }
  }

  // Validation lets exactly the requests through whose coordinates name one
  // area, whose cursor decodes and whose search text is not blank.
  lemma PlacesQueryMeans<T>(r: Request<T>, cursor: Option<string>)
    ensures PlacesQuery(r, cursor) == [] <==>
              AreaOk(r) && (cursor.Some? ==> Decode(r.lib, cursor.value).Success?) && r.q != Some("")
  {
    AreaErrorsMean(r);
  }

  // ---- ORDER BY updated_at DESC, id ASC ----

  // What the listing orders by: microseconds and the id as one number.
  datatype Key = Key(at: nat, id: nat)

  function Instant(t: Time): nat {
    Rank(Decimal, CLOCK, ClockOf(t)) * 1_000_000 + t.nano / 1000
  }

  function IdRank(id: seq<nat>): nat {
    if |id| == |UUID| then Rank(Hexadecimal, UUID, id) else 0
  }

  function KeyOf<T>(p: Row<T>): Key {
    Key(Instant(p.updatedAt), IdRank(p.id))
  }

  predicate Before(a: Key, b: Key) {
    b.at < a.at || (b.at == a.at && b.id > a.id)
  }

  // A listing of sound places: their order, how a position is passed to the
  // next request and read back, the rows wanted and how many a page holds.
  datatype Listing<!T> = Listing(
    sound: Row<T> -> bool, key: Row<T> -> Key, encode: Row<T> -> string, decode: string -> Option<Key>,
    wanted: Row<T> -> bool, limit: nat)

  ghost predicate SoundSnapshot<T>(list: Listing<T>, snapshot: Snapshot<T>) {
    forall id | id in snapshot :: snapshot[id].id == id && list.sound(snapshot[id])
  }

  // A cursor names the position of its place, and ids break all ties.
  ghost predicate Faithful<T(!new)>(list: Listing<T>) {
    && list.limit > 0
    && (forall p | list.sound(p) :: list.decode(list.encode(p)) == Some(list.key(p)))
    && (forall p, q | list.sound(p) && list.sound(q) :: list.key(p).id == list.key(q).id <==> p.id == q.id)
  }

  function PositionOf(lib: Library, cursor: string): Option<Key> {
    match Decode(lib, cursor)
    case Failure(_) => None
    case Success((t, id)) =>
      var uuid := ParseUuid(lib, id);
      if uuid.None? then None else Some(Key(Instant(t), IdRank(uuid.value)))
  }

  function CursorFor<T>(p: Row<T>): string {
    if |p.id| == |UUID| then Encode(p.updatedAt, FormatUuid(p.id)) else ""
  }

  predicate Wanted<T>(r: Request<T>, area: Area, p: Row<T>) {
    (r.q.Some? ==> ILike(r.db.fold, p.name, SearchPattern(r.q.value))) && InArea(r.db, area, p.rest)
  }

  // The listing that a request asks for.
  function ListingOf<T>(r: Request<T>): Listing<T>
    requires AreaOk(r)
  {
    var area := AreaOf(r);
    Listing((p: Row<T>) => IsPlace(p), (p: Row<T>) => KeyOf(p), (p: Row<T>) => CursorFor(p), s => PositionOf(r.lib, s),
            (p: Row<T>) => Wanted(r, area, p), if r.limit.Some? then r.limit.value else 20)
  }

  lemma SameInstant(t: Time)
    ensures Instant(Truncate(t)) == Instant(t)
  {
    assert t.nano / 1000 * 1000 / 1000 == t.nano / 1000;
    assert ClockOf(Truncate(t)) == ClockOf(t);
  }

  lemma EncodedPosition<T>(lib: Library, p: Row<T>)
    requires IsPlace(p)
    ensures PositionOf(lib, CursorFor(p)) == Some(KeyOf(p))
  {
    UuidRoundTrip(lib, p.id);
    CursorRoundTrip(lib, p.updatedAt, FormatUuid(p.id));
    SameInstant(p.updatedAt);
  }

  lemma SameId(a: seq<nat>, b: seq<nat>)
    requires Fits(Hexadecimal, UUID, a) && Fits(Hexadecimal, UUID, b)
    ensures IdRank(a) == IdRank(b) <==> a == b
  {
    if IdRank(a) == IdRank(b) {
      RankIsInjective(Hexadecimal, UUID, a, b);
    }
  }

  // Every listing that a request can ask for passes its position on exactly.
  lemma ListingsAreFaithful<T(!new)>(r: Request<T>)
    requires InSchema(r) && AreaOk(r)
    ensures Faithful(ListingOf(r))
  {
    var list := ListingOf(r);
    forall p: Row<T> | IsPlace(p)
      ensures list.decode(list.encode(p)) == Some(list.key(p))
    {
      EncodedPosition(r.lib, p);
    }
    forall p: Row<T>, q: Row<T> | IsPlace(p) && IsPlace(q)
      ensures list.key(p).id == list.key(q).id <==> p.id == q.id
    {
      SameId(p.id, q.id);
    }
  }

  function CursorKey<T>(list: Listing<T>, cursor: Option<string>): Option<Key> {
    if cursor.None? then None else list.decode(cursor.value)
  }

  predicate IsAfter(cursor: Option<Key>, k: Key) {
    cursor.Some? ==> Before(cursor.value, k)
  }

  // ---- The query ----

  function Hits<T>(list: Listing<T>, snapshot: Snapshot<T>, cursor: Option<Key>): set<seq<nat>> {
    set id | id in snapshot && list.wanted(snapshot[id]) && IsAfter(cursor, list.key(snapshot[id]))
  }

  ghost predicate Sorted<T>(list: Listing<T>, out: seq<Row<T>>) {
    forall i, j | 0 <= i < j < |out| :: Before(list.key(out[i]), list.key(out[j]))
  }

  ghost function Ids<T>(out: seq<Row<T>>): set<seq<nat>> {
    set i | 0 <= i < |out| :: out[i].id
  }

  // The first rows of hits in the listing's order.
  ghost predicate FirstRows<T>(list: Listing<T>, snapshot: Snapshot<T>, hits: set<seq<nat>>, out: seq<Row<T>>) {
    && hits <= snapshot.Keys
    && (forall i | 0 <= i < |out| :: out[i].id in hits && snapshot[out[i].id] == out[i])
    && Sorted(list, out)
    && (forall i, id | 0 <= i < |out| && id in hits - Ids(out) :: Before(list.key(out[i]), list.key(snapshot[id])))
  }

  // The page a request gets: the first limit rows after the cursor, and a
  // cursor to the last of them when there are more.
  ghost predicate IsPage<T>(list: Listing<T>, snapshot: Snapshot<T>, cursor: Option<string>, page: Page<T>) {
    var hits := Hits(list, snapshot, CursorKey(list, cursor));
    && FirstRows(list, snapshot, hits, page.data)
    && (page.next.None? ==> Ids(page.data) == hits && |page.data| <= list.limit)
    && (page.next.Some? ==>
          && |page.data| == list.limit > 0 && Ids(page.data) != hits
          && page.next == Some(list.encode(page.data[|page.data| - 1])))
  }

  // Distinct rows of a sound table have different keys.
  lemma BeforeIsTotal<T(!new)>(list: Listing<T>, snapshot: Snapshot<T>, a: seq<nat>, b: seq<nat>)
    requires Faithful(list) && SoundSnapshot(list, snapshot) && a in snapshot && b in snapshot && a != b
    ensures Before(list.key(snapshot[a]), list.key(snapshot[b])) || Before(list.key(snapshot[b]), list.key(snapshot[a]))
  {
    assert list.key(snapshot[a]).id != list.key(snapshot[b]).id;
  }

  lemma {:induction false} FirstExists<T(!new)>(list: Listing<T>, snapshot: Snapshot<T>, pool: set<seq<nat>>)
    returns (first: seq<nat>)
    requires Faithful(list) && SoundSnapshot(list, snapshot) && pool != {} && pool <= snapshot.Keys
    ensures first in pool && forall id | id in pool - {first} ::
              Before(list.key(snapshot[first]), list.key(snapshot[id]))
    decreases |pool|
  {
    var some :| some in pool;
    var rest := pool - {some};
    first := some;
    if rest != {} {
      var other := FirstExists(list, snapshot, rest);
      BeforeIsTotal(list, snapshot, some, other);
      first := if Before(list.key(snapshot[other]), list.key(snapshot[some])) then other else some;
    }
    forall id | id in pool - {first}
      ensures Before(list.key(snapshot[first]), list.key(snapshot[id]))
    {
      assert id == some || id in rest;
    }
  }

  lemma FirstRowsSnoc<T(!new)>(list: Listing<T>, snapshot: Snapshot<T>, hits: set<seq<nat>>, out: seq<Row<T>>,
                               first: seq<nat>)
    requires FirstRows(list, snapshot, hits, out) && first in hits - Ids(out) && snapshot[first].id == first
    requires forall id | id in hits - Ids(out) - {first} :: Before(list.key(snapshot[first]), list.key(snapshot[id]))
    ensures FirstRows(list, snapshot, hits, out + [snapshot[first]])
    ensures Ids(out + [snapshot[first]]) == Ids(out) + {first}
  {
    var more := out + [snapshot[first]];
    assert more[|out|].id == first;
    assert forall i | 0 <= i < |out| :: more[i] == out[i];
  }

  // SELECT ... ORDER BY ... LIMIT n.
  method Find<T(!new)>(list: Listing<T>, snapshot: Snapshot<T>, cursor: Option<Key>, n: nat) returns (out: seq<Row<T>>)
    requires Faithful(list) && SoundSnapshot(list, snapshot)
    ensures FirstRows(list, snapshot, Hits(list, snapshot, cursor), out) && |out| <= n
    ensures |out| < n ==> Ids(out) == Hits(list, snapshot, cursor)
  {
    var hits := Hits(list, snapshot, cursor);
    var pool := hits;
    out := [];
    while |out| < n && pool != {}
      invariant |out| <= n
      invariant FirstRows(list, snapshot, hits, out) && pool == hits - Ids(out)
      decreases pool
    {
      ghost var some := FirstExists(list, snapshot, pool);
      var first :| first in pool && forall id | id in pool - {first} ::
          Before(list.key(snapshot[first]), list.key(snapshot[id]));
      FirstRowsSnoc(list, snapshot, hits, out, first);
      out, pool := out + [snapshot[first]], pool - {first};
    }
    if |out| < n {
      assert forall id | id in hits :: id !in pool;
    }
  }

  datatype ListError = Invalid(reasons: seq<string>) | QueryFailed

  method ListPlaces<T(!new)>(r: Request<T>, snapshot: Snapshot<T>, cursor: Option<string>, fault: bool)
    returns (res: Result<Page<T>, ListError>)
    requires InSchema(r) && (forall id | id in snapshot :: snapshot[id].id == id && IsPlace(snapshot[id]))
    ensures res.Failure? && res.error.Invalid? <==>
              !AreaOk(r) || (cursor.Some? && Decode(r.lib, cursor.value).Failure?) || r.q == Some("")
    ensures res == Failure(QueryFailed) ==> fault
    ensures res.Success? ==> !fault && IsPage(ListingOf(r), snapshot, cursor, res.value)
  {
    PlacesQueryMeans(r, cursor);
    var errs := PlacesQuery(r, cursor);
    if |errs| > 0 {
      return Failure(Invalid(errs));
    }
    if fault {
      return Failure(QueryFailed);
    }
    ListingsAreFaithful(r);
    var page := ReadPage(ListingOf(r), snapshot, cursor);
    return Success(page);
  }

  // Fetch one row beyond the limit: if it is there, there is a next page.
  method ReadPage<T(!new)>(list: Listing<T>, snapshot: Snapshot<T>, cursor: Option<string>) returns (page: Page<T>)
    requires Faithful(list) && SoundSnapshot(list, snapshot)
    ensures IsPage(list, snapshot, cursor, page)
  {
    var limit := list.limit;
    var places := Find(list, snapshot, CursorKey(list, cursor), limit + 1);
    var next: Option<string> := None;
    if |places| > limit {
      Truncated(list, snapshot, Hits(list, snapshot, CursorKey(list, cursor)), places, limit);
      places := places[..limit];
      next := Some(list.encode(places[|places| - 1]));
    }
    page := Page(places, next);
  }

  // Dropping the row beyond the limit leaves the first limit rows.
  lemma Truncated<T(!new)>(list: Listing<T>, snapshot: Snapshot<T>, hits: set<seq<nat>>, out: seq<Row<T>>, n: nat)
    requires FirstRows(list, snapshot, hits, out) && |out| == n + 1
    ensures FirstRows(list, snapshot, hits, out[..n]) && Ids(out[..n]) != hits
  {
    assert out[n].id in hits;
    assert Ids(out) == Ids(out[..n]) + {out[n].id} by {
      assert forall i | 0 <= i < n :: out[..n][i] == out[i];
    }
    forall i | 0 <= i < n
      ensures out[i].id != out[n].id
    {
      assert Before(list.key(out[i]), list.key(out[n]));
    }
  }

  // ---- Following next_cursor ----

  function CursorAt<T>(pages: seq<Page<T>>, i: nat): Option<string>
    requires i <= |pages|
  {
    if i == 0 then None else pages[i - 1].next
  }

  // Page i is read from the table as it is at that moment; anything may
  // happen to the table in between.
  ghost predicate Traversal<T>(list: Listing<T>, snapshots: seq<Snapshot<T>>, pages: seq<Page<T>>) {
    && |snapshots| == |pages| > 0
    && (forall i | 0 <= i < |pages| :: PageAt(list, snapshots, pages, i))
  }

  ghost predicate PageAt<T>(list: Listing<T>, snapshots: seq<Snapshot<T>>, pages: seq<Page<T>>, i: nat)
    requires i < |snapshots| == |pages|
  {
    && SoundSnapshot(list, snapshots[i])
    && IsPage(list, snapshots[i], CursorAt(pages, i), pages[i])
    && (i < |pages| - 1 ==> pages[i].next.Some?)
  }

  ghost predicate Complete<T>(pages: seq<Page<T>>) {
    pages != [] && pages[|pages| - 1].next.None?
  }

  // A next cursor decodes to the position of the last row of its page.
  lemma NextCursorKey<T(!new)>(list: Listing<T>, snapshot: Snapshot<T>, cursor: Option<string>, page: Page<T>)
    requires Faithful(list) && SoundSnapshot(list, snapshot) && IsPage(list, snapshot, cursor, page) && page.next.Some?
    ensures page.data != [] && CursorKey(list, page.next) == Some(list.key(page.data[|page.data| - 1]))
  {
    var last := page.data[|page.data| - 1];
    assert list.sound(snapshot[last.id]);
  }

  lemma BeforeIsTransitive(a: Key, b: Key, c: Key)
    requires Before(a, b) && Before(b, c)
    ensures Before(a, c)
  {
  }

  // Everything on a page comes after the last row of the page before it.
  lemma AfterLastRow<T>(list: Listing<T>, snapshot: Snapshot<T>, cursor: Option<string>, page: Page<T>, j: nat)
    requires IsPage(list, snapshot, cursor, page) && j < |page.data|
    ensures IsAfter(CursorKey(list, cursor), list.key(page.data[j]))
  {
    assert page.data[j].id in Hits(list, snapshot, CursorKey(list, cursor));
  }

  lemma PageHasLast<T(!new)>(list: Listing<T>, snapshots: seq<Snapshot<T>>, pages: seq<Page<T>>, i: nat)
    requires Faithful(list) && Traversal(list, snapshots, pages) && i + 1 < |pages|
    ensures pages[i].data != [] && CursorKey(list, CursorAt(pages, i + 1)) == Some(LastKey(list, pages[i]))
  {
    assert PageAt(list, snapshots, pages, i);
    NextCursorKey(list, snapshots[i], CursorAt(pages, i), pages[i]);
  }

  lemma RowIsAfterCursor<T>(list: Listing<T>, snapshots: seq<Snapshot<T>>, pages: seq<Page<T>>, i: nat, j: nat)
    requires Traversal(list, snapshots, pages) && i < |pages| && j < |pages[i].data|
    ensures IsAfter(CursorKey(list, CursorAt(pages, i)), list.key(pages[i].data[j]))
  {
    assert PageAt(list, snapshots, pages, i);
    AfterLastRow(list, snapshots[i], CursorAt(pages, i), pages[i], j);
  }

  lemma NextPageFollows<T(!new)>(list: Listing<T>, snapshots: seq<Snapshot<T>>, pages: seq<Page<T>>, i: nat)
    requires Faithful(list) && Traversal(list, snapshots, pages) && i + 1 < |pages|
    ensures Follows(list, pages[i], pages[i + 1])
  {
    PageHasLast(list, snapshots, pages, i);
    var next := pages[i + 1];
    forall j | 0 <= j < |next.data|
      ensures Before(LastKey(list, pages[i]), list.key(next.data[j]))
    {
      RowIsAfterCursor(list, snapshots, pages, i + 1, j);
    }
  }

  // Pages in order, each continuing after the last row of the one before.
  ghost predicate Chained<T>(list: Listing<T>, pages: seq<Page<T>>) {
    && (forall i | 0 <= i < |pages| :: Sorted(list, pages[i].data))
    && (forall i, k | 0 <= i < k < |pages| && k == i + 1 :: Follows(list, pages[i], pages[k]))
  }

  ghost predicate Follows<T>(list: Listing<T>, page: Page<T>, next: Page<T>) {
    forall j | 0 <= j < |next.data| :: page.data != [] && Before(LastKey(list, page), list.key(next.data[j]))
  }

  ghost function LastKey<T>(list: Listing<T>, page: Page<T>): Key
    requires page.data != []
  {
    list.key(page.data[|page.data| - 1])
  }

  lemma PageIsSorted<T>(list: Listing<T>, snapshots: seq<Snapshot<T>>, pages: seq<Page<T>>, i: nat)
    requires Traversal(list, snapshots, pages) && i < |pages|
    ensures Sorted(list, pages[i].data)
  {
    assert PageAt(list, snapshots, pages, i);
  }

  lemma TraversalIsChained<T(!new)>(list: Listing<T>, snapshots: seq<Snapshot<T>>, pages: seq<Page<T>>)
    requires Faithful(list) && Traversal(list, snapshots, pages)
    ensures Chained(list, pages)
  {
    forall i | 0 <= i < |pages|
      ensures Sorted(list, pages[i].data)
    {
      PageIsSorted(list, snapshots, pages, i);
    }
    forall i, k | 0 <= i < k < |pages| && k == i + 1
      ensures Follows(list, pages[i], pages[k])
    {
      NextPageFollows(list, snapshots, pages, i);
    }
  }

  lemma FollowsAt<T>(list: Listing<T>, page: Page<T>, next: Page<T>, j: nat)
    requires Follows(list, page, next) && j < |next.data|
    ensures page.data != [] && Before(LastKey(list, page), list.key(next.data[j]))
  {
    var p := next.data[j];
  }

  lemma {:induction false} LaterPageIsAfter<T>(list: Listing<T>, pages: seq<Page<T>>, i: nat, k: nat, j: nat)
    requires Chained(list, pages) && i < k < |pages| && j < |pages[k].data|
    ensures pages[i].data != [] && Before(LastKey(list, pages[i]), list.key(pages[k].data[j]))
    decreases k
  {
    FollowsAt(list, pages[k - 1], pages[k], j);
    if i < k - 1 {
      LaterPageIsAfter(list, pages, i, k - 1, |pages[k - 1].data| - 1);
      BeforeIsTransitive(LastKey(list, pages[i]), LastKey(list, pages[k - 1]), list.key(pages[k].data[j]));
    }
  }

  // Position (i, j) is listed before position (k, l).
  predicate Earlier(i: nat, j: nat, k: nat, l: nat) {
    i < k || (i == k && j < l)
  }

  lemma ChainIsOrdered<T>(list: Listing<T>, pages: seq<Page<T>>, i: nat, j: nat, k: nat, l: nat)
    requires Chained(list, pages) && i < |pages| && k < |pages|
    requires j < |pages[i].data| && l < |pages[k].data| && Earlier(i, j, k, l)
    ensures Before(list.key(pages[i].data[j]), list.key(pages[k].data[l]))
  {
    assert Sorted(list, pages[i].data);
    if i < k {
      LaterPageIsAfter(list, pages, i, k, l);
      if j < |pages[i].data| - 1 {
        BeforeIsTransitive(list.key(pages[i].data[j]), LastKey(list, pages[i]), list.key(pages[k].data[l]));
      }
    }
  }

  // Whatever happens to the table, the whole listing is in strict order.
  lemma ListingIsOrdered<T(!new)>(list: Listing<T>, snapshots: seq<Snapshot<T>>, pages: seq<Page<T>>, i: nat, j: nat,
                                  k: nat, l: nat)
    requires Faithful(list) && Traversal(list, snapshots, pages) && i < |pages| && k < |pages|
    requires j < |pages[i].data| && l < |pages[k].data| && Earlier(i, j, k, l)
    ensures Before(list.key(pages[i].data[j]), list.key(pages[k].data[l]))
  {
    TraversalIsChained(list, snapshots, pages);
    ChainIsOrdered(list, pages, i, j, k, l);
  }

  // A key has one position at most.
  lemma OnePosition<T>(list: Listing<T>, pages: seq<Page<T>>, i: nat, j: nat, k: nat, l: nat)
    requires Chained(list, pages) && i < |pages| && k < |pages|
    requires j < |pages[i].data| && l < |pages[k].data| && list.key(pages[i].data[j]) == list.key(pages[k].data[l])
    ensures i == k && j == l
  {
    if Earlier(i, j, k, l) {
      ChainIsOrdered(list, pages, i, j, k, l);
    } else if Earlier(k, l, i, j) {
      ChainIsOrdered(list, pages, k, l, i, j);
    }
  }

  // p is a row of every snapshot that the traversal reads, and the request wants it.
  ghost predicate Stays<T>(list: Listing<T>, snapshots: seq<Snapshot<T>>, p: Row<T>) {
    && list.wanted(p)
    && forall i | 0 <= i < |snapshots| :: p.id in snapshots[i] && snapshots[i][p.id] == p
  }

  ghost predicate Listed<T>(page: Page<T>, p: Row<T>) {
    exists j :: 0 <= j < |page.data| && page.data[j] == p
  }

  // A hit is on its page, or else after the next cursor.
  lemma OnPageOrAfter<T(!new)>(list: Listing<T>, snapshot: Snapshot<T>, cursor: Option<string>, page: Page<T>,
                               p: Row<T>)
    requires Faithful(list) && SoundSnapshot(list, snapshot) && IsPage(list, snapshot, cursor, page)
    requires p.id in snapshot && snapshot[p.id] == p && list.wanted(p) && IsAfter(CursorKey(list, cursor), list.key(p))
    ensures Listed(page, p) || (page.next.Some? && IsAfter(CursorKey(list, page.next), list.key(p)))
  {
    if p.id in Ids(page.data) {
      var j :| 0 <= j < |page.data| && page.data[j].id == p.id;
      assert page.data[j] == p;
    } else {
      NextCursorKey(list, snapshot, cursor, page);
    }
  }

  lemma {:induction false} ListedOrAhead<T(!new)>(list: Listing<T>, snapshots: seq<Snapshot<T>>, pages: seq<Page<T>>,
                                                  p: Row<T>, n: nat)
    requires Faithful(list) && Traversal(list, snapshots, pages) && Stays(list, snapshots, p) && n <= |pages|
    ensures (exists i :: 0 <= i < n && Listed(pages[i], p))
         || (IsAfter(CursorKey(list, CursorAt(pages, n)), list.key(p)) && (n > 0 ==> pages[n - 1].next.Some?))
  {
    if n > 0 {
      ListedOrAhead(list, snapshots, pages, p, n - 1);
      if IsAfter(CursorKey(list, CursorAt(pages, n - 1)), list.key(p)) {
        assert PageAt(list, snapshots, pages, n - 1);
        OnPageOrAfter(list, snapshots[n - 1], CursorAt(pages, n - 1), pages[n - 1], p);
      }
    }
  }

  // Following next_cursor to the end lists every row that stays exactly once.
  lemma StayingRowsAreListedOnce<T(!new)>(list: Listing<T>, snapshots: seq<Snapshot<T>>, pages: seq<Page<T>>, p: Row<T>)
    returns (i: nat, j: nat)
    requires Faithful(list) && Traversal(list, snapshots, pages) && Complete(pages) && Stays(list, snapshots, p)
    ensures i < |pages| && j < |pages[i].data| && pages[i].data[j] == p
    ensures forall k, l | 0 <= k < |pages| && 0 <= l < |pages[k].data| && pages[k].data[l] == p :: k == i && l == j
  {
    i, j := ListedSomewhere(list, snapshots, pages, p);
    TraversalIsChained(list, snapshots, pages);
    forall k, l | 0 <= k < |pages| && 0 <= l < |pages[k].data| && pages[k].data[l] == p
      ensures k == i && l == j
    {
      OnePosition(list, pages, i, j, k, l);
    }
  }

  lemma ListedSomewhere<T(!new)>(list: Listing<T>, snapshots: seq<Snapshot<T>>, pages: seq<Page<T>>, p: Row<T>)
    returns (i: nat, j: nat)
    requires Faithful(list) && Traversal(list, snapshots, pages) && Complete(pages) && Stays(list, snapshots, p)
    ensures i < |pages| && j < |pages[i].data| && pages[i].data[j] == p
  {
    ListedOrAhead(list, snapshots, pages, p, |pages|);
    i :| 0 <= i < |pages| && Listed(pages[i], p);
    j :| 0 <= j < |pages[i].data| && pages[i].data[j] == p;
  }

  lemma ListedRow<T>(list: Listing<T>, snapshots: seq<Snapshot<T>>, pages: seq<Page<T>>, i: nat, j: nat)
    requires Traversal(list, snapshots, pages) && i < |pages| && j < |pages[i].data|
    ensures var p := pages[i].data[j];
            p.id in snapshots[i] && snapshots[i][p.id] == p && list.sound(p) && list.wanted(p)
  {
    assert PageAt(list, snapshots, pages, i);
  }

  // What a client asks for: the text occurs in the name, whatever the case,
  // and the place lies in the area.
  ghost predicate Asked<T>(r: Request<T>, p: Row<T>) {
    && (r.q.Some? ==> Contains(Folded(r.db.fold, p.name), Folded(r.db.fold, r.q.value)))
    && forall area | Names(r, area) :: InArea(r.db, area, p.rest)
  }

  lemma WantedMeansAsked<T>(r: Request<T>, p: Row<T>)
    requires FixesSpecials(r.db.fold) && AreaOk(r)
    ensures ListingOf(r).wanted(p) <==> Asked(r, p)
  {
    if r.q.Some? {
      SearchMeansContains(r.db.fold, p.name, r.q.value);
    }
  }

  // Search, paging and cursors together: of the places that stay, a client
  // that follows next_cursor gets those it asked for once, and no others.
  lemma SearchListsWhatWasAsked<T(!new)>(r: Request<T>, snapshots: seq<Snapshot<T>>, pages: seq<Page<T>>, p: Row<T>)
    returns (i: nat, j: nat)
    requires InSchema(r) && AreaOk(r) && FixesSpecials(r.db.fold)
    requires Traversal(ListingOf(r), snapshots, pages) && Complete(pages)
    requires forall k | 0 <= k < |snapshots| :: p.id in snapshots[k] && snapshots[k][p.id] == p
    ensures Asked(r, p) ==> i < |pages| && j < |pages[i].data| && pages[i].data[j] == p
    ensures forall k, l | 0 <= k < |pages| && 0 <= l < |pages[k].data| && pages[k].data[l] == p ::
              Asked(r, p) && k == i && l == j
  {
    i, j := 0, 0;
    ListingsAreFaithful(r);
    WantedMeansAsked(r, p);
    if Asked(r, p) {
      i, j := StayingRowsAreListedOnce(ListingOf(r), snapshots, pages, p);
    } else {
      forall k, l | 0 <= k < |pages| && 0 <= l < |pages[k].data|
        ensures pages[k].data[l] != p
      {
        ListedRow(ListingOf(r), snapshots, pages, k, l);
      }
    }
  }

  // ---- The order and the page, row by row ----

  // t comes before u on the calendar and the clock, to the microsecond.
  predicate Sooner(t: Time, u: Time) {
    t.year < u.year || (t.year == u.year &&
      (t.month < u.month || (t.month == u.month &&
        (t.day < u.day || (t.day == u.day &&
          (t.hour < u.hour || (t.hour == u.hour &&
            (t.minute < u.minute || (t.minute == u.minute &&
              (t.second < u.second || (t.second == u.second && t.nano / 1000 < u.nano / 1000)))))))))))
  }

  predicate SameMicrosecond(t: Time, u: Time) {
    && t.year == u.year && t.month == u.month && t.day == u.day
    && t.hour == u.hour && t.minute == u.minute && t.second == u.second && t.nano / 1000 == u.nano / 1000
  }

  lemma ClockFits(t: Time)
    requires IsTime(t)
    ensures Fits(Decimal, CLOCK, ClockOf(t))
  {
    assert Shift(Decimal, 1, 4) == 10000 && Shift(Decimal, 1, 2) == 100;
  }

  lemma SoonerClock(t: Time, u: Time)
    requires IsTime(t) && IsTime(u) && Sooner(t, u) && ClockOf(t) != ClockOf(u)
    ensures Rank(Decimal, CLOCK, ClockOf(t)) < Rank(Decimal, CLOCK, ClockOf(u))
  {
    ClockFits(t);
    ClockFits(u);
    var v, w := ClockOf(t), ClockOf(u);
    var k := if v[0] != w[0] then 0 else if v[1] != w[1] then 1 else if v[2] != w[2] then 2
             else if v[3] != w[3] then 3 else if v[4] != w[4] then 4 else 5;
    RankIsMonotone(Decimal, CLOCK, v, w, k);
  }

  lemma SoonerMeansSmaller(t: Time, u: Time)
    requires IsTime(t) && IsTime(u)
    ensures Sooner(t, u) ==> Instant(t) < Instant(u)
    ensures SameMicrosecond(t, u) ==> Instant(t) == Instant(u)
  {
    assert t.nano / 1000 < 1_000_000 && u.nano / 1000 < 1_000_000;
    if Sooner(t, u) && ClockOf(t) != ClockOf(u) {
      SoonerClock(t, u);
    }
  }

  // Instants order exactly as the calendar does.
  lemma InstantFollowsCalendar(t: Time, u: Time)
    requires IsTime(t) && IsTime(u)
    ensures Instant(t) < Instant(u) <==> Sooner(t, u)
    ensures Instant(t) == Instant(u) <==> SameMicrosecond(t, u)
  {
    SoonerMeansSmaller(t, u);
    SoonerMeansSmaller(u, t);
  }

  // a is smaller than b in the first group of digits in which they differ.
  ghost predicate IdBefore(a: seq<nat>, b: seq<nat>) {
    exists k :: 0 <= k < |a| && k < |b| && a[..k] == b[..k] && a[k] < b[k]
  }

  lemma IdRankFollowsDigits(a: seq<nat>, b: seq<nat>)
    requires Fits(Hexadecimal, UUID, a) && Fits(Hexadecimal, UUID, b)
    ensures IdRank(a) < IdRank(b) <==> IdBefore(a, b)
  {
    if IdBefore(a, b) {
      var k :| 0 <= k < |a| && k < |b| && a[..k] == b[..k] && a[k] < b[k];
      RankIsMonotone(Hexadecimal, UUID, a, b, k);
    } else if a != b {
      var k := FirstDifference(a, b);
      RankIsMonotone(Hexadecimal, UUID, b, a, k);
    }
  }

  lemma {:induction false} FirstDifference(a: seq<nat>, b: seq<nat>) returns (k: nat)
    requires |a| == |b| && a != b
    ensures k < |a| && a[..k] == b[..k] && a[k] != b[k]
    decreases |a|
  {
    if a[0] != b[0] {
      k := 0;
    } else {
      assert a == [a[0]] + a[1..] && b == [b[0]] + b[1..];
      k := FirstDifference(a[1..], b[1..]);
      assert a[..k + 1] == [a[0]] + a[1..][..k] && b[..k + 1] == [b[0]] + b[1..][..k];
      k := k + 1;
    }
  }

  // The listing's order on rows: latest change first, then smallest id.
  ghost predicate ListedBefore<T>(p: Row<T>, q: Row<T>) {
    Sooner(q.updatedAt, p.updatedAt) || (SameMicrosecond(p.updatedAt, q.updatedAt) && IdBefore(p.id, q.id))
  }

  lemma KeysFollowRows<T>(p: Row<T>, q: Row<T>)
    requires IsPlace(p) && IsPlace(q)
    ensures Before(KeyOf(p), KeyOf(q)) <==> ListedBefore(p, q)
  {
    InstantFollowsCalendar(p.updatedAt, q.updatedAt);
    InstantFollowsCalendar(q.updatedAt, p.updatedAt);
    IdRankFollowsDigits(p.id, q.id);
  }

  // Whatever happens to the table, a client that follows next_cursor sees rows
  // by descending updated_at and, within one microsecond, by ascending id.
  lemma RowsAreListedInOrder<T(!new)>(r: Request<T>, snapshots: seq<Snapshot<T>>, pages: seq<Page<T>>,
                                      i: nat, j: nat, k: nat, l: nat)
    requires InSchema(r) && AreaOk(r) && Traversal(ListingOf(r), snapshots, pages) && i < |pages| && k < |pages|
    requires j < |pages[i].data| && l < |pages[k].data| && Earlier(i, j, k, l)
    ensures ListedBefore(pages[i].data[j], pages[k].data[l])
  {
    ListingsAreFaithful(r);
    ListingIsOrdered(ListingOf(r), snapshots, pages, i, j, k, l);
    ListedRow(ListingOf(r), snapshots, pages, i, j);
    ListedRow(ListingOf(r), snapshots, pages, k, l);
    KeysFollowRows(pages[i].data[j], pages[k].data[l]);
  }

  // The request asks for the row, and it comes after the one the cursor was made from.
  ghost predicate Due<T>(r: Request<T>, start: Option<Row<T>>, p: Row<T>) {
    Asked(r, p) && (start.Some? ==> ListedBefore(start.value, p))
  }

  // At most limit rows, 20 when none is given, in order, all of them due.
  ghost predicate HoldsDueRows<T>(r: Request<T>, snapshot: Snapshot<T>, start: Option<Row<T>>, data: seq<Row<T>>) {
    && |data| <= (if r.limit.Some? then r.limit.value else 20)
    && (forall j | 0 <= j < |data| ::
        data[j].id in snapshot && snapshot[data[j].id] == data[j] && Due(r, start, data[j]))
    && (forall i, j | 0 <= i < j < |data| :: ListedBefore(data[i], data[j]))
  }

  // Whatever is due and not on the page comes after all of it, and a next cursor says so.
  ghost predicate LeavesLaterRows<T>(r: Request<T>, snapshot: Snapshot<T>, start: Option<Row<T>>, page: Page<T>) {
    forall id | id in snapshot && Due(r, start, snapshot[id]) && id !in Ids(page.data) ::
      page.next.Some? && forall j | 0 <= j < |page.data| :: ListedBefore(page.data[j], snapshot[id])
  }

  // A next cursor is made from the last row of a full page, and something is left for it.
  ghost predicate NextIsDue<T>(r: Request<T>, snapshot: Snapshot<T>, start: Option<Row<T>>, page: Page<T>) {
    page.next.Some? ==>
      && |page.data| == (if r.limit.Some? then r.limit.value else 20) > 0
      && var last := page.data[|page.data| - 1];
         && |last.id| == |UUID| && page.next == Some(Encode(last.updatedAt, FormatUuid(last.id)))
         && exists id :: id in snapshot && id !in Ids(page.data) && Due(r, start, snapshot[id])
  }

  // The page a request gets, in terms of its rows.
  ghost predicate IsPageAfter<T>(r: Request<T>, snapshot: Snapshot<T>, start: Option<Row<T>>, page: Page<T>) {
    && HoldsDueRows(r, snapshot, start, page.data)
    && LeavesLaterRows(r, snapshot, start, page)
    && NextIsDue(r, snapshot, start, page)
  }

  // The cursor that a page ending in this row hands out; none for a first request.
  function CursorAfter<T>(start: Option<Row<T>>): Option<string>
    requires start.Some? ==> |start.value.id| == |UUID|
  {
    if start.None? then None else Some(Encode(start.value.updatedAt, FormatUuid(start.value.id)))
  }

  lemma AfterStart<T>(r: Request<T>, start: Option<Row<T>>, p: Row<T>)
    requires AreaOk(r) && IsPlace(p) && (start.Some? ==> IsPlace(start.value))
    ensures IsAfter(CursorKey(ListingOf(r), CursorAfter(start)), KeyOf(p)) <==>
              (start.Some? ==> ListedBefore(start.value, p))
  {
    if start.Some? {
      EncodedPosition(r.lib, start.value);
      KeysFollowRows(start.value, p);
    }
  }

  // The rows a page is cut from are the due ones.
  lemma HitMeans<T>(r: Request<T>, snapshot: Snapshot<T>, start: Option<Row<T>>, id: seq<nat>)
    requires AreaOk(r) && FixesSpecials(r.db.fold) && SoundSnapshot(ListingOf(r), snapshot)
    requires (start.Some? ==> IsPlace(start.value)) && id in snapshot
    ensures id in Hits(ListingOf(r), snapshot, CursorKey(ListingOf(r), CursorAfter(start))) <==>
              Due(r, start, snapshot[id])
  {
    WantedMeansAsked(r, snapshot[id]);
    AfterStart(r, start, snapshot[id]);
  }

  lemma HitsAreDue<T>(r: Request<T>, snapshot: Snapshot<T>, start: Option<Row<T>>) returns (hits: set<seq<nat>>)
    requires AreaOk(r) && FixesSpecials(r.db.fold) && SoundSnapshot(ListingOf(r), snapshot)
    requires start.Some? ==> IsPlace(start.value)
    ensures hits == Hits(ListingOf(r), snapshot, CursorKey(ListingOf(r), CursorAfter(start)))
    ensures hits <= snapshot.Keys && forall id | id in snapshot :: id in hits <==> Due(r, start, snapshot[id])
  {
    hits := Hits(ListingOf(r), snapshot, CursorKey(ListingOf(r), CursorAfter(start)));
    forall id | id in snapshot
      ensures id in hits <==> Due(r, start, snapshot[id])
    {
      HitMeans(r, snapshot, start, id);
    }
  }

  // First rows, read through their own order instead of their keys.
  lemma FirstRowsMean<T>(r: Request<T>, snapshot: Snapshot<T>, hits: set<seq<nat>>, out: seq<Row<T>>)
    requires AreaOk(r) && SoundSnapshot(ListingOf(r), snapshot) && FirstRows(ListingOf(r), snapshot, hits, out)
    ensures forall i, j | 0 <= i < j < |out| :: ListedBefore(out[i], out[j])
    ensures forall i, id | 0 <= i < |out| && id in hits - Ids(out) :: ListedBefore(out[i], snapshot[id])
  {
    var list := ListingOf(r);
    forall i, j | 0 <= i < j < |out|
      ensures ListedBefore(out[i], out[j])
    {
      assert Before(list.key(out[i]), list.key(out[j]));
      KeysFollowRows(out[i], out[j]);
    }
    forall i, id | 0 <= i < |out| && id in hits - Ids(out)
      ensures ListedBefore(out[i], snapshot[id])
    {
      assert Before(list.key(out[i]), list.key(snapshot[id]));
      KeysFollowRows(out[i], snapshot[id]);
    }
  }

  lemma PageMeans<T(!new)>(r: Request<T>, snapshot: Snapshot<T>, start: Option<Row<T>>, page: Page<T>)
    requires InSchema(r) && AreaOk(r) && FixesSpecials(r.db.fold) && SoundSnapshot(ListingOf(r), snapshot)
    requires start.Some? ==> IsPlace(start.value)
    requires IsPage(ListingOf(r), snapshot, CursorAfter(start), page)
    ensures IsPageAfter(r, snapshot, start, page)
  {
    var hits := HitsAreDue(r, snapshot, start);
    FirstRowsMean(r, snapshot, hits, page.data);
    FirstRowsSize(ListingOf(r), snapshot, hits, page.data);
    assert HoldsDueRows(r, snapshot, start, page.data);
    if page.next.Some? {
      var last := page.data[|page.data| - 1];
      assert IsPlace(snapshot[last.id]) && snapshot[last.id] == last;
      NextCursorIsDue(r, snapshot, start, hits, page);
    }
  }

  lemma NextCursorIsDue<T>(r: Request<T>, snapshot: Snapshot<T>, start: Option<Row<T>>, hits: set<seq<nat>>,
                           page: Page<T>)
    requires hits <= snapshot.Keys && forall id | id in hits :: Due(r, start, snapshot[id])
    requires Ids(page.data) <= hits && Ids(page.data) != hits
    requires |page.data| == (if r.limit.Some? then r.limit.value else 20) > 0
    requires var last := page.data[|page.data| - 1]; IsPlace(last) && page.next == Some(CursorFor(last))
    ensures NextIsDue(r, snapshot, start, page)
  {
    assert !(hits <= Ids(page.data));
    var id :| id in hits && id !in Ids(page.data);
    assert id in snapshot && id !in Ids(page.data) && Due(r, start, snapshot[id]);
  }

  // updated_at never moves backwards.
  ghost predicate ClockForward<T>(list: Listing<T>, snapshots: seq<Snapshot<T>>) {
    forall i, k, id | 0 <= i < k < |snapshots| && id in snapshots[i] && id in snapshots[k] ::
      list.key(snapshots[i][id]).at <= list.key(snapshots[k][id]).at
  }

  // As long as updated_at only moves forward no place is listed twice, however
  // often it is edited during the traversal.
  lemma NoPlaceIsListedTwice<T(!new)>(list: Listing<T>, snapshots: seq<Snapshot<T>>, pages: seq<Page<T>>, i: nat,
                                      j: nat, k: nat, l: nat)
    requires Faithful(list) && Traversal(list, snapshots, pages) && ClockForward(list, snapshots) && i < |pages|
               && k < |pages|
    requires j < |pages[i].data| && l < |pages[k].data| && pages[i].data[j].id == pages[k].data[l].id
    ensures i == k && j == l
  {
    if Earlier(i, j, k, l) {
      NotListedAgain(list, snapshots, pages, i, j, k, l);
    } else if Earlier(k, l, i, j) {
      NotListedAgain(list, snapshots, pages, k, l, i, j);
    }
  }

  lemma NotListedAgain<T(!new)>(list: Listing<T>, snapshots: seq<Snapshot<T>>, pages: seq<Page<T>>, i: nat, j: nat,
                                k: nat, l: nat)
    requires Faithful(list) && Traversal(list, snapshots, pages) && ClockForward(list, snapshots) && i < |pages|
               && k < |pages|
    requires j < |pages[i].data| && l < |pages[k].data| && Earlier(i, j, k, l)
    ensures pages[i].data[j].id != pages[k].data[l].id
  {
    ListingIsOrdered(list, snapshots, pages, i, j, k, l);
    ListedRow(list, snapshots, pages, i, j);
    ListedRow(list, snapshots, pages, k, l);
  }

  // ---- How many pages ----

  function PagesNeeded(n: nat, limit: nat): nat
    requires limit > 0
  {
    if n <= limit then 1 else 1 + PagesNeeded(n - limit, limit)
  }

  // max(1, ceil(n / limit))
  lemma {:induction false} PagesNeededIsCeiling(n: nat, limit: nat)
    requires limit > 0
    ensures (PagesNeeded(n, limit) - 1) * limit < n <= PagesNeeded(n, limit) * limit
              || (n == 0 && PagesNeeded(n, limit) == 1)
  {
    if n > limit {
      PagesNeededIsCeiling(n - limit, limit);
    }
  }

  lemma {:induction false} IdsSize<T>(out: seq<Row<T>>)
    requires forall i, j | 0 <= i < j < |out| :: out[i].id != out[j].id
    ensures |Ids(out)| == |out|
  {
    if out != [] {
      var n := |out| - 1;
      IdsSize(out[..n]);
      assert Ids(out) == Ids(out[..n]) + {out[n].id} by {
        assert forall i | 0 <= i < n :: out[..n][i] == out[i];
      }
      assert out[n].id !in Ids(out[..n]);
    }
  }

  lemma FirstRowsSize<T(!new)>(list: Listing<T>, snapshot: Snapshot<T>, hits: set<seq<nat>>, out: seq<Row<T>>)
    requires FirstRows(list, snapshot, hits, out)
    ensures Ids(out) <= hits && |Ids(out)| == |out|
  {
    forall i, j | 0 <= i < j < |out|
      ensures out[i].id != out[j].id
    {
      assert Before(list.key(out[i]), list.key(out[j]));
    }
    IdsSize(out);
  }

  // On a fixed table the next page continues with exactly what is left.
  lemma HitsShrink<T(!new)>(list: Listing<T>, snapshot: Snapshot<T>, cursor: Option<string>, page: Page<T>)
    requires Faithful(list) && SoundSnapshot(list, snapshot) && IsPage(list, snapshot, cursor, page) && page.next.Some?
    ensures Hits(list, snapshot, CursorKey(list, page.next))
              == Hits(list, snapshot, CursorKey(list, cursor)) - Ids(page.data)
    ensures |Hits(list, snapshot, CursorKey(list, page.next))|
              == |Hits(list, snapshot, CursorKey(list, cursor))| - list.limit > 0
  {
    var before, after := Hits(list, snapshot, CursorKey(list, cursor)),
        Hits(list, snapshot, CursorKey(list, page.next));
    NextCursorKey(list, snapshot, cursor, page);
    FirstRowsSize(list, snapshot, before, page.data);
    var n := |page.data| - 1;
    forall id | id in after
      ensures id in before && id !in Ids(page.data)
    {
      forall i | 0 <= i < |page.data|
        ensures page.data[i].id != id
      {
        assert i < n ==> Before(list.key(page.data[i]), list.key(page.data[n]));
      }
      AfterCursor(list, snapshot, cursor, page, id);
    }
    assert after == before - Ids(page.data);
  }

  lemma AfterCursor<T(!new)>(list: Listing<T>, snapshot: Snapshot<T>, cursor: Option<string>, page: Page<T>,
                             id: seq<nat>)
    requires Faithful(list) && SoundSnapshot(list, snapshot) && IsPage(list, snapshot, cursor, page) && page.next.Some?
    requires id in Hits(list, snapshot, CursorKey(list, page.next))
    ensures id in Hits(list, snapshot, CursorKey(list, cursor))
  {
    NextCursorKey(list, snapshot, cursor, page);
    var last := page.data[|page.data| - 1];
    assert last.id in Hits(list, snapshot, CursorKey(list, cursor));
    if CursorKey(list, cursor).Some? {
      BeforeIsTransitive(CursorKey(list, cursor).value, list.key(last), list.key(snapshot[id]));
    }
  }

  // A last page holds all that is left.
  lemma LastPage<T(!new)>(list: Listing<T>, snapshot: Snapshot<T>, cursor: Option<string>, page: Page<T>)
    requires IsPage(list, snapshot, cursor, page) && page.next.None?
    ensures |Hits(list, snapshot, CursorKey(list, cursor))| <= list.limit
  {
    FirstRowsSize(list, snapshot, Hits(list, snapshot, CursorKey(list, cursor)), page.data);
  }

  // On a fixed table a page has a next cursor exactly when more than it holds
  // was left, and the page after it finds exactly what it did not hold.
  lemma LeftAt<T(!new)>(list: Listing<T>, snapshot: Snapshot<T>, snapshots: seq<Snapshot<T>>, pages: seq<Page<T>>,
                        i: nat)
    requires Faithful(list) && Traversal(list, snapshots, pages) && i < |pages| && snapshots[i] == snapshot
    ensures var left := |Hits(list, snapshot, CursorKey(list, CursorAt(pages, i)))|;
            && (pages[i].next.Some? <==> left > list.limit)
            && (i + 1 < |pages| ==>
                  |Hits(list, snapshot, CursorKey(list, CursorAt(pages, i + 1)))| == left - list.limit > 0)
  {
    assert PageAt(list, snapshots, pages, i);
    if pages[i].next.Some? {
      HitsShrink(list, snapshot, CursorAt(pages, i), pages[i]);
    } else {
      LastPage(list, snapshot, CursorAt(pages, i), pages[i]);
    }
  }

  lemma {:induction false} CountDown(left: seq<nat>, limit: nat, i: nat)
    requires limit > 0 && i < |left|
    requires forall k, l | 0 <= k < l < |left| && l == k + 1 :: left[l] == left[k] - limit > 0
    ensures |left| - i <= PagesNeeded(left[i], limit)
    ensures left[|left| - 1] <= limit <==> |left| - i == PagesNeeded(left[i], limit)
    decreases |left| - i
  {
    if i + 1 < |left| {
      CountDown(left, limit, i + 1);
    }
  }

  // On a fixed table following next_cursor ends: no traversal is longer than
  // max(1, ceil(n / limit)) pages, and it is complete exactly at that length.
  lemma TraversalLength<T(!new)>(list: Listing<T>, snapshot: Snapshot<T>, snapshots: seq<Snapshot<T>>,
                                 pages: seq<Page<T>>)
    requires Faithful(list) && Traversal(list, snapshots, pages)
    requires forall k | 0 <= k < |snapshots| :: snapshots[k] == snapshot
    ensures |pages| <= PagesNeeded(|Hits(list, snapshot, None)|, list.limit)
    ensures Complete(pages) <==> |pages| == PagesNeeded(|Hits(list, snapshot, None)|, list.limit)
  {
    var left: seq<nat> := seq(|pages|, i requires 0 <= i < |pages| =>
      |Hits(list, snapshot, CursorKey(list, CursorAt(pages, i)))|);
    forall k, l | 0 <= k < l < |left| && l == k + 1
      ensures left[l] == left[k] - list.limit > 0
    {
      LeftAt(list, snapshot, snapshots, pages, k);
    }
    LeftAt(list, snapshot, snapshots, pages, |pages| - 1);
    CountDown(left, list.limit, 0);
  }
}

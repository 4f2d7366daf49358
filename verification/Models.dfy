// The rows that the repositories store, pkg/models/place.go.
module Models {
  import opened Wrappers

  // The id column: "" until the database has generated a UUID.
  datatype Id = Unset | Uuid(n: nat)

  datatype Point = Point(lat: real, lng: real)

  datatype Status = Active | Closed | OSMRemoved

  datatype ExternalRef = ExternalRef(id: string, confidence: real, matchedAt: int)

  datatype Place = Place(
    id: Id, osmId: int, osmType: string,
    name: string, at: Point, category: string, rank: int,
    tags: map<string, string>, externalIds: map<string, ExternalRef>,
    status: Status, source: string)

  // One incoming row of an external source, internal/identity/record.go.
  datatype Record = Record(
    source: string, sourceId: string, name: string, at: Point, category: string,
    street: string, houseNumber: string, payload: Option<string>)

  // One row of unmatched_external.
  datatype QueueRow = QueueRow(
    id: int, source: string, sourceId: string, name: string, at: Point, category: string,
    street: string, houseNumber: string, payload: string, lastAttempted: int, attempts: int)

  // A Go map answers "" for a missing key.
  function Tag(tags: map<string, string>, key: string): string {
    if key in tags then tags[key] else ""
  }
}

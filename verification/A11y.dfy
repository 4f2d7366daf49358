// The accessibility rule engine, internal/a11y/engine.go, over the profile
// model of pkg/models/accessibility.go.
module A11y {
  import opened Wrappers
  import opened Models

  datatype Level = Good | Limited | No

  datatype Door = Door(kind: string, width: Option<Level>)

  datatype Entrance = Entrance(
    isLevel: Option<bool>, hasFixedRamp: Option<bool>, hasRemovableRamp: Option<bool>,
    slopePercent: Option<Level>, width: Option<Level>, door: Option<Door>, hasIntercom: Option<bool>)

  datatype Pathways = Pathways(
    width: Option<Level>, surface: string, isKerbstoneFree: Option<bool>, hasSteps: Option<bool>)

  datatype Restroom = Restroom(
    isAccessible: Option<bool>, doorWidth: Option<Level>, turningRadius: Option<Level>,
    hasGrabRails: Option<bool>, hasRollInShower: Option<bool>, toiletSeatHeight: Option<Level>,
    hasEmergencyPull: Option<bool>, hasChangingTable: Option<bool>)

  datatype Parking = Parking(
    hasDisabledSpaces: Option<bool>, count: Option<int>, distanceToEntrance: Option<Level>,
    width: Option<Level>, hasDedicatedSignage: Option<bool>)

  datatype Elevator = Elevator(
    width: Option<Level>, depth: Option<Level>, doorWidth: Option<Level>,
    hasBraille: Option<bool>, hasAudio: Option<bool>)

  // Measured facts together with the three fields every component carries.
  datatype Component<+F> = Component(facts: F, auditFlags: seq<string>, isInherited: bool, sourceId: Id)

  datatype Components = Components(
    entrance: Option<Component<Entrance>>,
    pathways: Option<Component<Pathways>>,
    restroom: Option<Component<Restroom>>,
    parking: Option<Component<Parking>>,
    elevator: Option<Component<Elevator>>)

  datatype SourceReport = SourceReport(source: string, value: string, recordedAt: int)

  datatype Profile = Profile(
    id: Id, placeId: Id, sourceReports: seq<SourceReport>, components: Components,
    userVerified: bool, submittedBy: Option<string>, submittedAt: Option<int>, updatedAt: int)

  const ENTRANCE_NARROW_WIDTH := "narrow width"
  const ENTRANCE_NO_LEVEL_ROUTE := "no level route (no ramp and not level)"
  const RESTROOM_NARROW_DOOR := "narrow door"
  const RESTROOM_SMALL_TURNING := "small turning radius"
  const RESTROOM_NO_GRAB_RAILS := "missing grab rails"
  const ELEVATOR_NARROW_WIDTH := "small cabin width"
  const ELEVATOR_SHALLOW_DEPTH := "small cabin depth"
  const ELEVATOR_NARROW_DOOR := "narrow door"
  const ELEVATOR_NO_BRAILLE := "missing braille"
  const ELEVATOR_NO_AUDIO := "missing audio"
  const PARKING_NO_DISABLED_SPACES := "no disabled spaces"
  const PATHWAY_NARROW_WIDTH := "narrow pathway"

  // ---- Flags: fired by an explicit bad value, never by an unknown one ----

  function When(condition: bool, flag: string): seq<string> {
    if condition then [flag] else []
  }

  function EntranceFlags(e: Entrance): seq<string> {
    var hasRamp := e.hasFixedRamp == Some(true) || e.hasRemovableRamp == Some(true);
    When(e.width == Some(No), ENTRANCE_NARROW_WIDTH)
    + When(e.isLevel == Some(false) && !hasRamp, ENTRANCE_NO_LEVEL_ROUTE)
  }

  function PathwayFlags(p: Pathways): seq<string> {
    When(p.width == Some(No), PATHWAY_NARROW_WIDTH)
  }

  function RestroomFlags(r: Restroom): seq<string> {
    When(r.doorWidth == Some(No), RESTROOM_NARROW_DOOR)
    + When(r.turningRadius == Some(No), RESTROOM_SMALL_TURNING)
    + When(r.hasGrabRails == Some(false), RESTROOM_NO_GRAB_RAILS)
  }

  function ParkingFlags(p: Parking): seq<string> {
    When(p.hasDisabledSpaces == Some(false), PARKING_NO_DISABLED_SPACES)
  }

  function ElevatorFlags(e: Elevator): seq<string> {
    When(e.width == Some(No), ELEVATOR_NARROW_WIDTH)
    + When(e.depth == Some(No), ELEVATOR_SHALLOW_DEPTH)
    + When(e.doorWidth == Some(No), ELEVATOR_NARROW_DOOR)
    + When(e.hasBraille == Some(false), ELEVATOR_NO_BRAILLE)
    + When(e.hasAudio == Some(false), ELEVATOR_NO_AUDIO)
  }

  function Reflag<F>(c: Option<Component<F>>, rule: F -> seq<string>): Option<Component<F>> {
    if c.Some? then Some(c.value.(auditFlags := rule(c.value.facts))) else None
  }

  function Flagged(c: Components): Components {
    Components(
      Reflag(c.entrance, EntranceFlags), Reflag(c.pathways, PathwayFlags), Reflag(c.restroom, RestroomFlags),
      Reflag(c.parking, ParkingFlags), Reflag(c.elevator, ElevatorFlags))
  }

  predicate Current<F>(c: Option<Component<F>>, rule: F -> seq<string>) {
    c.Some? ==> c.value.auditFlags == rule(c.value.facts)
  }

  // The flags of every component are the ones its own facts call for.
  predicate FlagsCurrent(c: Components) {
    && Current(c.entrance, EntranceFlags)
    && Current(c.pathways, PathwayFlags)
    && Current(c.restroom, RestroomFlags)
    && Current(c.parking, ParkingFlags)
    && Current(c.elevator, ElevatorFlags)
  }

  // ---- Inheritance ----

  function InheritOne<F>(own: Option<Component<F>>, parent: Option<Component<F>>, parentId: Id): Option<Component<F>> {
    if own.None? && parent.Some? then Some(parent.value.(isInherited := true, sourceId := parentId)) else own
  }

  // Child components win; the parent's fill the gaps, marked with their origin.
  function Inherit(own: Components, parent: Components, parentId: Id): Components {
    Components(
      InheritOne(own.entrance, parent.entrance, parentId),
      InheritOne(own.pathways, parent.pathways, parentId),
      InheritOne(own.restroom, parent.restroom, parentId),
      InheritOne(own.parking, parent.parking, parentId),
      InheritOne(own.elevator, parent.elevator, parentId))
  }

  const NO_COMPONENTS := Components(None, None, None, None, None)

  const ZERO_PROFILE := Profile(Unset, Unset, [], NO_COMPONENTS, false, None, None, 0)

  // submittedBy is not copied; without a parent profile nothing is inherited.
  function Effective(child: Option<Profile>, parentId: Id, parent: Option<Profile>): Profile {
    var base := if child.Some? then child.value.(submittedBy := None) else ZERO_PROFILE;
    if parent.None? then base
    else base.(components := Inherit(base.components, parent.value.components, parentId))
  }

  // ---- The engine over profile objects ----

  class AccessibilityProfile {
    var id: Id
    var placeId: Id
    var sourceReports: seq<SourceReport>
    var entrance: Option<Component<Entrance>>
    var pathways: Option<Component<Pathways>>
    var restroom: Option<Component<Restroom>>
    var parking: Option<Component<Parking>>
    var elevator: Option<Component<Elevator>>
    var userVerified: bool
    var submittedBy: Option<string>
    var submittedAt: Option<int>
    var updatedAt: int

    function Value(): Profile
      reads this
    {
      Profile(id, placeId, sourceReports, Components(entrance, pathways, restroom, parking, elevator),
              userVerified, submittedBy, submittedAt, updatedAt)
    }

    constructor (p: Profile)
      ensures Value() == p
    {
      id, placeId, sourceReports := p.id, p.placeId, p.sourceReports;
      entrance, pathways, restroom := p.components.entrance, p.components.pathways, p.components.restroom;
      parking, elevator := p.components.parking, p.components.elevator;
      userVerified, submittedBy, submittedAt, updatedAt := p.userVerified, p.submittedBy, p.submittedAt, p.updatedAt;
    }

    // Fill the components this profile lacks.
    method InheritFrom(pa: AccessibilityProfile, origin: Id)
      requires pa != this
      modifies this
      ensures Value() == old(Value()).(components := Inherit(old(Value()).components, pa.Value().components, origin))
    {
      entrance := InheritOne(entrance, pa.entrance, origin);
      pathways := InheritOne(pathways, pa.pathways, origin);
      restroom := InheritOne(restroom, pa.restroom, origin);
      parking := InheritOne(parking, pa.parking, origin);
      elevator := InheritOne(elevator, pa.elevator, origin);
    }
  }

  method WithAuditFlags(profile: AccessibilityProfile?)
    modifies profile
    ensures profile != null ==>
              profile.Value() == old(profile.Value()).(components := Flagged(old(profile.Value()).components))
  {
    if profile == null {
      return;
    }
    profile.entrance := Reflag(profile.entrance, EntranceFlags);
    profile.pathways := Reflag(profile.pathways, PathwayFlags);
    profile.restroom := Reflag(profile.restroom, RestroomFlags);
    profile.parking := Reflag(profile.parking, ParkingFlags);
    profile.elevator := Reflag(profile.elevator, ElevatorFlags);
  }

  datatype PlaceRef = PlaceRef(id: Id, accessibility: AccessibilityProfile?)

  ghost function ValueOf(p: AccessibilityProfile?): Option<Profile>
    reads p
  {
    if p == null then None else Some(p.Value())
  }

  // A fresh profile; neither argument is changed.
  method ComputeEffectiveProfile(child: Option<PlaceRef>, parent: Option<PlaceRef>) returns (r: AccessibilityProfile?)
    ensures r == null <==> child.None?
    ensures r != null ==> fresh(r)
    ensures child.Some? && parent.None? ==> r.Value() == Effective(ValueOf(child.value.accessibility), Unset, None)
    ensures child.Some? && parent.Some? ==>
              r.Value() == Effective(ValueOf(child.value.accessibility), parent.value.id,
                  ValueOf(parent.value.accessibility))
  {
    if child.None? {
      return null;
    }
    var ca := child.value.accessibility;
    var effective := new AccessibilityProfile(if ca == null then ZERO_PROFILE else ca.Value().(submittedBy := None));
    if parent.None? || parent.value.accessibility == null {
      return effective;
    }
    effective.InheritFrom(parent.value.accessibility, parent.value.id);
    return effective;
  }

  // ---- Properties ----

  // Flags are a function of the facts: recomputing them settles in one pass,
  // is needed exactly when some component is stale, and leaves facts alone.
  lemma FlaggedSettles(c: Components)
    ensures FlagsCurrent(Flagged(c))
    ensures Flagged(c) == c <==> FlagsCurrent(c)
  {
  }

  // Reading never needs the rules again: an effective profile built from
  // current profiles is current, own and inherited components alike.
  lemma EffectiveIsCurrent(child: Option<Profile>, parentId: Id, parent: Option<Profile>)
    requires child.Some? ==> FlagsCurrent(child.value.components)
    requires parent.Some? ==> FlagsCurrent(parent.value.components)
    ensures FlagsCurrent(Effective(child, parentId, parent).components)
  {
  }

  // A component of its own stays; a missing one is the parent's, marked.
  ghost predicate Filled<F>(own: Option<Component<F>>, parent: Option<Component<F>>, parentId: Id,
                            r: Option<Component<F>>) {
    && (own.Some? ==> r == own)
    && (own.None? ==> (r.Some? <==> parent.Some?))
    && (own.None? && r.Some? ==>
          && r.value.facts == parent.value.facts && r.value.auditFlags == parent.value.auditFlags
          && r.value.isInherited && r.value.sourceId == parentId)
  }

  // The components a place has of its own: none without a profile.
  function OwnComponents(child: Option<Profile>): Components {
    if child.Some? then child.value.components else Components(None, None, None, None, None)
  }

  // Also for a child without a profile of its own.
  lemma InheritanceFillsGaps(child: Option<Profile>, parentId: Id, parent: Profile)
    ensures var own, from := OwnComponents(child), parent.components;
            var r := Effective(child, parentId, Some(parent)).components;
            && Filled(own.entrance, from.entrance, parentId, r.entrance)
            && Filled(own.pathways, from.pathways, parentId, r.pathways)
            && Filled(own.restroom, from.restroom, parentId, r.restroom)
            && Filled(own.parking, from.parking, parentId, r.parking)
            && Filled(own.elevator, from.elevator, parentId, r.elevator)
  {
  }

  // What does not come from components is the child's, or zero without a
  // profile; who submitted it is never shown; and without a parent's profile
  // the components are its own.
  lemma EffectiveKeepsTheRest(child: Option<Profile>, parentId: Id, parent: Option<Profile>)
    ensures var r := Effective(child, parentId, parent);
            && r.id == (if child.Some? then child.value.id else Unset)
            && r.placeId == (if child.Some? then child.value.placeId else Unset)
            && r.sourceReports == (if child.Some? then child.value.sourceReports else [])
            && r.userVerified == (child.Some? && child.value.userVerified)
            && r.submittedAt == (if child.Some? then child.value.submittedAt else None)
            && r.updatedAt == (if child.Some? then child.value.updatedAt else 0)
            && r.submittedBy == None
            && (parent.None? ==> r.components == OwnComponents(child))
  {
  }

  // The rules, condition by condition: each flag fires exactly on its own bad
  // value, and an unknown value never fires one.
  lemma EntranceFlagConditions(e: Entrance)
    ensures "narrow width" in EntranceFlags(e) <==> e.width == Some(No)
    ensures "no level route (no ramp and not level)" in EntranceFlags(e) <==>
              e.isLevel == Some(false) && e.hasFixedRamp != Some(true) && e.hasRemovableRamp != Some(true)
  {
    assert |"narrow width"| == 12 && |"no level route (no ramp and not level)"| == 38;
  }

  lemma SingleFlagConditions(p: Pathways, k: Parking)
    ensures PathwayFlags(p) == (if p.width == Some(No) then ["narrow pathway"] else [])
    ensures ParkingFlags(k) == (if k.hasDisabledSpaces == Some(false) then ["no disabled spaces"] else [])
  {
  }

  lemma RestroomFlagConditions(r: Restroom)
    ensures "narrow door" in RestroomFlags(r) <==> r.doorWidth == Some(No)
    ensures "small turning radius" in RestroomFlags(r) <==> r.turningRadius == Some(No)
    ensures "missing grab rails" in RestroomFlags(r) <==> r.hasGrabRails == Some(false)
  {
    assert |"narrow door"| == 11 && |"small turning radius"| == 20 && |"missing grab rails"| == 18;
  }

  lemma ElevatorFlagConditions(e: Elevator)
    ensures "small cabin width" in ElevatorFlags(e) <==> e.width == Some(No)
    ensures "small cabin depth" in ElevatorFlags(e) <==> e.depth == Some(No)
    ensures "narrow door" in ElevatorFlags(e) <==> e.doorWidth == Some(No)
    ensures "missing braille" in ElevatorFlags(e) <==> e.hasBraille == Some(false)
    ensures "missing audio" in ElevatorFlags(e) <==> e.hasAudio == Some(false)
  {
    assert "small cabin width"[12] != "small cabin depth"[12];
    assert |"small cabin width"| == 17 && |"narrow door"| == 11 && |"missing braille"| == 15 && |"missing audio"| == 13;
  }

  function One(condition: bool): nat {
    if condition then 1 else 0
  }

  // And there is one flag for each bad value, no more.
  lemma OneFlagForEachBadValue(e: Entrance, r: Restroom, l: Elevator)
    ensures |EntranceFlags(e)|
            == One(e.width == Some(No))
               + One(e.isLevel == Some(false) && e.hasFixedRamp != Some(true) && e.hasRemovableRamp != Some(true))
    ensures |RestroomFlags(r)|
            == One(r.doorWidth == Some(No)) + One(r.turningRadius == Some(No)) + One(r.hasGrabRails == Some(false))
    ensures |ElevatorFlags(l)|
            == One(l.width == Some(No)) + One(l.depth == Some(No)) + One(l.doorWidth == Some(No))
               + One(l.hasBraille == Some(false)) + One(l.hasAudio == Some(false))
  {
  }

  // Some component holds a value its rule rejects.
  predicate HasBadValue(c: Components) {
    || (c.entrance.Some? && var e := c.entrance.value.facts;
          e.width == Some(No)
          || (e.isLevel == Some(false) && e.hasFixedRamp != Some(true) && e.hasRemovableRamp != Some(true)))
    || (c.pathways.Some? && c.pathways.value.facts.width == Some(No))
    || (c.restroom.Some? && var r := c.restroom.value.facts;
          r.doorWidth == Some(No) || r.turningRadius == Some(No) || r.hasGrabRails == Some(false))
    || (c.parking.Some? && c.parking.value.facts.hasDisabledSpaces == Some(false))
    || (c.elevator.Some? && var e := c.elevator.value.facts;
          e.width == Some(No) || e.depth == Some(No) || e.doorWidth == Some(No)
          || e.hasBraille == Some(false) || e.hasAudio == Some(false))
  }

  predicate Unflagged<F>(c: Option<Component<F>>) {
    c.Some? ==> c.value.auditFlags == []
  }

  // A current profile carries no flag at all exactly when no bad value is
  // stored: what is unknown is never held against a place.
  lemma NoFlagsIffNoBadValue(c: Components)
    requires FlagsCurrent(c)
    ensures Unflagged(c.entrance) && Unflagged(c.pathways) && Unflagged(c.restroom) && Unflagged(c.parking)
              && Unflagged(c.elevator)
            <==> !HasBadValue(c)
  {
  }
}

// Profiles in the API's handlers: CreatePlace, GetPlace and
// PatchPlaceAccessibility, cmd/api/main.go:287-381.
module PlaceApi {
  import opened Wrappers
  import opened Models
  import opened A11y
  import opened Profiles

  // The callback that PatchPlaceAccessibility passes to UpsertProfile.
  method Prepare(p: AccessibilityProfile, key: string, now: int)
    modifies p
    ensures p.Value() == Prepared(old(p.Value()), key, now)
  {
    WithAuditFlags(p);
    if key != "" {
      p.submittedBy := Some(key);
      p.userVerified := true;
    }
    p.submittedAt := Some(now);
  }

  // What CreatePlace stores of a profile that comes with a new place.
  method PrepareCreated(p: AccessibilityProfile?, key: string, now: int)
    modifies p
    ensures p != null ==> p.Value() == Prepared(old(p.Value()), key, now).(updatedAt := now)
  {
    if p != null {
      p.updatedAt := now;
      if key != "" {
        p.submittedBy := Some(key);
        p.userVerified := true;
      }
      p.submittedAt := Some(now);
      WithAuditFlags(p);
    }
  }

  function EffectiveFor(placeId: Id, own: Option<Profile>, parentId: Id, parent: Option<Profile>): Profile {
    Effective(own, parentId, parent).(placeId := placeId)
  }

  // GetPlace answers with the effective profile when the place has a parent
  // that can be read, and with its own profile otherwise.
  method ReadAccessibility(place: PlaceRef, parent: Option<PlaceRef>) returns (r: AccessibilityProfile?)
    ensures parent.None? ==> r == place.accessibility
    ensures parent.Some? ==>
              && r != null && fresh(r) && r.placeId == place.id
              && r.Value()
                  == EffectiveFor(place.id, ValueOf(place.accessibility), parent.value.id,
                      ValueOf(parent.value.accessibility))
  {
    if parent.None? {
      return place.accessibility;
    }
    r := ComputeEffectiveProfile(Some(place), parent);
    r.placeId := place.id;
  }

  // What an API write stores is current, and verified for every authenticated caller.
  lemma PreparedIsCurrent(p: Profile, key: string, now: int)
    ensures FlagsCurrent(Prepared(p, key, now).components)
    ensures Prepared(p, key, now).userVerified <==> key != "" || p.userVerified
    ensures FlagsCurrent(p.components) ==> Prepared(p, key, now).components == p.components
  {
    FlaggedSettles(p.components);
  }
}

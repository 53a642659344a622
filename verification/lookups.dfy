/**
  Selections that several view components compute in the same way: the
  signed-in landlord's properties and units, a unit's or tenant's active
  assignment, name lookups with a fallback text, the request status split,
  and the current month taken from an ISO timestamp. `me` stands for
  `currentUser?.id`: with nobody signed in it is `None`, and then no stored id
  equals it.
*/
module Lookups {
  import opened Seqs
  import opened Types
  import Decimal
  import RentRule

  /** `currentUser?.id`. */
  function UserId(currentUser: Option<User>): (me: Option<string>)
    ensures me.Some? <==> currentUser.Some?
    ensures me.Some? ==> me.value == currentUser.value.id
  {
    if currentUser.Some? then Some(currentUser.value.id) else None
  }

  /** `x === currentUser?.id`. */
  predicate IsMe(x: string, me: Option<string>)
  {
    me == Some(x)
  }

  predicate OwnedBy(p: Property, me: Option<string>)
  {
    IsMe(p.landlordId, me)
  }

  /** `properties.filter((p) => p.landlordId === currentUser?.id)`. */
  function LandlordProperties(properties: seq<Property>, me: Option<string>): (r: seq<Property>)
    ensures forall i :: 0 <= i < |r| ==> r[i] in properties && OwnedBy(r[i], me)
    ensures forall i :: 0 <= i < |properties| && OwnedBy(properties[i], me) ==> properties[i] in r
    ensures me.None? ==> r == []
  {
    var keep := (p: Property) => OwnedBy(p, me);
    if me.None? then
      FilterRejectsAll(properties, keep);
      Filter(properties, keep)
    else
      Filter(properties, keep)
  }

  /** The unit lies in a property the landlord owns. */
  predicate InLandlordProperty(properties: seq<Property>, me: Option<string>, u: Unit)
  {
    Any(LandlordProperties(properties, me), (p: Property) => p.id == u.propertyId)
  }

  /**
    The list keeps the order of `properties`: an added property joins the end
    of the landlord's list exactly when the landlord owns it.
  */
  lemma LandlordPropertiesAppend(properties: seq<Property>, p: Property, me: Option<string>)
    ensures LandlordProperties([], me) == []
    ensures LandlordProperties(properties + [p], me) == LandlordProperties(properties, me) + (if OwnedBy(p, me) then [p] else [])
  {
    FilterAppend(properties, p, (x: Property) => OwnedBy(x, me));
  }

  /** A unit is the landlord's exactly when some property with its `propertyId` names the landlord. */
  lemma InLandlordPropertyMeans(properties: seq<Property>, me: Option<string>, u: Unit)
    ensures InLandlordProperty(properties, me, u)
            <==> exists i :: 0 <= i < |properties| && properties[i].id == u.propertyId && OwnedBy(properties[i], me)
  {
    var mine := LandlordProperties(properties, me);
    if InLandlordProperty(properties, me, u) {
      var j :| 0 <= j < |mine| && mine[j].id == u.propertyId;
      var i :| 0 <= i < |properties| && properties[i] == mine[j];
    }
    if exists i :: 0 <= i < |properties| && properties[i].id == u.propertyId && OwnedBy(properties[i], me) {
      var i :| 0 <= i < |properties| && properties[i].id == u.propertyId && OwnedBy(properties[i], me);
      var j :| 0 <= j < |mine| && mine[j] == properties[i];
      assert mine[j].id == u.propertyId;
    }
  }

  /** `units.filter((u) => landlordProperties.some((p) => p.id === u.propertyId))`. */
  function LandlordUnits(properties: seq<Property>, units: seq<Unit>, me: Option<string>): (r: seq<Unit>)
    ensures forall i :: 0 <= i < |r| ==> r[i] in units && InLandlordProperty(properties, me, r[i])
    ensures forall i :: 0 <= i < |units| && InLandlordProperty(properties, me, units[i]) ==> units[i] in r
    ensures me.None? ==> r == []
  {
    var keep := (u: Unit) => InLandlordProperty(properties, me, u);
    if me.None? then
      FilterRejectsAll(units, keep);
      Filter(units, keep)
    else
      Filter(units, keep)
  }

  /**
    The list keeps the order of `units`: an added unit joins the end of the
    landlord's list exactly when it lies in one of the landlord's properties.
  */
  lemma LandlordUnitsAppend(properties: seq<Property>, units: seq<Unit>, u: Unit, me: Option<string>)
    ensures LandlordUnits(properties, [], me) == []
    ensures LandlordUnits(properties, units + [u], me)
            == LandlordUnits(properties, units, me) + (if InLandlordProperty(properties, me, u) then [u] else [])
  {
    FilterAppend(units, u, (x: Unit) => InLandlordProperty(properties, me, x));
  }

  /** A unit is in the landlord's list for a request or notice naming its id. */
  predicate ConcernsLandlord(properties: seq<Property>, units: seq<Unit>, me: Option<string>, unitId: string)
  {
    Any(LandlordUnits(properties, units, me), (u: Unit) => u.id == unitId)
  }

  predicate IsActiveFor(a: TenantAssignment, unitId: string)
  {
    a.unitId == unitId && a.isActive
  }

  /** `assignments.some((a) => a.unitId === unitId && a.isActive)`. */
  predicate HasActiveAssignment(assignments: seq<TenantAssignment>, unitId: string)
  {
    Any(assignments, (a: TenantAssignment) => IsActiveFor(a, unitId))
  }

  /** `assignments.find((a) => a.unitId === unitId && a.isActive)`. */
  function ActiveAssignmentOfUnit(assignments: seq<TenantAssignment>, unitId: string): (r: Option<TenantAssignment>)
    ensures r.Some? <==> HasActiveAssignment(assignments, unitId)
    ensures r.Some? ==> r.value in assignments && IsActiveFor(r.value, unitId)
    ensures forall i :: 0 <= i < |assignments| && IsActiveFor(assignments[i], unitId)
                        && (forall j :: 0 <= j < i ==> !IsActiveFor(assignments[j], unitId))
                        ==> r == Some(assignments[i])
  {
    Find(assignments, (a: TenantAssignment) => IsActiveFor(a, unitId))
  }

  /** `assignments.find((a) => a.tenantId === currentUser?.id && a.isActive)`. */
  function TenantAssignmentOf(assignments: seq<TenantAssignment>, me: Option<string>): (r: Option<TenantAssignment>)
    ensures r.Some? <==> exists i :: 0 <= i < |assignments| && IsMe(assignments[i].tenantId, me) && assignments[i].isActive
    ensures r.Some? ==> r.value in assignments && IsMe(r.value.tenantId, me) && r.value.isActive
    ensures me.None? ==> r.None?
    ensures forall i :: 0 <= i < |assignments| && IsMe(assignments[i].tenantId, me) && assignments[i].isActive
                        && (forall j :: 0 <= j < i ==> !(IsMe(assignments[j].tenantId, me) && assignments[j].isActive))
                        ==> r == Some(assignments[i])
  {
    Find(assignments, (a: TenantAssignment) => IsMe(a.tenantId, me) && a.isActive)
  }

  /** `x?.name || fallback`: a missing record or an empty name both show the fallback. */
  function NameOr(name: Option<string>, fallback: string): (r: string)
    ensures name.Some? && name.value != "" ==> r == name.value
    ensures name.None? || name.value == "" ==> r == fallback
  {
    if name.Some? && name.value != "" then name.value else fallback
  }

  /** The name of the first user with the id, or the fallback. */
  function UserNameOr(users: seq<User>, id: string, fallback: string): (r: string)
    ensures !Any(users, (u: User) => u.id == id) ==> r == fallback
    ensures r != fallback ==> exists i :: 0 <= i < |users| && users[i].id == id && users[i].name == r
    ensures forall i :: 0 <= i < |users| && users[i].id == id && (forall j :: 0 <= j < i ==> users[j].id != id)
                        ==> r == (if users[i].name != "" then users[i].name else fallback)
  {
    var user := Find(users, (u: User) => u.id == id);
    NameOr(if user.Some? then Some(user.value.name) else None, fallback)
  }

  /** The name of the first property with the id, or the fallback. */
  function PropertyNameOr(properties: seq<Property>, id: string, fallback: string): (r: string)
    ensures !Any(properties, (p: Property) => p.id == id) ==> r == fallback
    ensures r != fallback ==> exists i :: 0 <= i < |properties| && properties[i].id == id && properties[i].name == r
    ensures forall i :: 0 <= i < |properties| && properties[i].id == id && (forall j :: 0 <= j < i ==> properties[j].id != id)
                        ==> r == (if properties[i].name != "" then properties[i].name else fallback)
  {
    var property := Find(properties, (p: Property) => p.id == id);
    NameOr(if property.Some? then Some(property.value.name) else None, fallback)
  }

  /** The requests with the given status, in order (`filter((req) => req.status === ...)`). */
  function WithStatus(requests: seq<MaintenanceRequest>, status: MaintenanceStatus): (r: seq<MaintenanceRequest>)
    ensures forall i :: 0 <= i < |r| ==> r[i] in requests && r[i].status == status
    ensures forall i :: 0 <= i < |requests| && requests[i].status == status ==> requests[i] in r
  {
    Filter(requests, (q: MaintenanceRequest) => q.status == status)
  }

  /** The pending and resolved lists split any list of requests: their lengths add up to its length. */
  lemma PendingResolvedPartition(requests: seq<MaintenanceRequest>)
    ensures |WithStatus(requests, RequestPending)| + |WithStatus(requests, RequestResolved)| == |requests|
  {
    FilterPartition(requests, (q: MaintenanceRequest) => q.status == RequestPending,
                              (q: MaintenanceRequest) => q.status == RequestResolved);
  }

  // ---------------------------------------------------------------------------
  // The current month
  // ---------------------------------------------------------------------------

  /** The `YYYY-MM-DD` head of `toISOString()`. */
  predicate IsIsoTimestamp(iso: string)
  {
    |iso| >= 10 && Decimal.AllDigits(iso[..4]) && iso[4] == '-' && Decimal.AllDigits(iso[5..7])
    && iso[7] == '-' && Decimal.AllDigits(iso[8..10])
  }

  /** `new Date().toISOString().slice(0, 7)`: always a well-formed month. */
  function CurrentMonth(iso: string): (month: string)
    requires IsIsoTimestamp(iso)
    ensures RentRule.IsMonthString(month)
    ensures iso == month + iso[7..]
  {
    assert iso[..7][..4] == iso[..4] && iso[..7][5..] == iso[5..7];
    iso[..7]
  }
}

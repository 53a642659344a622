/**
  The landlord's unit list (src/app/components/landlord/UnitsTab.tsx): the
  landlord's units, the tenants offered for assignment, the add-unit and
  assign-tenant forms, and the occupied/vacant decision of each unit card.
*/
module UnitsTab {
  import opened Seqs
  import opened Types
  import opened Lookups
  import opened Store
  import Decimal
  import RentStatusTab

  /** `users.filter((u) => u.role === 'tenant')`. */
  function AvailableTenants(users: seq<User>): (r: seq<User>)
    ensures forall i :: 0 <= i < |r| ==> r[i] in users && r[i].role == Tenant
    ensures forall i :: 0 <= i < |users| && users[i].role == Tenant ==> users[i] in r
  {
    Filter(users, (u: User) => u.role == Tenant)
  }

  /** Every user is either offered as a tenant or is a landlord. */
  lemma TenantsAndLandlordsSplitUsers(users: seq<User>)
    ensures |AvailableTenants(users)| + |Filter(users, (u: User) => u.role == Landlord)| == |users|
  {
    FilterPartition(users, (u: User) => u.role == Tenant, (u: User) => u.role == Landlord);
  }

  // ---------------------------------------------------------------------------
  // Adding a unit
  // ---------------------------------------------------------------------------

  /** The add-unit form; every field is the text of its input. */
  datatype UnitForm = UnitForm(propertyId: string, name: string, monthlyRent: string, dueDate: string, gracePeriodDays: string)

  /** The form as it starts and as it is reset after a submit: due on day 1 with 5 grace days. */
  const InitialUnitForm: UnitForm := UnitForm("", "", "", "1", "5")

  /** The numeric inputs hold what `parseFloat` and `parseInt` read without loss. */
  predicate IsSubmittable(form: UnitForm)
  {
    Decimal.IsAmount(form.monthlyRent) && Decimal.IsWholeAmount(form.dueDate) && Decimal.IsWholeAmount(form.gracePeriodDays)
  }

  /** `handleAddUnit`: adds a unit with the parsed numbers, then resets the form. */
  function HandleAddUnit(s: State, form: UnitForm, stamp: nat): (r: (State, UnitForm))
    requires IsSubmittable(form)
    ensures |r.0.units| == |s.units| + 1 && r.0.units[..|s.units|] == s.units
    ensures var u := r.0.units[|s.units|];
            u.propertyId == form.propertyId && u.name == form.name
            && u.monthlyRent == Decimal.ParseCents(form.monthlyRent)
            && u.dueDate == Decimal.ParseDigits(form.dueDate)
            && u.gracePeriodDays == Decimal.ParseDigits(form.gracePeriodDays)
    ensures r.0 == s.(units := r.0.units)
    ensures r.1 == InitialUnitForm
  {
    var s' := AddUnit(s, form.propertyId, form.name, Decimal.ParseCents(form.monthlyRent),
                      Decimal.ParseDigits(form.dueDate), Decimal.ParseDigits(form.gracePeriodDays), stamp);
    (s', InitialUnitForm)
  }

  /** Submitting with the due day and grace period left as they start gives a unit due on day 1 with 5 grace days. */
  lemma InitialDueAndGrace(s: State, propertyId: string, name: string, rent: string, stamp: nat)
    requires Decimal.IsAmount(rent)
    ensures var form := InitialUnitForm.(propertyId := propertyId, name := name, monthlyRent := rent);
            var u := HandleAddUnit(s, form, stamp).0.units[|s.units|];
            u.dueDate == 1 && u.gracePeriodDays == 5
  {
    assert "1"[..0] == [] && "5"[..0] == [];
  }

  /** A unit added to one of the landlord's properties is listed last among the landlord's units. */
  lemma AddedUnitIsListed(s: State, form: UnitForm, stamp: nat, me: Option<string>)
    requires IsSubmittable(form)
    requires exists i :: 0 <= i < |s.properties| && s.properties[i].id == form.propertyId && OwnedBy(s.properties[i], me)
    ensures var s' := HandleAddUnit(s, form, stamp).0;
            LandlordUnits(s'.properties, s'.units, me)
            == LandlordUnits(s.properties, s.units, me) + [s'.units[|s.units|]]
  {
    var s' := HandleAddUnit(s, form, stamp).0;
    var u := s'.units[|s.units|];
    assert s'.units == s.units + [u];
    InLandlordPropertyMeans(s.properties, me, u);
    FilterAppend(s.units, u, (x: Unit) => InLandlordProperty(s.properties, me, x));
  }

  // ---------------------------------------------------------------------------
  // Assigning a tenant
  // ---------------------------------------------------------------------------

  datatype AssignForm = AssignForm(tenantId: string, moveInDate: string)

  /** `handleAssignTenant`: an active assignment of the chosen tenant to the selected unit; form and selection are cleared. */
  function HandleAssignTenant(s: State, selectedUnit: string, form: AssignForm, stamp: nat): (r: (State, AssignForm, string))
    ensures |r.0.assignments| == |s.assignments| + 1 && r.0.assignments[..|s.assignments|] == s.assignments
    ensures var a := r.0.assignments[|s.assignments|];
            a.unitId == selectedUnit && a.tenantId == form.tenantId && a.moveInDate == form.moveInDate && a.isActive
    ensures r.0 == s.(assignments := r.0.assignments)
    ensures r.1 == AssignForm("", "") && r.2 == ""
  {
    (AssignTenant(s, selectedUnit, form.tenantId, form.moveInDate, true, stamp), AssignForm("", ""), "")
  }

  // ---------------------------------------------------------------------------
  // Unit cards
  // ---------------------------------------------------------------------------

  /** `getUnitTenant`: the user named by the unit's first active assignment, if there is one. */
  function UnitTenant(assignments: seq<TenantAssignment>, users: seq<User>, unitId: string): (r: Option<User>)
    ensures !HasActiveAssignment(assignments, unitId) ==> r.None?
    ensures r.Some? ==> r.value in users && r.value.id == ActiveAssignmentOfUnit(assignments, unitId).value.tenantId
    ensures HasActiveAssignment(assignments, unitId) ==>
              (r.Some? <==> Any(users, (u: User) => u.id == ActiveAssignmentOfUnit(assignments, unitId).value.tenantId))
    ensures HasActiveAssignment(assignments, unitId) ==>
              var id := ActiveAssignmentOfUnit(assignments, unitId).value.tenantId;
              forall i :: 0 <= i < |users| && users[i].id == id && (forall j :: 0 <= j < i ==> users[j].id != id) ==>
                r == Some(users[i])
  {
    match ActiveAssignmentOfUnit(assignments, unitId)
    case Some(a) => Find(users, (u: User) => u.id == a.tenantId)
    case None => None
  }

  /** The card says "Occupied" and hides "Assign Tenant" exactly when a tenant user was found. */
  predicate ShowsAssignButton(assignments: seq<TenantAssignment>, users: seq<User>, unitId: string)
  {
    UnitTenant(assignments, users, unitId).None?
  }

  /**
    An active assignment whose tenant id names no user leaves the card
    "Vacant" with the assign button, although the rent overview counts the
    same unit as occupied.
  */
  lemma UnknownTenantLooksVacant(
    properties: seq<Property>, units: seq<Unit>, assignments: seq<TenantAssignment>, users: seq<User>,
    me: Option<string>, k: nat)
    requires k < |units| && InLandlordProperty(properties, me, units[k])
    requires HasActiveAssignment(assignments, units[k].id)
    requires forall i :: 0 <= i < |users| ==> users[i].id != ActiveAssignmentOfUnit(assignments, units[k].id).value.tenantId
    ensures units[k] in RentStatusTab.OccupiedUnits(properties, units, assignments, me)
    ensures ShowsAssignButton(assignments, users, units[k].id)
  {
  }

  /** Assigning a known tenant to a unit with no active assignment makes its card show that tenant. */
  lemma AssignedTenantIsShown(s: State, unitId: string, form: AssignForm, stamp: nat, k: nat)
    requires !HasActiveAssignment(s.assignments, unitId)
    requires k < |s.users| && s.users[k].id == form.tenantId
    ensures var s' := HandleAssignTenant(s, unitId, form, stamp).0;
            UnitTenant(s'.assignments, s'.users, unitId) == Find(s.users, (u: User) => u.id == form.tenantId)
            && !ShowsAssignButton(s'.assignments, s'.users, unitId)
  {
    var s' := HandleAssignTenant(s, unitId, form, stamp).0;
    var a := s'.assignments[|s.assignments|];
    var found := ActiveAssignmentOfUnit(s'.assignments, unitId);
    assert IsActiveFor(s'.assignments[|s.assignments|], unitId);
    assert found.value == a by {
      var i :| 0 <= i < |s'.assignments| && s'.assignments[i] == found.value
               && forall j :: 0 <= j < i ==> !IsActiveFor(s'.assignments[j], unitId);
      assert forall j :: 0 <= j < |s.assignments| ==> s'.assignments[j] == s.assignments[j];
      assert i == |s.assignments|;
    }
  }

  /** `getPropertyName` of this view, whose fallback is "Unknown Property". */
  function PropertyName(properties: seq<Property>, propertyId: string): (r: string)
    ensures !Any(properties, (p: Property) => p.id == propertyId) ==> r == "Unknown Property"
    ensures r != "Unknown Property" ==>
              exists i :: 0 <= i < |properties| && properties[i].id == propertyId && properties[i].name == r
    ensures forall i :: 0 <= i < |properties| && properties[i].id == propertyId
                        && (forall j :: 0 <= j < i ==> properties[j].id != propertyId)
                        ==> r == (if properties[i].name != "" then properties[i].name else "Unknown Property")
  {
    PropertyNameOr(properties, propertyId, "Unknown Property")
  }
}

/**
  The landlord's property list (src/app/components/landlord/PropertiesTab.tsx):
  the add-property form and the unit counts shown on each property card.
*/
module PropertiesTab {
  import opened Seqs
  import opened Types
  import opened Lookups
  import opened Store

  /** The add-property form. */
  datatype PropertyForm = PropertyForm(name: string, address: string)

  /**
    `handleSubmit`: with someone signed in, the form becomes a property owned by
    that user and the form is cleared; with nobody signed in nothing happens.
  */
  function HandleSubmit(s: State, form: PropertyForm, stamp: nat, today: string): (r: (State, PropertyForm))
    ensures s.currentUser.None? ==> r == (s, form)
    ensures s.currentUser.Some? ==>
              |r.0.properties| == |s.properties| + 1 && r.0.properties[..|s.properties|] == s.properties
              && r.0.properties[|s.properties|].landlordId == s.currentUser.value.id
              && r.0.properties[|s.properties|].name == form.name
              && r.0.properties[|s.properties|].address == form.address
              && r.1 == PropertyForm("", "")
    ensures r.0 == s.(properties := r.0.properties)
  {
    match s.currentUser
    case None => (s, form)
    case Some(user) => (AddProperty(s, user.id, form.name, form.address, stamp, today), PropertyForm("", ""))
  }

  /** The signed-in landlord's list grows by exactly the new property; with nobody signed in it stays empty. */
  lemma SubmittedPropertyIsListed(s: State, form: PropertyForm, stamp: nat, today: string)
    ensures var s' := HandleSubmit(s, form, stamp, today).0;
            var me := UserId(s.currentUser);
            s.currentUser.Some? ==>
              LandlordProperties(s'.properties, me) == LandlordProperties(s.properties, me) + [s'.properties[|s.properties|]]
    ensures s.currentUser.None? ==> LandlordProperties(HandleSubmit(s, form, stamp, today).0.properties, None) == []
  {
    if s.currentUser.Some? {
      var s' := HandleSubmit(s, form, stamp, today).0;
      var me := UserId(s.currentUser);
      var p := s'.properties[|s.properties|];
      assert s'.properties == s.properties + [p];
      FilterAppend(s.properties, p, (q: Property) => OwnedBy(q, me));
    }
  }

  // ---------------------------------------------------------------------------
  // Property cards
  // ---------------------------------------------------------------------------

  /** The unit counts on a property card. */
  datatype Stats = Stats(totalUnits: nat, occupiedUnits: nat)

  /** The units of one property. */
  function OnProperty(propertyId: string): Unit -> bool
  {
    (u: Unit) => u.propertyId == propertyId
  }

  /** The units named by some active assignment. */
  function Occupied(assignments: seq<TenantAssignment>): Unit -> bool
  {
    (u: Unit) => HasActiveAssignment(assignments, u.id)
  }

  function UnitsOf(units: seq<Unit>, propertyId: string): (r: seq<Unit>)
    ensures forall i :: 0 <= i < |r| ==> r[i] in units && r[i].propertyId == propertyId
    ensures forall i :: 0 <= i < |units| && units[i].propertyId == propertyId ==> units[i] in r
  {
    Filter(units, OnProperty(propertyId))
  }

  /**
    `getPropertyStats`: the number of units of the property, and the number of
    units that both belong to the property and have an active assignment.
  */
  function PropertyStats(units: seq<Unit>, assignments: seq<TenantAssignment>, propertyId: string): (r: Stats)
    ensures r.totalUnits == |UnitsOf(units, propertyId)| == Count(units, OnProperty(propertyId))
    ensures r.occupiedUnits == Count(units, Both(OnProperty(propertyId), Occupied(assignments)))
    ensures r.occupiedUnits <= r.totalUnits <= |units|
  {
    var mine := UnitsOf(units, propertyId);
    FilterCounts(units, OnProperty(propertyId), (u: Unit) => 0);
    FilterFilterCounts(units, OnProperty(propertyId), Occupied(assignments));
    Stats(|mine|, |Filter(mine, Occupied(assignments))|)
  }

  /** The card reads "n / n occupied" exactly when every unit of the property has an active assignment. */
  lemma FullyOccupiedIff(units: seq<Unit>, assignments: seq<TenantAssignment>, propertyId: string)
    ensures var st := PropertyStats(units, assignments, propertyId);
            st.occupiedUnits == st.totalUnits
            <==> forall i :: 0 <= i < |units| && units[i].propertyId == propertyId
                             ==> HasActiveAssignment(assignments, units[i].id)
  {
    var mine := UnitsOf(units, propertyId);
    var occupied := Occupied(assignments);
    FilterKeepsAllIff(mine, occupied);
    if forall i :: 0 <= i < |mine| ==> occupied(mine[i]) {
      forall i | 0 <= i < |units| && units[i].propertyId == propertyId
        ensures HasActiveAssignment(assignments, units[i].id)
      {
        var j :| 0 <= j < |mine| && mine[j] == units[i];
        assert occupied(mine[j]);
      }
    }
    if forall i :: 0 <= i < |units| && units[i].propertyId == propertyId ==> HasActiveAssignment(assignments, units[i].id) {
      forall j | 0 <= j < |mine| ensures occupied(mine[j]) {
        var i :| 0 <= i < |units| && units[i] == mine[j];
      }
    }
  }

  /**
    Adding a unit to a property raises its total by one and, when no active
    assignment names the new unit's id, leaves the occupied count as it was.
  */
  lemma AddedUnitCountsAsVacant(
    s: State, propertyId: string, name: string, monthlyRent: int, dueDate: int, gracePeriodDays: int, stamp: nat)
    requires !HasActiveAssignment(s.assignments, NewId("unit-", stamp))
    ensures var s' := AddUnit(s, propertyId, name, monthlyRent, dueDate, gracePeriodDays, stamp);
            var before := PropertyStats(s.units, s.assignments, propertyId);
            var after := PropertyStats(s'.units, s'.assignments, propertyId);
            after.totalUnits == before.totalUnits + 1 && after.occupiedUnits == before.occupiedUnits
  {
    var s' := AddUnit(s, propertyId, name, monthlyRent, dueDate, gracePeriodDays, stamp);
    var u := s'.units[|s.units|];
    assert s'.units == s.units + [u];
    var here := OnProperty(propertyId);
    var occupied := Occupied(s.assignments);
    FilterAppend(s.units, u, here);
    FilterAppend(Filter(s.units, here), u, occupied);
  }
}

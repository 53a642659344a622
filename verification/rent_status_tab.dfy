/**
  The landlord's rent overview (src/app/components/landlord/RentStatusTab.tsx):
  the occupied units among the landlord's units, how many of them are paid,
  overdue or pending for the current month, and the expected and collected
  rent.
*/
module RentStatusTab {
  import opened Seqs
  import opened Types
  import opened Lookups
  import RentRule
  import Store

  /** `landlordUnits.filter((u) => assignments.some((a) => a.unitId === u.id && a.isActive))`. */
  function OccupiedUnits(properties: seq<Property>, units: seq<Unit>, assignments: seq<TenantAssignment>, me: Option<string>): (r: seq<Unit>)
    ensures forall i :: 0 <= i < |r| ==> r[i] in units && InLandlordProperty(properties, me, r[i])
                                         && HasActiveAssignment(assignments, r[i].id)
    ensures forall i :: 0 <= i < |units| && InLandlordProperty(properties, me, units[i])
                          && HasActiveAssignment(assignments, units[i].id)
                        ==> units[i] in r
  {
    var mine := LandlordUnits(properties, units, me);
    var r := Filter(mine, (u: Unit) => HasActiveAssignment(assignments, u.id));
    assert forall i :: 0 <= i < |units| && InLandlordProperty(properties, me, units[i]) ==> units[i] in mine;
    r
  }

  predicate IsOverdue(r: RentStatus)
  {
    r == OverdueGrace || r == OverdueLate
  }

  /** The summary cards: unit counts per status and the rent totals. */
  datatype Summary = Summary(paid: nat, overdue: nat, pending: nat, totalRent: int, collectedRent: int)

  /**
    The clock readings of one render. `getRentStatus` reads `new Date()` on
    every call, so each card's filter reads the clock afresh for every unit:
    `paid` for the paid card, `grace` and `late` for the two calls of the
    overdue card, `pending` for the pending card and `collected` for the
    collected rent.
  */
  datatype Readings = Readings(paid: Unit -> int, grace: Unit -> int, late: Unit -> int, pending: Unit -> int, collected: Unit -> int)

  /** The calls for a unit are made in this order, so no later call reads an earlier time. */
  ghost predicate InCallOrder(t: Readings)
  {
    forall u :: t.paid(u) <= t.grace(u) <= t.late(u) <= t.pending(u) <= t.collected(u)
  }

  /** Every call for a unit reads the same time: no instant of the rule falls inside the render. */
  ghost predicate ReadsAgree(t: Readings)
  {
    forall u :: t.grace(u) == t.paid(u) && t.late(u) == t.paid(u) && t.pending(u) == t.paid(u)
  }

  /** One instant for every call. */
  function AtInstant(now: int): (t: Readings)
    ensures InCallOrder(t) && ReadsAgree(t)
  {
    Readings((u: Unit) => now, (u: Unit) => now, (u: Unit) => now, (u: Unit) => now, (u: Unit) => now)
  }

  /** `getRentStatus(u.id, currentMonth) === 'paid'`, with the clock read at `at(u)`. */
  function PaidTest(units: seq<Unit>, payments: seq<Payment>, month: string, at: Unit -> int): Unit -> bool
    requires RentRule.IsMonthString(month)
  {
    (u: Unit) => RentRule.GetRentStatus(units, payments, u.id, month, at(u)) == Paid
  }

  /** The overdue card's test: "overdue-grace" at the first reading, or else "overdue-late" at the second. */
  function OverdueTest(units: seq<Unit>, payments: seq<Payment>, month: string, grace: Unit -> int, late: Unit -> int): Unit -> bool
    requires RentRule.IsMonthString(month)
  {
    (u: Unit) => RentRule.GetRentStatus(units, payments, u.id, month, grace(u)) == OverdueGrace
                 || RentRule.GetRentStatus(units, payments, u.id, month, late(u)) == OverdueLate
  }

  /** `getRentStatus(u.id, currentMonth) === 'pending'`, with the clock read at `at(u)`. */
  function PendingTest(units: seq<Unit>, payments: seq<Payment>, month: string, at: Unit -> int): Unit -> bool
    requires RentRule.IsMonthString(month)
  {
    (u: Unit) => RentRule.GetRentStatus(units, payments, u.id, month, at(u)) == Pending
  }

  /**
    The cards over any list of units: `filter(...).length` per card, the sum
    of all rents, and the sum of the rents the collected filter keeps.
  */
  function Tabulate(occupied: seq<Unit>, isPaid: Unit -> bool, isOverdue: Unit -> bool, isPending: Unit -> bool,
                    isCollected: Unit -> bool): (r: Summary)
    ensures r.paid == Count(occupied, isPaid) && r.overdue == Count(occupied, isOverdue) && r.pending == Count(occupied, isPending)
    ensures r.totalRent == Sum(occupied, (u: Unit) => u.monthlyRent)
            && r.collectedRent == SumWhere(occupied, isCollected, (u: Unit) => u.monthlyRent)
  {
    var rent := (u: Unit) => u.monthlyRent;
    FilterCounts(occupied, isPaid, rent);
    FilterCounts(occupied, isOverdue, rent);
    FilterCounts(occupied, isPending, rent);
    FilterCounts(occupied, isCollected, rent);
    Summary(|Filter(occupied, isPaid)|, |Filter(occupied, isOverdue)|, |Filter(occupied, isPending)|,
            Sum(occupied, rent), Sum(Filter(occupied, isCollected), rent))
  }

  /** Whether a unit reads "Paid" does not depend on when the clock is read. */
  lemma PaidAtAnyReading(units: seq<Unit>, payments: seq<Payment>, month: string, a: Unit -> int, b: Unit -> int, xs: seq<Unit>)
    requires RentRule.IsMonthString(month)
    ensures forall i :: 0 <= i < |xs| ==> PaidTest(units, payments, month, a)(xs[i]) == PaidTest(units, payments, month, b)(xs[i])
  {
    forall i | 0 <= i < |xs|
      ensures PaidTest(units, payments, month, a)(xs[i]) == PaidTest(units, payments, month, b)(xs[i])
    {
      var u := xs[i];
      if a(u) <= b(u) {
        RentRule.StatusMonotoneInTime(units, payments, u.id, month, a(u), b(u));
      } else {
        RentRule.StatusMonotoneInTime(units, payments, u.id, month, b(u), a(u));
      }
    }
  }

  /**
    With the readings in call order a unit lands on at most one card, and
    with agreeing readings on exactly one.
  */
  lemma CardsOfAUnit(units: seq<Unit>, payments: seq<Payment>, month: string, t: Readings, u: Unit)
    requires RentRule.IsMonthString(month)
    ensures InCallOrder(t) ==> AtMostOne(PaidTest(units, payments, month, t.paid)(u),
                                         OverdueTest(units, payments, month, t.grace, t.late)(u),
                                         PendingTest(units, payments, month, t.pending)(u))
    ensures ReadsAgree(t) ==> ExactlyOne(PaidTest(units, payments, month, t.paid)(u),
                                         OverdueTest(units, payments, month, t.grace, t.late)(u),
                                         PendingTest(units, payments, month, t.pending)(u))
  {
    if InCallOrder(t) {
      RentRule.StatusMonotoneInTime(units, payments, u.id, month, t.paid(u), t.grace(u));
      RentRule.StatusMonotoneInTime(units, payments, u.id, month, t.paid(u), t.late(u));
      RentRule.StatusMonotoneInTime(units, payments, u.id, month, t.paid(u), t.pending(u));
      RentRule.StatusMonotoneInTime(units, payments, u.id, month, t.grace(u), t.pending(u));
      RentRule.StatusMonotoneInTime(units, payments, u.id, month, t.late(u), t.pending(u));
    }
  }

  /** The three cards count at most every unit once when the readings are in call order, and exactly once when they agree. */
  lemma CardsCoverUnits(units: seq<Unit>, payments: seq<Payment>, month: string, t: Readings, xs: seq<Unit>)
    requires RentRule.IsMonthString(month)
    ensures InCallOrder(t) ==>
              Count(xs, PaidTest(units, payments, month, t.paid)) + Count(xs, OverdueTest(units, payments, month, t.grace, t.late))
              + Count(xs, PendingTest(units, payments, month, t.pending)) <= |xs|
    ensures ReadsAgree(t) ==>
              Count(xs, PaidTest(units, payments, month, t.paid)) + Count(xs, OverdueTest(units, payments, month, t.grace, t.late))
              + Count(xs, PendingTest(units, payments, month, t.pending)) == |xs|
  {
    var isPaid := PaidTest(units, payments, month, t.paid);
    var isOverdue := OverdueTest(units, payments, month, t.grace, t.late);
    var isPending := PendingTest(units, payments, month, t.pending);
    forall i | 0 <= i < |xs|
      ensures InCallOrder(t) ==> AtMostOne(isPaid(xs[i]), isOverdue(xs[i]), isPending(xs[i]))
      ensures ReadsAgree(t) ==> ExactlyOne(isPaid(xs[i]), isOverdue(xs[i]), isPending(xs[i]))
    {
      CardsOfAUnit(units, payments, month, t, xs[i]);
    }
    if InCallOrder(t) {
      CountAtMostOne(xs, isPaid, isOverdue, isPending);
    }
    if ReadsAgree(t) {
      Tally(xs, isPaid, isOverdue, isPending, (u: Unit) => u.monthlyRent);
    }
  }

  /** Units drawn from a list whose rents are all non-negative have non-negative rents. */
  lemma RentsOfSubset(units: seq<Unit>, xs: seq<Unit>)
    requires forall i :: 0 <= i < |xs| ==> xs[i] in units
    ensures (forall i :: 0 <= i < |units| ==> units[i].monthlyRent >= 0) ==> forall i :: 0 <= i < |xs| ==> xs[i].monthlyRent >= 0
  {
  }

  /**
    `stats`, `totalRent` and `collectedRent` for `month`, with the clock read
    at every `getRentStatus` call: each card counts the occupied units its
    test keeps at its own readings, the expected rent adds up every occupied
    unit's rent, and the collected rent adds up the rent of exactly the units
    the paid card counts. The three cards count a unit at most once when the
    clock does not run backwards, and exactly once when no instant of the
    rule falls between the calls for it.
  */
  function RentSummary(
    properties: seq<Property>, units: seq<Unit>, assignments: seq<TenantAssignment>, payments: seq<Payment>,
    me: Option<string>, month: string, t: Readings): (r: Summary)
    requires RentRule.IsMonthString(month)
    ensures var occupied := OccupiedUnits(properties, units, assignments, me);
            r.paid == Count(occupied, PaidTest(units, payments, month, t.paid))
            && r.overdue == Count(occupied, OverdueTest(units, payments, month, t.grace, t.late))
            && r.pending == Count(occupied, PendingTest(units, payments, month, t.pending))
    ensures var occupied := OccupiedUnits(properties, units, assignments, me);
            r.totalRent == Sum(occupied, (u: Unit) => u.monthlyRent)
            && r.collectedRent == SumWhere(occupied, PaidTest(units, payments, month, t.paid), (u: Unit) => u.monthlyRent)
    ensures InCallOrder(t) ==> r.paid + r.overdue + r.pending <= |OccupiedUnits(properties, units, assignments, me)|
    ensures ReadsAgree(t) ==> r.paid + r.overdue + r.pending == |OccupiedUnits(properties, units, assignments, me)|
    ensures (forall i :: 0 <= i < |units| ==> units[i].monthlyRent >= 0) ==> 0 <= r.collectedRent <= r.totalRent
    ensures r.paid == 0 ==> r.collectedRent == 0
  {
    var occupied := OccupiedUnits(properties, units, assignments, me);
    var isPaid := PaidTest(units, payments, month, t.paid);
    var isCollected := PaidTest(units, payments, month, t.collected);
    var rent := (u: Unit) => u.monthlyRent;
    PaidAtAnyReading(units, payments, month, t.collected, t.paid, occupied);
    CountCongruent(occupied, isCollected, isPaid, rent);
    SumWhereBounded(occupied, isPaid, rent);
    CardsCoverUnits(units, payments, month, t, occupied);
    RentsOfSubset(units, occupied);
    Tabulate(occupied, isPaid, OverdueTest(units, payments, month, t.grace, t.late),
             PendingTest(units, payments, month, t.pending), isCollected)
  }

  /** `getTenantName`: the tenant of the unit's first active assignment, with two different fallbacks. */
  function TenantName(assignments: seq<TenantAssignment>, users: seq<User>, unitId: string): (r: string)
    ensures !HasActiveAssignment(assignments, unitId) ==> r == "No Tenant"
    ensures HasActiveAssignment(assignments, unitId)
            && !Any(users, (u: User) => u.id == ActiveAssignmentOfUnit(assignments, unitId).value.tenantId)
            ==> r == "Unknown Tenant"
    ensures r != "No Tenant" && r != "Unknown Tenant" ==>
              HasActiveAssignment(assignments, unitId)
              && exists i :: 0 <= i < |users| && users[i].name == r
                             && users[i].id == ActiveAssignmentOfUnit(assignments, unitId).value.tenantId
    ensures forall i, k :: 0 <= i < |assignments| && IsActiveFor(assignments[i], unitId)
                           && (forall j :: 0 <= j < i ==> !IsActiveFor(assignments[j], unitId))
                           && 0 <= k < |users| && users[k].id == assignments[i].tenantId
                           && (forall j :: 0 <= j < k ==> users[j].id != assignments[i].tenantId)
                           ==> r == (if users[k].name != "" then users[k].name else "Unknown Tenant")
  {
    match ActiveAssignmentOfUnit(assignments, unitId)
    case Some(a) => UserNameOr(users, a.tenantId, "Unknown Tenant")
    case None => "No Tenant"
  }

  /** `getPropertyName` of this view, whose fallback is "Unknown". */
  function PropertyName(properties: seq<Property>, propertyId: string): (r: string)
    ensures !Any(properties, (p: Property) => p.id == propertyId) ==> r == "Unknown"
    ensures r != "Unknown" ==> exists i :: 0 <= i < |properties| && properties[i].id == propertyId && properties[i].name == r
    ensures forall i :: 0 <= i < |properties| && properties[i].id == propertyId
                        && (forall j :: 0 <= j < i ==> properties[j].id != propertyId)
                        ==> r == (if properties[i].name != "" then properties[i].name else "Unknown")
  {
    PropertyNameOr(properties, propertyId, "Unknown")
  }

  /**
    Assigning a tenant to a unit with no active assignment puts that tenant's
    name in the unit's row: the first user with the tenant's id, or "Unknown
    Tenant" when that user's name is empty.
  */
  lemma AssignedTenantIsNamed(s: Store.State, unitId: string, tenantId: string, moveInDate: string, stamp: nat, k: nat)
    requires !HasActiveAssignment(s.assignments, unitId)
    requires k < |s.users| && s.users[k].id == tenantId && forall j :: 0 <= j < k ==> s.users[j].id != tenantId
    ensures var s' := Store.AssignTenant(s, unitId, tenantId, moveInDate, true, stamp);
            TenantName(s'.assignments, s'.users, unitId) == (if s.users[k].name != "" then s.users[k].name else "Unknown Tenant")
  {
    var s' := Store.AssignTenant(s, unitId, tenantId, moveInDate, true, stamp);
    var n := |s.assignments|;
    assert IsActiveFor(s'.assignments[n], unitId);
    assert forall j :: 0 <= j < n ==> !IsActiveFor(s'.assignments[j], unitId) by {
      forall j | 0 <= j < n
        ensures !IsActiveFor(s'.assignments[j], unitId)
      {
        assert s'.assignments[j] == s.assignments[j];
      }
    }
  }

  /** A newly added property shows under its own id with its name, or "Unknown" when the name is empty. */
  lemma AddedPropertyIsNamed(s: Store.State, landlordId: string, name: string, address: string, stamp: nat, today: string)
    requires forall i :: 0 <= i < |s.properties| ==> s.properties[i].id != Store.NewId("prop-", stamp)
    ensures var s' := Store.AddProperty(s, landlordId, name, address, stamp, today);
            PropertyName(s'.properties, Store.NewId("prop-", stamp)) == (if name != "" then name else "Unknown")
  {
    var s' := Store.AddProperty(s, landlordId, name, address, stamp, today);
    var n := |s.properties|;
    assert forall j :: 0 <= j < n ==> s'.properties[j].id != Store.NewId("prop-", stamp) by {
      forall j | 0 <= j < n
        ensures s'.properties[j].id != Store.NewId("prop-", stamp)
      {
        assert s'.properties[j] == s.properties[j];
      }
    }
    assert s'.properties[n].id == Store.NewId("prop-", stamp);
  }

  /** `getStatusBadge`: the badge text of each status. */
  function BadgeText(status: RentStatus): (r: string)
  {
    match status
    case Paid => "Paid"
    case OverdueGrace => "Grace Period"
    case OverdueLate => "Overdue"
    case Pending => "Pending"
  }

  /** Different statuses get different badges. */
  lemma BadgeTextDistinct(a: RentStatus, b: RentStatus)
    ensures BadgeText(a) == BadgeText(b) <==> a == b
  {
  }

  /**
    The paid card shows every occupied unit exactly when each of them reads
    "Paid"; then nothing is overdue or pending, whenever the clock is read,
    and all the expected rent is collected.
  */
  lemma EveryOccupiedPaidMeansAllCollected(
    properties: seq<Property>, units: seq<Unit>, assignments: seq<TenantAssignment>, payments: seq<Payment>,
    me: Option<string>, month: string, t: Readings)
    requires RentRule.IsMonthString(month)
    ensures var r := RentSummary(properties, units, assignments, payments, me, month, t);
            var occupied := OccupiedUnits(properties, units, assignments, me);
            r.paid == |occupied|
            <==> forall i :: 0 <= i < |occupied| ==> RentRule.GetRentStatus(units, payments, occupied[i].id, month, t.paid(occupied[i])) == Paid
    ensures var r := RentSummary(properties, units, assignments, payments, me, month, t);
            r.paid == |OccupiedUnits(properties, units, assignments, me)|
            ==> r.collectedRent == r.totalRent && r.overdue == 0 && r.pending == 0
  {
    var occupied := OccupiedUnits(properties, units, assignments, me);
    CountAll(occupied, PaidTest(units, payments, month, t.paid), (u: Unit) => u.monthlyRent);
    PaidUnitsOnNoOtherCard(units, payments, month, t, occupied);
  }

  /** Units that read "Paid" never land on the overdue or the pending card, whenever those read the clock. */
  lemma PaidUnitsOnNoOtherCard(units: seq<Unit>, payments: seq<Payment>, month: string, t: Readings, xs: seq<Unit>)
    requires RentRule.IsMonthString(month)
    ensures (forall i :: 0 <= i < |xs| ==> PaidTest(units, payments, month, t.paid)(xs[i])) ==>
              Count(xs, OverdueTest(units, payments, month, t.grace, t.late)) == 0
              && Count(xs, PendingTest(units, payments, month, t.pending)) == 0
  {
    var isPaid := PaidTest(units, payments, month, t.paid);
    var isOverdue := OverdueTest(units, payments, month, t.grace, t.late);
    var isPending := PendingTest(units, payments, month, t.pending);
    var rent := (u: Unit) => u.monthlyRent;
    if forall i :: 0 <= i < |xs| ==> isPaid(xs[i]) {
      PaidAtAnyReading(units, payments, month, t.paid, t.grace, xs);
      PaidAtAnyReading(units, payments, month, t.paid, t.late, xs);
      PaidAtAnyReading(units, payments, month, t.paid, t.pending, xs);
      SumWhereBounded(xs, isOverdue, rent);
      SumWhereBounded(xs, isPending, rent);
    }
  }
}

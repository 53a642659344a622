/**
  The application's entity store (`AppProvider` in src/context/AppContext.tsx):
  a record of seven collections plus the signed-in user, and the operations
  that change it. Each operation is a function from the old state to the new
  one. The clock is a parameter: `stamp` is the value of `Date.now()` that the
  operation reads for its generated id, and `today` is the `YYYY-MM-DD` prefix
  of `toISOString()` that it stores as a date.
*/
module Store {
  import opened Seqs
  import opened Types
  import Decimal

  datatype State = State(
    currentUser: Option<User>,
    users: seq<User>,
    properties: seq<Property>,
    units: seq<Unit>,
    assignments: seq<TenantAssignment>,
    payments: seq<Payment>,
    maintenanceRequests: seq<MaintenanceRequest>,
    vacateNotices: seq<VacateNotice>)

  /** A generated id: a per-collection prefix followed by the decimal clock value. */
  function NewId(prefix: string, stamp: nat): (id: string)
    ensures |id| > |prefix| && id[..|prefix|] == prefix
  {
    prefix + Decimal.NatToDecimal(stamp)
  }

  /** Two ids with the same prefix collide exactly when they were generated in the same millisecond. */
  lemma NewIdCollision(prefix: string, a: nat, b: nat)
    ensures NewId(prefix, a) == NewId(prefix, b) <==> a == b
  {
    if NewId(prefix, a) == NewId(prefix, b) {
      assert NewId(prefix, a)[|prefix|..] == Decimal.NatToDecimal(a);
      assert NewId(prefix, b)[|prefix|..] == Decimal.NatToDecimal(b);
      Decimal.NatToDecimalInjective(a, b);
    }
  }

  // ---------------------------------------------------------------------------
  // Signing in and out
  // ---------------------------------------------------------------------------

  predicate HasCredentials(u: User, email: string, password: string)
  {
    u.email == email && u.password == password
  }

  /** `login`: the boolean answer and the next state. */
  function Login(s: State, email: string, password: string): (r: (bool, State))
    ensures r.0 <==> exists i :: 0 <= i < |s.users| && HasCredentials(s.users[i], email, password)
    ensures r.0 ==> exists i :: 0 <= i < |s.users| && r.1.currentUser == Some(s.users[i])
                                && HasCredentials(s.users[i], email, password)
                                && forall j :: 0 <= j < i ==> !HasCredentials(s.users[j], email, password)
    ensures !r.0 ==> r.1 == s
    ensures r.1 == s.(currentUser := r.1.currentUser)
  {
    match Find(s.users, u => HasCredentials(u, email, password))
    case Some(u) => (true, s.(currentUser := Some(u)))
    case None => (false, s)
  }

  /** `logout`: nobody is signed in afterwards and nothing else changes. */
  function Logout(s: State): (r: State)
    ensures r.currentUser.None?
    ensures r == s.(currentUser := None)
  {
    s.(currentUser := None)
  }

  // ---------------------------------------------------------------------------
  // The six append operations
  // ---------------------------------------------------------------------------

  /** `addProperty`: one property appended, carrying a new id and today's date. */
  function AddProperty(s: State, landlordId: string, name: string, address: string, stamp: nat, today: string): (r: State)
    ensures |r.properties| == |s.properties| + 1 && r.properties[..|s.properties|] == s.properties
    ensures r.properties[|s.properties|] == Property(NewId("prop-", stamp), landlordId, name, address, today)
    ensures r == s.(properties := r.properties)
  {
    s.(properties := s.properties + [Property(NewId("prop-", stamp), landlordId, name, address, today)])
  }

  /** `addUnit`: one unit appended with a new id and the supplied fields. */
  function AddUnit(s: State, propertyId: string, name: string, monthlyRent: int, dueDate: int, gracePeriodDays: int, stamp: nat): (r: State)
    ensures |r.units| == |s.units| + 1 && r.units[..|s.units|] == s.units
    ensures r.units[|s.units|] == Unit(NewId("unit-", stamp), propertyId, name, monthlyRent, dueDate, gracePeriodDays)
    ensures r == s.(units := r.units)
  {
    s.(units := s.units + [Unit(NewId("unit-", stamp), propertyId, name, monthlyRent, dueDate, gracePeriodDays)])
  }

  /**
    `assignTenant`: one assignment appended, whatever the unit's other
    assignments are; nothing keeps a unit to one active assignment.
  */
  function AssignTenant(s: State, unitId: string, tenantId: string, moveInDate: string, isActive: bool, stamp: nat): (r: State)
    ensures |r.assignments| == |s.assignments| + 1 && r.assignments[..|s.assignments|] == s.assignments
    ensures r.assignments[|s.assignments|] == TenantAssignment(NewId("assign-", stamp), unitId, tenantId, moveInDate, isActive)
    ensures r == s.(assignments := r.assignments)
  {
    s.(assignments := s.assignments + [TenantAssignment(NewId("assign-", stamp), unitId, tenantId, moveInDate, isActive)])
  }

  /** `makePayment`: one payment appended, always recorded as completed. */
  function MakePayment(s: State, unitId: string, tenantId: string, amount: int, month: string, stamp: nat, today: string): (r: State)
    ensures |r.payments| == |s.payments| + 1 && r.payments[..|s.payments|] == s.payments
    ensures r.payments[|s.payments|] == Payment(NewId("pay-", stamp), unitId, tenantId, amount, today, month, Completed)
    ensures r == s.(payments := r.payments)
  {
    s.(payments := s.payments + [Payment(NewId("pay-", stamp), unitId, tenantId, amount, today, month, Completed)])
  }

  /** `addMaintenanceRequest`: one request appended, dated today, with the caller's status and resolution date. */
  function AddMaintenanceRequest(
    s: State, unitId: string, tenantId: string, description: string,
    status: MaintenanceStatus, resolvedAt: Option<string>, stamp: nat, today: string): (r: State)
    ensures |r.maintenanceRequests| == |s.maintenanceRequests| + 1
    ensures r.maintenanceRequests[..|s.maintenanceRequests|] == s.maintenanceRequests
    ensures r.maintenanceRequests[|s.maintenanceRequests|]
         == MaintenanceRequest(NewId("maint-", stamp), unitId, tenantId, description, status, today, resolvedAt)
    ensures r == s.(maintenanceRequests := r.maintenanceRequests)
  {
    var request := MaintenanceRequest(NewId("maint-", stamp), unitId, tenantId, description, status, today, resolvedAt);
    s.(maintenanceRequests := s.maintenanceRequests + [request])
  }

  /** `addVacateNotice`: one notice appended, submitted today; earlier notices are kept. */
  function AddVacateNotice(s: State, unitId: string, tenantId: string, vacateDate: string, stamp: nat, today: string): (r: State)
    ensures |r.vacateNotices| == |s.vacateNotices| + 1 && r.vacateNotices[..|s.vacateNotices|] == s.vacateNotices
    ensures r.vacateNotices[|s.vacateNotices|] == VacateNotice(NewId("vacate-", stamp), unitId, tenantId, vacateDate, today)
    ensures r == s.(vacateNotices := r.vacateNotices)
  {
    s.(vacateNotices := s.vacateNotices + [VacateNotice(NewId("vacate-", stamp), unitId, tenantId, vacateDate, today)])
  }

  // ---------------------------------------------------------------------------
  // The two in-place updates
  // ---------------------------------------------------------------------------

  /** `Partial<Unit>`: every field may be absent. */
  datatype UnitPatch = UnitPatch(
    id: Option<string>, propertyId: Option<string>, name: Option<string>,
    monthlyRent: Option<int>, dueDate: Option<int>, gracePeriodDays: Option<int>)

  function Override<T>(current: T, update: Option<T>): T
  {
    if update.Some? then update.value else current
  }

  /** `{ ...u, ...updates }`: each field present in the patch replaces the unit's field. */
  function ApplyPatch(u: Unit, p: UnitPatch): Unit
  {
    Unit(Override(u.id, p.id), Override(u.propertyId, p.propertyId), Override(u.name, p.name),
         Override(u.monthlyRent, p.monthlyRent), Override(u.dueDate, p.dueDate),
         Override(u.gracePeriodDays, p.gracePeriodDays))
  }

  /** The empty patch changes nothing; applying a patch twice is applying it once; a full patch decides every field. */
  lemma ApplyPatchLaws(u: Unit, p: UnitPatch)
    ensures ApplyPatch(u, UnitPatch(None, None, None, None, None, None)) == u
    ensures ApplyPatch(ApplyPatch(u, p), p) == ApplyPatch(u, p)
    ensures p.id.Some? && p.propertyId.Some? && p.name.Some? && p.monthlyRent.Some?
            && p.dueDate.Some? && p.gracePeriodDays.Some?
            ==> ApplyPatch(u, p) == Unit(p.id.value, p.propertyId.value, p.name.value,
                                         p.monthlyRent.value, p.dueDate.value, p.gracePeriodDays.value)
  {
  }

  /** `updateUnit`: every unit with the id is patched in place; order, length and everything else are kept. */
  function UpdateUnit(s: State, unitId: string, updates: UnitPatch): (r: State)
    ensures |r.units| == |s.units|
    ensures forall i :: 0 <= i < |s.units| && s.units[i].id != unitId ==> r.units[i] == s.units[i]
    ensures forall i :: 0 <= i < |s.units| && s.units[i].id == unitId ==> r.units[i] == ApplyPatch(s.units[i], updates)
    ensures r == s.(units := r.units)
  {
    s.(units := seq(|s.units|, i requires 0 <= i < |s.units| =>
                      if s.units[i].id == unitId then ApplyPatch(s.units[i], updates) else s.units[i]))
  }

  /** The request after `updateMaintenanceRequest` set its status: resolved ones are stamped with today. */
  function SetRequestStatus(req: MaintenanceRequest, status: MaintenanceStatus, today: string): (r: MaintenanceRequest)
    ensures r.status == status
    ensures r.resolvedAt.Some? <==> status == RequestResolved
    ensures r.resolvedAt.Some? ==> r.resolvedAt.value == today
    ensures r == req.(status := r.status, resolvedAt := r.resolvedAt)
  {
    req.(status := status, resolvedAt := if status == RequestResolved then Some(today) else None)
  }

  /** `updateMaintenanceRequest`: every request with the id gets the status; all others are kept. */
  function UpdateMaintenanceRequest(s: State, id: string, status: MaintenanceStatus, today: string): (r: State)
    ensures |r.maintenanceRequests| == |s.maintenanceRequests|
    ensures forall i :: 0 <= i < |s.maintenanceRequests| && s.maintenanceRequests[i].id != id
                        ==> r.maintenanceRequests[i] == s.maintenanceRequests[i]
    ensures forall i :: 0 <= i < |s.maintenanceRequests| && s.maintenanceRequests[i].id == id
                        ==> r.maintenanceRequests[i] == SetRequestStatus(s.maintenanceRequests[i], status, today)
    ensures r == s.(maintenanceRequests := r.maintenanceRequests)
  {
    var reqs := s.maintenanceRequests;
    s.(maintenanceRequests := seq(|reqs|, i requires 0 <= i < |reqs| =>
                                    if reqs[i].id == id then SetRequestStatus(reqs[i], status, today) else reqs[i]))
  }

  /** After an update to `status`, no request with the id has any other status, and the rest are unchanged. */
  lemma UpdatedRequestsCarryStatus(s: State, id: string, status: MaintenanceStatus, today: string)
    ensures forall q :: q in UpdateMaintenanceRequest(s, id, status, today).maintenanceRequests && q.id == id
                        ==> q.status == status && (q.resolvedAt.Some? <==> status == RequestResolved)
    ensures forall q :: q in UpdateMaintenanceRequest(s, id, status, today).maintenanceRequests && q.id != id
                        ==> q in s.maintenanceRequests
  {
  }
}

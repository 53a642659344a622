/**
  The entities of the rental store. Every id and every date is a string, as in
  the application; money (`monthlyRent`, `amount`) is a whole number of cents.
  Each string-literal union of the application is an enumeration here, with its
  spelling given by a `...Text` function and read back by a `Parse...` function.
*/
module Types {
  import opened Seqs

  datatype UserRole = Landlord | Tenant

  datatype User = User(id: string, email: string, password: string, role: UserRole, name: string)

  datatype Property = Property(id: string, landlordId: string, name: string, address: string, createdAt: string)

  /** `dueDate` is documented as a day of the month (1 to 31) but nothing enforces it. */
  datatype Unit = Unit(id: string, propertyId: string, name: string, monthlyRent: int, dueDate: int, gracePeriodDays: int)

  datatype TenantAssignment = TenantAssignment(id: string, unitId: string, tenantId: string, moveInDate: string, isActive: bool)

  datatype PaymentStatus = Completed | PaymentPending | Failed

  /** `month` is documented as `YYYY-MM` but nothing enforces it. */
  datatype Payment = Payment(id: string, unitId: string, tenantId: string, amount: int, date: string, month: string, status: PaymentStatus)

  datatype MaintenanceStatus = RequestPending | RequestResolved

  datatype MaintenanceRequest = MaintenanceRequest(
    id: string, unitId: string, tenantId: string, description: string,
    status: MaintenanceStatus, createdAt: string, resolvedAt: Option<string>)

  datatype VacateNotice = VacateNotice(id: string, unitId: string, tenantId: string, vacateDate: string, submittedAt: string)

  datatype RentStatus = Paid | OverdueGrace | OverdueLate | Pending

  // ---------------------------------------------------------------------------
  // The string-literal spellings
  // ---------------------------------------------------------------------------

  function UserRoleText(r: UserRole): string
  {
    match r
    case Landlord => "landlord"
    case Tenant => "tenant"
  }

  function ParseUserRole(t: string): (r: Option<UserRole>)
    ensures r.Some? <==> t == "landlord" || t == "tenant"
    ensures r.Some? ==> UserRoleText(r.value) == t
  {
    if t == "landlord" then Some(Landlord)
    else if t == "tenant" then Some(Tenant)
    else None
  }

  function PaymentStatusText(s: PaymentStatus): string
  {
    match s
    case Completed => "completed"
    case PaymentPending => "pending"
    case Failed => "failed"
  }

  function ParsePaymentStatus(t: string): (r: Option<PaymentStatus>)
    ensures r.Some? <==> t == "completed" || t == "pending" || t == "failed"
    ensures r.Some? ==> PaymentStatusText(r.value) == t
  {
    if t == "completed" then Some(Completed)
    else if t == "pending" then Some(PaymentPending)
    else if t == "failed" then Some(Failed)
    else None
  }

  function MaintenanceStatusText(s: MaintenanceStatus): string
  {
    match s
    case RequestPending => "pending"
    case RequestResolved => "resolved"
  }

  function ParseMaintenanceStatus(t: string): (r: Option<MaintenanceStatus>)
    ensures r.Some? <==> t == "pending" || t == "resolved"
    ensures r.Some? ==> MaintenanceStatusText(r.value) == t
  {
    if t == "pending" then Some(RequestPending)
    else if t == "resolved" then Some(RequestResolved)
    else None
  }

  function RentStatusText(s: RentStatus): string
  {
    match s
    case Paid => "paid"
    case OverdueGrace => "overdue-grace"
    case OverdueLate => "overdue-late"
    case Pending => "pending"
  }

  function ParseRentStatus(t: string): (r: Option<RentStatus>)
    ensures r.Some? <==> t == "paid" || t == "overdue-grace" || t == "overdue-late" || t == "pending"
    ensures r.Some? ==> RentStatusText(r.value) == t
  {
    if t == "paid" then Some(Paid)
    else if t == "overdue-grace" then Some(OverdueGrace)
    else if t == "overdue-late" then Some(OverdueLate)
    else if t == "pending" then Some(Pending)
    else None
  }

  /** Each union is spelled by distinct literals, and each literal reads back to its value. */
  lemma SpellingsRoundTrip()
    ensures forall r: UserRole :: ParseUserRole(UserRoleText(r)) == Some(r)
    ensures forall s: PaymentStatus :: ParsePaymentStatus(PaymentStatusText(s)) == Some(s)
    ensures forall s: MaintenanceStatus :: ParseMaintenanceStatus(MaintenanceStatusText(s)) == Some(s)
    ensures forall s: RentStatus :: ParseRentStatus(RentStatusText(s)) == Some(s)
  {
  }
}

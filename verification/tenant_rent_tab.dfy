/**
  The tenant's rent view (src/app/components/tenant/TenantRentTab.tsx): the
  tenant's unit and property, the current month's status with its message,
  the "Pay Rent Now" dialog, and the five most recent payments. The clock
  enters as `iso` (what `new Date().toISOString()` returns) and `now` (the
  same moment as a time value), both parameters.
*/
module TenantRentTab {
  import opened Seqs
  import opened Types
  import opened Lookups
  import opened Store
  import Decimal
  import RentRule
  import RentStatusTab

  /** `unit`: the unit named by the tenant's active assignment, if any. */
  function TenantUnit(s: State): (r: Option<Unit>)
    ensures r.Some? ==> r.value in s.units
    ensures r.Some? ==> TenantAssignmentOf(s.assignments, UserId(s.currentUser)).Some?
                        && r.value.id == TenantAssignmentOf(s.assignments, UserId(s.currentUser)).value.unitId
    ensures s.currentUser.None? ==> r.None?
    ensures r.Some? <==> TenantAssignmentOf(s.assignments, UserId(s.currentUser)).Some?
                         && exists i :: 0 <= i < |s.units|
                                        && s.units[i].id == TenantAssignmentOf(s.assignments, UserId(s.currentUser)).value.unitId
    ensures TenantAssignmentOf(s.assignments, UserId(s.currentUser)).Some? ==>
              var unitId := TenantAssignmentOf(s.assignments, UserId(s.currentUser)).value.unitId;
              forall i :: 0 <= i < |s.units| && s.units[i].id == unitId && (forall j :: 0 <= j < i ==> s.units[j].id != unitId)
                          ==> r == Some(s.units[i])
  {
    match TenantAssignmentOf(s.assignments, UserId(s.currentUser))
    case None => None
    case Some(a) => Find(s.units, (u: Unit) => u.id == a.unitId)
  }

  /** `property`: the property of that unit, if any. */
  function TenantProperty(s: State): (r: Option<Property>)
    ensures r.Some? ==> TenantUnit(s).Some? && r.value in s.properties && r.value.id == TenantUnit(s).value.propertyId
    ensures r.Some? <==> TenantUnit(s).Some?
                         && exists i :: 0 <= i < |s.properties| && s.properties[i].id == TenantUnit(s).value.propertyId
    ensures TenantUnit(s).Some? ==>
              var propertyId := TenantUnit(s).value.propertyId;
              forall i :: 0 <= i < |s.properties| && s.properties[i].id == propertyId
                          && (forall j :: 0 <= j < i ==> s.properties[j].id != propertyId)
                          ==> r == Some(s.properties[i])
  {
    match TenantUnit(s)
    case None => None
    case Some(u) => Find(s.properties, (p: Property) => p.id == u.propertyId)
  }

  /**
    Once the signed-in tenant, with no active assignment yet, is assigned to
    a unit, the view shows the first unit carrying that unit's id.
  */
  lemma AssignedUnitIsShown(s: State, unitId: string, moveInDate: string, stamp: nat, k: nat)
    requires s.currentUser.Some?
    requires TenantAssignmentOf(s.assignments, UserId(s.currentUser)).None?
    requires k < |s.units| && s.units[k].id == unitId && forall j :: 0 <= j < k ==> s.units[j].id != unitId
    ensures var s' := AssignTenant(s, unitId, s.currentUser.value.id, moveInDate, true, stamp);
            TenantUnit(s') == Some(s.units[k])
  {
    var me := UserId(s.currentUser);
    var s' := AssignTenant(s, unitId, s.currentUser.value.id, moveInDate, true, stamp);
    var n := |s.assignments|;
    assert IsMe(s'.assignments[n].tenantId, me) && s'.assignments[n].isActive;
    assert forall j :: 0 <= j < n ==> !(IsMe(s'.assignments[j].tenantId, me) && s'.assignments[j].isActive) by {
      forall j | 0 <= j < n
        ensures !(IsMe(s'.assignments[j].tenantId, me) && s'.assignments[j].isActive)
      {
        assert s'.assignments[j] == s.assignments[j];
      }
    }
    assert TenantAssignmentOf(s'.assignments, me) == Some(s'.assignments[n]);
  }

  /** `rentStatus`: the current month's status of the tenant's unit, or nothing without a unit. */
  function ShownRentStatus(s: State, month: string, now: int): (r: Option<RentStatus>)
    requires RentRule.IsMonthString(month)
    ensures r.Some? <==> TenantUnit(s).Some?
    ensures r.Some? ==> r.value == RentRule.GetRentStatus(s.units, s.payments, TenantUnit(s).value.id, month, now)
  {
    match TenantUnit(s)
    case None => None
    case Some(u) => Some(RentRule.GetRentStatus(s.units, s.payments, u.id, month, now))
  }

  /** The "Pay Rent Now" button: shown with a unit and its property, unless the month is paid. */
  predicate PayOffered(s: State, month: string, now: int)
    requires RentRule.IsMonthString(month)
  {
    TenantUnit(s).Some? && TenantProperty(s).Some? && ShownRentStatus(s, month, now) != Some(Paid)
  }

  // ---------------------------------------------------------------------------
  // Status text
  // ---------------------------------------------------------------------------

  datatype StatusInfo = StatusInfo(badge: string, message: string)

  /** `getStatusInfo`: anything other than the three named statuses reads as "Pending". */
  function GetStatusInfo(status: Option<RentStatus>): (r: StatusInfo)
    ensures status.Some? ==> r.badge == RentStatusTab.BadgeText(status.value)
  {
    match status
    case Some(Paid) => StatusInfo("Paid", "Your rent is paid for this month")
    case Some(OverdueGrace) => StatusInfo("Grace Period", "Payment is overdue but within grace period")
    case Some(OverdueLate) => StatusInfo("Overdue", "Payment is overdue. Please pay as soon as possible")
    case _ => StatusInfo("Pending", "Payment not yet due")
  }

  /**
    Different statuses read differently, the tenant's badge matches the
    landlord's for the same status, and no status at all reads as "Pending".
  */
  lemma StatusInfoDistinct(a: RentStatus, b: RentStatus)
    ensures GetStatusInfo(Some(a)) == GetStatusInfo(Some(b)) <==> a == b
    ensures GetStatusInfo(Some(a)).badge == RentStatusTab.BadgeText(a)
    ensures GetStatusInfo(None) == GetStatusInfo(Some(Pending))
  {
    RentStatusTab.BadgeTextDistinct(a, b);
  }

  // ---------------------------------------------------------------------------
  // Paying
  // ---------------------------------------------------------------------------

  /** The payment dialog's fields. */
  datatype PaymentForm = PaymentForm(amount: string, cardNumber: string)

  /** The button's `onClick`: the amount field starts as the rent, written by `Number.prototype.toString`. */
  function PrefilledForm(u: Unit, cardNumber: string): (r: PaymentForm)
    ensures Decimal.IsAmount(r.amount) && Decimal.ParseCents(r.amount) == u.monthlyRent
  {
    Decimal.FormatCentsRoundTrip(u.monthlyRent);
    PaymentForm(Decimal.FormatCents(u.monthlyRent), cardNumber)
  }

  /**
    `handlePayment`: with a unit and a signed-in user, a completed payment of
    the entered amount; the form is cleared. Otherwise nothing changes. The
    month is the `currentMonth` of the render that drew the dialog
    (`renderIso`), while `makePayment` dates the payment when the button is
    pressed (`clickIso`): the two clock reads are separate parameters.
  */
  function HandlePayment(s: State, form: PaymentForm, renderIso: string, clickIso: string, stamp: nat): (r: (State, PaymentForm))
    requires IsIsoTimestamp(renderIso) && IsIsoTimestamp(clickIso) && Decimal.IsAmount(form.amount)
    ensures TenantUnit(s).None? ==> r == (s, form)
    ensures TenantUnit(s).Some? ==>
              |r.0.payments| == |s.payments| + 1 && r.0.payments[..|s.payments|] == s.payments
              && r.0.payments[|s.payments|].unitId == TenantUnit(s).value.id
              && r.0.payments[|s.payments|].tenantId == s.currentUser.value.id
              && r.0.payments[|s.payments|].amount == Decimal.ParseCents(form.amount)
              && r.0.payments[|s.payments|].month == CurrentMonth(renderIso)
              && r.0.payments[|s.payments|].date == clickIso[..10]
              && r.0.payments[|s.payments|].status == Completed
              && r.1 == PaymentForm("", "")
    ensures r.0 == s.(payments := r.0.payments)
  {
    match TenantUnit(s)
    case None => (s, form)
    case Some(u) =>
      (MakePayment(s, u.id, s.currentUser.value.id, Decimal.ParseCents(form.amount), CurrentMonth(renderIso), stamp, clickIso[..10]),
       PaymentForm("", ""))
  }

  const LastMillisecondOfJanuary: string := "2026-01-31T23:59:59.999Z"
  const FirstMillisecondOfFebruary: string := "2026-02-01T00:00:00.001Z"

  lemma MidnightStamps()
    ensures IsIsoTimestamp(LastMillisecondOfJanuary) && IsIsoTimestamp(FirstMillisecondOfFebruary)
    ensures CurrentMonth(LastMillisecondOfJanuary) == "2026-01" && FirstMillisecondOfFebruary[..10] == "2026-02-01"
  {
    var render := LastMillisecondOfJanuary;
    var click := FirstMillisecondOfFebruary;
    assert render[..4] == "2026" && render[5..7] == "01" && render[8..10] == "31";
    assert Decimal.AllDigits(render[..4]) && Decimal.AllDigits(render[5..7]) && Decimal.AllDigits(render[8..10]);
    assert click[..4] == "2026" && click[5..7] == "02" && click[8..10] == "01";
    assert Decimal.AllDigits(click[..4]) && Decimal.AllDigits(click[5..7]) && Decimal.AllDigits(click[8..10]);
    assert render[..7] == "2026-01" && click[..10] == "2026-02-01";
  }

  /**
    A dialog drawn at the last millisecond of January and submitted after
    midnight records a payment for January dated the 1st of February.
  */
  lemma PaymentAcrossMidnight(s: State, form: PaymentForm, stamp: nat)
    requires Decimal.IsAmount(form.amount)
    requires TenantUnit(s).Some?
    ensures IsIsoTimestamp(LastMillisecondOfJanuary) && IsIsoTimestamp(FirstMillisecondOfFebruary)
    ensures var p := HandlePayment(s, form, LastMillisecondOfJanuary, FirstMillisecondOfFebruary, stamp).0.payments[|s.payments|];
            p.month == "2026-01" && p.date == "2026-02-01"
  {
    MidnightStamps();
  }

  /** After paying, the month the dialog was drawn for reads "Paid" at any moment and the pay button is gone for it. */
  lemma PaymentMarksMonthPaid(s: State, form: PaymentForm, renderIso: string, clickIso: string, stamp: nat, now: int)
    requires IsIsoTimestamp(renderIso) && IsIsoTimestamp(clickIso) && Decimal.IsAmount(form.amount)
    requires TenantUnit(s).Some?
    ensures var s' := HandlePayment(s, form, renderIso, clickIso, stamp).0;
            ShownRentStatus(s', CurrentMonth(renderIso), now) == Some(Paid)
            && !PayOffered(s', CurrentMonth(renderIso), now)
  {
    var s' := HandlePayment(s, form, renderIso, clickIso, stamp).0;
    var u := TenantUnit(s).value;
    assert TenantUnit(s') == TenantUnit(s);
    assert Any(s'.units, (x: Unit) => x.id == u.id) by {
      var i :| 0 <= i < |s.units| && s.units[i] == u;
      assert s'.units[i].id == u.id;
    }
    RentRule.CompletedPaymentMeansPaid(s'.units, s'.payments, u.id, CurrentMonth(renderIso), now, |s.payments|);
  }

  /** Paying the pre-filled amount records exactly the unit's rent. */
  lemma PrefilledPaymentPaysRent(s: State, cardNumber: string, renderIso: string, clickIso: string, stamp: nat)
    requires IsIsoTimestamp(renderIso) && IsIsoTimestamp(clickIso)
    requires TenantUnit(s).Some?
    ensures var form := PrefilledForm(TenantUnit(s).value, cardNumber);
            HandlePayment(s, form, renderIso, clickIso, stamp).0.payments[|s.payments|].amount == TenantUnit(s).value.monthlyRent
  {
  }

  // ---------------------------------------------------------------------------
  // Payment history
  // ---------------------------------------------------------------------------

  /** `tenantPayments`: the signed-in tenant's payments, oldest first. */
  function TenantPayments(payments: seq<Payment>, me: Option<string>): (r: seq<Payment>)
    ensures forall i :: 0 <= i < |r| ==> r[i] in payments && IsMe(r[i].tenantId, me)
    ensures forall i :: 0 <= i < |payments| && IsMe(payments[i].tenantId, me) ==> payments[i] in r
  {
    Filter(payments, (p: Payment) => IsMe(p.tenantId, me))
  }

  /** `recentPayments.reverse()`: the last five of them, newest first. */
  function PaymentHistory(payments: seq<Payment>, me: Option<string>): (r: seq<Payment>)
    ensures var all := TenantPayments(payments, me);
            |r| == (if |all| < 5 then |all| else 5)
            && forall i :: 0 <= i < |r| ==> r[i] == all[|all| - 1 - i]
  {
    var all := TenantPayments(payments, me);
    Reverse(TakeLast(all, 5))
  }

  /** After paying, the history opens with the new payment. */
  lemma NewPaymentHeadsHistory(s: State, form: PaymentForm, renderIso: string, clickIso: string, stamp: nat)
    requires IsIsoTimestamp(renderIso) && IsIsoTimestamp(clickIso) && Decimal.IsAmount(form.amount)
    requires TenantUnit(s).Some?
    ensures var s' := HandlePayment(s, form, renderIso, clickIso, stamp).0;
            var history := PaymentHistory(s'.payments, UserId(s'.currentUser));
            |history| > 0 && history[0] == s'.payments[|s.payments|]
  {
    var s' := HandlePayment(s, form, renderIso, clickIso, stamp).0;
    var me := UserId(s.currentUser);
    var p := s'.payments[|s.payments|];
    var all := TenantPayments(s'.payments, me);
    assert all == TenantPayments(s.payments, me) + [p] by {
      assert s'.payments == s.payments + [p];
      assert IsMe(p.tenantId, me);
      FilterAppend(s.payments, p, (x: Payment) => IsMe(x.tenantId, me));
    }
    assert UserId(s'.currentUser) == me;
    assert all[|all| - 1] == p;
  }
}

/**
  `getRentStatus` of src/context/AppContext.tsx: the status of a unit's rent
  for a `YYYY-MM` month at a given instant. The instant `now` is a time value
  in milliseconds (see module Calendar) and is a parameter, where the
  application reads the clock.
*/
module RentRule {
  import opened Seqs
  import opened Types
  import opened Calendar
  import Decimal
  import Store

  /** `YYYY-MM`: four digits, a dash, two digits. */
  predicate IsMonthString(month: string)
  {
    |month| == 7 && Decimal.AllDigits(month[..4]) && month[4] == '-' && Decimal.AllDigits(month[5..])
  }

  /** The two numbers of `month.split('-').map(Number)`. */
  function MonthFields(month: string): (r: (nat, nat))
    requires IsMonthString(month)
    ensures r.0 <= 9999 && r.1 <= 99
  {
    var year := Decimal.ParseDigits(month[..4]);
    var monthNum := Decimal.ParseDigits(month[5..]);
    Decimal.ParseDigitsBound(month[..4]);
    Decimal.ParseDigitsBound(month[5..]);
    (year, monthNum)
  }

  /** The day number of `new Date(year, monthNum - 1, unit.dueDate)`. */
  function DueDay(unit: Unit, month: string): int
    requires IsMonthString(month)
  {
    var (year, monthNum) := MonthFields(month);
    MakeDay(ConstructorYear(year), monthNum - 1, unit.dueDate)
  }

  /** `month` spelled from a year and a month number, zero-padded to `YYYY-MM`. */
  function MonthString(year: nat, monthNum: nat): (month: string)
    requires year <= 9999 && monthNum <= 99
    ensures IsMonthString(month)
  {
    var month := Decimal.Padded(year, 4) + "-" + Decimal.Padded(monthNum, 2);
    assert month[..4] == Decimal.Padded(year, 4) && month[5..] == Decimal.Padded(monthNum, 2);
    month
  }

  /** `split('-').map(Number)` reads back the year and the month number of any zero-padded `YYYY-MM`. */
  lemma MonthFieldsRoundTrip(year: nat, monthNum: nat)
    requires year <= 9999 && monthNum <= 99
    ensures MonthFields(MonthString(year, monthNum)) == (year, monthNum)
  {
    var month := MonthString(year, monthNum);
    assert month[..4] == Decimal.Padded(year, 4) && month[5..] == Decimal.Padded(monthNum, 2);
  }

  /**
    A year written as 0000 to 0099 is read by the `Date` constructor as 1900
    to 1999: rent for "0050-03" falls due on the same day as for "1950-03".
  */
  lemma TwoDigitYearsAreNineteenHundreds(unit: Unit, year: nat, monthNum: nat)
    requires year <= 99 && monthNum <= 99
    ensures DueDay(unit, MonthString(year, monthNum)) == DueDay(unit, MonthString(1900 + year, monthNum))
  {
    MonthFieldsRoundTrip(year, monthNum);
    MonthFieldsRoundTrip(1900 + year, monthNum);
  }

  /**
    The due instant: the first millisecond (local midnight) of the due day, or
    `None` when it lies beyond the time-value limit and the date is invalid.
  */
  function DueInstant(unit: Unit, month: string): Option<int>
    requires IsMonthString(month)
  {
    TimeClip(Instant(DueDay(unit, month), 0))
  }

  /**
    The end of the grace period: `setDate(getDate() + gracePeriodDays)` on the
    due date, which is midnight `gracePeriodDays` days after the due day. An
    invalid due date stays invalid, and a valid one becomes invalid when the
    new day lies beyond the time-value limit.
  */
  function GraceEndInstant(unit: Unit, month: string): Option<int>
    requires IsMonthString(month)
  {
    if DueInstant(unit, month).None? then None
    else TimeClip(Instant(DueDay(unit, month) + unit.gracePeriodDays, 0))
  }

  /** A completed payment recorded for the unit and month. */
  predicate IsPaymentFor(p: Payment, unitId: string, month: string)
  {
    p.unitId == unitId && p.month == month && p.status == Completed
  }

  /**
    The unpaid part of the rule: before or at the due instant, up to the grace
    end, or after it. A comparison with an invalid date (`None`) is false, so
    an invalid due date skips "pending" and an invalid grace end skips the
    grace period.
  */
  function ClassifyUnpaid(now: int, due: Option<int>, graceEnd: Option<int>): (r: RentStatus)
    ensures r != Paid
    ensures r == Pending <==> due.Some? && now <= due.value
    ensures r == OverdueGrace <==> !(due.Some? && now <= due.value) && graceEnd.Some? && now <= graceEnd.value
    ensures r == OverdueLate <==> !(due.Some? && now <= due.value) && !(graceEnd.Some? && now <= graceEnd.value)
  {
    if due.Some? && now <= due.value then Pending
    else if graceEnd.Some? && now <= graceEnd.value then OverdueGrace
    else OverdueLate
  }

  /** `getRentStatus(unitId, month)` evaluated at instant `now`. */
  function GetRentStatus(units: seq<Unit>, payments: seq<Payment>, unitId: string, month: string, now: int): (r: RentStatus)
    requires IsMonthString(month)
    ensures !Any(units, (u: Unit) => u.id == unitId) ==> r == Pending
    ensures Any(units, (u: Unit) => u.id == unitId) ==>
              (r == Paid <==> exists i :: 0 <= i < |payments| && IsPaymentFor(payments[i], unitId, month))
    ensures r != Paid && Any(units, (u: Unit) => u.id == unitId) ==>
              var unit := Find(units, (u: Unit) => u.id == unitId).value;
              r == ClassifyUnpaid(now, DueInstant(unit, month), GraceEndInstant(unit, month))
  {
    match Find(units, (u: Unit) => u.id == unitId)
    case None => Pending
    case Some(unit) =>
      if Any(payments, (p: Payment) => IsPaymentFor(p, unitId, month)) then Paid
      else ClassifyUnpaid(now, DueInstant(unit, month), GraceEndInstant(unit, month))
  }

  // ---------------------------------------------------------------------------
  // Properties of the rule
  // ---------------------------------------------------------------------------

  /** How far along the unpaid statuses a result is; a paid month counts as not overdue. */
  function Severity(r: RentStatus): nat
  {
    match r
    case Paid => 0
    case Pending => 0
    case OverdueGrace => 1
    case OverdueLate => 2
  }

  /** Whether a month is paid does not depend on the clock, and the unpaid statuses only advance as time passes. */
  lemma StatusMonotoneInTime(units: seq<Unit>, payments: seq<Payment>, unitId: string, month: string, t1: int, t2: int)
    requires IsMonthString(month)
    requires t1 <= t2
    ensures GetRentStatus(units, payments, unitId, month, t1) == Paid
            <==> GetRentStatus(units, payments, unitId, month, t2) == Paid
    ensures Severity(GetRentStatus(units, payments, unitId, month, t1))
            <= Severity(GetRentStatus(units, payments, unitId, month, t2))
  {
  }

  /** With no grace days (or fewer) the grace status is never reported. */
  lemma NoGraceNoGraceStatus(units: seq<Unit>, payments: seq<Payment>, unitId: string, month: string, now: int)
    requires IsMonthString(month)
    requires forall i :: 0 <= i < |units| && units[i].id == unitId ==> units[i].gracePeriodDays <= 0
    ensures GetRentStatus(units, payments, unitId, month, now) != OverdueGrace
  {
  }

  /** On the due day itself, any moment after midnight is already past due. */
  lemma DueDayIsAlreadyOverdue(units: seq<Unit>, payments: seq<Payment>, unitId: string, month: string, ms: int)
    requires IsMonthString(month)
    requires 0 < ms < MsPerDay
    requires forall i :: 0 <= i < |units| && units[i].id == unitId ==> units[i].gracePeriodDays >= 1
    requires !Any(payments, (p: Payment) => IsPaymentFor(p, unitId, month))
    requires Any(units, (u: Unit) => u.id == unitId)
    requires var unit := Find(units, (u: Unit) => u.id == unitId).value;
             GraceEndInstant(unit, month).Some?
    ensures var unit := Find(units, (u: Unit) => u.id == unitId).value;
            GetRentStatus(units, payments, unitId, month, Instant(DueDay(unit, month), ms)) == OverdueGrace
  {
  }

  /**
    A grace period reaching past the time-value limit makes the grace-end date
    invalid, so every moment after the due instant is reported as late, not as
    within grace; a due date itself beyond the limit is late at every moment.
  */
  lemma BeyondTimeLimitIsLate(units: seq<Unit>, payments: seq<Payment>, unitId: string, month: string, now: int)
    requires IsMonthString(month)
    requires !Any(payments, (p: Payment) => IsPaymentFor(p, unitId, month))
    requires Any(units, (u: Unit) => u.id == unitId)
    requires var unit := Find(units, (u: Unit) => u.id == unitId).value;
             Instant(DueDay(unit, month) + unit.gracePeriodDays, 0) > MaxTimeValue
    ensures var unit := Find(units, (u: Unit) => u.id == unitId).value;
            now > Instant(DueDay(unit, month), 0) ==> GetRentStatus(units, payments, unitId, month, now) == OverdueLate
    ensures var unit := Find(units, (u: Unit) => u.id == unitId).value;
            Instant(DueDay(unit, month), 0) > MaxTimeValue ==> GetRentStatus(units, payments, unitId, month, now) == OverdueLate
  {
  }

  /** A completed payment for the unit and month is always reported as paid, whatever the clock. */
  lemma CompletedPaymentMeansPaid(units: seq<Unit>, payments: seq<Payment>, unitId: string, month: string, now: int, k: nat)
    requires IsMonthString(month)
    requires Any(units, (u: Unit) => u.id == unitId)
    requires k < |payments| && IsPaymentFor(payments[k], unitId, month)
    ensures GetRentStatus(units, payments, unitId, month, now) == Paid
  {
  }

  /** After `makePayment` for an existing unit, the paid month reads "paid" at every moment. */
  lemma MakePaymentMarksPaid(
    s: Store.State, unitId: string, tenantId: string, amount: int, month: string, stamp: nat, today: string, now: int)
    requires IsMonthString(month)
    requires Any(s.units, (u: Unit) => u.id == unitId)
    ensures var s' := Store.MakePayment(s, unitId, tenantId, amount, month, stamp, today);
            GetRentStatus(s'.units, s'.payments, unitId, month, now) == Paid
  {
    var s' := Store.MakePayment(s, unitId, tenantId, amount, month, stamp, today);
    CompletedPaymentMeansPaid(s'.units, s'.payments, unitId, month, now, |s.payments|);
  }
}

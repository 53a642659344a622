/**
  The tenant's move-out view (src/app/components/tenant/TenantVacateTab.tsx):
  the notice already filed for the tenant's unit, if any, and filing one.
  The whole number of days until the vacate date (`differenceInDays`) is a
  parameter, as in module VacateNoticesTab.
*/
module TenantVacateTab {
  import opened Seqs
  import opened Types
  import opened Lookups
  import opened Store
  import Decimal
  import TenantRentTab
  import VacateNoticesTab

  /** `tenantAssignment?.unitId`. */
  function AssignedUnitId(s: State): (r: Option<string>)
    ensures r.Some? <==> TenantAssignmentOf(s.assignments, UserId(s.currentUser)).Some?
    ensures r.Some? ==> r.value == TenantAssignmentOf(s.assignments, UserId(s.currentUser)).value.unitId
  {
    match TenantAssignmentOf(s.assignments, UserId(s.currentUser))
    case None => None
    case Some(a) => Some(a.unitId)
  }

  /** A notice by the signed-in tenant for the assigned unit. */
  predicate IsTenantsNotice(n: VacateNotice, me: Option<string>, unitId: Option<string>)
  {
    IsMe(n.tenantId, me) && unitId == Some(n.unitId)
  }

  /** `existingNotice`: the first notice by the tenant for the assigned unit. */
  function ExistingNotice(s: State): (r: Option<VacateNotice>)
    ensures r.Some? <==> exists i :: 0 <= i < |s.vacateNotices|
                                     && IsTenantsNotice(s.vacateNotices[i], UserId(s.currentUser), AssignedUnitId(s))
    ensures r.Some? ==> r.value in s.vacateNotices && r.value.unitId == AssignedUnitId(s).value
                        && r.value.tenantId == s.currentUser.value.id
    ensures forall i :: 0 <= i < |s.vacateNotices|
                        && IsTenantsNotice(s.vacateNotices[i], UserId(s.currentUser), AssignedUnitId(s))
                        && (forall j :: 0 <= j < i ==> !IsTenantsNotice(s.vacateNotices[j], UserId(s.currentUser), AssignedUnitId(s)))
                        ==> r == Some(s.vacateNotices[i])
  {
    var me := UserId(s.currentUser);
    var unitId := AssignedUnitId(s);
    Find(s.vacateNotices, (n: VacateNotice) => IsTenantsNotice(n, me, unitId))
  }

  /**
    This view and the rent view agree on the tenant's unit: the rent view
    finds a unit exactly when an assignment names a unit id some unit
    carries, and then it is the assigned one.
  */
  lemma SameUnitAsRentTab(s: State)
    ensures TenantRentTab.TenantUnit(s).Some?
            <==> AssignedUnitId(s).Some? && exists i :: 0 <= i < |s.units| && s.units[i].id == AssignedUnitId(s).value
    ensures TenantRentTab.TenantUnit(s).Some? ==> TenantRentTab.TenantUnit(s).value.id == AssignedUnitId(s).value
  {
  }

  /** The "No unit assigned" card replaces the view without an assignment, a unit record or a property record. */
  predicate ShowsNoUnit(s: State)
  {
    AssignedUnitId(s).None? || TenantRentTab.TenantUnit(s).None? || TenantRentTab.TenantProperty(s).None?
  }

  /** The "Submit Vacate Notice" form is offered only while no notice exists for the unit. */
  predicate ShowsSubmitForm(s: State)
  {
    !ShowsNoUnit(s) && ExistingNotice(s).None?
  }

  /**
    `handleSubmit`: with an active assignment, a notice for its unit in the
    tenant's name, and the date field is cleared; without one, nothing
    happens. Nothing stops a second notice for the same unit.
  */
  function HandleSubmit(s: State, vacateDate: string, stamp: nat, today: string): (r: (State, string))
    ensures AssignedUnitId(s).None? ==> r == (s, vacateDate)
    ensures AssignedUnitId(s).Some? ==>
              |r.0.vacateNotices| == |s.vacateNotices| + 1
              && r.0.vacateNotices[..|s.vacateNotices|] == s.vacateNotices
              && r.0.vacateNotices[|s.vacateNotices|].unitId == AssignedUnitId(s).value
              && r.0.vacateNotices[|s.vacateNotices|].tenantId == s.currentUser.value.id
              && r.0.vacateNotices[|s.vacateNotices|].vacateDate == vacateDate
              && r.1 == ""
    ensures r.0 == s.(vacateNotices := r.0.vacateNotices)
  {
    match TenantAssignmentOf(s.assignments, UserId(s.currentUser))
    case None => (s, vacateDate)
    case Some(a) => (AddVacateNotice(s, a.unitId, s.currentUser.value.id, vacateDate, stamp, today), "")
  }

  /**
    After filing, a notice exists for the unit and the form is withdrawn; a
    notice that already existed stays the one shown.
  */
  lemma FiledNoticeExists(s: State, vacateDate: string, stamp: nat, today: string)
    requires AssignedUnitId(s).Some?
    ensures var s' := HandleSubmit(s, vacateDate, stamp, today).0;
            ExistingNotice(s').Some? && !ShowsSubmitForm(s')
    ensures var s' := HandleSubmit(s, vacateDate, stamp, today).0;
            ExistingNotice(s).Some? ==> ExistingNotice(s') == ExistingNotice(s)
    ensures var s' := HandleSubmit(s, vacateDate, stamp, today).0;
            ExistingNotice(s).None? ==> ExistingNotice(s') == Some(s'.vacateNotices[|s.vacateNotices|])
  {
    var s' := HandleSubmit(s, vacateDate, stamp, today).0;
    var me := UserId(s.currentUser);
    var unitId := AssignedUnitId(s);
    var n := s'.vacateNotices[|s.vacateNotices|];
    assert s'.vacateNotices == s.vacateNotices + [n];
    assert AssignedUnitId(s') == unitId && UserId(s'.currentUser) == me;
    assert IsTenantsNotice(s'.vacateNotices[|s.vacateNotices|], me, unitId);
    FindAppend(s.vacateNotices, n, (x: VacateNotice) => IsTenantsNotice(x, me, unitId));
  }

  /** Filing while a notice already exists leaves two notices for the same tenant and unit. */
  lemma DuplicateNoticesKept(s: State, vacateDate: string, stamp: nat, today: string)
    requires ExistingNotice(s).Some?
    ensures var s' := HandleSubmit(s, vacateDate, stamp, today).0;
            exists i, j :: 0 <= i < j < |s'.vacateNotices|
                           && s'.vacateNotices[i].unitId == s'.vacateNotices[j].unitId
                           && s'.vacateNotices[i].tenantId == s'.vacateNotices[j].tenantId
  {
    var s' := HandleSubmit(s, vacateDate, stamp, today).0;
    var i :| 0 <= i < |s.vacateNotices| && IsTenantsNotice(s.vacateNotices[i], UserId(s.currentUser), AssignedUnitId(s));
    assert s'.vacateNotices[i] == s.vacateNotices[i];
    var j := |s.vacateNotices|;
    assert s'.vacateNotices[i].unitId == s'.vacateNotices[j].unitId;
  }

  /** The days shown on the tenant's notice: a past date or no notice shows 0. */
  function DaysShown(daysUntil: Option<int>): (r: nat)
    ensures daysUntil.Some? && daysUntil.value >= 0 ==> r == daysUntil.value
    ensures daysUntil.None? || daysUntil.value < 0 ==> r == 0
  {
    if daysUntil.Some? && daysUntil.value >= 0 then daysUntil.value else 0
  }

  /**
    The tenant and the landlord read the same notice alike while the date is
    ahead: the landlord's badge spells the tenant's number of days. Once the
    date has passed the landlord sees "Vacated" and the tenant sees 0.
  */
  lemma TenantAndLandlordAgree(daysUntil: int)
    ensures !VacateNoticesTab.IsPast(daysUntil) ==>
              VacateNoticesTab.Badge(daysUntil) == Decimal.NatToDecimal(DaysShown(Some(daysUntil))) + " days left"
    ensures VacateNoticesTab.IsPast(daysUntil) <==>
              VacateNoticesTab.Badge(daysUntil) == "Vacated" && DaysShown(Some(daysUntil)) == 0 && daysUntil != 0
  {
  }
}

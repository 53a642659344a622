/**
  The landlord's move-out view (src/app/components/landlord/VacateNoticesTab.tsx):
  the notices filed for the landlord's units and the badge on each. The whole
  number of days from now to the vacate date (`differenceInDays` of date-fns)
  is a parameter.
*/
module VacateNoticesTab {
  import opened Seqs
  import opened Types
  import opened Lookups
  import Store
  import Decimal

  /** `landlordNotices`: the notices whose unit is one of the landlord's units, in filing order. */
  function LandlordNotices(properties: seq<Property>, units: seq<Unit>, me: Option<string>, notices: seq<VacateNotice>): (r: seq<VacateNotice>)
    ensures forall i :: 0 <= i < |r| ==> r[i] in notices && ConcernsLandlord(properties, units, me, r[i].unitId)
    ensures forall i :: 0 <= i < |notices| && ConcernsLandlord(properties, units, me, notices[i].unitId)
                        ==> notices[i] in r
    ensures me.None? ==> r == []
  {
    var keep := (n: VacateNotice) => ConcernsLandlord(properties, units, me, n.unitId);
    if me.None? then
      FilterRejectsAll(notices, keep);
      Filter(notices, keep)
    else
      Filter(notices, keep)
  }

  /**
    The list keeps filing order: a newly filed notice joins the end of the
    landlord's list exactly when it concerns one of the landlord's units.
  */
  lemma LandlordNoticesAppend(properties: seq<Property>, units: seq<Unit>, me: Option<string>,
                              notices: seq<VacateNotice>, n: VacateNotice)
    ensures LandlordNotices(properties, units, me, []) == []
    ensures LandlordNotices(properties, units, me, notices + [n])
            == LandlordNotices(properties, units, me, notices)
               + (if ConcernsLandlord(properties, units, me, n.unitId) then [n] else [])
  {
    FilterAppend(notices, n, (x: VacateNotice) => ConcernsLandlord(properties, units, me, x.unitId));
  }

  /** A notice filed for one of the landlord's units is listed last among the landlord's notices. */
  lemma FiledNoticeIsListed(s: Store.State, me: Option<string>, unitId: string, tenantId: string, vacateDate: string, stamp: nat, today: string)
    requires ConcernsLandlord(s.properties, s.units, me, unitId)
    ensures var s' := Store.AddVacateNotice(s, unitId, tenantId, vacateDate, stamp, today);
            LandlordNotices(s'.properties, s'.units, me, s'.vacateNotices)
            == LandlordNotices(s.properties, s.units, me, s.vacateNotices) + [s'.vacateNotices[|s.vacateNotices|]]
  {
    var s' := Store.AddVacateNotice(s, unitId, tenantId, vacateDate, stamp, today);
    var n := s'.vacateNotices[|s.vacateNotices|];
    assert s'.vacateNotices == s.vacateNotices + [n];
    FilterAppend(s.vacateNotices, n, (x: VacateNotice) => ConcernsLandlord(s.properties, s.units, me, x.unitId));
  }

  /** `isPast`: the vacate date is at least one whole day behind the current moment. */
  predicate IsPast(daysUntil: int)
  {
    daysUntil < 0
  }

  /** The badge: "Vacated" once the date has passed, otherwise the days left. */
  function Badge(daysUntil: int): (r: string)
    ensures r == "Vacated" <==> IsPast(daysUntil)
    ensures !IsPast(daysUntil) ==>
              |r| > 10 && r[|r| - 10..] == " days left"
              && Decimal.AllDigits(r[..|r| - 10]) && Decimal.ParseDigits(r[..|r| - 10]) == daysUntil
  {
    if IsPast(daysUntil) then "Vacated"
    else
      var digits := Decimal.NatToDecimal(daysUntil);
      var r := digits + " days left";
      assert r[..|r| - 10] == digits && r[|r| - 10..] == " days left";
      assert r[0] != 'V' by { assert Decimal.IsDigit(r[0]); }
      Decimal.ParseNatToDecimal(daysUntil);
      r
  }
}

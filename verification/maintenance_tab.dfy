/**
  The landlord's maintenance view (src/app/components/landlord/MaintenanceTab.tsx):
  the requests filed for the landlord's units, split into pending and resolved,
  and the "Mark as Resolved" action.
*/
module MaintenanceTab {
  import opened Seqs
  import opened Types
  import opened Lookups
  import opened Store

  /** `landlordRequests`: the requests whose unit is one of the landlord's units, in filing order. */
  function LandlordRequests(properties: seq<Property>, units: seq<Unit>, me: Option<string>, requests: seq<MaintenanceRequest>): (r: seq<MaintenanceRequest>)
    ensures forall i :: 0 <= i < |r| ==> r[i] in requests && ConcernsLandlord(properties, units, me, r[i].unitId)
    ensures forall i :: 0 <= i < |requests| && ConcernsLandlord(properties, units, me, requests[i].unitId)
                        ==> requests[i] in r
    ensures me.None? ==> r == []
  {
    var keep := (q: MaintenanceRequest) => ConcernsLandlord(properties, units, me, q.unitId);
    if me.None? then
      FilterRejectsAll(requests, keep);
      Filter(requests, keep)
    else
      Filter(requests, keep)
  }

  /**
    The list keeps filing order: a newly filed request joins the end of the
    landlord's list exactly when it concerns one of the landlord's units.
  */
  lemma LandlordRequestsAppend(properties: seq<Property>, units: seq<Unit>, me: Option<string>,
                               requests: seq<MaintenanceRequest>, q: MaintenanceRequest)
    ensures LandlordRequests(properties, units, me, []) == []
    ensures LandlordRequests(properties, units, me, requests + [q])
            == LandlordRequests(properties, units, me, requests)
               + (if ConcernsLandlord(properties, units, me, q.unitId) then [q] else [])
  {
    FilterAppend(requests, q, (x: MaintenanceRequest) => ConcernsLandlord(properties, units, me, x.unitId));
  }

  /** `pendingRequests`. */
  function PendingRequests(s: State, me: Option<string>): (r: seq<MaintenanceRequest>)
    ensures forall i :: 0 <= i < |r| ==> r[i] in s.maintenanceRequests && r[i].status == RequestPending
                                         && ConcernsLandlord(s.properties, s.units, me, r[i].unitId)
  {
    WithStatus(LandlordRequests(s.properties, s.units, me, s.maintenanceRequests), RequestPending)
  }

  /** `resolvedRequests`. */
  function ResolvedRequests(s: State, me: Option<string>): (r: seq<MaintenanceRequest>)
    ensures forall i :: 0 <= i < |r| ==> r[i] in s.maintenanceRequests && r[i].status == RequestResolved
                                         && ConcernsLandlord(s.properties, s.units, me, r[i].unitId)
  {
    WithStatus(LandlordRequests(s.properties, s.units, me, s.maintenanceRequests), RequestResolved)
  }

  /** The two stat cards account for every request the landlord sees. */
  lemma StatCardsCoverRequests(s: State, me: Option<string>)
    ensures |PendingRequests(s, me)| + |ResolvedRequests(s, me)|
            == |LandlordRequests(s.properties, s.units, me, s.maintenanceRequests)|
  {
    PendingResolvedPartition(LandlordRequests(s.properties, s.units, me, s.maintenanceRequests));
  }

  /** "Mark as Resolved": `updateMaintenanceRequest(request.id, 'resolved')`, stamped with today. */
  function MarkResolved(s: State, id: string, today: string): (r: State)
    ensures |r.maintenanceRequests| == |s.maintenanceRequests|
    ensures forall i :: 0 <= i < |s.maintenanceRequests| && s.maintenanceRequests[i].id == id
                        ==> r.maintenanceRequests[i].status == RequestResolved
                            && r.maintenanceRequests[i].resolvedAt == Some(today)
                            && r.maintenanceRequests[i].unitId == s.maintenanceRequests[i].unitId
    ensures forall i :: 0 <= i < |s.maintenanceRequests| && s.maintenanceRequests[i].id != id
                        ==> r.maintenanceRequests[i] == s.maintenanceRequests[i]
    ensures r == s.(maintenanceRequests := r.maintenanceRequests)
  {
    UpdateMaintenanceRequest(s, id, RequestResolved, today)
  }

  /** "Mark as Resolved" is a button on the cards of the pending list only. */
  predicate ResolveOffered(s: State, me: Option<string>, id: string)
  {
    Any(PendingRequests(s, me), (q: MaintenanceRequest) => q.id == id)
  }

  /** After marking, no request with the id is left on the pending list, so its button is gone. */
  lemma MarkedRequestLeavesPending(s: State, me: Option<string>, id: string, today: string)
    ensures var s' := MarkResolved(s, id, today);
            forall i :: 0 <= i < |PendingRequests(s', me)| ==> PendingRequests(s', me)[i].id != id
    ensures !ResolveOffered(MarkResolved(s, id, today), me, id)
  {
    var s' := MarkResolved(s, id, today);
    forall i | 0 <= i < |PendingRequests(s', me)| ensures PendingRequests(s', me)[i].id != id {
      var q := PendingRequests(s', me)[i];
      var j :| 0 <= j < |s'.maintenanceRequests| && s'.maintenanceRequests[j] == q;
    }
  }

  /** One of the landlord's pending requests carries the id. */
  predicate HasPendingWithId(s: State, me: Option<string>, id: string)
  {
    exists k :: 0 <= k < |s.maintenanceRequests| && s.maintenanceRequests[k].id == id
                && s.maintenanceRequests[k].status == RequestPending
                && ConcernsLandlord(s.properties, s.units, me, s.maintenanceRequests[k].unitId)
  }

  /** The landlord-scope test of `landlordRequests`, as a predicate value. */
  function ConcernsTest(properties: seq<Property>, units: seq<Unit>, me: Option<string>): MaintenanceRequest -> bool
  {
    (q: MaintenanceRequest) => ConcernsLandlord(properties, units, me, q.unitId)
  }

  /** A status test, as a predicate value. */
  function StatusTest(status: MaintenanceStatus): MaintenanceRequest -> bool
  {
    (q: MaintenanceRequest) => q.status == status
  }

  /** The two lists of the view are status filters over the landlord-scope filter. */
  lemma ListsAsFilters(s: State, me: Option<string>)
    ensures PendingRequests(s, me) == Filter(Filter(s.maintenanceRequests, ConcernsTest(s.properties, s.units, me)), StatusTest(RequestPending))
    ensures ResolvedRequests(s, me) == Filter(Filter(s.maintenanceRequests, ConcernsTest(s.properties, s.units, me)), StatusTest(RequestResolved))
  {
  }

  /**
    Marking keeps every request on its unit, so in or out of the landlord's
    scope; it resolves the requests with the id, takes nothing off the
    resolved status and puts nothing onto the pending one.
  */
  lemma MarkResolvedPointwise(s: State, me: Option<string>, id: string, today: string)
    ensures var ys := MarkResolved(s, id, today).maintenanceRequests;
            forall i :: 0 <= i < |s.maintenanceRequests| ==>
              ys[i].unitId == s.maintenanceRequests[i].unitId
              && ConcernsTest(s.properties, s.units, me)(ys[i]) == ConcernsTest(s.properties, s.units, me)(s.maintenanceRequests[i])
              && (s.maintenanceRequests[i].id == id ==> ys[i].status == RequestResolved)
              && (ys[i].status == RequestPending ==> s.maintenanceRequests[i].status == RequestPending)
              && (s.maintenanceRequests[i].status == RequestResolved ==> ys[i].status == RequestResolved)
  {
  }

  /**
    The counting argument on plain lists: when a change keeps each request's
    scope, puts nothing onto pending and takes nothing off resolved, the
    pending count cannot grow and the resolved count cannot shrink; a
    request in scope that goes from pending to resolved makes both strict.
  */
  lemma ResolvingCounts(xs: seq<MaintenanceRequest>, ys: seq<MaintenanceRequest>, keep: MaintenanceRequest -> bool, k: int)
    requires |xs| == |ys|
    requires forall i :: 0 <= i < |xs| ==> keep(ys[i]) == keep(xs[i])
    requires forall i :: 0 <= i < |xs| ==> (ys[i].status == RequestPending ==> xs[i].status == RequestPending)
    requires forall i :: 0 <= i < |xs| ==> (xs[i].status == RequestResolved ==> ys[i].status == RequestResolved)
    ensures |Filter(Filter(ys, keep), StatusTest(RequestPending))| <= |Filter(Filter(xs, keep), StatusTest(RequestPending))|
    ensures |Filter(Filter(xs, keep), StatusTest(RequestResolved))| <= |Filter(Filter(ys, keep), StatusTest(RequestResolved))|
    ensures 0 <= k < |xs| && keep(xs[k]) && xs[k].status == RequestPending && ys[k].status == RequestResolved ==>
              |Filter(Filter(ys, keep), StatusTest(RequestPending))| < |Filter(Filter(xs, keep), StatusTest(RequestPending))|
              && |Filter(Filter(xs, keep), StatusTest(RequestResolved))| < |Filter(Filter(ys, keep), StatusTest(RequestResolved))|
  {
    FilterFilterMonotone(xs, ys, keep, StatusTest(RequestPending));
    FilterFilterMonotone(ys, xs, keep, StatusTest(RequestResolved));
    if 0 <= k < |xs| && keep(xs[k]) && xs[k].status == RequestPending && ys[k].status == RequestResolved {
      assert StatusTest(RequestPending)(xs[k]) && !StatusTest(RequestPending)(ys[k]);
      assert StatusTest(RequestResolved)(ys[k]) && !StatusTest(RequestResolved)(xs[k]);
    }
  }

  /**
    Marking a request resolved never grows the pending count, and shrinks it
    when one of the landlord's pending requests had the id.
  */
  lemma MarkResolvedShrinksPending(s: State, me: Option<string>, id: string, today: string)
    ensures |PendingRequests(MarkResolved(s, id, today), me)| <= |PendingRequests(s, me)|
    ensures HasPendingWithId(s, me, id) ==> |PendingRequests(MarkResolved(s, id, today), me)| < |PendingRequests(s, me)|
  {
    MarkResolvedCounts(s, me, id, today);
  }

  /**
    Marking a request resolved never shrinks the resolved count, and grows it
    when one of the landlord's pending requests had the id.
  */
  lemma MarkResolvedGrowsResolved(s: State, me: Option<string>, id: string, today: string)
    ensures |ResolvedRequests(s, me)| <= |ResolvedRequests(MarkResolved(s, id, today), me)|
    ensures HasPendingWithId(s, me, id) ==> |ResolvedRequests(s, me)| < |ResolvedRequests(MarkResolved(s, id, today), me)|
  {
    MarkResolvedCounts(s, me, id, today);
  }

  /** Both counts at once, from the list argument. */
  lemma MarkResolvedCounts(s: State, me: Option<string>, id: string, today: string)
    ensures |PendingRequests(MarkResolved(s, id, today), me)| <= |PendingRequests(s, me)|
    ensures |ResolvedRequests(s, me)| <= |ResolvedRequests(MarkResolved(s, id, today), me)|
    ensures HasPendingWithId(s, me, id) ==>
              |PendingRequests(MarkResolved(s, id, today), me)| < |PendingRequests(s, me)|
              && |ResolvedRequests(s, me)| < |ResolvedRequests(MarkResolved(s, id, today), me)|
  {
    var s' := MarkResolved(s, id, today);
    var xs := s.maintenanceRequests;
    var ys := s'.maintenanceRequests;
    var keep := ConcernsTest(s.properties, s.units, me);
    ListsAsFilters(s, me);
    ListsAsFilters(s', me);
    MarkResolvedPointwise(s, me, id, today);
    if HasPendingWithId(s, me, id) {
      var k :| 0 <= k < |xs| && xs[k].id == id && xs[k].status == RequestPending
               && ConcernsLandlord(s.properties, s.units, me, xs[k].unitId);
      assert keep(xs[k]);
      ResolvingCounts(xs, ys, keep, k);
    } else {
      ResolvingCounts(xs, ys, keep, -1);
    }
  }

  /** `getTenantName` of this view, whose fallback is "Unknown". */
  function TenantName(users: seq<User>, tenantId: string): (r: string)
    ensures !Any(users, (u: User) => u.id == tenantId) ==> r == "Unknown"
    ensures r != "Unknown" ==> exists i :: 0 <= i < |users| && users[i].id == tenantId && users[i].name == r
    ensures forall i :: 0 <= i < |users| && users[i].id == tenantId && (forall j :: 0 <= j < i ==> users[j].id != tenantId)
                        ==> r == (if users[i].name != "" then users[i].name else "Unknown")
  {
    UserNameOr(users, tenantId, "Unknown")
  }
}

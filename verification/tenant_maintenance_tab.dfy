/**
  The tenant's maintenance view (src/app/components/tenant/TenantMaintenanceTab.tsx):
  the tenant's own requests split by status, and filing a new request for the
  unit of the tenant's active assignment.
*/
module TenantMaintenanceTab {
  import opened Seqs
  import opened Types
  import opened Lookups
  import opened Store

  /** `tenantRequests`: the requests the signed-in tenant filed, in filing order. */
  function TenantRequests(requests: seq<MaintenanceRequest>, me: Option<string>): (r: seq<MaintenanceRequest>)
    ensures forall i :: 0 <= i < |r| ==> r[i] in requests && IsMe(r[i].tenantId, me)
    ensures forall i :: 0 <= i < |requests| && IsMe(requests[i].tenantId, me) ==> requests[i] in r
  {
    Filter(requests, (q: MaintenanceRequest) => IsMe(q.tenantId, me))
  }

  function PendingRequests(s: State): seq<MaintenanceRequest>
  {
    WithStatus(TenantRequests(s.maintenanceRequests, UserId(s.currentUser)), RequestPending)
  }

  function ResolvedRequests(s: State): seq<MaintenanceRequest>
  {
    WithStatus(TenantRequests(s.maintenanceRequests, UserId(s.currentUser)), RequestResolved)
  }

  /** The two counters add up to the tenant's requests. */
  lemma CountersCoverRequests(s: State)
    ensures |PendingRequests(s)| + |ResolvedRequests(s)| == |TenantRequests(s.maintenanceRequests, UserId(s.currentUser))|
  {
    PendingResolvedPartition(TenantRequests(s.maintenanceRequests, UserId(s.currentUser)));
  }

  /** The "No unit assigned" card replaces the view exactly when the tenant has no active assignment. */
  predicate ShowsNoUnit(s: State)
  {
    TenantAssignmentOf(s.assignments, UserId(s.currentUser)).None?
  }

  /**
    `handleSubmit`: with an active assignment, a pending request for its unit
    in the tenant's name, and the description is cleared. Without one,
    nothing happens.
  */
  function HandleSubmit(s: State, description: string, stamp: nat, today: string): (r: (State, string))
    ensures ShowsNoUnit(s) ==> r == (s, description)
    ensures !ShowsNoUnit(s) ==>
              var a := TenantAssignmentOf(s.assignments, UserId(s.currentUser)).value;
              |r.0.maintenanceRequests| == |s.maintenanceRequests| + 1
              && r.0.maintenanceRequests[..|s.maintenanceRequests|] == s.maintenanceRequests
              && r.0.maintenanceRequests[|s.maintenanceRequests|].unitId == a.unitId
              && r.0.maintenanceRequests[|s.maintenanceRequests|].tenantId == s.currentUser.value.id
              && r.0.maintenanceRequests[|s.maintenanceRequests|].description == description
              && r.0.maintenanceRequests[|s.maintenanceRequests|].status == RequestPending
              && r.0.maintenanceRequests[|s.maintenanceRequests|].resolvedAt.None?
              && r.1 == ""
    ensures r.0 == s.(maintenanceRequests := r.0.maintenanceRequests)
  {
    match TenantAssignmentOf(s.assignments, UserId(s.currentUser))
    case None => (s, description)
    case Some(a) =>
      (AddMaintenanceRequest(s, a.unitId, s.currentUser.value.id, description, RequestPending, None, stamp, today), "")
  }

  /** A filed request joins the end of the tenant's pending list; the resolved list is untouched. */
  lemma SubmittedRequestIsPending(s: State, description: string, stamp: nat, today: string)
    requires !ShowsNoUnit(s)
    ensures var s' := HandleSubmit(s, description, stamp, today).0;
            PendingRequests(s') == PendingRequests(s) + [s'.maintenanceRequests[|s.maintenanceRequests|]]
            && ResolvedRequests(s') == ResolvedRequests(s)
  {
    var s' := HandleSubmit(s, description, stamp, today).0;
    var me := UserId(s.currentUser);
    var q := s'.maintenanceRequests[|s.maintenanceRequests|];
    assert s'.maintenanceRequests == s.maintenanceRequests + [q];
    assert IsMe(q.tenantId, me);
    var mine := (x: MaintenanceRequest) => IsMe(x.tenantId, me);
    FilterAppend(s.maintenanceRequests, q, mine);
    var before := TenantRequests(s.maintenanceRequests, me);
    FilterAppend(before, q, (x: MaintenanceRequest) => x.status == RequestPending);
    FilterAppend(before, q, (x: MaintenanceRequest) => x.status == RequestResolved);
  }
}

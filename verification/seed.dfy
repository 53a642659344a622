/**
  The demonstration data the store starts with (src/context/AppContext.tsx),
  with rents in cents, and worked examples of the rules on it.
*/
module Seed {
  import opened Seqs
  import opened Types
  import opened Store
  import opened Calendar
  import RentRule
  import RentStatusTab
  import App

  const Users: seq<User> := [
    User("landlord-1", "landlord@test.com", "password123", Landlord, "John Landlord"),
    User("tenant-1", "tenant1@test.com", "password123", Tenant, "Sarah Tenant"),
    User("tenant-2", "tenant2@test.com", "password123", Tenant, "Mike Johnson"),
    User("tenant-3", "tenant3@test.com", "password123", Tenant, "Emma Davis")
  ]

  const Properties: seq<Property> := [
    Property("prop-1", "landlord-1", "Sunset Apartments", "123 Main St, Springfield", "2024-01-15"),
    Property("prop-2", "landlord-1", "Green Valley Complex", "456 Oak Ave, Springfield", "2024-02-01")
  ]

  const Units: seq<Unit> := [
    Unit("unit-1", "prop-1", "Unit 101", 120000, 1, 5),
    Unit("unit-2", "prop-1", "Unit 102", 135000, 1, 5),
    Unit("unit-3", "prop-1", "Unit 201", 110000, 1, 5),
    Unit("unit-4", "prop-2", "Unit A", 150000, 1, 3)
  ]

  const Assignments: seq<TenantAssignment> := [
    TenantAssignment("assign-1", "unit-1", "tenant-1", "2024-01-01", true),
    TenantAssignment("assign-2", "unit-2", "tenant-2", "2024-02-01", true),
    TenantAssignment("assign-3", "unit-3", "tenant-3", "2024-03-01", true)
  ]

  const Payments: seq<Payment> := [
    Payment("pay-1", "unit-1", "tenant-1", 120000, "2025-12-28", "2026-01", Completed),
    Payment("pay-2", "unit-2", "tenant-2", 135000, "2025-11-30", "2025-12", Completed)
  ]

  const Requests: seq<MaintenanceRequest> := [
    MaintenanceRequest("maint-1", "unit-1", "tenant-1", "Kitchen faucet is leaking", RequestPending, "2026-01-10", None),
    MaintenanceRequest("maint-2", "unit-3", "tenant-3", "Heater not working properly", RequestResolved, "2025-12-20", Some("2025-12-22"))
  ]

  /** The store before anyone signs in. */
  const Initial: State := State(None, Users, Properties, Units, Assignments, Payments, Requests, [])

  /** The demonstration landlord's credentials sign in and open the landlord dashboard. */
  lemma LandlordSignsIn(hasStarted: bool)
    ensures var (ok, s) := Login(Initial, "landlord@test.com", "password123");
            ok && s.currentUser == Some(Users[0])
            && App.SelectScreen(hasStarted, s.currentUser) == App.LandlordDashboard
  {
    assert HasCredentials(Users[0], "landlord@test.com", "password123");
  }

  /** A wrong password is refused and nobody is signed in. */
  lemma WrongPasswordRefused()
    ensures var (ok, s) := Login(Initial, "landlord@test.com", "secret");
            !ok && s == Initial
  {
    forall i | 0 <= i < |Users| ensures !HasCredentials(Users[i], "landlord@test.com", "secret") {
      assert Users[i].password == "password123";
    }
  }

  /** `"2026-01".split('-').map(Number)`. */
  lemma January2026Fields()
    ensures RentRule.IsMonthString("2026-01") && RentRule.MonthFields("2026-01") == (2026, 1)
  {
    assert "2026-01"[..4] == "2026" && "2026-01"[5..] == "01";
    assert "2026"[..3] == "202" && "202"[..2] == "20" && "20"[..1] == "2" && "2"[..0] == [];
    assert "01"[..1] == "0" && "0"[..0] == [];
  }

  /** Unit 101 has a completed payment for January 2026, so it is paid at any moment. */
  lemma Unit1PaidInJanuary(now: int)
    ensures RentRule.GetRentStatus(Units, Payments, "unit-1", "2026-01", now) == Paid
  {
    January2026Fields();
    assert RentRule.IsPaymentFor(Payments[0], "unit-1", "2026-01");
    assert Units[0].id == "unit-1";
    RentRule.CompletedPaymentMeansPaid(Units, Payments, "unit-1", "2026-01", now, 0);
  }

  /**
    Unit 102 (due on the 1st, five grace days, last paid for December) on
    January 2026: pending up to midnight of the 1st, in its grace period for
    all of the 3rd, and overdue from just after midnight on the 6th, so also
    on the 10th.
  */
  lemma Unit2InJanuary(ms: int)
    requires 0 <= ms < MsPerDay
    ensures RentRule.GetRentStatus(Units, Payments, "unit-2", "2026-01", Instant(MakeDay(2026, 0, 1), 0)) == Pending
    ensures RentRule.GetRentStatus(Units, Payments, "unit-2", "2026-01", Instant(MakeDay(2026, 0, 3), ms)) == OverdueGrace
    ensures RentRule.GetRentStatus(Units, Payments, "unit-2", "2026-01", Instant(MakeDay(2026, 0, 6), 0)) == OverdueGrace
    ensures RentRule.GetRentStatus(Units, Payments, "unit-2", "2026-01", Instant(MakeDay(2026, 0, 6), 1)) == OverdueLate
    ensures RentRule.GetRentStatus(Units, Payments, "unit-2", "2026-01", Instant(MakeDay(2026, 0, 10), ms)) == OverdueLate
  {
    January2026Fields();
    assert RentRule.DueDay(Units[1], "2026-01") == MakeDay(2026, 0, 1);
    assert !Any(Payments, (p: Payment) => RentRule.IsPaymentFor(p, "unit-2", "2026-01")) by {
      assert Payments[1].month == "2025-12";
      forall i | 0 <= i < |Payments| ensures !RentRule.IsPaymentFor(Payments[i], "unit-2", "2026-01") {
      }
    }
    assert Find(Units, (u: Unit) => u.id == "unit-2") == Some(Units[1]);
  }

  /**
    A unit due on the 1st with a grace period of 100,000,000 days: its grace
    end lies beyond the time-value limit and is an invalid date, so on
    2 January 2026 its unpaid January rent already reads as late.
  */
  lemma HugeGraceReadsLate()
    ensures var units := [Unit("unit-9", "prop-1", "Unit 9", 100000, 1, 100000000)];
            RentRule.GetRentStatus(units, [], "unit-9", "2026-01", Instant(MakeDay(2026, 0, 1), 0)) == Pending
            && RentRule.GetRentStatus(units, [], "unit-9", "2026-01", Instant(MakeDay(2026, 0, 2), 0)) == OverdueLate
  {
    var units := [Unit("unit-9", "prop-1", "Unit 9", 100000, 1, 100000000)];
    January2026Fields();
    assert MakeDay(2026, 0, 1) == 20454;
    assert Find(units, (u: Unit) => u.id == "unit-9") == Some(units[0]);
  }

  /**
    The rent overview reads the clock at every status call. Unit 102 (unpaid,
    due on the 1st, five grace days), read at its due instant by the overdue
    card's first call, a millisecond later by its second and two milliseconds
    later by the pending card, is on neither card, and it is not paid either:
    that render's cards count fewer units than it occupies.
  */
  lemma Unit2OnNoCard(paidAt: int)
    ensures var due := Instant(MakeDay(2026, 0, 1), 0);
            var t := RentStatusTab.Readings((u: Unit) => paidAt, (u: Unit) => due, (u: Unit) => due + 1,
                                            (u: Unit) => due + 2, (u: Unit) => due + 2);
            (paidAt <= due ==> RentStatusTab.InCallOrder(t))
            && !RentStatusTab.PaidTest(Units, Payments, "2026-01", t.paid)(Units[1])
            && !RentStatusTab.OverdueTest(Units, Payments, "2026-01", t.grace, t.late)(Units[1])
            && !RentStatusTab.PendingTest(Units, Payments, "2026-01", t.pending)(Units[1])
  {
    January2026Fields();
    assert MakeDay(2026, 0, 1) == 20454;
    assert RentRule.DueDay(Units[1], "2026-01") == MakeDay(2026, 0, 1);
    assert !Any(Payments, (p: Payment) => RentRule.IsPaymentFor(p, "unit-2", "2026-01")) by {
      assert Payments[1].month == "2025-12";
      forall i | 0 <= i < |Payments| ensures !RentRule.IsPaymentFor(Payments[i], "unit-2", "2026-01") {
      }
    }
    assert Find(Units, (u: Unit) => u.id == "unit-2") == Some(Units[1]);
    var due := Instant(MakeDay(2026, 0, 1), 0);
    assert Units[1].id == "unit-2";
    assert RentRule.GetRentStatus(Units, Payments, "unit-2", "2026-01", paidAt) != Paid;
    assert RentRule.GetRentStatus(Units, Payments, "unit-2", "2026-01", due) == Pending;
    assert RentRule.GetRentStatus(Units, Payments, "unit-2", "2026-01", due + 1) == OverdueGrace;
    assert RentRule.GetRentStatus(Units, Payments, "unit-2", "2026-01", due + 2) == OverdueGrace;
  }
}

# Rentify in Dafny

Rentify is a small rental-management web application. Landlords manage
properties, units and tenant assignments. Tenants pay rent, report
maintenance issues and give notice to vacate. All data lives in one
client-side store (`AppContext`). Each screen computes filtered and
aggregated views of that store.

This project models three parts of the application:

- **The store** (`src/context/AppContext.tsx`). The state is a record of
  sequences (users, properties, units, assignments, payments, maintenance
  requests, vacate notices) plus the signed-in user. `login`, `logout`, the
  six append operations and the two map-updates are pure `State -> State`
  functions. Each carries frame properties: one record appended at the end,
  everything else unchanged.
- **The rent-status rule** (`getRentStatus`). It classifies a unit's month as
  paid, pending, overdue-grace or overdue-late. Dates follow the JavaScript
  `Date` arithmetic of the ECMAScript language specification: DayFromYear,
  MakeDay, month and day overflow, and the two-digit-year rule of the
  constructor. The clock is a parameter.
- **The views.** These are the selections each landlord and tenant screen
  computes from the store:
  - landlord scoping;
  - occupied and vacant units;
  - pending and resolved requests;
  - rent counts and totals;
  - the last five payments;
  - the days-remaining clamp;
  - the screen routing of `App.tsx`.

  The form handlers of the screens are modelled as store transitions on top
  of the operations above.

Conventions:

- Money is whole cents (`int`).
- `Date.now()` becomes a parameter `stamp`, and ids are `prefix + decimal(stamp)`.
- The ISO date strings of `toISOString()` are parameters (`today`, `iso`).
- Every separate clock read is its own parameter. `getRentStatus` reads the clock on each call, so the rent cards take one reading per unit and per call (`RentStatusTab.Readings`), and a payment's month (from the render) and date (from the click) come from two timestamps.
- `currentUser?.id` is `Option<string>`. When nobody is signed in it is
  `None`, and no stored id equals it.

Modules, one per source file or concern:

| module | file | models |
|---|---|---|
| Seqs | seqs.dfy | `find`, `some`, `filter`, `reduce`, `slice(-n)` and `reverse` on arrays, with their laws |
| Decimal | decimal.dfy | decimal digit strings, `Number`/`parseInt`, `parseFloat` and `toString` on money |
| Types | types.dfy | the records and string unions of `src/types/index.ts` |
| Calendar | calendar.dfy | the day arithmetic of `Date` |
| Store | store.dfy | the store operations |
| RentRule | rent_rule.dfy | `getRentStatus` |
| Lookups | lookups.dfy | selections shared by several screens |
| RentStatusTab, UnitsTab, PropertiesTab, MaintenanceTab, VacateNoticesTab | *_tab.dfy | the landlord screens |
| TenantRentTab, TenantMaintenanceTab, TenantVacateTab | tenant_*_tab.dfy | the tenant screens |
| App | app.dfy | the screen routing |
| Seed | seed.dfy | the demonstration data, and worked examples on it |

The due date of the rent rule is local midnight at the start of the due
day, and the rule compares `now <= dueDate`. So any moment after midnight of
the due day is already "overdue-grace": with due day 1 and five grace days,
2026-01-03 reads "overdue-grace" (`RentRule.DueDayIsAlreadyOverdue`,
`Seed.Unit2InJanuary`). A `Date` whose time value lies more than
8.64e15 ms from the epoch is invalid, every comparison with it is false, and
such a due date or grace end turns the status into "overdue-late"
(`RentRule.BeyondTimeLimitIsLate`, `Seed.HugeGraceReadsLate`).

## Model

| member | source | states |
|---|---|---|
| Store.Login | src/context/AppContext.tsx:251-259 | login succeeds iff some user has exactly that email and password; the signed-in user is then the first such user; on failure the state is unchanged; nothing but `currentUser` ever changes |
| Store.Logout | src/context/AppContext.tsx:261-264 | nobody is signed in afterwards; every collection is unchanged |
| Store.AddProperty | src/context/AppContext.tsx:266-273 | exactly one property is appended, carrying the supplied fields, the `prop-` id and today's date; the earlier properties and all other collections are unchanged |
| Store.AddUnit | src/context/AppContext.tsx:275-281 | exactly one unit is appended with the supplied fields and a `unit-` id; nothing else changes |
| Store.AssignTenant | src/context/AppContext.tsx:283-289 | exactly one assignment is appended, unconditionally, even when the unit already has an active one; nothing else changes |
| Store.NewIdCollision | src/context/AppContext.tsx:269 | two generated ids with the same prefix are equal iff they were made at the same millisecond, so the ids are only as unique as the clock readings |
| Store.NewId | src/context/AppContext.tsx:269 | a generated id starts with its prefix (`prop-`, `unit-`, `assign-`, `pay-`, `maint-`, `vacate-`) followed by at least one character |
| Store.ApplyPatchLaws | src/context/AppContext.tsx:291-293 | the `{ ...u, ...updates }` override: an empty patch changes nothing, applying a patch twice is the same as once, and a full patch replaces every field |
| Store.UpdateUnit | src/context/AppContext.tsx:291-293 | length and order are kept; units with another id are untouched; each unit with the id is overridden field by field; other collections are unchanged |
| Store.MakePayment | src/context/AppContext.tsx:295-303 | exactly one payment is appended, always with status completed and dated today; nothing else changes |
| Store.AddMaintenanceRequest | src/context/AppContext.tsx:305-312 | exactly one request is appended with the supplied fields, a `maint-` id and today's date; nothing else changes |
| Store.SetRequestStatus | src/context/AppContext.tsx:317-322 | the request takes the new status; `resolvedAt` is present iff that status is resolved, and is then today; no other field changes |
| Store.UpdateMaintenanceRequest | src/context/AppContext.tsx:314-326 | length is kept; only requests with the id change, each as above; other collections are unchanged |
| Store.UpdatedRequestsCarryStatus | src/context/AppContext.tsx:314-326 | after an update, every request with the id has the new status, and every other request was already in the old list |
| Store.AddVacateNotice | src/context/AppContext.tsx:328-335 | exactly one notice is appended, even when one already exists for the same tenant and unit; nothing else changes |
| RentRule.MonthFieldsRoundTrip | src/context/AppContext.tsx:345 | `split('-').map(Number)` of a zero-padded `YYYY-MM` spelling reads back exactly the year and month number it was written from |
| RentRule.ClassifyUnpaid | src/context/AppContext.tsx:350-352 | pending iff the due date is valid and `now <= due`; overdue-grace iff not pending and the grace end is valid with `now <= graceEnd`; overdue-late otherwise, so an invalid date fails its comparison; never paid |
| RentRule.GetRentStatus | src/context/AppContext.tsx:337-353 | an unknown unit is pending; a known unit is paid iff a completed payment exists for that unit and month; otherwise the status is the unpaid classification against midnight of the due day and midnight of the day the grace period ends, each invalid beyond the time-value limit |
| RentRule.StatusMonotoneInTime | src/context/AppContext.tsx:344-352 | whether a month is paid does not depend on the clock, and the unpaid status never moves backwards (pending, then grace, then late) as time passes |
| RentRule.NoGraceNoGraceStatus | src/context/AppContext.tsx:347-351 | with zero (or negative) grace days, overdue-grace is never returned |
| RentRule.DueDayIsAlreadyOverdue | src/context/AppContext.tsx:346-350 | on the due day itself, any moment after midnight is already overdue-grace when there is at least one grace day and the grace end is a valid date |
| RentRule.BeyondTimeLimitIsLate | src/context/AppContext.tsx:346-352 | when the grace end lies beyond the time-value limit, every moment after the due instant reads overdue-late, never overdue-grace; a due date beyond the limit reads overdue-late at every moment |
| RentRule.CompletedPaymentMeansPaid | src/context/AppContext.tsx:341-342 | a completed payment for a known unit and month means paid, whatever the clock |
| RentRule.MakePaymentMarksPaid | src/context/AppContext.tsx:295-303 | after `makePayment` for an existing unit, that month of that unit reads paid at every moment |
| RentRule.TwoDigitYearsAreNineteenHundreds | src/context/AppContext.tsx:345-346 | a month spelled with year 0000 to 0099 falls due on the same day as the same month of year 1900 to 1999 ("0050-03" as "1950-03") |
| Calendar.YearStep | src/context/AppContext.tsx:346 | consecutive years start 365 or 366 days apart, following the Gregorian leap rule |
| Calendar.MonthStep | src/context/AppContext.tsx:346 | the first of the next month is exactly the month's length after the first of this month, across year ends too |
| Calendar.DayOverflowRollsOver | src/context/AppContext.tsx:346 | a due day past the end of its month rolls into the next month (day 31 of April is May 1st) |
| Calendar.TwelveMonthsIsNextYear | src/context/AppContext.tsx:346 | month index 12 on is the same day of the next year |
| Calendar.MakeDayMonotone | src/context/AppContext.tsx:346-348 | later days of the month get strictly later day numbers, so the grace end never precedes the due day |
| Calendar.NextDay | src/context/AppContext.tsx:348 | `setDate(getDate() + 1)` moves exactly one day on, whatever the month and year |
| Calendar.DaysInMonth | src/context/AppContext.tsx:346 | every month has between 28 and 31 days |
| Types.ParseUserRole | src/types/index.ts:1 | the role literals are exactly "landlord" and "tenant", and each reads back to its role |
| Types.ParsePaymentStatus | src/types/index.ts:43 | the payment-status literals are exactly "completed", "pending" and "failed" |
| Types.ParseMaintenanceStatus | src/types/index.ts:51 | the request-status literals are exactly "pending" and "resolved" |
| Types.ParseRentStatus | src/types/index.ts:64 | the rent-status literals are exactly "paid", "overdue-grace", "overdue-late" and "pending" |
| Types.SpellingsRoundTrip | src/types/index.ts:1-64 | every role and status reads back from its own literal |
| Decimal.ParseNatToDecimal | src/context/AppContext.tsx:269 | reading back the decimal spelling of `Date.now()` inside an id gives the same number |
| Decimal.NatToDecimalInjective | src/context/AppContext.tsx:269 | distinct numbers have distinct decimal spellings |
| Decimal.FormatCentsRoundTrip | src/app/components/tenant/TenantRentTab.tsx:160 | `parseFloat` of what `toString` wrote for an amount, negative or not, gives the same amount |
| Decimal.NatToDecimal | src/context/AppContext.tsx:269 | the decimal spelling of a number is a non-empty digit string with no leading zero |
| Decimal.FormatCents | src/app/components/tenant/TenantRentTab.tsx:160 | `toString` of an amount is always text the payment form accepts as an amount, with a leading minus sign exactly when the amount is negative |
| Decimal.ParseCents | src/app/components/landlord/UnitsTab.tsx:41 | `parseFloat` of an amount is negative only with a leading minus sign and never negative without one; a whole amount gives whole units (a multiple of 100 cents) |
| Lookups.LandlordProperties | src/app/components/landlord/PropertiesTab.tsx:18 | exactly the properties whose `landlordId` is the signed-in user's id; none when nobody is signed in |
| Lookups.LandlordPropertiesAppend | src/app/components/landlord/PropertiesTab.tsx:18 | the list keeps the order of the store: a property added at the end joins the end of the list exactly when the landlord owns it |
| Lookups.InLandlordPropertyMeans | src/app/components/landlord/RentStatusTab.tsx:9-12 | a unit is the landlord's iff some property with its `propertyId` names the landlord |
| Lookups.LandlordUnits | src/app/components/landlord/RentStatusTab.tsx:9-12 | exactly the units whose property the signed-in landlord owns; none when nobody is signed in |
| Lookups.LandlordUnitsAppend | src/app/components/landlord/RentStatusTab.tsx:9-12 | the list keeps the order of the store: a unit added at the end joins the end of the list exactly when it lies in one of the landlord's properties |
| Lookups.ActiveAssignmentOfUnit | src/app/components/landlord/RentStatusTab.tsx:27 | an active assignment for the unit is found iff one exists, and it is the first one in the list |
| Lookups.TenantAssignmentOf | src/app/components/tenant/TenantRentTab.tsx:19-21 | an active assignment of the signed-in tenant is found iff one exists, and it is the first one; never with nobody signed in |
| Lookups.UserNameOr | src/app/components/landlord/VacateNoticesTab.tsx:26-29 | the name of the first user with the id, or the fallback when that name is empty or no user has the id |
| Lookups.PropertyNameOr | src/app/components/landlord/RentStatusTab.tsx:21-24 | the name of the first property with the id, or the fallback when that name is empty or no property has the id |
| Lookups.PendingResolvedPartition | src/app/components/landlord/MaintenanceTab.tsx:22-23 | the pending and resolved lists of any request list add up to its length |
| Lookups.WithStatus | src/app/components/landlord/MaintenanceTab.tsx:22-23 | exactly the requests with the given status |
| Lookups.CurrentMonth | src/app/components/landlord/RentStatusTab.tsx:19 | `toISOString().slice(0, 7)` is always a well-formed `YYYY-MM` month, the prefix of the timestamp |
| RentStatusTab.OccupiedUnits | src/app/components/landlord/RentStatusTab.tsx:14-16 | exactly the landlord's units that have at least one active assignment |
| RentStatusTab.RentSummary | src/app/components/landlord/RentStatusTab.tsx:68-81 | each `getRentStatus` call reads the clock itself: the paid, overdue and pending cards count the occupied units whose status is paid at the paid-filter reading, overdue-grace at the first or overdue-late at the second overdue reading, and pending at the pending-filter reading; the expected rent is the sum of all occupied units' rents and the collected rent, though its filter reads the clock again, is the sum over exactly the paid card's units, since a paid unit is paid at every reading; the paid card being 0 makes it 0; with readings in call order the counts add up to at most the occupied units, and exactly to them when every reading of a unit agrees; with non-negative rents, 0 <= collected <= total |
| RentStatusTab.CardsCoverUnits | src/app/components/landlord/RentStatusTab.tsx:68-75 | readings taken in call order put each occupied unit on at most one card, so the card counts sum to at most the occupied units; readings that agree put it on exactly one, so they sum to the occupied units |
| RentStatusTab.PaidAtAnyReading | src/context/AppContext.tsx:344-348 | a unit paid for the month at one clock reading is paid at every reading, so the paid filter and the collected-rent filter select the same units |
| RentStatusTab.EveryOccupiedPaidMeansAllCollected | src/app/components/landlord/RentStatusTab.tsx:68-81 | whenever each call reads the clock, the paid card equals the number of occupied units iff every occupied unit reads paid; then nothing is overdue or pending and the collected rent equals the total |
| RentStatusTab.TenantName | src/app/components/landlord/RentStatusTab.tsx:26-33 | "No Tenant" without an active assignment; otherwise the name of the first user with the first active assignment's tenant id, or "Unknown Tenant" when there is no such user or the name is empty |
| RentStatusTab.AssignedTenantIsNamed | src/app/components/landlord/RentStatusTab.tsx:26-33 | after assigning a tenant to a unit with no active assignment, the unit's row names the first user with that tenant id, or "Unknown Tenant" when that name is empty |
| RentStatusTab.PropertyName | src/app/components/landlord/RentStatusTab.tsx:21-24 | the name of the first property with the id, or "Unknown" when there is none or its name is empty |
| RentStatusTab.AddedPropertyIsNamed | src/app/components/landlord/RentStatusTab.tsx:21-24 | a newly added property whose id no earlier property carries is shown under its name, or "Unknown" when the name is empty |
| RentStatusTab.BadgeTextDistinct | src/app/components/landlord/RentStatusTab.tsx:35-66 | the four statuses get four different badges |
| UnitsTab.AvailableTenants | src/app/components/landlord/UnitsTab.tsx:34 | exactly the users with role tenant |
| UnitsTab.TenantsAndLandlordsSplitUsers | src/app/components/landlord/UnitsTab.tsx:34 | every user is either offered for assignment or is a landlord |
| UnitsTab.HandleAddUnit | src/app/components/landlord/UnitsTab.tsx:36-53 | one unit is added with the chosen property, the name and the parsed rent (negative if typed so), due day and grace days; the form resets to due "1" and grace "5" |
| UnitsTab.InitialDueAndGrace | src/app/components/landlord/UnitsTab.tsx:17-23 | a unit added with the due and grace fields untouched is due on day 1 with 5 grace days |
| UnitsTab.AddedUnitIsListed | src/app/components/landlord/UnitsTab.tsx:29-32 | a unit added to one of the landlord's properties joins the end of the landlord's unit list |
| UnitsTab.HandleAssignTenant | src/app/components/landlord/UnitsTab.tsx:55-66 | one active assignment of the chosen tenant to the selected unit is added; the form and selection are cleared |
| UnitsTab.UnitTenant | src/app/components/landlord/UnitsTab.tsx:68-74 | null without an active assignment; otherwise found iff some user has the assignment's tenant id, and then it is the first such user |
| UnitsTab.UnknownTenantLooksVacant | src/app/components/landlord/UnitsTab.tsx:185-186 | an active assignment to an unknown tenant id leaves the card "Vacant" with the assign button, while the rent screen counts the unit as occupied |
| UnitsTab.AssignedTenantIsShown | src/app/components/landlord/UnitsTab.tsx:221 | after assigning a known tenant to a unit with no active assignment, the card shows that tenant and no assign button |
| UnitsTab.PropertyName | src/app/components/landlord/UnitsTab.tsx:76-79 | the name of the first property with the id, or "Unknown Property" when there is none or its name is empty |
| PropertiesTab.HandleSubmit | src/app/components/landlord/PropertiesTab.tsx:20-30 | with nobody signed in, nothing changes; otherwise one property owned by the signed-in user is added and the form is emptied |
| PropertiesTab.SubmittedPropertyIsListed | src/app/components/landlord/PropertiesTab.tsx:18-27 | a submitted property joins the end of the landlord's list, which stays empty while nobody is signed in |
| PropertiesTab.UnitsOf | src/app/components/landlord/PropertiesTab.tsx:33 | exactly the units whose `propertyId` is the property's id |
| PropertiesTab.PropertyStats | src/app/components/landlord/PropertiesTab.tsx:32-41 | the total is the number of the property's units and the occupied count the number of units that belong to the property and have an active assignment; occupied <= total |
| PropertiesTab.FullyOccupiedIff | src/app/components/landlord/PropertiesTab.tsx:34-39 | occupied equals total iff every unit of the property has an active assignment |
| PropertiesTab.AddedUnitCountsAsVacant | src/app/components/landlord/PropertiesTab.tsx:32-41 | adding a unit raises the total by one and, when no active assignment names the new id, leaves occupied unchanged |
| MaintenanceTab.LandlordRequests | src/app/components/landlord/MaintenanceTab.tsx:18-20 | exactly the requests for one of the landlord's units; none with nobody signed in |
| MaintenanceTab.LandlordRequestsAppend | src/app/components/landlord/MaintenanceTab.tsx:18-20 | the list keeps filing order: a request filed last joins the end of the list exactly when it concerns one of the landlord's units |
| MaintenanceTab.PendingRequests | src/app/components/landlord/MaintenanceTab.tsx:22 | only pending requests for the landlord's units |
| MaintenanceTab.ResolvedRequests | src/app/components/landlord/MaintenanceTab.tsx:23 | only resolved requests for the landlord's units |
| MaintenanceTab.StatCardsCoverRequests | src/app/components/landlord/MaintenanceTab.tsx:22-23 | the two stat cards add up to the landlord's requests |
| MaintenanceTab.MarkResolved | src/app/components/landlord/MaintenanceTab.tsx:96-99 | requests with the id become resolved, stamped today, on the same unit; all others are unchanged |
| MaintenanceTab.MarkResolvedPointwise | src/context/AppContext.tsx:314-326 | marking keeps every request on its unit and so in or out of the landlord's scope, resolves each request with the id, and never turns a request back to pending |
| MaintenanceTab.MarkedRequestLeavesPending | src/app/components/landlord/MaintenanceTab.tsx:72-98 | after marking, no request with the id stays on the pending list, so its button is gone |
| MaintenanceTab.MarkResolvedShrinksPending | src/app/components/landlord/MaintenanceTab.tsx:22 | marking never grows the pending count, and shrinks it when one of the landlord's pending requests had the id |
| MaintenanceTab.MarkResolvedGrowsResolved | src/app/components/landlord/MaintenanceTab.tsx:23 | marking never shrinks the resolved count, and grows it when one of the landlord's pending requests had the id |
| MaintenanceTab.TenantName | src/app/components/landlord/MaintenanceTab.tsx:31-34 | the name of the first user with the tenant id, or "Unknown" when there is none or the name is empty (the same lookup as VacateNoticesTab.tsx:26-29) |
| VacateNoticesTab.LandlordNotices | src/app/components/landlord/VacateNoticesTab.tsx:16-18 | exactly the notices for one of the landlord's units; none with nobody signed in |
| VacateNoticesTab.LandlordNoticesAppend | src/app/components/landlord/VacateNoticesTab.tsx:16-18 | the list keeps filing order: a notice filed last joins the end of the list exactly when it concerns one of the landlord's units |
| VacateNoticesTab.FiledNoticeIsListed | src/app/components/landlord/VacateNoticesTab.tsx:11-18 | a notice filed for one of the landlord's units joins the end of the landlord's list |
| VacateNoticesTab.Badge | src/app/components/landlord/VacateNoticesTab.tsx:55-66 | "Vacated" iff the date is past; otherwise "n days left", where n spells the days remaining and reads back to it |
| TenantRentTab.TenantUnit | src/app/components/tenant/TenantRentTab.tsx:19-22 | found iff the signed-in tenant has an active assignment and some unit carries its unit id; then it is the first such unit for the first such assignment; none with nobody signed in |
| TenantRentTab.AssignedUnitIsShown | src/app/components/tenant/TenantRentTab.tsx:19-22 | once the signed-in tenant with no active assignment is assigned to a unit, the view shows the first unit with that id |
| TenantRentTab.TenantProperty | src/app/components/tenant/TenantRentTab.tsx:23 | found iff there is a unit and some property carries its property id; then it is the first such property |
| TenantRentTab.ShownRentStatus | src/app/components/tenant/TenantRentTab.tsx:25-26 | null iff there is no unit; otherwise the unit's status for the month |
| TenantRentTab.GetStatusInfo | src/app/components/tenant/TenantRentTab.tsx:47-93 | each status shows the same badge text as on the landlord's rent screen |
| TenantRentTab.StatusInfoDistinct | src/app/components/tenant/TenantRentTab.tsx:47-93 | different statuses read differently; a null status reads exactly as pending |
| TenantRentTab.PrefilledForm | src/app/components/tenant/TenantRentTab.tsx:160 | the amount field pre-filled from any rent, negative included, is a valid amount that parses back to the rent |
| TenantRentTab.HandlePayment | src/app/components/tenant/TenantRentTab.tsx:25-45 | without a unit nothing changes; otherwise one completed payment is added for the tenant's unit and id, the month of the render that drew the dialog, the date of the click and the entered amount (negative if typed so), and the form is cleared |
| TenantRentTab.PaymentAcrossMidnight | src/app/components/tenant/TenantRentTab.tsx:25-45 | a dialog drawn at 23:59:59.999 on 31 January 2026 and submitted at 00:00:00.001 on 1 February records a January payment dated 2026-02-01 |
| TenantRentTab.PaymentMarksMonthPaid | src/app/components/tenant/TenantRentTab.tsx:157 | after paying, the month the dialog was drawn for reads paid at any moment and the pay button is no longer offered for it |
| TenantRentTab.PrefilledPaymentPaysRent | src/app/components/tenant/TenantRentTab.tsx:160 | paying the pre-filled amount records exactly the unit's rent |
| TenantRentTab.TenantPayments | src/app/components/tenant/TenantRentTab.tsx:28 | exactly the signed-in tenant's payments |
| TenantRentTab.PaymentHistory | src/app/components/tenant/TenantRentTab.tsx:28-29 | the history lists the last min(5, n) of the tenant's n payments, newest first |
| TenantRentTab.NewPaymentHeadsHistory | src/app/components/tenant/TenantRentTab.tsx:215 | after paying, the history opens with the new payment |
| TenantMaintenanceTab.TenantRequests | src/app/components/tenant/TenantMaintenanceTab.tsx:22 | exactly the requests filed by the signed-in tenant, whatever their unit |
| TenantMaintenanceTab.CountersCoverRequests | src/app/components/tenant/TenantMaintenanceTab.tsx:23-24 | the pending and resolved counters add up to the tenant's requests |
| TenantMaintenanceTab.HandleSubmit | src/app/components/tenant/TenantMaintenanceTab.tsx:26-39 | without an active assignment nothing changes; otherwise one pending, unresolved request is added for the assignment's unit in the tenant's name, and the description is cleared |
| TenantMaintenanceTab.SubmittedRequestIsPending | src/app/components/tenant/TenantMaintenanceTab.tsx:22-24 | a filed request joins the end of the pending list, and the resolved list is unchanged |
| TenantVacateTab.SameUnitAsRentTab | src/app/components/tenant/TenantVacateTab.tsx:18-20 | the vacate view's assigned unit id and the rent view's unit agree: the unit is found iff an assignment exists and some unit carries its id, and then it is that unit |
| TenantVacateTab.ExistingNotice | src/app/components/tenant/TenantVacateTab.tsx:25-27 | found iff some notice is by the signed-in tenant for the assigned unit, and then it is the first such notice |
| TenantVacateTab.HandleSubmit | src/app/components/tenant/TenantVacateTab.tsx:29-41 | without an assignment nothing changes; otherwise one notice is added for the assigned unit in the tenant's name, and the date field is cleared |
| TenantVacateTab.FiledNoticeExists | src/app/components/tenant/TenantVacateTab.tsx:85 | after filing, a notice exists and the form is withdrawn; an earlier notice stays the one shown |
| TenantVacateTab.DuplicateNoticesKept | src/app/components/tenant/TenantVacateTab.tsx:29-36 | filing again stores a second notice for the same tenant and unit; the store does not deduplicate |
| TenantVacateTab.TenantAndLandlordAgree | src/app/components/tenant/TenantVacateTab.tsx:111 | while the date is ahead, the landlord's badge spells the tenant's day count; once past, the landlord sees "Vacated" and the tenant sees 0 |
| TenantVacateTab.DaysShown | src/app/components/tenant/TenantVacateTab.tsx:111 | the day count shown is the days remaining while they are not negative, and 0 for a past date or no count |
| App.SelectScreen | src/app/App.tsx:9-29 | landing iff not started and nobody signed in; login iff started and nobody signed in; a dashboard iff someone is signed in, of that user's role |
| App.LoginOpensDashboard | src/app/App.tsx:14-28 | a successful login opens the dashboard for the role of the first user with those credentials, whatever `hasStarted` is; a failed one changes no screen |
| App.LogoutLeavesDashboard | src/app/App.tsx:14-21 | after logout, the login page shows if "Get Started" was pressed, otherwise the landing page; never a dashboard |
| Seed.LandlordSignsIn | src/context/AppContext.tsx:38-45 | the demonstration landlord's credentials sign in and open the landlord dashboard |
| Seed.Unit1PaidInJanuary | src/context/AppContext.tsx:145-153 | unit-1, paid for 2026-01, reads paid at every moment |
| Seed.WrongPasswordRefused | src/context/AppContext.tsx:251-259 | a wrong password for the demonstration landlord is refused and leaves the store as it was |
| Seed.January2026Fields | src/context/AppContext.tsx:345 | `"2026-01".split('-').map(Number)` reads year 2026 and month 1 |
| Seed.Unit2InJanuary | src/context/AppContext.tsx:337-353 | unit-2 in 2026-01 is pending at midnight of the 1st, in grace throughout the 3rd and at midnight of the 6th, and late just after it and on the 10th |
| Seed.Unit2OnNoCard | src/app/components/landlord/RentStatusTab.tsx:68-75 | on the seed data, unit-2 (unpaid, due on the 1st, five grace days), read at the due instant and one millisecond later by the overdue filter's two calls and two milliseconds later by the pending filter, is on none of the paid, overdue and pending cards, so the cards count fewer units than are occupied |
| Seed.HugeGraceReadsLate | src/context/AppContext.tsx:346-352 | a unit due on the 1st with 100,000,000 grace days is pending at midnight of 2026-01-01 and already overdue-late at midnight of the 2nd |

## Left out

- The `localStorage` load and mirror effects (src/context/AppContext.tsx:188-249) are persistence I/O with no logic.
- React hooks, context plumbing, JSX, toasts and dialog open/close state are left out. They are presentation.
- The landing, login and dashboard shell components, the page wrapper and the build configuration are not part of this model.
- `Date.now()`, `new Date()` and `toISOString()` are parameters. Ids are not claimed unique, because the code does not make them so.
- Time zones and daylight saving are left out. The code builds the due date in local time but takes the month from the UTC `toISOString()`; the model treats every time value as local wall-clock time.
- date-fns `differenceInDays` and `format` are left out: days-until-vacate is an input.
- `getUnitInfo` (the "unit - property" caption) is left out. It is string display only.
- Browser form constraints (`required`, the `min` and `max` of the due-day and grace fields) are left out; the model accepts every well-formed value, so it allows more than the browser does.
- `parseFloat` spellings other than an optional minus sign, digits and at most two decimals are left out: ".5", "1e3", "1.500", a leading "+" or surrounding spaces, which the `type="number"` inputs also accept. `parseInt` on the due-day and grace fields is modelled for plain digit strings only.
- The card number field of the payment form is neither validated nor stored by the code; it is left out.
- Floating-point money is not modelled. Amounts are whole cents, with at most two decimals in the text.
- RentRule.GetRentStatus: requires the month as four digits, a dash and two digits. Other spellings are not modelled: "2026-1" is computed normally by the code, "26-01" reads as year 1926, and text that `Number` turns into NaN gives an invalid date and overdue-late.
- Store.ApplyPatchLaws: a patch field is either absent or a value. A key explicitly set to `undefined` in `updates` would overwrite the field in the code; the model does not express that case.
- `Unit.dueDate` is documented as 1 to 31 but not enforced. The model accepts any integer and rolls it into the neighbouring months by the day arithmetic of `Date`; a due date or grace end beyond the time-value limit is an invalid date (see `RentRule.BeyondTimeLimitIsLate`). Local time, daylight saving and the time-value limit on the local-to-UTC conversion are not modelled.
- The `getStatusBadge` and `getStatusInfo` icons and colours are left out. Only the badge texts and messages are modelled.

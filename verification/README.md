# VenueSync ticketing core, in Dafny

VenueSync sells event tickets. Organizers publish events with ticket types and sales windows; attendees buy tickets and carry a QR code; staff admit ticket holders at the door. This project models the rule sets at the heart of both halves of the system and proves properties about them:

- **Back end (Spring).**
  - purchase admission (the sales window, then capacity);
  - the door-validation state machine and its controller;
  - the ticket and event queries and bulk updates, as filters and maps over in-memory tables;
  - the scheduled expiry and completion jobs;
  - the de-duplicating sample-data loader.
- **Front end (React).**
  - the wall-clock date-time codec and the event editor's form logic;
  - the pagination window;
  - the router table with its two guards;
  - the `redirectPath` hand-off between the guards and the sign-in callback;
  - the role-priority redirects of the dashboard, the organizers' landing page and the navigation bar;
  - the help-center search;
  - the ticket-list statistics;
  - the `isErrorResponse` guard and the status enumerations.

Everything is immutable datatypes and pure functions, with two exceptions: the sample-data builders are methods with loops. A repository is a sequence of records. The current time, the roles, the authentication flags, `localStorage` (a `map<string, string>`) and foreign functions are explicit parameters: `UUID.fromString`, the host's `new Date(string)` and date-fns `format` all come in this way.

Files, one module per source component unless noted:

| file | module(s) | models |
|---|---|---|
| `wrappers.dfy` | `Wrappers` | `Option`, `Result` and sequence helpers |
| `strings.dfy` | `Strings` | decimal digits, `padStart`, `split`/`join`, ASCII `toLowerCase`, `includes` |
| `domain.dfy` | `Domain` | status and method enumerations, JSON values, `isErrorResponse` |
| `date_utils.dfy` | `DateUtils` | `date-utils.ts` |
| `manage_event.dfy` | `ManageEvent` | the event editor page |
| `pagination.dfy` | `Pagination` | the pagination component |
| `entities.dfy` | `Entities` | the JPA entities as records; the database as tables |
| `ticket_repository.dfy` | `TicketRepository` | `TicketRepository` queries and update |
| `ticket_service.dfy` | `TicketService`, `TicketController`, `TicketExpiration` | ticket listing, lookup and expiry |
| `event_repository.dfy` | `EventRepository`, `EventStatusService` | event search and completion |
| `purchase.dfy` | `Purchase` | `TicketTypeServiceImpl.purchaseTicket` |
| `validation.dfy` | `Validation`, `ValidationController` | ticket validation |
| `data_loader.dfy` | `DataLoader` | the sample-data loader |
| `routes.dfy` | `Routes` | router table, guards, callback, dashboard redirect |
| `role_pages.dfy` | `OrganizerLandingPage`, `NavBar` | landing page call to action, navigation bar |
| `help_center.dfy` | `HelpCenter` | FAQ search and expand state |
| `ticket_stats.dfy` | `TicketStats` | the attendee's ticket list page |

## Model

| member | source | states |
|---|---|---|
| Domain.EventStatusRoundTrip | frontend/src/domain/domain.ts:15-20 | each event status's wire name reads back to that status, so the four names are distinct |
| Domain.TicketStatusRoundTrip | frontend/src/domain/domain.ts:155-160 | each ticket status's wire name reads back to that status |
| Domain.ValidationStatusRoundTrip | frontend/src/domain/domain.ts:193-198 | each validation status's wire name reads back to that status |
| Domain.ValidationMethodRoundTrip | frontend/src/domain/domain.ts:188-191 | each validation method's wire name reads back to that method |
| Domain.EnumsClosed | frontend/src/domain/domain.ts:15-198 | the enumerations are closed, with 4, 4, 4 and 2 pairwise distinct constants |
| Domain.ParseTicketStatus | frontend/src/domain/domain.ts:155-160 | a parsed name is the wire name of the result; an unparsed one names no status |
| Domain.IsErrorResponseExactly | frontend/src/domain/domain.ts:6-12 | false for null or undefined, for non-objects and for objects without `error`; true exactly when `error` is a string |
| DateUtils.ParseWallClockDate | frontend/src/lib/date-utils.ts:21-47 | undefined exactly for absent or empty input; a `Date` comes back unchanged; a wire-format prefix gives the digit values as local fields, with the month made 0-based and a year below 100 read as 1900 plus that year, as `new Date` does; other text goes to the host parser |
| DateUtils.TrailingIgnored | frontend/src/lib/date-utils.ts:28-42 | text after the seconds, such as `.000`, does not change the parse |
| DateUtils.ParseToWire | frontend/src/lib/date-utils.ts:21-47 | printing a valid date in wire format and parsing it gives the same date |
| DateUtils.ToWireParse | frontend/src/lib/date-utils.ts:21-47 | parsing a valid wire text and printing it gives the same text |
| DateUtils.FormatWallClockDate | frontend/src/lib/date-utils.ts:57-65 | "" for absent or empty input; a `Date` goes to the formatter as it is; non-empty text goes to the formatter as `parseWallClockDate` reads it, which for text not in wire format is the host parse |
| DateUtils.FormatIsZoneIndependent | frontend/src/lib/date-utils.ts:57-65 | a wire text is formatted the same under any host time zone |
| DateUtils.SearchTime | frontend/src/lib/date-utils.ts:75 | the leftmost `T\d\d:\d\d` match, or none when there is no match anywhere |
| DateUtils.SearchDate | frontend/src/pages/dashboard-manage-event-page.tsx:234 | the leftmost `\d{4}-\d{2}-\d{2}` match, or none when there is no match anywhere |
| DateUtils.ExtractTime | frontend/src/lib/date-utils.ts:72-87 | "" for absent or empty input; on a `T\d\d:\d\d` match, exactly those four digits as `HH:MM` |
| DateUtils.ExtractTimeAgreesWithParse | frontend/src/lib/date-utils.ts:72-87 | on a valid wire text the regex fast path equals the hour and minute of the full parse |
| DateUtils.ExtractDateOnly | frontend/src/lib/date-utils.ts:94-103 | undefined exactly for absent or empty input; a leading date gives that date at midnight, a year below 100 read as 1900 plus that year; any other non-empty text is handed to `parseWallClockDate` |
| DateUtils.ExtractDateAgreesWithParse | frontend/src/lib/date-utils.ts:94-103 | on a valid wire text the fast path equals the full parse with the time set to midnight |
| DateUtils.TimeParts | frontend/src/lib/date-utils.ts:117 | `time.split(':')` with missing parts defaulted: a time without a colon has minutes `"00"` |
| DateUtils.CombineToLocalDateTime | frontend/src/lib/date-utils.ts:111-120 | the result always ends in `":00"` |
| DateUtils.CombinePadsTime | frontend/src/lib/date-utils.ts:117-119 | a one- or two-character hour and minute are each padded to two characters with leading zeros and end the result as `HH:MM:00` |
| DateUtils.CombineDefaultsMinutes | frontend/src/lib/date-utils.ts:117-119 | a time without a colon is composed exactly as that hour with minutes `00` |
| DateUtils.CombineFields | frontend/src/lib/date-utils.ts:111-120 | on a four-digit year and an `HH:MM` text: the year, then month and day padded to two digits, then the hour and minute |
| DateUtils.CombinePadsExample | frontend/src/lib/date-utils.ts:111-120 | the documented example `(2025-01-05, "9:5")` gives `2025-01-05T09:05:00` |
| DateUtils.ParseCombine | frontend/src/lib/date-utils.ts:111-120 | what the composer produces parses back to the date's fields and the given hour and minute, seconds zero |
| DateUtils.CombineExtractRoundTrip | frontend/src/lib/date-utils.ts:72-120 | combining the extracted date and extracted time of a zero-seconds wire text gives the text back |
| ManageEvent.FormatTimeFromDate | frontend/src/pages/dashboard-manage-event-page.tsx:216-224 | the first `T\d\d:\d\d` as `HH:MM`, else the host parse's hour and minute |
| ManageEvent.FormatTimeAgreesWithExtractTime | frontend/src/pages/dashboard-manage-event-page.tsx:216-224 | the page's time helper equals the shared `extractTime` on every non-empty text |
| ManageEvent.ParseDateFromString | frontend/src/pages/dashboard-manage-event-page.tsx:231-239 | midnight of the first date found anywhere in the text, a year below 100 read as 1900 plus that year, else the host parse |
| ManageEvent.ParseDateAgreesWithExtractDateOnly | frontend/src/pages/dashboard-manage-event-page.tsx:231-239 | on a text starting with a date, the page's date helper equals the shared `extractDateOnly` |
| ManageEvent.InlineTimeParts | frontend/src/pages/dashboard-manage-event-page.tsx:247 | destructuring `time.split(":")` leaves minutes `undefined` when there is no colon |
| ManageEvent.CombineDateTime | frontend/src/pages/dashboard-manage-event-page.tsx:243-252 | the result always ends in `":00"` |
| ManageEvent.CombineDateTimeOnTwoDigits | frontend/src/pages/dashboard-manage-event-page.tsx:243-252 | on an `HH:MM` text the page's composer equals the shared `combineToLocalDateTime` |
| ManageEvent.TimeInputFields | frontend/src/pages/dashboard-manage-event-page.tsx:243-252 | a non-empty time-input value is two digits, a colon and two digits |
| ManageEvent.DateFieldAsWritten | frontend/src/pages/dashboard-manage-event-page.tsx:278-294 | a date field is sent iff its switch is on and a date is set; a missing time is sent as `00:00` |
| ManageEvent.ClearedTimeBreaksRequest | frontend/src/pages/dashboard-manage-event-page.tsx:278-294 | as written, a cleared time input (`""`) produces `...T:undefined:00`, which is not a local date-time |
| ManageEvent.EffectiveTime | frontend/src/pages/dashboard-manage-event-page.tsx:278-294 | the time used is never empty: a present time is kept, an absent or empty one becomes `00:00`; when the input is empty or `HH:MM`, the time used is `HH:MM` |
| ManageEvent.DateField | frontend/src/pages/dashboard-manage-event-page.tsx:278-294 | the corrected field: sent iff the switch is on and a date is set; identical to the written code unless the time input was cleared |
| ManageEvent.DateFieldIsWire | frontend/src/pages/dashboard-manage-event-page.tsx:278-294 | an enabled field with a valid date is a wire text that parses to that date and the effective time |
| ManageEvent.TempIds | frontend/src/pages/dashboard-manage-event-page.tsx:111-112 | a generated id is temporary; an id not starting with `t` is not |
| ManageEvent.SaveTicketType | frontend/src/pages/dashboard-manage-event-page.tsx:348-364 | an entry with an id replaces the first entry with that id in place and leaves every other entry and the length alone; an unknown id changes nothing; an entry without an id is appended under a fresh `temp_` id |
| ManageEvent.DeleteTicketType | frontend/src/pages/dashboard-manage-event-page.tsx:582 | the kept entries are exactly those with a different id, in their order and with their multiplicity |
| ManageEvent.DeleteUndoesAdd | frontend/src/pages/dashboard-manage-event-page.tsx:348-364 | deleting a just-added entry by its temporary id restores the list |
| ManageEvent.UpdateTicketTypes | frontend/src/pages/dashboard-manage-event-page.tsx:267-273 | one request per entry, in order; temporary ids become undefined and server ids are kept |
| ManageEvent.CreateTicketTypes | frontend/src/pages/dashboard-manage-event-page.tsx:303-308 | one request per entry, in order, none carrying an id |
| ManageEvent.Submit | frontend/src/pages/dashboard-manage-event-page.tsx:254-333 | authentication is required while auth is loading or there is no token; otherwise an update iff the route and the form carry an id, else a create; every date goes through its switch and `time ?? "00:00"`, as written |
| ManageEvent.SubmitFixed | frontend/src/pages/dashboard-manage-event-page.tsx:254-333 | the corrected submission: same kind of request as `Submit`, with every date through the corrected field, and the same request as `Submit` whenever no time input is cleared |
| ManageEvent.LoadEvent | frontend/src/pages/dashboard-manage-event-page.tsx:176-204 | the form copies the event; a switch is on iff one of its two dates is present; a date is loaded iff its text is present |
| ManageEvent.DateFieldRoundTrip | frontend/src/pages/dashboard-manage-event-page.tsx:176-294 | an absent date, or a zero-seconds wire text, survives loading into the form and saving |
| ManageEvent.LoadThenSave | frontend/src/pages/dashboard-manage-event-page.tsx:176-308 | opening an event and saving it unchanged sends back the same dates, fields and ticket types, with server ids kept |
| Pagination.SmallTotalShowsAll | frontend/src/components/common/pagination.tsx:21-23 | up to seven pages yields exactly `0 .. totalPages-1` |
| Pagination.LargeTotalEnds | frontend/src/components/common/pagination.tsx:25-42 | over seven pages the first entry is page 0 and the last is the last page |
| Pagination.PageNumbersIncreasing | frontend/src/components/common/pagination.tsx:25-44 | the page entries strictly increase and name existing pages |
| Pagination.AtMostSeven | frontend/src/components/common/pagination.tsx:21-44 | at most seven entries |
| Pagination.PageNumbersShowCurrent | frontend/src/components/common/pagination.tsx:32-35 | the current page and its in-range neighbours always appear |
| Pagination.EllipsesAsWritten | frontend/src/components/common/pagination.tsx:28-39 | as written, the leading ellipsis appears iff `currentPage > 3`, the trailing one iff `currentPage < totalPages-4`, and nowhere else |
| Pagination.AsWrittenSkipsPages | frontend/src/components/common/pagination.tsx:28-39 | as written, with ten pages, page 1 is hidden without an ellipsis at page 3, and page 8 at page 6 |
| Pagination.PageNumbersMarkGaps | frontend/src/components/common/pagination.tsx:28-39 | with the corrected tests, consecutive entries are adjacent pages or are separated by an ellipsis |
| Pagination.WindowEllipsesHide | frontend/src/components/common/pagination.tsx:28-39 | with the corrected tests, every ellipsis stands for at least one hidden page |
| Pagination.CorrectionOnlyAtBoundaries | frontend/src/components/common/pagination.tsx:28-39 | the corrected and written windows differ only at `currentPage = 3` and `currentPage = totalPages-4` |
| Pagination.Render | frontend/src/components/common/pagination.tsx:16-96 | nothing for one page or fewer; Previous is enabled iff not `first` and requests `number-1`; Next is enabled iff not `last` and requests `number+1`; the entries are the window as written |
| Pagination.RenderFixed | frontend/src/components/common/pagination.tsx:16-96 | the corrected component: the same buttons, the corrected window with every gap marked, and the same view as `Render` except at the two boundary pages |
| Pagination.RequestsStayInRange | frontend/src/components/common/pagination.tsx:55-96 | for a page in range, every enabled button and every entry names an existing page, and the current page is listed, as written and corrected |
| Purchase.PurchaseTicket | backend/src/main/java/com/fullstack/tickets/services/impl/TicketTypeServiceImpl.java:36-85 | an unknown user fails first, then an unknown type; then not started, sales ended, event ended and sold out, each exactly when the earlier checks pass and its own bound is crossed (bounds inclusive, a null bound imposes nothing, a null capacity is unlimited); success appends one PURCHASED ticket for that type and user |
| Purchase.SalesPeriodMessage | backend/src/main/java/com/fullstack/tickets/services/impl/TicketTypeServiceImpl.java:54-66 | exactly the three sales-period failures carry a message |
| Purchase.PurchaseCounts | backend/src/main/java/com/fullstack/tickets/services/impl/TicketTypeServiceImpl.java:68-84 | success raises the type's sold count by one and keeps it within `totalAvailable`; other types' counts are unchanged |
| Purchase.PurchaseKeepsLinked | backend/src/main/java/com/fullstack/tickets/services/impl/TicketTypeServiceImpl.java:76-84 | a purchase keeps every reference resolvable, and the new ticket is found by its id |
| Validation.FindActiveQrCode | backend/src/main/java/com/fullstack/tickets/services/impl/TicketValidationServiceImpl.java:32 | a QR code with that id and status ACTIVE, or none when there is no such row |
| Validation.Verdict | backend/src/main/java/com/fullstack/tickets/services/impl/TicketValidationServiceImpl.java:52-81 | EXPIRED iff the ticket is EXPIRED or its event has ended; otherwise ALREADY_USED iff it is USED or has a VALID record; never INVALID |
| Validation.ValidateTicket | backend/src/main/java/com/fullstack/tickets/services/impl/TicketValidationServiceImpl.java:46-90 | one record with the verdict is appended; an EXPIRED ticket and an ALREADY_USED verdict leave the tickets alone; an ended event marks the ticket EXPIRED; VALID marks it USED |
| Validation.ValidateByQrCode | backend/src/main/java/com/fullstack/tickets/services/impl/TicketValidationServiceImpl.java:31-44 | INVALID with no ticket iff no ACTIVE QR code has the id; otherwise the record names the code's ticket; always QR_SCAN and one record appended |
| Validation.ValidateManually | backend/src/main/java/com/fullstack/tickets/services/impl/TicketValidationServiceImpl.java:93-105 | INVALID with no ticket iff no ticket has the id; always MANUAL and one record appended |
| Validation.NeverValidTwice | backend/src/main/java/com/fullstack/tickets/services/impl/TicketValidationServiceImpl.java:52-89 | validating the same ticket twice in a row never yields VALID twice |
| Validation.QrNeverValidTwice | backend/src/main/java/com/fullstack/tickets/services/impl/TicketValidationServiceImpl.java:31-89 | scanning the same QR code twice in a row never yields VALID twice |
| Validation.CancelledTicketAdmitted | backend/src/main/java/com/fullstack/tickets/services/impl/TicketValidationServiceImpl.java:52-87 | a CANCELLED ticket of a running event with no VALID record is admitted and becomes USED |
| Validation.UsedAfterEndExpires | backend/src/main/java/com/fullstack/tickets/services/impl/TicketValidationServiceImpl.java:58-66 | a USED ticket of an ended event gets EXPIRED and is overwritten to EXPIRED |
| ValidationController.HandleValidation | backend/src/main/java/com/fullstack/tickets/controllers/TicketValidationController.java:30-53 | a null or unparseable id gives INVALID with no service call and no change; otherwise the response is the one record the service appended, via MANUAL iff the method is MANUAL |
| ValidationController.Dispatch | backend/src/main/java/com/fullstack/tickets/controllers/TicketValidationController.java:45-49 | MANUAL looks the id up among tickets; any other method, null included, among ACTIVE QR codes |
| TicketRepository.CountByTicketTypeId | backend/src/main/java/com/fullstack/tickets/repositories/TicketRepository.java:19 | zero exactly when no ticket has the type; never more than the table |
| TicketRepository.CountAfterAppend | backend/src/main/java/com/fullstack/tickets/repositories/TicketRepository.java:19 | appending a ticket raises its own type's count by one and no other type's count |
| TicketRepository.FindByIdAndPurchaserId | backend/src/main/java/com/fullstack/tickets/repositories/TicketRepository.java:23 | a ticket only if that purchaser owns it; none iff there is no such row |
| TicketRepository.FindByPurchaserId | backend/src/main/java/com/fullstack/tickets/repositories/TicketRepository.java:21 | exactly the purchaser's tickets, in table order: the table filtered by purchaser |
| TicketRepository.SortByStart | backend/src/main/java/com/fullstack/tickets/repositories/TicketRepository.java:35-51 | a permutation of the rows, sorted by event start |
| TicketRepository.FindActiveTickets | backend/src/main/java/com/fullstack/tickets/repositories/TicketRepository.java:29-41 | exactly the purchaser's tickets in the status whose event has no end or ends after `now`, ascending by start; as a multiset it is exactly the filter of the table, so each matching row comes back as often as it is stored |
| TicketRepository.FindPastTickets | backend/src/main/java/com/fullstack/tickets/repositories/TicketRepository.java:46-57 | exactly the purchaser's tickets whose status is listed or whose event ended at or before `now`, descending by start; as a multiset it is exactly the filter of the table |
| TicketRepository.ExpireTicketsForEndedEvents | backend/src/main/java/com/fullstack/tickets/repositories/TicketRepository.java:63-72 | exactly the rows in `currentStatus` whose event end is set and before `now` get `newStatus` and `updatedAt = now`; every other row is unchanged; the result is that row count |
| TicketService.ListTicketsForUser | backend/src/main/java/com/fullstack/tickets/services/impl/TicketServiceImpl.java:23-25 | exactly the user's tickets |
| TicketService.ListActiveTicketsForUser | backend/src/main/java/com/fullstack/tickets/services/impl/TicketServiceImpl.java:28-35 | the active query with status PURCHASED and the given `now`: exactly the user's joined PURCHASED tickets whose event has not ended, each as often as stored, ascending by start |
| TicketService.ListPastTicketsForUser | backend/src/main/java/com/fullstack/tickets/services/impl/TicketServiceImpl.java:38-50 | the past query with statuses USED, EXPIRED and CANCELLED: exactly the user's joined tickets that are not PURCHASED or whose event has ended, each as often as stored, descending by start |
| TicketService.GetTicketForUser | backend/src/main/java/com/fullstack/tickets/services/impl/TicketServiceImpl.java:53-55 | never another user's ticket; none iff the user owns no ticket with that id |
| TicketService.ActivePastPartition | backend/src/main/java/com/fullstack/tickets/services/impl/TicketServiceImpl.java:28-50 | at one instant a user's ticket is in exactly one of the active and past lists, and both lists hold only the user's tickets |
| TicketService.RowsPartition | backend/src/main/java/com/fullstack/tickets/repositories/TicketRepository.java:29-57 | in a linked database a user's ticket meets exactly one of the two WHERE clauses, the active one with PURCHASED and the past one with USED, EXPIRED and CANCELLED |
| TicketController.ListTickets | backend/src/main/java/com/fullstack/tickets/controllers/TicketController.java:36-54 | only the user's tickets |
| TicketController.ListTicketsDispatch | backend/src/main/java/com/fullstack/tickets/controllers/TicketController.java:43-53 | the filter's letter case is irrelevant; "active" lists active, "past" lists past, and null or any other filter lists all |
| TicketController.GetTicket | backend/src/main/java/com/fullstack/tickets/controllers/TicketController.java:61-65 | 200 with an owned ticket of that id, or 404 iff there is none |
| TicketExpiration.ExpireTicketsForEndedEvents | backend/src/main/java/com/fullstack/tickets/services/impl/TicketExpirationServiceImpl.java:21-34 | only PURCHASED tickets of ended events change, all becoming EXPIRED with the same `now`; the result counts them |
| TicketExpiration.ExpireIdempotent | backend/src/main/java/com/fullstack/tickets/services/impl/TicketExpirationServiceImpl.java:21-34 | a second run at the same `now` changes nothing and returns 0 |
| EventRepository.FindByIdAndOrganizerId | backend/src/main/java/com/fullstack/tickets/repositories/EventRepository.java:23 | an event only if that organizer owns it; none iff there is no such row |
| EventRepository.SearchEvents | backend/src/main/java/com/fullstack/tickets/repositories/EventRepository.java:27-36 | exactly the PUBLISHED events whose lower-cased name or venue contains the lower-cased term |
| EventRepository.CountSearch | backend/src/main/java/com/fullstack/tickets/repositories/EventRepository.java:31-34 | zero exactly when no event matches |
| EventRepository.SearchCountAgrees | backend/src/main/java/com/fullstack/tickets/repositories/EventRepository.java:27-35 | the count query counts exactly the rows the content query returns |
| EventRepository.SearchProperties | backend/src/main/java/com/fullstack/tickets/repositories/EventRepository.java:27-36 | terms equal up to case give the same results; the empty term lists every published event |
| EventRepository.CompleteEndedEvents | backend/src/main/java/com/fullstack/tickets/repositories/EventRepository.java:52-59 | exactly the rows in `currentStatus` whose end is set and before `now` get `newStatus` and `updatedAt = now`; every other row is unchanged; the result is that row count |
| EventStatusService.CompleteEndedEvents | backend/src/main/java/com/fullstack/tickets/services/impl/EventStatusServiceImpl.java:25-40 | only PUBLISHED events that have ended change, all becoming COMPLETED with the same `now`; the result counts them |
| EventStatusService.CompleteIdempotent | backend/src/main/java/com/fullstack/tickets/services/impl/EventStatusServiceImpl.java:25-40 | a second run at the same `now` changes nothing and returns 0 |
| DataLoader.AddTicketTypes | backend/src/main/java/com/fullstack/tickets/config/DataLoader.java:257-268 | one ticket type per info is appended, in order, with the info's name, price, description and quantity, each linked back to its event; earlier types are kept |
| DataLoader.CreateSampleEvents | backend/src/main/java/com/fullstack/tickets/config/DataLoader.java:51-254 | twelve events, one per sample, in order, every one PUBLISHED, each carrying its sample's ticket types in order with their name, price, description and quantity |
| DataLoader.SamplesPublished | backend/src/main/java/com/fullstack/tickets/config/DataLoader.java:51-254 | every sample is PUBLISHED |
| DataLoader.NewSamples | backend/src/main/java/com/fullstack/tickets/config/DataLoader.java:37-40 | exactly the samples whose name is not stored, in sample order |
| DataLoader.Run | backend/src/main/java/com/fullstack/tickets/config/DataLoader.java:28-49 | the store keeps its rows and gains exactly the samples with new names, appended in sample order; nothing is saved when every name exists |
| DataLoader.RunIdempotent | backend/src/main/java/com/fullstack/tickets/config/DataLoader.java:28-49 | after a run every sample name is stored, and a second run saves nothing |
| Routes.Resolve | frontend/src/main.tsx:30-143 | the route found matches the path, literal segments compared ignoring letter case; there is none iff no route matches |
| Routes.ResolveIgnoresCase | frontend/src/main.tsx:30-143 | two paths that differ only in letter case reach the same route, or none alike |
| Routes.RouterResolves | frontend/src/main.tsx:30-143 | the router picks a page iff that page's pattern matches the path, ignoring letter case, because no two patterns overlap even up to case |
| Routes.GuardedPaths | frontend/src/main.tsx:75-136 | the guarded URL shapes match their pages' patterns |
| Routes.RoleRequirements | frontend/src/main.tsx:34-141 | ORGANIZER alone guards the event list, create and update pages; ATTENDEE alone guards the ticket list, ticket details and purchase pages; STAFF alone guards validate-qr; `/dashboard` only needs sign-in; the rest are public |
| Routes.SegmentsOfHref | frontend/src/components/role-protected-route.tsx:25-28 | the pathname written for a path splits back into the same segments |
| Routes.PathResolves | frontend/src/main.tsx:30-143 | navigating to a parameterless page's path reaches that page |
| Routes.HasRequiredRole | frontend/src/components/role-protected-route.tsx:33-44 | true iff the user holds one of the allowed roles |
| Routes.FallbackAdmits | frontend/src/components/role-protected-route.tsx:46-57 | the fallback is the home page iff the user has no role; otherwise its guard admits the user |
| Routes.RoleProtectedRoute | frontend/src/components/role-protected-route.tsx:12-61 | loading shows the loader; signed out stores `pathname + search` and goes to `/login`; signed in, nothing is stored, and the page renders iff a role is held, else the fallback by priority organizer, staff, attendee, home |
| Routes.ProtectedRoute | frontend/src/components/protected-route.tsx:14-26 | loading shows the loader; signed out overwrites `redirectPath` and goes to `/login`; signed in, the page renders with no role check |
| Routes.Visit | frontend/src/main.tsx:30-143 | no route iff the path matches no pattern; a rendered page matches the path |
| Routes.Admission | frontend/src/components/role-protected-route.tsx:32-60 | a settled, signed-in user sees the page iff its guard admits them, and storage is untouched |
| Routes.LoadingNeverRedirects | frontend/src/components/role-protected-route.tsx:20-22 | while loading a guard shows the loader and neither redirects nor writes |
| Routes.FallbackNeverLoops | frontend/src/components/role-protected-route.tsx:46-58 | a denied user is redirected once: following the redirect renders the fallback page |
| Routes.CallbackRedirect | frontend/src/pages/callback-page.tsx:15-37 | waits while loading; an error, or not being signed in, goes to `/login`; a non-empty saved path is followed and removed; otherwise home |
| Routes.SaveThenReturn | frontend/src/pages/callback-page.tsx:26-30 | after a guard sent a visitor to sign in, the callback returns them to the saved `pathname + search` and drops the entry |
| Routes.ConsumedOnce | frontend/src/pages/callback-page.tsx:27-30 | the saved path is used at most once: a second callback goes home |
| Routes.DashboardSettles | frontend/src/pages/dashboard-page.tsx:15-25 | once roles are loaded, a user with a role, the dashboard forwards to the guard's fallback page; a user with none goes to the ticket list, which sends them home |
| OrganizerLandingPage.LandingView | frontend/src/pages/organizers-landing-page.tsx:72-104 | the loader shows iff auth or roles are loading; otherwise the button text is the action's label, and the non-organizer flag holds iff signed in and the action is not event creation |
| OrganizerLandingPage.TextFollowsAction | frontend/src/pages/organizers-landing-page.tsx:76-101 | the button text follows the action case for case, and distinct actions carry distinct texts |
| OrganizerLandingPage.ActionAdmitted | frontend/src/pages/organizers-landing-page.tsx:76-92 | a signed-in user's action goes to a page whose guard admits them |
| NavBar.NavLinksKeepOrder | frontend/src/components/layout/navbar.tsx:41-46 | the links are the fixed list Discover, events, tickets, validate, with each role link present iff its role is held |
| NavBar.ShownLinks | frontend/src/components/layout/navbar.tsx:78-79 | a link is shown iff it is in the bar and is public or the user is signed in |
| NavBar.ShownBySignIn | frontend/src/components/layout/navbar.tsx:78-79 | signed out, only Discover shows; signed in, every link shows |
| NavBar.OneActive | frontend/src/components/layout/navbar.tsx:82 | at most one shown link is active for a pathname |
| NavBar.ShownLinksAdmitted | frontend/src/components/layout/navbar.tsx:41-46 | every link shown to a signed-in user leads to a page whose guard admits them |
| NavBar.DashboardLinkAdmitted | frontend/src/components/layout/navbar.tsx:104-112 | the Dashboard button shows iff its page renders for the settled session |
| HelpCenter.KeepHits | frontend/src/pages/help-center-page.tsx:128-132 | exactly the questions whose question or answer contains the query, ignoring case, in order |
| HelpCenter.FilterCategories | frontend/src/pages/help-center-page.tsx:125-134 | every kept category has at least one question and only hits; the kept categories are exactly the narrowed non-empty ones, in order |
| HelpCenter.NoResultsIff | frontend/src/pages/help-center-page.tsx:238 | the no-results message shows iff the query is non-empty and no question of any category contains it |
| HelpCenter.EmptyQueryKeepsAll | frontend/src/pages/help-center-page.tsx:125-134 | when no category is empty, the filter with an empty query keeps everything |
| HelpCenter.Toggle | frontend/src/pages/help-center-page.tsx:121-123 | the key's expansion flips, and a missing key reads as collapsed; every other key is unchanged |
| HelpCenter.ToggleTwice | frontend/src/pages/help-center-page.tsx:121-123 | toggling a key twice restores every key's state |
| HelpCenter.AsWrittenOpensUnclicked | frontend/src/pages/help-center-page.tsx:182-205 | as written, opening the first question and then searching for the second shows the second already open |
| HelpCenter.OpenStateFollowsQuestion | frontend/src/pages/help-center-page.tsx:182-205 | with state keyed by question, a displayed question is open exactly as in the full catalogue |
| HelpCenter.ClickFollowsQuestion | frontend/src/pages/help-center-page.tsx:182-205 | with state keyed by question, a click under one query flips, under any other query, the open state of exactly the questions with the clicked key; when no two catalogue questions share a key, that is the clicked question alone |
| TicketStats.CountStatus | frontend/src/pages/dashboard-list-tickets.tsx:68-69 | at most the page's length, and zero iff no row has the status |
| TicketStats.ComputeStats | frontend/src/pages/dashboard-list-tickets.tsx:66-69 | unloaded totals read 0; Used and Expired are the counts of those statuses on the past page, so together at most its length; the total card is active plus past |
| TicketStats.StatsShownIff | frontend/src/pages/dashboard-list-tickets.tsx:115 | the cards show iff loading is over and the Total card is positive; never before anything has loaded |
| TicketStats.PagerStaysOnTab | frontend/src/pages/dashboard-list-tickets.tsx:181-217 | the pager under a tab's list sets that tab's page, leaves the other tab's page, the selected tab and both lists alone, and re-selecting the current page changes nothing |
| TicketStats.RunFetch | frontend/src/pages/dashboard-list-tickets.tsx:35-59 | nothing happens while auth is loading or without a token; otherwise loading ends and both pages are stored, or the error is set to the thrown `Error`'s message (non-`Error` throws read "An unknown error occurred") |
| TicketStats.Render | frontend/src/pages/dashboard-list-tickets.tsx:71-115 | the alert replaces the page iff the error is a non-empty string; otherwise the list of the current tab, with cards iff they should show |
| TicketStats.FetchThenRender | frontend/src/pages/dashboard-list-tickets.tsx:35-115 | a failed fetch shows the alert unless an `Error` with an empty message was thrown; a successful one shows the current tab's page, with cards iff a total is positive |

## Left out

- Rendering, animation, toasts, clipboard and sharing are left out. So are the `fetch` wrappers, the HTTP framework plumbing, the DTO classes and the MapStruct mappers. A controller's response is modelled as the record it would map.
- The OIDC library, `useAuth` and the internals of `useRoles` are outside the model. Authentication and roles are input booleans. `signinRedirect()` is the action `SignIn`.
- `UUID.fromString`, the random UUID of temporary ids, the host's `new Date(string)` and date-fns `format` are function parameters.
- QR image generation and scanning are left out. A purchase in the model adds no QR code row; the source asks `QrCodeService` to generate one.
- Time zones, `@Scheduled` timing, `findByIdWithLock`, transactions and concurrency are left out. Services run one at a time, and `now` is a parameter. `LocalDateTime` is an integer on a total order.
- Prices are whole cents rather than `double`, and the form's number parsing is left out: floating point.
- DateUtils.ExtractTime: an Invalid Date is not modelled. The host parse always yields whole-number fields, so a text the host cannot parse gives some `HH:MM` here, where the source prints `NaN:NaN`. Likewise `formatWallClockDate`, where date-fns `format` throws.
- ManageEvent.FormatTimeFromDate: the same Invalid Date gap as `extractTime`. The source gives `NaN:NaN` for a text without a time that the host cannot parse.
- The `Date` constructor's overflow normalisation is left out. Round trips require a valid calendar date, and `combineToLocalDateTime` round trips also require a four-digit year, because the year is not padded.
- `ORDER BY e.start` with NULL starts: the sort contracts of `FindActiveTickets` and `FindPastTickets` order only pairs of rows whose starts are both present.
- `LIKE` wildcards (`%`, `_`) inside a search term and non-ASCII case mapping are left out. `Lower` maps only `A`-`Z`.
- Spring `Pageable` is left out. A query returns all of its rows in order; page slicing and the page metadata are not modelled.
- The entity classes of the `com.fullstack` package are not part of this model. The ticket record follows `backend/src/main/java/com/devtiro/tickets/domain/entities/Ticket.java`, whose update hook (lines 76-85) stamps `updatedAt` on every save. The model stamps it with the service's `now` on every status change, both in the bulk updates and in the validation save. `createdAt` and the rest of the `com.devtiro` package (`DevDataInitializer`) are not part of this model.
- The twelve sample events' dates, which are relative to the start-up time, are not modelled.
- Referential integrity is the precondition `Linked`: every ticket's type exists, every type's event exists, and every QR code's ticket exists. The database's foreign keys guarantee it.
- Routes.Resolve: literal segments are compared after ASCII lower-casing. The router's case-insensitive match also folds letters outside ASCII, which the model does not.
- The router is modelled as first-match over the table in declaration order. React Router's ranking is not modelled; `RouterResolves` shows no path matches two patterns, so the order is irrelevant. A pathname is given as its non-empty segments, so repeated and trailing slashes are ignored.
- `<Navigate state={{ from }}>` is left out; the destination pages never read it. Push and replace navigations are not distinguished.
- `TicketStats.ComputeStats`: the Used and Expired cards count only the past page on screen, as the source does, so they are bounded by that page's length, not by `totalPast`.
- The help center's catalogue text is a parameter, so the lemmas hold for any list of categories. The keys `${categoryIndex}-${itemIndex}` are modelled as pairs of positions, a one-to-one encoding.
- `statusConfig` lookups on the ticket card and ticket pages are rendering only.
- The pure-markup pages are left out: about, terms, privacy, the footer, the skeletons and the empty state.

## Findings

| source | as written | input that shows it | evidently intended | confidence | as-written member | corrected member |
|---|---|---|---|---|---|---|
| frontend/src/pages/dashboard-manage-event-page.tsx:278-294 | a missing time is replaced with `?? "00:00"`, which lets the empty string of a cleared time input through; `combineDateTime` then splits it into hour `""` and minute `undefined` | an enabled start date with the time input cleared gives `YYYY-MM-DDT:undefined:00` | a cleared time falls back to `00:00` like a missing one | not executed; high | ManageEvent.DateFieldAsWritten, ManageEvent.ClearedTimeBreaksRequest | ManageEvent.DateField, ManageEvent.DateFieldIsWire, ManageEvent.SubmitFixed |
| frontend/src/components/common/pagination.tsx:28-39 | the ellipses appear for `currentPage > 3` and `currentPage < totalPages - 4` | ten pages at current page 3 show `0, 2, 3, 4, …, 9`, so page 1 is hidden unmarked; at current page 6, page 8 is hidden unmarked | an ellipsis wherever pages are hidden (`> 2`, `< totalPages - 3`) | not executed; high | Pagination.PageNumbersAsWritten, Pagination.AsWrittenSkipsPages | Pagination.PageNumbers, Pagination.PageNumbersMarkGaps, Pagination.RenderFixed |
| frontend/src/pages/help-center-page.tsx:182-205 | the expanded state is keyed by the position `${categoryIndex}-${itemIndex}` in the displayed, filtered list | open the first question of a category, then search for the second: it now sits in the first position and shows open though it was never clicked | the open state follows the question, whatever the query | not executed; medium | HelpCenter.ShownOpenAsWritten, HelpCenter.AsWrittenOpensUnclicked | HelpCenter.ShownOpen, HelpCenter.OpenStateFollowsQuestion, HelpCenter.ClickFollowsQuestion |

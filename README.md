# Leave management: form validation, the leave-request record, department aggregation

A Dafny model of three sequential pieces of an HR leave-management application
(urlaubsverwaltung):

- **The leave-request form validator** (`ApplicationValidator`). `validate` checks
  that a submitted form is complete. A full-day form needs a start and an end
  date, with the start not after the end. A half-day form needs its half-day
  date. Every vacation type except HOLIDAY needs a reason with text.
  `validateForUser` rejects start dates whose midnight lies before the current
  instant, so a start date of today counts as past once midnight has passed.
  Neither throws.
  Each broken rule appends an error to the caller's collector. A field error is
  a (field, code) pair; a global error carries only a code. The model keeps the
  imperative shape. `Validate` and `ValidateForUser` append to an `Errors`
  object. Each is proved to append exactly the sequence given by a specification
  function (`ValidationErrors`, `UserValidationErrors`). The rules are proved
  about those functions.
- **The leave-request record** (`Application`). A class with the source's fields.
  Each setter overwrites only its own field, proved by comparing a snapshot of
  all fields before and after. Date setters store an instant and date getters
  return the day it falls on, with null kept as null. Signature setters and
  getters copy the byte array, so callers never share the stored array.
  `setRemindDate` checks the start date, not its argument. There are two status
  predicates.
- **Department service** (`DepartmentServiceImpl`, as its unit test pins it down).
  Create and update stamp the modification time. Delete fails on a missing id.
  Three aggregation queries are modelled:
  - the members of the departments a head manages;
  - whether someone is a person's department head;
  - the WAITING or ALLOWED applications for leave of a person's colleagues.

Dates: a `DateMidnight` is a day number (`Calendar.Day`). A `java.util.Date`
and the current time are instants in milliseconds (`Calendar.Instant`). Both
count from one epoch in one fixed time zone. The wall clock (`isBeforeNow`,
`DateTime.now()`) is an explicit `now` parameter. The data-access object's
answers are inputs: the departments a person manages or is assigned to, and the
application service's per-person lookup. The lookup is the function `fetch`,
and the status test it is used with is `hasStatus`.

Two behaviours of the code worth spelling out:

- `isFormerlyAllowed` only tests for status CANCELLED; no earlier status is
  consulted (Application.java:369-372). A request cancelled while still
  WAITING therefore counts as formerly allowed, and so does the model.
- A person in two managed departments is listed once: the unit test's two
  departments share their head and 6 members are expected
  (DepartmentServiceImplTest.java:186-197). The model deduplicates.

Files: `common.dfy` (nullable values, exceptions), `calendar.dfy` (days and
instants), `domain.dfy` (enumerations, person ids), `application_validator.dfy`,
`application.dfy`, `department_service.dfy`.

## Model

| member | source | states |
|---|---|---|
| `Calendar.DayOf` | src/main/java/org/synyx/urlaubsverwaltung/core/application/domain/Application.java:127 | the day a stored instant is read back as is the day whose midnight is at or before the instant and less than a day before it |
| `Calendar.ToStored` | src/main/java/org/synyx/urlaubsverwaltung/core/application/domain/Application.java:335-342 | a date setter stores null for null and an instant for a day |
| `Calendar.FromStored` | src/main/java/org/synyx/urlaubsverwaltung/core/application/domain/Application.java:325-332 | a date getter returns null exactly when the stored date is null |
| `Calendar.StartOfDayMonotone` | src/main/java/org/synyx/urlaubsverwaltung/validator/ApplicationValidator.java:54 | comparing midnights (`isAfter`, `isBeforeNow`) orders days as their numbers do |
| `Calendar.DayOfStartOfDay` | src/main/java/org/synyx/urlaubsverwaltung/core/application/domain/Application.java:127-136 | converting a day to its midnight instant and back gives the same day |
| `Calendar.StoredRoundTrip` | src/main/java/org/synyx/urlaubsverwaltung/core/application/domain/Application.java:325-342 | storing a nullable day and reading it back gives it back: null stays null, a day stays that day |
| `ApplicationValidator.Supports` | src/main/java/org/synyx/urlaubsverwaltung/validator/ApplicationValidator.java:29-33 | the validator supports the application form class and no other |
| `ApplicationValidator.ValidationErrors` | src/main/java/org/synyx/urlaubsverwaltung/validator/ApplicationValidator.java:37-70 | full-day form: a mandatory error on startDate iff it is missing, on endDate iff it is missing, a global period error iff both are present and start is after end (equal dates pass); half-day form: a mandatory error on startDateHalf iff it is missing; reason error iff the type is not HOLIDAY and the reason is null or blank, and it is recorded last; never a past-date error; at most four errors |
| `ApplicationValidator.UserValidationErrors` | src/main/java/org/synyx/urlaubsverwaltung/validator/ApplicationValidator.java:80-98 | at most one error, always a past-date field error; full-day form: on startDate iff the start date is present and its midnight is before now; half-day form: on startDateHalf iff the half-day date is present and before now; never on the other branch's field |
| `ApplicationValidator.Validate` | src/main/java/org/synyx/urlaubsverwaltung/validator/ApplicationValidator.java:37-70 | appends exactly `ValidationErrors(form)` to the collector and keeps what was there |
| `ApplicationValidator.ValidateForUser` | src/main/java/org/synyx/urlaubsverwaltung/validator/ApplicationValidator.java:80-98 | appends exactly `UserValidationErrors(form, now)` to the collector and keeps what was there |
| `ApplicationValidator.CleanFormIffComplete` | src/main/java/org/synyx/urlaubsverwaltung/validator/ApplicationValidator.java:37-70 | a form gets no error exactly when its required dates are present and ordered and it is a HOLIDAY or has a reason with text |
| `ApplicationValidator.BothMissingDatesReported` | src/main/java/org/synyx/urlaubsverwaltung/validator/ApplicationValidator.java:42-50 | a full-day form missing both dates gets both mandatory errors, startDate first, in one call |
| `ApplicationValidator.HalfDayIgnoresFullDayDates` | src/main/java/org/synyx/urlaubsverwaltung/validator/ApplicationValidator.java:58-62 | for a half-day form, changing startDate or endDate changes neither validation's errors |
| `ApplicationValidator.FullDayIgnoresHalfDayDate` | src/main/java/org/synyx/urlaubsverwaltung/validator/ApplicationValidator.java:42-57 | for a full-day form, changing startDateHalf changes neither validation's errors |
| `ApplicationValidator.StartingAfterTodayIsNotPast` | src/main/java/org/synyx/urlaubsverwaltung/validator/ApplicationValidator.java:85-90 | a full-day form starting after the current day, or exactly at now, gets no past-date error |
| `ApplicationValidator.StartingTodayIsPastAfterMidnight` | src/main/java/org/synyx/urlaubsverwaltung/validator/ApplicationValidator.java:85-90 | a full-day form starting on the current day gets exactly the start-date past error once `now` is later than that day's midnight |
| `ApplicationRecord.CopyOf` | src/main/java/org/synyx/urlaubsverwaltung/core/application/domain/Application.java:291 | `Arrays.copyOf` gives a fresh array with the same bytes |
| `ApplicationRecord.Application.constructor` | src/main/java/org/synyx/urlaubsverwaltung/core/application/domain/Application.java:32-107 | a new record has every reference null and teamInformed false |
| `ApplicationRecord.Application.SetAddress` | src/main/java/org/synyx/urlaubsverwaltung/core/application/domain/Application.java:115-118 | overwrites the address and nothing else |
| `ApplicationRecord.Application.SetApplier` | src/main/java/org/synyx/urlaubsverwaltung/core/application/domain/Application.java:187-190 | overwrites the applier and nothing else |
| `ApplicationRecord.Application.SetBoss` | src/main/java/org/synyx/urlaubsverwaltung/core/application/domain/Application.java:199-202 | overwrites the boss and nothing else |
| `ApplicationRecord.Application.SetCanceller` | src/main/java/org/synyx/urlaubsverwaltung/core/application/domain/Application.java:211-214 | overwrites the canceller and nothing else |
| `ApplicationRecord.Application.SetDayLength` | src/main/java/org/synyx/urlaubsverwaltung/core/application/domain/Application.java:243-246 | overwrites the day length and nothing else |
| `ApplicationRecord.Application.SetPerson` | src/main/java/org/synyx/urlaubsverwaltung/core/application/domain/Application.java:255-258 | overwrites the owner and nothing else |
| `ApplicationRecord.Application.SetReason` | src/main/java/org/synyx/urlaubsverwaltung/core/application/domain/Application.java:267-270 | overwrites the reason and nothing else |
| `ApplicationRecord.Application.SetHolidayReplacement` | src/main/java/org/synyx/urlaubsverwaltung/core/application/domain/Application.java:279-282 | overwrites the holiday replacement and nothing else |
| `ApplicationRecord.Application.SetVacationType` | src/main/java/org/synyx/urlaubsverwaltung/core/application/domain/Application.java:363-366 | overwrites the vacation type and nothing else |
| `ApplicationRecord.Application.SetStatus` | src/main/java/org/synyx/urlaubsverwaltung/core/application/domain/Application.java:351-354 | overwrites the status and nothing else (dates, persons and signatures untouched); afterwards `hasStatus(t)` holds exactly for the status set |
| `ApplicationRecord.Application.SetTeamInformed` | src/main/java/org/synyx/urlaubsverwaltung/core/application/domain/Application.java:395-404 | overwrites the flag and nothing else; `isTeamInformed()` then returns the value set |
| `ApplicationRecord.Application.IsTeamInformed` | src/main/java/org/synyx/urlaubsverwaltung/core/application/domain/Application.java:395-398 | returns the stored team-informed flag |
| `ApplicationRecord.Application.ApplicationDate` | src/main/java/org/synyx/urlaubsverwaltung/core/application/domain/Application.java:121-128 | null exactly when the stored application date is null |
| `ApplicationRecord.Application.SetApplicationDate` | src/main/java/org/synyx/urlaubsverwaltung/core/application/domain/Application.java:131-138 | stores the day's instant (null for null) and nothing else; the getter then returns the day set |
| `ApplicationRecord.Application.CancelDate` | src/main/java/org/synyx/urlaubsverwaltung/core/application/domain/Application.java:141-148 | null exactly when the stored cancel date is null |
| `ApplicationRecord.Application.SetCancelDate` | src/main/java/org/synyx/urlaubsverwaltung/core/application/domain/Application.java:151-158 | stores the day's instant (null for null) and nothing else; the getter then returns the day set |
| `ApplicationRecord.Application.EditedDate` | src/main/java/org/synyx/urlaubsverwaltung/core/application/domain/Application.java:161-168 | null exactly when the stored edited date is null |
| `ApplicationRecord.Application.SetEditedDate` | src/main/java/org/synyx/urlaubsverwaltung/core/application/domain/Application.java:171-178 | stores the day's instant (null for null) and nothing else; the getter then returns the day set |
| `ApplicationRecord.Application.EndDate` | src/main/java/org/synyx/urlaubsverwaltung/core/application/domain/Application.java:217-224 | null exactly when the stored end date is null |
| `ApplicationRecord.Application.SetEndDate` | src/main/java/org/synyx/urlaubsverwaltung/core/application/domain/Application.java:227-234 | stores the day's instant (null for null) and nothing else; the getter then returns the day set |
| `ApplicationRecord.Application.StartDate` | src/main/java/org/synyx/urlaubsverwaltung/core/application/domain/Application.java:325-332 | null exactly when the stored start date is null |
| `ApplicationRecord.Application.SetStartDate` | src/main/java/org/synyx/urlaubsverwaltung/core/application/domain/Application.java:335-342 | stores the day's instant (null for null) and nothing else; the getter then returns the day set |
| `ApplicationRecord.Application.RemindDate` | src/main/java/org/synyx/urlaubsverwaltung/core/application/domain/Application.java:375-382 | null exactly when the stored remind date is null |
| `ApplicationRecord.Application.SetRemindDate` | src/main/java/org/synyx/urlaubsverwaltung/core/application/domain/Application.java:385-392 | without a start date the remind date becomes null whatever is passed; with one, a day is stored and read back unchanged, and a null argument throws a NullPointerException and changes nothing |
| `ApplicationRecord.Application.GetSignatureBoss` | src/main/java/org/synyx/urlaubsverwaltung/core/application/domain/Application.java:285-292 | null for no signature, else a fresh array with the stored bytes |
| `ApplicationRecord.Application.SetSignatureBoss` | src/main/java/org/synyx/urlaubsverwaltung/core/application/domain/Application.java:295-302 | stores null for null, else a fresh private array with the given bytes; no other field changes |
| `ApplicationRecord.Application.GetSignaturePerson` | src/main/java/org/synyx/urlaubsverwaltung/core/application/domain/Application.java:305-312 | null for no signature, else a fresh array with the stored bytes |
| `ApplicationRecord.Application.SetSignaturePerson` | src/main/java/org/synyx/urlaubsverwaltung/core/application/domain/Application.java:315-322 | stores null for null, else a fresh private array with the given bytes; no other field changes |
| `ApplicationRecord.SignatureIsIsolated` | src/main/java/org/synyx/urlaubsverwaltung/core/application/domain/Application.java:285-322 | writing into the array passed to a signature setter, or into an array a getter returned, leaves the stored signature bytes as they were set |
| `ApplicationRecord.Application.HasStatus` | src/main/java/org/synyx/urlaubsverwaltung/core/application/domain/Application.java:444-447 | holds exactly when the record's status is the given one, and never for a record without status |
| `ApplicationRecord.Application.IsFormerlyAllowed` | src/main/java/org/synyx/urlaubsverwaltung/core/application/domain/Application.java:369-372 | holds exactly when the status is CANCELLED, and then the record is not ALLOWED |
| `ApplicationRecord.CancelledWhileWaiting` | src/main/java/org/synyx/urlaubsverwaltung/core/application/domain/Application.java:369-372 | a new record set WAITING and then CANCELLED, never ALLOWED, is formerly allowed |
| `ApplicationRecord.StatusIsUnique` | src/main/java/org/synyx/urlaubsverwaltung/core/application/domain/Application.java:444-447 | `hasStatus` holds for at most one status |
| `ApplicationRecord.FormerlyAllowedIffCancelled` | src/main/java/org/synyx/urlaubsverwaltung/core/application/domain/Application.java:369-372 | `isFormerlyAllowed()` holds exactly when the status is CANCELLED, so never for an ALLOWED or WAITING record |
| `DepartmentService.Department.constructor` | src/test/java/org/synyx/urlaubsverwaltung/core/department/DepartmentServiceImplTest.java:147-151 | a new department has no modification time, no id and no members |
| `DepartmentService.AddAll` | src/test/java/org/synyx/urlaubsverwaltung/core/department/DepartmentServiceImplTest.java:174-198 | adding a member list to a duplicate-free list keeps it duplicate-free, keeps its front, and holds exactly the persons of both |
| `DepartmentService.MemberUnion` | src/test/java/org/synyx/urlaubsverwaltung/core/department/DepartmentServiceImplTest.java:174-198 | the union has no duplicates and holds exactly the persons in some member list |
| `DepartmentService.ManagedMembersOfDepartmentHead` | src/test/java/org/synyx/urlaubsverwaltung/core/department/DepartmentServiceImplTest.java:174-212 | holds every member of every managed department, each once, and nobody else; empty when no department is managed |
| `DepartmentService.ManagedMemberCount` | src/test/java/org/synyx/urlaubsverwaltung/core/department/DepartmentServiceImplTest.java:174-198 | the number of managed members is the number of distinct persons across the managed departments |
| `DepartmentService.SharedHeadCountsOnce` | src/test/java/org/synyx/urlaubsverwaltung/core/department/DepartmentServiceImplTest.java:186-197 | departments of 3 and 4 distinct members that share the head give 6 members |
| `DepartmentService.IsDepartmentHeadOfPerson` | src/test/java/org/synyx/urlaubsverwaltung/core/department/DepartmentServiceImplTest.java:215-275 | true iff the head has the DEPARTMENT_HEAD role and the person is a member of a department the head manages; false without the role even in a shared department |
| `DepartmentService.Colleagues` | src/test/java/org/synyx/urlaubsverwaltung/core/department/DepartmentServiceImplTest.java:296-344 | the persons looked up are every other member of the person's departments, each once, never the person; none when the person has no department |
| `DepartmentService.OwnApplicationsNeverFetched` | src/test/java/org/synyx/urlaubsverwaltung/core/department/DepartmentServiceImplTest.java:278-344 | the person's own applications are never looked up, and nobody's are when the person has no department |
| `DepartmentService.KeepPending` | src/test/java/org/synyx/urlaubsverwaltung/core/department/DepartmentServiceImplTest.java:362-390 | keeps only WAITING or ALLOWED applications, drops none of them, and adds nothing |
| `DepartmentService.CollectPending` | src/test/java/org/synyx/urlaubsverwaltung/core/department/DepartmentServiceImplTest.java:296-391 | holds exactly the applications fetched for the given period for one of the persons that are WAITING or ALLOWED |
| `DepartmentService.CollectKeepsEveryPending` | src/test/java/org/synyx/urlaubsverwaltung/core/department/DepartmentServiceImplTest.java:347-391 | the result's length is the number of fetched WAITING or ALLOWED applications, counted with repetition |
| `DepartmentService.ApplicationsForLeaveOfMembersInDepartmentsOfPerson` | src/test/java/org/synyx/urlaubsverwaltung/core/department/DepartmentServiceImplTest.java:278-391 | empty when the person has no department; otherwise holds exactly the WAITING or ALLOWED applications, for the given period, of the other members of the person's departments |
| `DepartmentService.DepartmentStore.GetDepartmentById` | src/test/java/org/synyx/urlaubsverwaltung/core/department/DepartmentServiceImplTest.java:71-76 | finds the stored department for an id, and nothing for an id not in the store |
| `DepartmentService.DepartmentStore.GetAllDepartments` | src/test/java/org/synyx/urlaubsverwaltung/core/department/DepartmentServiceImplTest.java:90-96 | holds exactly the stored departments, and no more of them than there are ids |
| `DepartmentService.DepartmentStore.Save` | src/test/java/org/synyx/urlaubsverwaltung/core/department/DepartmentServiceImplTest.java:49-57 | stores the department under its id, giving a department without id one not yet used |
| `DepartmentService.DepartmentStore.Create` | src/test/java/org/synyx/urlaubsverwaltung/core/department/DepartmentServiceImplTest.java:144-156 | stamps lastModification with now (non-null even when it was null); keeps an existing id or gives a new id not yet in the store; saves the department under that id and changes no other entry |
| `DepartmentService.DepartmentStore.Update` | src/test/java/org/synyx/urlaubsverwaltung/core/department/DepartmentServiceImplTest.java:159-171 | stamps lastModification with now (non-null even when it was null); keeps an existing id or gives a new id not yet in the store; saves the department under that id and changes no other entry |
| `DepartmentService.DepartmentStore.Delete` | src/test/java/org/synyx/urlaubsverwaltung/core/department/DepartmentServiceImplTest.java:121-141 | throws an IllegalStateException and changes nothing when the id is not stored; otherwise removes exactly that id |

## Left out

- `Application.toString`: string formatting through a foreign library (Guava's `ToStringHelper`).
- `SickNoteInteractionService`: an interface with documentation only. The create, update, convert and cancel behaviour lives in an implementation that is not part of this model.
- `ImpatientAboutApplicationForLeaveProcessException`: an exception class with no logic. No modelled operation raises it.
- Time zones and the Joda-Time and `java.util.Date` conversions: days and instants share one epoch and one fixed zone, with 86 400 000 ms per day. Daylight-saving shifts are not modelled.
- The wall clock: `isBeforeNow` and `DateTime.now()` read a `now` parameter.
- Persistence: JPA annotations and `AbstractPersistable` equality are not modelled. Persons are distinct ids. A department's identity is an optional id. The data store's id generator is the counter `nextId`.
- `getManagedDepartmentsOfDepartmentHead` and `getAssignedDepartmentsOfMember`: pure data-store queries. Their answers are the inputs `managed` and `assignedDepartments` of the aggregation functions.
- The application service's backend: `getApplicationsForACertainPeriodAndPerson` is the input function `fetch`. The applications it returns are values of a type parameter, and their status is asked through the input `hasStatus`. That is the role the unit test gives `Application.hasStatus`. They are not objects of the `Application` class.
- Mock call counting: a lookup happens once per person in `Colleagues`. The model states which persons are looked up, not how many calls a mock records.
- `DepartmentService.MemberUnion`: lists members in first-occurrence order. The Java collection order is not visible.
- `DepartmentService.Colleagues`: a person who shares several departments with the given person is looked up once. The unit test's departments share only that person, so it does not decide this.
- `ApplicationValidator.ValidationErrors`: "has text" means some character other than space, tab, newline, carriage return, vertical tab or form feed. Spring's `StringUtils.hasText` accepts more whitespace characters.
- `ApplicationRecord.Application.HasStatus`: takes a non-null status. `hasStatus(null)` on a record without status is not modelled.
- The Spring `Validator`/`Errors` dispatch: the collector is the small `Errors` class with `RejectValue` and `Reject`.
- Plain getters (`getAddress`, `getPerson`, `getStatus`, …): reads of the public fields of the class.
- The enumerations: `VacationType`, `DayLength`, `ApplicationStatus` and `Role` are not part of this model. The model uses the values the record, the validator and the tests name; every vacation type other than HOLIDAY, and every role other than DEPARTMENT_HEAD, is a named catch-all constructor.

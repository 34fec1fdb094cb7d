/** The application-for-leave record: one leave request with its dates, its
    status, the persons involved and the signatures of applicant and boss.

    Every field is nullable. Dates are stored as instants (`java.util.Date`)
    and handed out as days (`DateMidnight`); signatures are byte arrays that the
    record owns, copied on the way in and on the way out. */
module ApplicationRecord {
  import opened Common
  import opened Calendar
  import opened Domain

  /** The value of every field of a record at one moment (signatures by reference). */
  datatype Fields = Fields(
    person: Option<PersonId>,
    applier: Option<PersonId>,
    boss: Option<PersonId>,
    canceller: Option<PersonId>,
    startDate: Option<Instant>,
    endDate: Option<Instant>,
    vacationType: Option<VacationType>,
    dayLength: Option<DayLength>,
    reason: Option<string>,
    holidayReplacement: Option<PersonId>,
    address: Option<string>,
    applicationDate: Option<Instant>,
    cancelDate: Option<Instant>,
    editedDate: Option<Instant>,
    remindDate: Option<Instant>,
    status: Option<ApplicationStatus>,
    signaturePerson: array?<bv8>,
    signatureBoss: array?<bv8>,
    teamInformed: bool)

  /** The bytes of a nullable array, or None for null. */
  function Bytes(a: array?<bv8>): (b: Option<seq<bv8>>)
    reads a
    ensures b.None? <==> a == null
  {
    if a == null then None else Some(a[..])
  }

  /** A fresh array holding the same bytes (`Arrays.copyOf(a, a.length)`). */
  method CopyOf(a: array<bv8>) returns (copy: array<bv8>)
    ensures fresh(copy) && copy[..] == a[..]
  {
    copy := new bv8[a.Length](i requires 0 <= i < a.Length reads a => a[i]);
  }

  class Application {
    var person: Option<PersonId>
    var applier: Option<PersonId>
    var boss: Option<PersonId>
    var canceller: Option<PersonId>
    var startDate: Option<Instant>
    var endDate: Option<Instant>
    var vacationType: Option<VacationType>
    var dayLength: Option<DayLength>
    var reason: Option<string>
    var holidayReplacement: Option<PersonId>
    var address: Option<string>
    var applicationDate: Option<Instant>
    var cancelDate: Option<Instant>
    var editedDate: Option<Instant>
    var remindDate: Option<Instant>
    var status: Option<ApplicationStatus>
    var signaturePerson: array?<bv8>
    var signatureBoss: array?<bv8>
    var teamInformed: bool

    function State(): Fields
      reads this
    {
      Fields(person, applier, boss, canceller, startDate, endDate, vacationType, dayLength,
             reason, holidayReplacement, address, applicationDate, cancelDate, editedDate,
             remindDate, status, signaturePerson, signatureBoss, teamInformed)
    }

    /** A new record: every reference null, not yet told to the team. */
    constructor ()
      ensures State() == Fields(None, None, None, None, None, None, None, None, None, None,
                                None, None, None, None, None, None, null, null, false)
    {
      person, applier, boss, canceller := None, None, None, None;
      startDate, endDate := None, None;
      vacationType, dayLength := None, None;
      reason, holidayReplacement, address := None, None, None;
      applicationDate, cancelDate, editedDate, remindDate := None, None, None, None;
      status := None;
      signaturePerson, signatureBoss := null, null;
      teamInformed := false;
    }

    // ----- plain fields: the setter overwrites exactly its own field -----

    method SetAddress(address: Option<string>)
      modifies this
      ensures State() == old(State()).(address := address)
    {
      this.address := address;
    }

    method SetApplier(applier: Option<PersonId>)
      modifies this
      ensures State() == old(State()).(applier := applier)
    {
      this.applier := applier;
    }

    method SetBoss(boss: Option<PersonId>)
      modifies this
      ensures State() == old(State()).(boss := boss)
    {
      this.boss := boss;
    }

    method SetCanceller(canceller: Option<PersonId>)
      modifies this
      ensures State() == old(State()).(canceller := canceller)
    {
      this.canceller := canceller;
    }

    method SetDayLength(dayLength: Option<DayLength>)
      modifies this
      ensures State() == old(State()).(dayLength := dayLength)
    {
      this.dayLength := dayLength;
    }

    method SetPerson(person: Option<PersonId>)
      modifies this
      ensures State() == old(State()).(person := person)
    {
      this.person := person;
    }

    method SetReason(reason: Option<string>)
      modifies this
      ensures State() == old(State()).(reason := reason)
    {
      this.reason := reason;
    }

    method SetHolidayReplacement(holidayReplacement: Option<PersonId>)
      modifies this
      ensures State() == old(State()).(holidayReplacement := holidayReplacement)
    {
      this.holidayReplacement := holidayReplacement;
    }

    method SetVacationType(vacationType: Option<VacationType>)
      modifies this
      ensures State() == old(State()).(vacationType := vacationType)
    {
      this.vacationType := vacationType;
    }

    /** After `setStatus(s)` the record has status `s` and no other. */
    method SetStatus(status: Option<ApplicationStatus>)
      modifies this
      ensures State() == old(State()).(status := status)
      ensures forall t :: HasStatus(t) <==> status == Some(t)
    {
      this.status := status;
    }

    method SetTeamInformed(teamInformed: bool)
      modifies this
      ensures State() == old(State()).(teamInformed := teamInformed)
      ensures IsTeamInformed() == teamInformed
    {
      this.teamInformed := teamInformed;
    }

    /** Whether the team has been told about this request. */
    function IsTeamInformed(): (r: bool)
      reads this
      ensures r <==> State().teamInformed
    {
      teamInformed
    }

    // ----- dates: stored as instants, read back as days, null kept as null -----

    function ApplicationDate(): (d: Option<Day>)
      reads this
      ensures d.None? <==> applicationDate.None?
    {
      FromStored(applicationDate)
    }

    method SetApplicationDate(d: Option<Day>)
      modifies this
      ensures State() == old(State()).(applicationDate := ToStored(d))
      ensures ApplicationDate() == d
    {
      applicationDate := ToStored(d);
    }

    function CancelDate(): (d: Option<Day>)
      reads this
      ensures d.None? <==> cancelDate.None?
    {
      FromStored(cancelDate)
    }

    method SetCancelDate(d: Option<Day>)
      modifies this
      ensures State() == old(State()).(cancelDate := ToStored(d))
      ensures CancelDate() == d
    {
      cancelDate := ToStored(d);
    }

    function EditedDate(): (d: Option<Day>)
      reads this
      ensures d.None? <==> editedDate.None?
    {
      FromStored(editedDate)
    }

    method SetEditedDate(d: Option<Day>)
      modifies this
      ensures State() == old(State()).(editedDate := ToStored(d))
      ensures EditedDate() == d
    {
      editedDate := ToStored(d);
    }

    function EndDate(): (d: Option<Day>)
      reads this
      ensures d.None? <==> endDate.None?
    {
      FromStored(endDate)
    }

    method SetEndDate(d: Option<Day>)
      modifies this
      ensures State() == old(State()).(endDate := ToStored(d))
      ensures EndDate() == d
    {
      endDate := ToStored(d);
    }

    function StartDate(): (d: Option<Day>)
      reads this
      ensures d.None? <==> startDate.None?
    {
      FromStored(startDate)
    }

    method SetStartDate(d: Option<Day>)
      modifies this
      ensures State() == old(State()).(startDate := ToStored(d))
      ensures StartDate() == d
    {
      startDate := ToStored(d);
    }

    function RemindDate(): (d: Option<Day>)
      reads this
      ensures d.None? <==> remindDate.None?
    {
      FromStored(remindDate)
    }

    /** `setRemindDate` looks at the START date, not at its argument: without a
        start date the remind date is cleared whatever is passed; with one, the
        argument is stored, and a null argument throws before anything changes. */
    method SetRemindDate(d: Option<Day>) returns (outcome: Outcome)
      modifies this
      ensures old(startDate).None? ==>
                outcome == Completed && State() == old(State()).(remindDate := None)
      ensures old(startDate).Some? && d.None? ==>
                outcome == Thrown(NullPointerException) && State() == old(State())
      ensures old(startDate).Some? && d.Some? ==>
                && outcome == Completed
                && State() == old(State()).(remindDate := ToStored(d))
                && RemindDate() == d
    {
      if startDate.None? {
        remindDate := None;
        outcome := Completed;
      } else if d.None? {
        outcome := Thrown(NullPointerException);
      } else {
        remindDate := ToStored(d);
          outcome := Completed;
      }
    }

    // ----- signatures: copied on write and on read -----

    function SignatureBossBytes(): Option<seq<bv8>>
      reads this, signatureBoss
    {
      Bytes(signatureBoss)
    }

    function SignaturePersonBytes(): Option<seq<bv8>>
      reads this, signaturePerson
    {
      Bytes(signaturePerson)
    }

    /** A fresh copy of the boss's signature, or null when there is none. */
    method GetSignatureBoss() returns (copy: array?<bv8>)
      ensures Bytes(copy) == SignatureBossBytes()
      ensures copy != null ==> fresh(copy)
    {
      if signatureBoss == null {
        copy := null;
      } else {
        copy := CopyOf(signatureBoss);
      }
    }

    /** Stores a private copy of the given signature, or null for null. */
    method SetSignatureBoss(signature: array?<bv8>)
      modifies this
      ensures SignatureBossBytes() == Bytes(signature)
      ensures signatureBoss != null ==> fresh(signatureBoss)
      ensures State().(signatureBoss := null) == old(State()).(signatureBoss := null)
    {
      if signature != null {
        signatureBoss := CopyOf(signature);
      } else {
        signatureBoss := null;
      }
    }

    /** A fresh copy of the applicant's signature, or null when there is none. */
    method GetSignaturePerson() returns (copy: array?<bv8>)
      ensures Bytes(copy) == SignaturePersonBytes()
      ensures copy != null ==> fresh(copy)
    {
      if signaturePerson == null {
        copy := null;
      } else {
        copy := CopyOf(signaturePerson);
      }
    }

    /** Stores a private copy of the given signature, or null for null. */
    method SetSignaturePerson(signature: array?<bv8>)
      modifies this
      ensures SignaturePersonBytes() == Bytes(signature)
      ensures signaturePerson != null ==> fresh(signaturePerson)
      ensures State().(signaturePerson := null) == old(State()).(signaturePerson := null)
    {
      if signature != null {
        signaturePerson := CopyOf(signature);
      } else {
        signaturePerson := null;
      }
    }

    // ----- status predicates -----

    /** Whether the record's status is `s`; false for a record without status. */
    predicate HasStatus(s: ApplicationStatus): (r: bool)
      reads this
      ensures r ==> status.Some?
      ensures r <==> State().status == Some(s)
    {
      status == Some(s)
    }

    /** True for a cancelled record; no earlier status is consulted. */
    predicate IsFormerlyAllowed(): (r: bool)
      reads this
      ensures r <==> status == Some(CANCELLED)
      ensures r ==> !HasStatus(ALLOWED)
    {
      HasStatus(CANCELLED)
    }
  }

  /** A record has at most one status at a time. */
  lemma StatusIsUnique(app: Application, s: ApplicationStatus, t: ApplicationStatus)
    requires app.HasStatus(s) && app.HasStatus(t)
    ensures s == t
  {
  }

  /** `isFormerlyAllowed` holds exactly for CANCELLED records, so a record
      that is still ALLOWED (or WAITING, or REJECTED) is never formerly allowed. */
  lemma FormerlyAllowedIffCancelled(app: Application)
    ensures app.IsFormerlyAllowed() <==> app.status == Some(CANCELLED)
    ensures app.IsFormerlyAllowed() ==> !app.HasStatus(ALLOWED) && !app.HasStatus(WAITING)
  {
  }

  /** A request that went from WAITING straight to CANCELLED, never ALLOWED,
      still counts as formerly allowed. */
  method CancelledWhileWaiting() returns (app: Application)
    ensures app.IsFormerlyAllowed()
    ensures app.status == Some(CANCELLED)
  {
    app := new Application();
    app.SetStatus(Some(WAITING));
    assert !app.IsFormerlyAllowed();
    app.SetStatus(Some(CANCELLED));
  }

  /** Changing the bytes of the array passed to a signature setter, or of the
      array a getter returned, leaves the stored signature as it was set. */
  method SignatureIsIsolated(app: Application, signature: array<bv8>, b: bv8)
    requires signature.Length > 0
    modifies app, signature
    ensures app.SignatureBossBytes() == Some(old(signature[..]))
    ensures app.SignaturePersonBytes() == Some(old(signature[..]))
  {
    app.SetSignatureBoss(signature);
    app.SetSignaturePerson(signature);
    signature[0] := b;
    var copy := app.GetSignatureBoss();
    copy[0] := b + 1;
    copy := app.GetSignaturePerson();
    copy[0] := b + 1;
  }
}

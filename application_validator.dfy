/** The rule checker for the leave-request form (`AppForm`).

    Validation never fails: each broken rule appends one error to the caller's
    error collector, either bound to a form field or global to the form. */
module ApplicationValidator {
  import opened Common
  import opened Calendar
  import opened Domain

  /** The error codes the validator records. */
  const MANDATORY_FIELD: string := "error.mandatory.field"
  const PERIOD: string := "error.period"
  const PAST: string := "error.period.past"

  /** The names of the form fields that errors are bound to. */
  const START_DATE: string := "startDate"
  const END_DATE: string := "endDate"
  const START_DATE_HALF: string := "startDateHalf"
  const REASON: string := "reason"

  /** The submitted form; every field may be left empty (null). */
  datatype AppForm = AppForm(
    howLong: Option<DayLength>,
    startDate: Option<Day>,
    endDate: Option<Day>,
    startDateHalf: Option<Day>,
    vacationType: Option<VacationType>,
    reason: Option<string>)

  /** The classes a validator may be asked about; only the form is supported. */
  datatype FormClass = AppFormClass | OtherClass(name: string)

  /** One recorded error: bound to a field (`rejectValue`) or global (`reject`). */
  datatype ValidationError =
    | FieldError(field: string, code: string)
    | GlobalError(code: string)

  /** The caller's error collector: validation only ever appends to it. */
  class Errors {
    var list: seq<ValidationError>

    constructor ()
      ensures list == []
    {
      list := [];
    }

    method RejectValue(field: string, code: string)
      modifies this
      ensures list == old(list) + [FieldError(field, code)]
    {
      list := list + [FieldError(field, code)];
    }

    method Reject(code: string)
      modifies this
      ensures list == old(list) + [GlobalError(code)]
    {
      list := list + [GlobalError(code)];
    }
  }

  predicate IsWhitespace(c: char) {
    c == ' ' || c == '\t' || c == '\n' || c == '\r' || c == '\U{000B}' || c == '\U{000C}'
  }

  /** A string "has text" when it holds at least one non-whitespace character. */
  predicate HasText(s: string) {
    exists i :: 0 <= i < |s| && !IsWhitespace(s[i])
  }

  /** The validator applies to the application form class only. */
  function Supports(c: FormClass): (r: bool)
    ensures r <==> c == AppFormClass
  {
    c.AppFormClass?
  }

  /** Whether the form carries a reason with text (needed by every vacation
      type other than HOLIDAY, a missing type included). */
  predicate ReasonGiven(app: AppForm) {
    app.reason.Some? && HasText(app.reason.value)
  }

  /** Reference description of a form that passes `validate`, written as the
      rules read rather than as the order in which they are checked. */
  predicate Complete(app: AppForm) {
    && (app.howLong == Some(FULL) ==>
          app.startDate.Some? && app.endDate.Some? && app.startDate.value <= app.endDate.value)
    && (app.howLong != Some(FULL) ==> app.startDateHalf.Some?)
    && (app.vacationType != Some(HOLIDAY) ==> ReasonGiven(app))
  }

  /** Errors of the date rules for a full-day form, in the order they are recorded. */
  function FullDayErrors(app: AppForm): seq<ValidationError> {
    (if app.startDate.None? then [FieldError(START_DATE, MANDATORY_FIELD)] else [])
    + (if app.endDate.None? then [FieldError(END_DATE, MANDATORY_FIELD)] else [])
    + (if app.startDate.Some? && app.endDate.Some? && app.startDate.value > app.endDate.value
       then [GlobalError(PERIOD)] else [])
  }

  /** Everything `validate` appends for a form, in order. */
  function ValidationErrors(app: AppForm): (r: seq<ValidationError>)
    ensures FieldError(START_DATE, MANDATORY_FIELD) in r <==>
              app.howLong == Some(FULL) && app.startDate.None?
    ensures FieldError(END_DATE, MANDATORY_FIELD) in r <==>
              app.howLong == Some(FULL) && app.endDate.None?
    ensures GlobalError(PERIOD) in r <==>
              && app.howLong == Some(FULL)
              && app.startDate.Some? && app.endDate.Some?
              && app.startDate.value > app.endDate.value
    ensures FieldError(START_DATE_HALF, MANDATORY_FIELD) in r <==>
              app.howLong != Some(FULL) && app.startDateHalf.None?
    ensures FieldError(REASON, MANDATORY_FIELD) in r <==>
              app.vacationType != Some(HOLIDAY) && !ReasonGiven(app)
    ensures FieldError(REASON, MANDATORY_FIELD) in r ==> r[|r| - 1] == FieldError(REASON, MANDATORY_FIELD)
    ensures forall e :: e in r ==> e.code != PAST
    ensures |r| <= 4
  {
    (if app.howLong == Some(FULL) then FullDayErrors(app)
     else if app.startDateHalf.None? then [FieldError(START_DATE_HALF, MANDATORY_FIELD)]
     else [])
    + (if app.vacationType != Some(HOLIDAY) && !ReasonGiven(app)
       then [FieldError(REASON, MANDATORY_FIELD)] else [])
  }

  /** Whether a day lies in the past: its midnight is strictly before `now`. */
  predicate IsBeforeNow(d: Day, now: Instant) {
    StartOfDay(d) < now
  }

  /** Everything `validateForUser` appends for a form at time `now`. */
  function UserValidationErrors(app: AppForm, now: Instant): (r: seq<ValidationError>)
    ensures |r| <= 1
    ensures forall e :: e in r ==> e.FieldError? && e.code == PAST
    ensures app.howLong == Some(FULL) ==>
              (FieldError(START_DATE, PAST) in r <==>
                 app.startDate.Some? && IsBeforeNow(app.startDate.value, now))
    ensures app.howLong == Some(FULL) ==> FieldError(START_DATE_HALF, PAST) !in r
    ensures app.howLong != Some(FULL) ==>
              (FieldError(START_DATE_HALF, PAST) in r <==>
                 app.startDateHalf.Some? && IsBeforeNow(app.startDateHalf.value, now))
    ensures app.howLong != Some(FULL) ==> FieldError(START_DATE, PAST) !in r
  {
    if app.howLong == Some(FULL) then
      if app.startDate.Some? && IsBeforeNow(app.startDate.value, now)
      then [FieldError(START_DATE, PAST)] else []
    else
      if app.startDateHalf.Some? && IsBeforeNow(app.startDateHalf.value, now)
      then [FieldError(START_DATE_HALF, PAST)] else []
  }

  /** `validate`: appends the errors of the form to the collector. */
  method Validate(app: AppForm, errors: Errors)
    modifies errors
    ensures errors.list == old(errors.list) + ValidationErrors(app)
  {
    if app.howLong == Some(FULL) {
      if app.startDate.None? {
        errors.RejectValue(START_DATE, MANDATORY_FIELD);
      }
      if app.endDate.None? {
        errors.RejectValue(END_DATE, MANDATORY_FIELD);
      }
      if app.startDate.Some? && app.endDate.Some? {
        if app.startDate.value > app.endDate.value {
          errors.Reject(PERIOD);
        }
      }
    } else {
      if app.startDateHalf.None? {
        errors.RejectValue(START_DATE_HALF, MANDATORY_FIELD);
      }
    }
    if app.vacationType != Some(HOLIDAY) {
      if app.reason.None? || !HasText(app.reason.value) {
        errors.RejectValue(REASON, MANDATORY_FIELD);
      }
    }
  }

  /** `validateForUser`: appends an error when the start date lies before `now`. */
  method ValidateForUser(app: AppForm, now: Instant, errors: Errors)
    modifies errors
    ensures errors.list == old(errors.list) + UserValidationErrors(app, now)
  {
    if app.howLong == Some(FULL) {
      if app.startDate.Some? {
        if IsBeforeNow(app.startDate.value, now) {
          errors.RejectValue(START_DATE, PAST);
        }
      }
    } else {
      if app.startDateHalf.Some? {
        if IsBeforeNow(app.startDateHalf.value, now) {
          errors.RejectValue(START_DATE_HALF, PAST);
        }
      }
    }
  }

  /** A form passes `validate` exactly when it meets the rules. */
  lemma CleanFormIffComplete(app: AppForm)
    ensures ValidationErrors(app) == [] <==> Complete(app)
  {
  }

  /** Both missing full-day dates are reported by the same call. */
  lemma BothMissingDatesReported(app: AppForm)
    requires app.howLong == Some(FULL) && app.startDate.None? && app.endDate.None?
    ensures ValidationErrors(app)[..2] ==
              [FieldError(START_DATE, MANDATORY_FIELD), FieldError(END_DATE, MANDATORY_FIELD)]
  {
  }

  /** The half-day branches never look at the full-day dates. */
  lemma HalfDayIgnoresFullDayDates(app: AppForm, start: Option<Day>, end: Option<Day>, now: Instant)
    requires app.howLong != Some(FULL)
    ensures ValidationErrors(app.(startDate := start, endDate := end)) == ValidationErrors(app)
    ensures UserValidationErrors(app.(startDate := start, endDate := end), now) == UserValidationErrors(app, now)
  {
  }

  /** The full-day branches never look at the half-day date. */
  lemma FullDayIgnoresHalfDayDate(app: AppForm, half: Option<Day>, now: Instant)
    requires app.howLong == Some(FULL)
    ensures ValidationErrors(app.(startDateHalf := half)) == ValidationErrors(app)
    ensures UserValidationErrors(app.(startDateHalf := half), now) == UserValidationErrors(app, now)
  {
  }

  /** A full-day form starting after the day that contains `now`, or at the
      very instant `now`, is not reported as past. */
  lemma StartingAfterTodayIsNotPast(app: AppForm, now: Instant)
    requires app.howLong == Some(FULL) && app.startDate.Some?
    requires app.startDate.value > DayOf(now) || StartOfDay(app.startDate.value) == now
    ensures UserValidationErrors(app, now) == []
  {
  }

  /** The comparison is against the instant `now`, not against today's date:
      once midnight has passed, a form starting today is reported as past. */
  lemma StartingTodayIsPastAfterMidnight(app: AppForm, now: Instant)
    requires app.howLong == Some(FULL) && app.startDate == Some(DayOf(now))
    requires now > StartOfDay(DayOf(now))
    ensures UserValidationErrors(app, now) == [FieldError(START_DATE, PAST)]
  {
  }
}

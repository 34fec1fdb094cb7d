/** The enumerations and identities shared by the leave-request code. */
module Domain {

  /** A person, identified by an id (persons are distinct exactly when their ids are). */
  type PersonId = nat

  /** Lifecycle state of an application for leave. */
  datatype ApplicationStatus = WAITING | ALLOWED | REJECTED | CANCELLED

  /** Category of leave. Only HOLIDAY is singled out by any rule here; every
      other category stands for itself under its own name. */
  datatype VacationType = HOLIDAY | OtherVacationType(name: string)

  /** Length of a leave day: a full day or a morning or afternoon half day. */
  datatype DayLength = FULL | MORNING | NOON

  /** The role checked by the department service; every other role is alike here. */
  datatype Role = DEPARTMENT_HEAD | OtherRole(name: string)
}

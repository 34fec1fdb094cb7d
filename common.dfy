/** Small wrappers shared by the whole model: Java's nullable references and
    the exceptions the modelled code throws. */
module Common {

  /** A Java reference that may be null. */
  datatype Option<+T> = None | Some(value: T)

  /** The exceptions that the modelled operations raise. */
  datatype JavaException = NullPointerException | IllegalStateException

  /** Outcome of an operation that returns nothing or throws. */
  datatype Outcome = Completed | Thrown(exception: JavaException)
}

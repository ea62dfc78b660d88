/** Small wrapper types shared by the model: Java's nullable references and
    the exceptions a Java call may raise instead of returning. */
module Wrappers {

  /** A Java reference that may be null. */
  datatype Option<+T> = None | Some(value: T)

  /** The unchecked Java exceptions the modelled code can raise. */
  datatype JavaException = NullPointerException | StringIndexOutOfBoundsException

  /** The result of a Java expression that either returns a value or throws. */
  datatype Outcome<+T> = Returns(value: T) | Throws(exception: JavaException)
}

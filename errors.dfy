/** Failures the comparator registries report. Each one stands for an exception
    the Java registry throws. */
module Errors {

  datatype Error =
    /** Construction got a null bootstrap registry (NullPointerException). */
    | NullBootstrap
    /** register: the OID is already known to one of the two layers (NamingException). */
    | AlreadyRegistered(oid: string)
    /** lookup or getSchemaName: no layer knows the OID (NamingException). */
    | NotFound(oid: string)
    /** getSchemaName: the OID does not start with a digit (NamingException). */
    | NotNumeric(oid: string)
    /** getSchemaName on the empty string: charAt(0) fails (StringIndexOutOfBoundsException). */
    | EmptyOid

  /** The value of an operation that returns something, or the error it throws. */
  datatype Result<T> = Ok(value: T) | Err(error: Error)

  /** The outcome of an operation that returns nothing, or the error it throws. */
  datatype Outcome = Pass | Fail(error: Error)
}

/** Option and Result, the model's stand-ins for Java's null and for thrown exceptions. */
module Wrappers {

  /** A Java reference that may be null: None is null. */
  datatype Option<+T> = None | Some(value: T) {
    function GetOr(default: T): T {
      match this
      case Some(v) => v
      case None => default
    }
  }

  /** The outcome of a Java call that returns a value or throws. */
  datatype Result<+R, +E> = Success(value: R) | Failure(error: E) {
    predicate IsFailure() {
      Failure?
    }

    function PropagateFailure<U>(): Result<U, E>
      requires Failure?
    {
      Failure(error)
    }

    function Extract(): R
      requires Success?
    {
      value
    }
  }
}

/** The Java exceptions the loader core throws, catches or aggregates. */
module JavaErrors {

  datatype ErrorKind =
    | IOException
    | FileNotFoundException
    | MalformedURLException
    | EOFException
    | IllegalStateException
    | IllegalArgumentException
    | NullPointerException
    | NoSuchElementException
    | ClassNotFoundException
    | SecurityException

  /** An exception with its message and the exceptions attached to it by addSuppressed. */
  datatype Exception = Exception(kind: ErrorKind, message: string, suppressed: seq<Exception>)

  function Err(kind: ErrorKind, message: string): Exception {
    Exception(kind, message, [])
  }

  /** MalformedURLException and FileNotFoundException are IOExceptions; a catch (IOException) takes them. */
  predicate IsIOException(e: Exception) {
    e.kind in {IOException, FileNotFoundException, MalformedURLException, EOFException}
  }
}

/**
 VersionIO.Write with its three system calls made visible (version.go:34-46):
 create the file, write the line, and the deferred close. Each call either
 succeeds or fails with a reason; the rest of the model assumes all three
 succeed, where the code as written and the corrected version agree.

 The deferred closure assigns the close result to the named result `err`,
 which runs after the `return` statement has set it, so a failed write
 followed by a successful close returns neither a version nor an error.
 */
module VersionWrite {
  import opened Outcomes
  import opened Versions

  /** The outcome of one system call. */
  datatype Call = Done | Failed(reason: string)

  /** Go's two results `(v *Version, err error)`: `None` stands for nil. */
  datatype Returned = Returned(version: Option<Version>, err: Option<string>)

  function ErrOf(c: Call): (e: Option<string>)
    ensures e.None? <==> c.Done?
  {
    match c
    case Done => None
    case Failed(reason) => Some(reason)
  }

  /** What a caller expects of a Go function returning a value and an error: exactly one is nil. */
  predicate Conventional(r: Returned) {
    r.version.Some? <==> r.err.None?
  }

  /**
   The code as written: os.Create's error is returned before the defer is
   registered; after that, whatever `return` sets, the deferred close
   overwrites `err`.
   */
  function WriteAsWritten(v: Version, create: Call, write: Call, close: Call): (r: Returned)
    ensures create.Failed? ==> r == Returned(None, Some(create.reason))
    ensures create.Done? ==> r.err == ErrOf(close)
    ensures create.Done? ==> (r.version.Some? <==> write.Done?)
  {
    if create.Failed? then Returned(None, ErrOf(create))
    else
      var returned := if write.Failed? then Returned(None, ErrOf(write)) else Returned(Some(v), None);
      returned.(err := ErrOf(close))
  }

  /** A failed write followed by a successful close returns nil, nil: the failure is lost. */
  lemma WriteFailureIsLost(v: Version, reason: string)
    ensures WriteAsWritten(v, Done, Failed(reason), Done) == Returned(None, None)
    ensures !Conventional(WriteAsWritten(v, Done, Failed(reason), Done))
  {
  }

  /**
   The evident intent: report the first failure; a close failure is
   reported only when everything before it succeeded.
   */
  function WriteCorrected(v: Version, create: Call, write: Call, close: Call): (r: Returned)
    ensures Conventional(r)
    ensures r.err.None? <==> create.Done? && write.Done? && close.Done?
    ensures r.version.Some? ==> r.version.value == v
    ensures create.Failed? ==> r.err == Some(create.reason)
    ensures create.Done? && write.Failed? ==> r.err == Some(write.reason)
  {
    if create.Failed? then Returned(None, ErrOf(create))
    else if write.Failed? then Returned(None, ErrOf(write))
    else if close.Failed? then Returned(None, ErrOf(close))
    else Returned(Some(v), None)
  }

  /** When every call succeeds, both versions return the version and no error, which is all the rest of the model relies on. */
  lemma WritesAgreeOnSuccess(v: Version)
    ensures WriteAsWritten(v, Done, Done, Done) == WriteCorrected(v, Done, Done, Done) == Returned(Some(v), None)
  {
  }

  /**
   The code as written breaks the value-or-error convention exactly when
   the write and the close disagree: a lost write failure (nil, nil), or a
   close failure reported alongside the version.
   */
  lemma AsWrittenUnconventional(v: Version, create: Call, write: Call, close: Call)
    ensures !Conventional(WriteAsWritten(v, create, write, close)) <==>
      create.Done? && (write.Done? != close.Done?)
  {
  }
}

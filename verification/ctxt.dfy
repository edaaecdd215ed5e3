/**
 * The build tool's error collector: parsing code pushes compile errors
 * into one shared `ASTResult`, and `check` hands them all back at the
 * end, in the order they were pushed.
 */
module Ctxt {
  import opened Wrappers

  /** A compile error. Only its message is modelled; the source span it points at is not. */
  datatype SynError = SynError(message: string)

  /** A value together with the errors pushed, in order, while computing it. */
  datatype Logged<T> = Logged(value: T, pushed: seq<SynError>)

  class ASTResult {
    /** The errors pushed so far, oldest first. */
    var errors: seq<SynError>
    /** Whether `check` has been called. */
    var isChecked: bool

    /** An empty collector. */
    constructor ()
      ensures errors == [] && !isChecked
    {
      errors := [];
      isChecked := false;
    }

    /** Appends `err`. */
    method PushError(err: SynError)
      modifies this
      ensures errors == old(errors) + [err]
      ensures isChecked == old(isChecked)
    {
      errors := errors + [err];
    }

    /** Appends a new error with message `msg`, spanning some syntax (the span is not modelled). */
    method PushSpanned(msg: string)
      modifies this
      ensures errors == old(errors) + [SynError(msg)]
      ensures isChecked == old(isChecked)
    {
      PushError(SynError(msg));
    }

    /** The same as `PushSpanned`. */
    method ErrorSpannedBy(msg: string)
      modifies this
      ensures errors == old(errors) + [SynError(msg)]
      ensures isChecked == old(isChecked)
    {
      PushSpanned(msg);
    }

    /** The same as `PushError`. */
    method PushSynError(err: SynError)
      modifies this
      ensures errors == old(errors) + [err]
      ensures isChecked == old(isChecked)
    {
      PushError(err);
    }

    /**
     * Marks the collector checked and takes its errors out: `Ok` when
     * none were pushed, otherwise all of them in push order.
     */
    method Check() returns (r: Result<(), seq<SynError>>)
      modifies this
      ensures isChecked && errors == []
      ensures r == if old(errors) == [] then Ok(()) else Err(old(errors))
    {
      isChecked := true;
      var errs := errors;
      errors := [];
      if errs == [] {
        r := Ok(());
      } else {
        r := Err(errs);
      }
    }

    /** Dropping the collector prints a warning exactly when it was never checked and holds errors. */
    predicate WarnsOnDrop()
      reads this
    {
      !isChecked && |errors| > 0
    }
  }

  // ---- scenarios ----

  /** A fresh collector checks to `Ok`. */
  method FreshIsOk() returns (r: Result<(), seq<SynError>>)
    ensures r == Ok(())
  {
    var cx := new ASTResult();
    r := cx.Check();
  }

  /** One pushed message comes back as the only error. */
  method OnePush(msg: string) returns (warnedBefore: bool, r: Result<(), seq<SynError>>, warnedAfter: bool)
    ensures warnedBefore && r == Err([SynError(msg)]) && !warnedAfter
  {
    var cx := new ASTResult();
    cx.ErrorSpannedBy(msg);
    assert cx.errors == [SynError(msg)];
    warnedBefore := cx.WarnsOnDrop();
    r := cx.Check();
    warnedAfter := cx.WarnsOnDrop();
  }

  /** Errors come back in the order they were pushed, whichever method pushed them. */
  method PushOrder(a: SynError, b: string, c: SynError) returns (r: Result<(), seq<SynError>>)
    ensures r == Err([a, SynError(b), c])
  {
    var cx := new ASTResult();
    cx.PushError(a);
    cx.PushSpanned(b);
    cx.PushSynError(c);
    assert cx.errors == [a, SynError(b), c];
    r := cx.Check();
  }
}

/** The append-only diagnostic list shared by the three stages (ErrorHandler.py). */
module ErrorHandling {
  import opened Errors

  class ErrorHandler {
    /** `_errorList`, oldest first. */
    var errors: seq<Diagnostic>

    constructor ()
      ensures errors == []
    {
      errors := [];
    }

    /** Appends one diagnostic at the end; earlier entries are unchanged. */
    method AddError(d: Diagnostic)
      modifies this
      ensures errors == old(errors) + [d]
      ensures |errors| == |old(errors)| + 1 && errors[..|old(errors)|] == old(errors)
    {
      errors := errors + [d];
    }

    /** True iff at least one diagnostic has been recorded. */
    function HasErrors(): (b: bool)
      reads this
      ensures b <==> errors != []
    {
      |errors| != 0
    }

    method ClearErrors()
      modifies this
      ensures errors == [] && !HasErrors()
    {
      errors := [];
    }
  }

  /** Two calls of AddError leave the diagnostics in call order. */
  method AddTwice(h: ErrorHandler, d1: Diagnostic, d2: Diagnostic)
    modifies h
    ensures h.errors == old(h.errors) + [d1, d2]
    ensures h.errors[|h.errors| - 2] == d1 && h.errors[|h.errors| - 1] == d2
  {
    h.AddError(d1);
    h.AddError(d2);
  }
}

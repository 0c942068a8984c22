/** The error values the decoder produces or passes on. Go classifies an
    error by its dynamic type; here each type the decoder distinguishes is a
    constructor of `Error`. */
module Errors {
  import opened Strconv
  import GoStrings

  /** A field failed validation (Go: `*ValidationError`). */
  datatype ValidationError = ValidationError(field: string, message: string)
  {
    /** ValidationError.Error */
    function Text(): string
    {
      message
    }
  }

  /** Every validation failure of one decode call, in the order met. */
  datatype CompoundValidationError = CompoundValidationError(errs: seq<ValidationError>)
  {
    /** CompoundValidationError.Len */
    function Len(): (n: nat)
      ensures n == |Messages(errs)|
      ensures n == 0 <==> errs == []
    {
      |errs|
    }

    /** CompoundValidationError.Error: the messages joined by "; " after a
        fixed lead-in. */
    function Text(): (t: string)
      ensures |CompoundLead| <= |t| && t[..|CompoundLead|] == CompoundLead
    {
      CompoundLead + GoStrings.Join(Messages(errs), "; ")
    }
  }

  const CompoundLead := "validation errors occurred: "

  function Messages(errs: seq<ValidationError>): (ms: seq<string>)
    ensures |ms| == |errs|
    ensures forall i :: 0 <= i < |errs| ==> ms[i] == errs[i].Text()
  {
    if errs == [] then [] else [errs[0].Text()] + Messages(errs[1..])
  }

  /** CompoundValidationError.Error, message by message. */
  method CompoundMessage(c: CompoundValidationError) returns (text: string)
    ensures text == c.Text()
    ensures |c.errs| == 1 ==> text == CompoundLead + c.errs[0].message
  {
    var msg: seq<string> := [];
    for i := 0 to |c.errs|
      invariant msg == Messages(c.errs[..i])
    {
      assert Messages(c.errs[..i + 1]) == msg + [c.errs[i].Text()];
      msg := msg + [c.errs[i].Text()];
    }
    assert c.errs[..|c.errs|] == c.errs;
    text := CompoundLead + GoStrings.Join(msg, "; ");
  }

  datatype Error =
    | Invalid(ve: ValidationError)             // a *ValidationError
    | Compound(c: CompoundValidationError)     // a CompoundValidationError
    | NumError(func: string, num: string, reason: NumReason)  // a *strconv.NumError
    | Failure(message: string)                 // errors.New / fmt.Errorf
    | Panic(message: string)                   // a run-time panic, which unwinds

  /** Whether the driver collects the error and carries on (Go: the type
      assertion `e.(*ValidationError)`). */
  predicate IsValidation(e: Error)
  {
    e.Invalid?
  }

  lemma {:induction false} JoinAppend(xs: seq<string>, x: string, sep: string)
    requires |xs| >= 1
    ensures GoStrings.Join(xs + [x], sep) == GoStrings.Join(xs, sep) + sep + x
  {
    if |xs| > 1 {
      JoinAppend(xs[1..], x, sep);
      assert (xs + [x])[1..] == xs[1..] + [x];
    } else {
      assert (xs + [x])[1..] == [x];
    }
  }

  /** The compound message of one error is the lead-in and that message;
      each further error adds "; " and its own message. */
  lemma CompoundText(errs: seq<ValidationError>, e: ValidationError)
    ensures CompoundValidationError([e]).Text() == CompoundLead + e.message
    ensures errs != [] ==>
      CompoundValidationError(errs + [e]).Text()
        == CompoundValidationError(errs).Text() + "; " + e.message
  {
    assert Messages([e]) == [e.message];
    if errs != [] {
      var ms := Messages(errs);
      assert Messages(errs + [e]) == ms + [e.message];
      JoinAppend(ms, e.message, "; ");
    }
  }
}

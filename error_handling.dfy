/** Turning the back end's failure envelope into form errors and one line of
    text (src/utilities/errorHandling.ts). */
module ErrorHandling {
  import opened Common

  /** One entry of `errors`: the field it is about and what is wrong. */
  datatype FieldError = FieldError(field: string, message: string)

  /** The failure envelope `{ success, message, message_type, errors? }`. */
  datatype ErrorBody = ErrorBody(success: bool, message: string, messageType: string, errors: Option<seq<FieldError>>)

  /** `error.errors ?? []` */
  function ErrorList(error: ErrorBody): seq<FieldError>
  {
    if error.errors.Some? then error.errors.value else []
  }

  /** The record built by assigning each entry in order: a later entry for
      a field overwrites an earlier one. */
  function FieldErrorsOf(errors: seq<FieldError>): map<string, string>
  {
    if |errors| == 0 then map[]
    else FieldErrorsOf(errors[..|errors| - 1])[errors[|errors| - 1].field := errors[|errors| - 1].message]
  }

  /** `getFieldErrors`: the loop over `error.errors`. */
  method GetFieldErrors(error: ErrorBody) returns (fieldErrors: map<string, string>)
    ensures fieldErrors == FieldErrorsOf(ErrorList(error))
  {
    fieldErrors := map[];
    if error.errors.Some? && |error.errors.value| > 0 {
      var errs := error.errors.value;
      var i := 0;
      while i < |errs|
        invariant 0 <= i <= |errs|
        invariant fieldErrors == FieldErrorsOf(errs[..i])
      {
        assert errs[..i + 1][..i] == errs[..i];
        fieldErrors := fieldErrors[errs[i].field := errs[i].message];
        i := i + 1;
      }
      assert errs[..|errs|] == errs;
    }
  }

  /** The record has a key for exactly the fields that appear. */
  lemma {:induction false} FieldErrorsKeys(errors: seq<FieldError>)
    ensures FieldErrorsOf(errors).Keys == set e | e in errors :: e.field
    decreases |errors|
  {
    if |errors| > 0 {
      var n := |errors| - 1;
      var init := errors[..n];
      FieldErrorsKeys(init);
      assert errors == init + [errors[n]];
      assert (set e | e in errors :: e.field) == (set e | e in init :: e.field) + {errors[n].field};
    }
  }

  /** The entry for a field that no later entry names is the one kept. */
  lemma {:induction false} FieldErrorsLast(errors: seq<FieldError>, i: nat)
    requires i < |errors|
    requires forall j :: i < j < |errors| ==> errors[j].field != errors[i].field
    ensures errors[i].field in FieldErrorsOf(errors) && FieldErrorsOf(errors)[errors[i].field] == errors[i].message
    decreases |errors|
  {
    var n := |errors| - 1;
    if i < n {
      var init := errors[..n];
      assert init[i] == errors[i];
      FieldErrorsLast(init, i);
    }
  }

  /** The record has a key for exactly the fields that appear, and each key
      holds the message of the LAST entry for that field. */
  lemma FieldErrorsLastWins(errors: seq<FieldError>)
    ensures FieldErrorsOf(errors).Keys == set e | e in errors :: e.field
    ensures forall i :: 0 <= i < |errors| && (forall j :: i < j < |errors| ==> errors[j].field != errors[i].field)
              ==> FieldErrorsOf(errors)[errors[i].field] == errors[i].message
  {
    FieldErrorsKeys(errors);
    forall i | 0 <= i < |errors| && (forall j :: i < j < |errors| ==> errors[j].field != errors[i].field)
      ensures FieldErrorsOf(errors)[errors[i].field] == errors[i].message
    {
      FieldErrorsLast(errors, i);
    }
  }

  /** `${err.field}: ${err.message}` for every entry. */
  function Describe(errors: seq<FieldError>): (lines: seq<string>)
    ensures |lines| == |errors|
    ensures forall i :: 0 <= i < |errors| ==> lines[i] == errors[i].field + ": " + errors[i].message
  {
    if |errors| == 0 then [] else [errors[0].field + ": " + errors[0].message] + Describe(errors[1..])
  }

  /** `getGeneralErrorMessage` */
  function GetGeneralErrorMessage(error: ErrorBody): (text: string)
    ensures ErrorList(error) == [] ==> text == error.message
    ensures StartsWith(text, error.message)
  {
    var errs := ErrorList(error);
    if |errs| > 0 then error.message + " " + Join(", ", Describe(errs)) else error.message
  }

  /** The combined text names every field error, field and message together. */
  lemma GeneralMessageMentionsEveryError(error: ErrorBody, i: nat)
    requires i < |ErrorList(error)|
    ensures Occurs(ErrorList(error)[i].field + ": " + ErrorList(error)[i].message, GetGeneralErrorMessage(error))
  {
    var lines := Describe(ErrorList(error));
    JoinContainsParts(", ", lines, i);
    OccursInContext(lines[i], Join(", ", lines), error.message + " ", "");
    assert error.message + " " + Join(", ", lines) + "" == GetGeneralErrorMessage(error);
  }
}

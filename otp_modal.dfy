/** The one-time-code dialog (src/components/OtpModal/page.tsx): six
    single-digit cells, the focus moves between them, the length gate in
    front of `confirmPhone`, and the reset after a code is sent again. */
module OtpModal {
  import opened Common
  import opened ErrorHandling
  import Auth

  const CellCount := 6

  /** Translation keys of the messages the dialog shows; the catalogue
      that turns them into text is not part of this model. */
  const EnterCompleteCode := "enterCompleteCode"

  /** `/^[0-9]?$/`: empty, or exactly one decimal digit. */
  predicate Cell(value: string)
  {
    value == "" || (|value| == 1 && IsDigit(value[0]))
  }

  /** The initial and the reset code. */
  const BlankCode: seq<string> := ["", "", "", "", "", ""]

  /** `code.join("")` */
  function Joined(code: seq<string>): string
  {
    Join("", code)
  }

  /** Every character of joined cells is a digit. */
  lemma {:induction false} JoinedDigits(code: seq<string>)
    requires forall i :: 0 <= i < |code| ==> Cell(code[i])
    ensures forall k :: 0 <= k < |Joined(code)| ==> IsDigit(Joined(code)[k])
    decreases |code|
  {
    if |code| > 1 {
      JoinedDigits(code[1..]);
      assert Joined(code) == code[0] + Joined(code[1..]);
      forall k | 0 <= k < |Joined(code)|
        ensures IsDigit(Joined(code)[k])
      {
        if k >= |code[0]| {
          assert Joined(code)[k] == Joined(code[1..])[k - |code[0]|];
        }
      }
    }
  }

  /** The joined code has six characters exactly when every cell is filled,
      and then it is six digits. */
  lemma CompleteIffFilled(code: seq<string>)
    requires |code| == CellCount && forall i :: 0 <= i < |code| ==> Cell(code[i])
    ensures |Joined(code)| == CellCount <==> forall i :: 0 <= i < |code| ==> code[i] != ""
    ensures |Joined(code)| <= CellCount
    ensures forall k :: 0 <= k < |Joined(code)| ==> IsDigit(Joined(code)[k])
  {
    JoinEmptySepLength(code);
    JoinedDigits(code);
  }

  /** `handleKeyDown`: Backspace in an empty cell other than the first
      moves the focus one cell back. */
  function KeyDownFocus(code: seq<string>, idx: nat, key: string): (focus: Option<nat>)
    requires idx < |code|
    ensures focus.Some? <==> key == "Backspace" && code[idx] == "" && idx > 0
    ensures focus.Some? ==> focus.value + 1 == idx
  {
    if key == "Backspace" && code[idx] == "" && idx > 0 then Some(idx - 1) else None
  }

  /** The dialog's state. */
  class OtpEntry {
    var code: seq<string>
    var error: string
    var loading: bool
    var resendLoading: bool

    /** Six cells, each empty or one digit. */
    ghost predicate Valid()
      reads this
    {
      |code| == CellCount && forall i :: 0 <= i < |code| ==> Cell(code[i])
    }

    constructor ()
      ensures Valid()
      ensures code == BlankCode && error == "" && !loading && !resendLoading
    {
      code := BlankCode;
      error := "";
      loading := false;
      resendLoading := false;
    }

    /** `handleChange`: the cell to focus next, if any. A value that is
        neither empty nor one digit changes nothing; an accepted one is
        written to its cell alone and clears the error, and a filled cell
        other than the last moves the focus on. */
    method HandleChange(idx: nat, value: string) returns (focus: Option<nat>)
      requires Valid() && idx < CellCount
      modifies this
      ensures Valid()
      ensures !Cell(value) ==> code == old(code) && error == old(error) && focus.None?
      ensures Cell(value) ==> code == old(code)[idx := value] && error == ""
      ensures Cell(value) ==> forall i :: 0 <= i < CellCount && i != idx ==> code[i] == old(code)[i]
      ensures focus.Some? <==> Cell(value) && value != "" && idx < CellCount - 1
      ensures focus.Some? ==> focus.value == idx + 1
      ensures loading == old(loading) && resendLoading == old(resendLoading)
    {
      focus := None;
      if !Cell(value) {
        return;
      }
      var newCode := code;
      newCode := newCode[idx := value];
      code := newCode;
      error := "";
      if value != "" && idx < CellCount - 1 {
        focus := Some(idx + 1);
      }
    }

    /** The confirm button. */
    function ConfirmDisabled(): (disabled: bool)
      requires Valid()
      reads this
      ensures disabled <==> loading || exists i :: 0 <= i < CellCount && code[i] == ""
    {
      CompleteIffFilled(code);
      loading || |Joined(code)| != CellCount
    }

    /** The synchronous part of `handleConfirm`: the code sent to
        `confirmPhone`, if any. An incomplete code sets the error and sends
        nothing; a complete one, six digits, starts loading. */
    method BeginConfirm() returns (otp: Option<string>)
      requires Valid()
      modifies this
      ensures Valid() && code == old(code) && resendLoading == old(resendLoading)
      ensures otp.None? <==> exists i :: 0 <= i < CellCount && code[i] == ""
      ensures otp.None? ==> error == EnterCompleteCode && loading == old(loading)
      ensures otp.Some? ==> otp.value == Joined(code) && |otp.value| == CellCount && loading && error == ""
      ensures otp.Some? ==> forall k :: 0 <= k < CellCount ==> IsDigit(otp.value[k])
    {
      CompleteIffFilled(code);
      var otpCode := Joined(code);
      if |otpCode| != CellCount {
        error := EnterCompleteCode;
        otp := None;
        return;
      }
      loading := true;
      error := "";
      otp := Some(otpCode);
    }

    /** The rest of `handleConfirm` once `confirmPhone` settles: whether
        the page goes home. A success redirects; a failure shows its
        message; loading ends either way. */
    method FinishConfirm(outcome: Result<Auth.AuthResponse, ErrorBody>) returns (redirect: bool)
      modifies this
      ensures redirect <==> outcome.Ok? && outcome.value.success
      ensures outcome.Err? ==> error == outcome.error.message
      ensures outcome.Ok? ==> error == old(error)
      ensures !loading && code == old(code) && resendLoading == old(resendLoading)
    {
      loading := false;
      match outcome {
        case Ok(response) =>
          redirect := response.success;
        case Err(e) =>
          error := e.message;
          redirect := false;
      }
    }

    /** The start of `handleResendOtp`. */
    method BeginResend()
      modifies this
      ensures resendLoading && error == ""
      ensures code == old(code) && loading == old(loading)
    {
      resendLoading := true;
      error := "";
    }

    /** The end of `handleResendOtp`: the cell to focus. A code sent again
        blanks all six cells and focuses the first; a failure shows its
        message and keeps the cells. */
    method FinishResend(outcome: Result<Auth.AuthResponse, ErrorBody>) returns (focus: Option<nat>)
      requires Valid()
      modifies this
      ensures Valid()
      ensures outcome.Ok? ==> code == BlankCode && focus == Some(0) && error == old(error)
      ensures outcome.Ok? ==> forall i :: 0 <= i < CellCount ==> code[i] == ""
      ensures outcome.Err? ==> code == old(code) && focus.None? && error == outcome.error.message
      ensures !resendLoading && loading == old(loading)
    {
      resendLoading := false;
      match outcome {
        case Ok(_) =>
          code := BlankCode;
          focus := Some(0);
        case Err(e) =>
          error := e.message;
          focus := None;
      }
    }
  }
}

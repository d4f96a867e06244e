/** The profile service (src/API/services/profile.ts): the token-bearing
    client factories, and the get, update, upload and delete requests with
    their failure chains. */
module Profile {
  import opened Common
  import opened Http
  import opened ErrorHandling
  import opened Auth

  datatype ProfileData = ProfileData(username: string, phone: string, status: string, fullName: string, avatar: string, email: string)

  /** `ProfileResponse`: also the shape of every value these requests throw. */
  datatype ProfileResponse = ProfileResponse(
    success: bool,
    message: string,
    messageType: string,
    data: Option<ProfileData>,
    errors: Option<seq<FieldError>>)

  /** `{ success: false, message, message_type: 'error' }` */
  function Envelope(message: string): (r: ProfileResponse)
    ensures !r.success && r.message == message && r.messageType == "error"
  {
    ProfileResponse(false, message, "error", None, None)
  }

  const TokenNotFound := "Authentication token not found"
  const NotSignedIn := "Siz tizimga kirmagansiz"
  const SessionExpired := "Sizning sessiyangiz tugagan. Iltimos, qaytadan tizimga kiring."
  const NoInternet := "Internet aloqasi yo'q. Iltimos, internet aloqasini tekshiring."
  const NoResponse := "Server javob bermayapti. Iltimos, keyinroq urinib ko'ring."
  const NetworkErrorMessage := "Network error occurred"

  /** `createProfileApi` (JSON, 15 s) and `createProfileMultipartApi`
      (multipart, 30 s): a client bearing the current token, or the error
      thrown when there is none. */
  function ProfileApiConfig(documentCookie: string, multipart: bool): (r: Result<RequestConfig, string>)
    ensures r.Err? <==> !IsAuthenticated(documentCookie)
    ensures r.Err? ==> r.error == TokenNotFound
    ensures r.Ok? ==>
              && r.value.authorization == "Bearer " + GetAccessToken(documentCookie).value
              && r.value.baseUrl == ApiUrl && r.value.accept == Json
              && r.value.contentType == Some(if multipart then "multipart/form-data" else Json)
              && r.value.timeoutMs == (if multipart then 30000 else 15000)
  {
    var token := GetAccessToken(documentCookie);
    if token.None? || token.value == "" then Err(TokenNotFound)
    else if multipart then Ok(RequestConfig(ApiUrl, Some("multipart/form-data"), Json, "Bearer " + token.value, 30000))
    else Ok(RequestConfig(ApiUrl, Some(Json), Json, "Bearer " + token.value, 15000))
  }

  /** What distinguishes the three guarded requests: the message for a
      response that is not a success, whether the payload must be present,
      the prefix of the 422 message (none: the body is rethrown), whether
      network failures get their own message, and the last-resort message. */
  datatype Operation = Operation(
    multipart: bool,
    notDone: string,
    requiresData: bool,
    invalidPrefix: Option<string>,
    mapsNetwork: bool,
    failure: string)

  const GetProfileOp := Operation(false, "Profil ma'lumotlari topilmadi", true, None, true, "Profil ma'lumotlarini yuklashda xatolik yuz berdi")
  const UpdateProfileOp := Operation(false, "Profil yangilanmadi", false, Some("Ma'lumotlar noto'g'ri: "), false, "Profil yangilashda xatolik yuz berdi")
  const UploadAvatarOp := Operation(true, "Avatar yuklanmadi", false, Some("Avatar yuklashda xatolik: "), true, "Avatar yuklashda xatolik yuz berdi")

  /** `response.data.success && response.data.data` for `getProfile`,
      `response.data.success` for the others. */
  predicate Accepted(op: Operation, r: ProfileResponse)
  {
    r.success && (!op.requiresData || r.data.Some?)
  }

  function FieldErrorsText(errors: seq<FieldError>): string
  {
    Join(", ", Describe(errors))
  }

  /** The catch block of `getProfile`, `updateProfile` and `uploadAvatar`:
      the value finally thrown for a caught value, first matching rule
      first. */
  function Rejection(op: Operation, error: Thrown<ProfileResponse>): (r: ProfileResponse)
    ensures error.HasBody() && (error.HasStatus(401) || error.HasStatus(403)) ==> r == Envelope(SessionExpired)
    ensures error.HasBody() && !error.HasStatus(401) && !error.HasStatus(403) ==>
      var body := error.response.value.body.value;
      if op.invalidPrefix.Some? && error.HasStatus(422) && body.errors.Some? && |body.errors.value| > 0
      then r == Envelope(op.invalidPrefix.value + FieldErrorsText(body.errors.value))
      else r == body
    ensures !error.HasBody() ==> r.messageType == "error" && !r.success
    ensures !error.HasBody() && error.message == Some(TokenNotFound) ==> r == Envelope(NotSignedIn)
    ensures !error.HasBody() && !op.mapsNetwork && error.message != Some(TokenNotFound) ==> r == Envelope(op.failure)
    ensures !error.HasBody() && error.message.None? ==> r == Envelope(op.failure)
    ensures !error.HasBody() && op.mapsNetwork && error.message.Some? && error.message.value != TokenNotFound ==>
      if error.message.value == "Network Error" || error.code == Some("NETWORK_ERROR") then r == Envelope(NoInternet)
      else if error.code == Some("ECONNABORTED") || Includes(error.message.value, "timeout") then r == Envelope(NoResponse)
      else r == Envelope(op.failure)
  {
    if error.HasBody() then
      var body := error.response.value.body.value;
      if error.HasStatus(401) || error.HasStatus(403) then Envelope(SessionExpired)
      else if op.invalidPrefix.Some? && error.HasStatus(422) && body.errors.Some? && |body.errors.value| > 0 then
        Envelope(op.invalidPrefix.value + FieldErrorsText(body.errors.value))
      else body
    else if error.message.Some? then
      var m := error.message.value;
      if m == TokenNotFound then Envelope(NotSignedIn)
      else if op.mapsNetwork && (m == "Network Error" || error.code == Some("NETWORK_ERROR")) then Envelope(NoInternet)
      else if op.mapsNetwork && (error.code == Some("ECONNABORTED") || Includes(m, "timeout")) then Envelope(NoResponse)
      else Envelope(op.failure)
    else Envelope(op.failure)
  }

  /** A message none of the message rules of the catch block recognises. */
  predicate Unrecognised(m: string)
  {
    m != TokenNotFound && m != "Network Error" && !Includes(m, "timeout")
  }

  /** A plain thrown message (a locally thrown envelope has no `code`) that
      no rule recognises ends as the last-resort message. */
  lemma PlainMessageBecomesFailure(op: Operation, m: string)
    requires Unrecognised(m)
    ensures Rejection(op, ErrorWithMessage(m)) == Envelope(op.failure)
  {
  }

  /** The body of the three guarded requests, as written: the sign-in
      check and the unsuccessful-response check throw envelopes INSIDE the
      `try`, so those envelopes run through the catch block as well. */
  function Guarded(op: Operation, documentCookie: string, call: Call<ProfileResponse, ProfileResponse>): Result<ProfileResponse, ProfileResponse>
  {
    if !IsAuthenticated(documentCookie) then Err(Rejection(op, ErrorWithMessage(NotSignedIn)))
    else match ProfileApiConfig(documentCookie, op.multipart)
      case Err(msg) => Err(Rejection(op, ErrorWithMessage(msg)))
      case Ok(_) =>
        match call
        case Returned(r) =>
          if Accepted(op, r) then Ok(r)
          else Err(Rejection(op, ErrorWithMessage(if r.message != "" then r.message else op.notDone)))
        case Threw(t) => Err(Rejection(op, t))
  }

  /** `getProfile` */
  function GetProfile(documentCookie: string, call: Call<ProfileResponse, ProfileResponse>): (r: Result<ProfileResponse, ProfileResponse>)
    ensures r.Ok? <==> IsAuthenticated(documentCookie) && call.Returned? && call.value.success && call.value.data.Some?
    ensures r.Ok? ==> r == Ok(call.value)
  {
    Guarded(GetProfileOp, documentCookie, call)
  }

  /** `updateProfile` */
  function UpdateProfile(documentCookie: string, call: Call<ProfileResponse, ProfileResponse>): (r: Result<ProfileResponse, ProfileResponse>)
    ensures r.Ok? <==> IsAuthenticated(documentCookie) && call.Returned? && call.value.success
    ensures r.Ok? ==> r == Ok(call.value)
  {
    Guarded(UpdateProfileOp, documentCookie, call)
  }

  /** `uploadAvatar` */
  function UploadAvatar(documentCookie: string, call: Call<ProfileResponse, ProfileResponse>): (r: Result<ProfileResponse, ProfileResponse>)
    ensures r.Ok? <==> IsAuthenticated(documentCookie) && call.Returned? && call.value.success
    ensures r.Ok? ==> r == Ok(call.value)
  {
    Guarded(UploadAvatarOp, documentCookie, call)
  }

  /** `deleteAvatar`: no sign-in check; the factory's error, like any
      failure without a body, becomes the network error. */
  function DeleteAvatar(documentCookie: string, call: Call<ProfileResponse, ProfileResponse>): (r: Result<ProfileResponse, ProfileResponse>)
    ensures !IsAuthenticated(documentCookie) ==> r == Err(Envelope(NetworkErrorMessage))
    ensures IsAuthenticated(documentCookie) && call.Returned? ==> r == Ok(call.value)
    ensures IsAuthenticated(documentCookie) && call.Threw? ==>
      r == Err(if call.error.HasBody() then call.error.response.value.body.value else Envelope(NetworkErrorMessage))
  {
    match ProfileApiConfig(documentCookie, false)
    case Err(_) => Err(Envelope(NetworkErrorMessage))
    case Ok(_) =>
      match call
      case Returned(r) => Ok(r)
      case Threw(t) => if t.HasBody() then Err(t.response.value.body.value) else Err(Envelope(NetworkErrorMessage))
  }

  predicate GuardedOp(op: Operation)
  {
    op == GetProfileOp || op == UpdateProfileOp || op == UploadAvatarOp
  }

  /** Behind the sign-in check the factory always finds a token, so its
      "token not found" error is never thrown by these requests. */
  lemma FactoryNeverFailsAfterCheck(documentCookie: string, multipart: bool)
    requires IsAuthenticated(documentCookie)
    ensures ProfileApiConfig(documentCookie, multipart).Ok?
  {
  }

  /** A signed-out page gets the last-resort message, not the "not signed
      in" one the check throws: the catch block does not recognise it. */
  lemma SignedOutGetsFailure(op: Operation, documentCookie: string, call: Call<ProfileResponse, ProfileResponse>)
    requires GuardedOp(op) && !IsAuthenticated(documentCookie)
    ensures Guarded(op, documentCookie, call) == Err(Envelope(op.failure))
    ensures op.failure != NotSignedIn
  {
    NotSignedInUnrecognised();
    PlainMessageBecomesFailure(op, NotSignedIn);
  }

  lemma NotSignedInUnrecognised()
    ensures Unrecognised(NotSignedIn)
  {
    assert 'o' !in NotSignedIn;
    MissingCharBlocks("timeout", NotSignedIn, 4);
    IncludesMeansOccurs(NotSignedIn, "timeout");
  }

  /** A message shorter or longer than the two exact rules and missing a
      letter of "timeout" is unrecognised. */
  lemma MissingLetterUnrecognised(m: string, i: nat)
    requires i < 7 && "timeout"[i] !in m
    requires |m| != |TokenNotFound| && |m| != |"Network Error"|
    ensures Unrecognised(m)
  {
    MissingCharBlocks("timeout", m, i);
    IncludesMeansOccurs(m, "timeout");
  }

  lemma GetNotDoneUnrecognised()
    ensures Unrecognised(GetProfileOp.notDone)
  {
    assert 'e' !in GetProfileOp.notDone;
    MissingLetterUnrecognised(GetProfileOp.notDone, 3);
  }

  lemma UpdateNotDoneUnrecognised()
    ensures Unrecognised(UpdateProfileOp.notDone)
  {
    assert 't' !in UpdateProfileOp.notDone;
    MissingLetterUnrecognised(UpdateProfileOp.notDone, 0);
  }

  lemma UploadNotDoneUnrecognised()
    ensures Unrecognised(UploadAvatarOp.notDone)
  {
    assert 'o' !in UploadAvatarOp.notDone;
    MissingLetterUnrecognised(UploadAvatarOp.notDone, 4);
  }

  /** None of the three default messages for an unsuccessful response is
      one the catch block recognises. */
  lemma NotDoneUnrecognised(op: Operation)
    requires GuardedOp(op)
    ensures Unrecognised(op.notDone)
  {
    GetNotDoneUnrecognised();
    UpdateNotDoneUnrecognised();
    UploadNotDoneUnrecognised();
  }

  /** An expired session (401 or 403 with a body) gives the same message for
      all three requests. */
  lemma ExpiredSessionMessage(op: Operation, documentCookie: string, t: Thrown<ProfileResponse>)
    requires IsAuthenticated(documentCookie) && t.HasBody() && (t.HasStatus(401) || t.HasStatus(403))
    ensures Guarded(op, documentCookie, Threw(t)) == Err(Envelope(SessionExpired))
  {
  }

  /** Behind the sign-in check, a failed request ends as its catch block's
      rejection. */
  lemma GuardedThrew(op: Operation, documentCookie: string, t: Thrown<ProfileResponse>)
    requires IsAuthenticated(documentCookie)
    ensures Guarded(op, documentCookie, Threw(t)) == Err(Rejection(op, t))
  {
    FactoryNeverFailsAfterCheck(documentCookie, op.multipart);
  }

  /** A 422 with field errors: update and upload name every field error in
      the message, after their own prefix; `getProfile` rethrows the body. */
  lemma InvalidDataMessage(op: Operation, documentCookie: string, t: Thrown<ProfileResponse>, i: nat)
    requires GuardedOp(op) && IsAuthenticated(documentCookie)
    requires t.HasBody() && t.HasStatus(422)
    requires var body := t.response.value.body.value; body.errors.Some? && i < |body.errors.value|
    ensures var body := t.response.value.body.value;
      var e := body.errors.value[i];
      if op == GetProfileOp then Guarded(op, documentCookie, Threw(t)) == Err(body)
      else
        Guarded(op, documentCookie, Threw(t)).Err?
        && StartsWith(Guarded(op, documentCookie, Threw(t)).error.message, op.invalidPrefix.value)
        && Occurs(e.field + ": " + e.message, Guarded(op, documentCookie, Threw(t)).error.message)
  {
    var body := t.response.value.body.value;
    GuardedThrew(op, documentCookie, t);
    if op != GetProfileOp {
      assert op.invalidPrefix.Some? && op.invalidPrefix != None;
      assert Rejection(op, t) == Envelope(op.invalidPrefix.value + FieldErrorsText(body.errors.value));
      var lines := Describe(body.errors.value);
      JoinContainsParts(", ", lines, i);
      OccursInContext(lines[i], FieldErrorsText(body.errors.value), op.invalidPrefix.value, "");
      assert op.invalidPrefix.value + FieldErrorsText(body.errors.value) + "" == op.invalidPrefix.value + FieldErrorsText(body.errors.value);
    }
  }

  /** An unsuccessful response's own message never reaches the caller
      unless it happens to be one the catch block recognises. */
  lemma UnsuccessfulMessageReplaced(op: Operation, documentCookie: string, r: ProfileResponse)
    requires GuardedOp(op) && IsAuthenticated(documentCookie) && !Accepted(op, r)
    requires Unrecognised(r.message)
    ensures Guarded(op, documentCookie, Returned(r)) == Err(Envelope(op.failure))
  {
    NotDoneUnrecognised(op);
    var m := if r.message != "" then r.message else op.notDone;
    FactoryNeverFailsAfterCheck(documentCookie, op.multipart);
    PlainMessageBecomesFailure(op, m);
  }

  /** The guarded requests as evidently intended: the envelopes thrown by
      the sign-in and response checks reach the caller as they are, and only
      failures of the request itself go through the catch rules. */
  function GuardedIntended(op: Operation, documentCookie: string, call: Call<ProfileResponse, ProfileResponse>): Result<ProfileResponse, ProfileResponse>
  {
    if !IsAuthenticated(documentCookie) then Err(Envelope(NotSignedIn))
    else match call
      case Returned(r) =>
        if Accepted(op, r) then Ok(r)
        else Err(Envelope(if r.message != "" then r.message else op.notDone))
      case Threw(t) => Err(Rejection(op, t))
  }

  /** The intended version reports "not signed in" to a signed-out page and
      passes on an unsuccessful response's message (or the request's own
      default), and agrees with the written code on everything else. */
  lemma IntendedReportsChecks(op: Operation, documentCookie: string, call: Call<ProfileResponse, ProfileResponse>)
    requires GuardedOp(op)
    ensures !IsAuthenticated(documentCookie) ==> GuardedIntended(op, documentCookie, call) == Err(Envelope(NotSignedIn))
    ensures IsAuthenticated(documentCookie) && call.Returned? && !Accepted(op, call.value) ==>
      GuardedIntended(op, documentCookie, call).error.message ==
        (if call.value.message != "" then call.value.message else op.notDone)
    ensures IsAuthenticated(documentCookie) && (call.Threw? || Accepted(op, call.value)) ==>
      GuardedIntended(op, documentCookie, call) == Guarded(op, documentCookie, call)
  {
  }
}

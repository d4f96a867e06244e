/** The authentication service (src/API/services/auth.ts): the requests, the
    shared failure handling, the session cookies written on sign-in and
    cleared on logout, and reading the access token back. */
module Auth {
  import opened Common
  import opened Http
  import opened Cookies
  import opened ErrorHandling

  datatype User = User(username: string, phone: string, status: string, fullName: string)

  /** `data.token` of a successful sign-in. */
  datatype Token = Token(
    tokenType: string,
    accessToken: string,
    expiresIn: int,
    refreshToken: Option<string>,
    refreshExpiresIn: Option<int>)

  datatype AuthData = AuthData(user: Option<User>, token: Option<Token>)

  /** `AuthResponse` */
  datatype AuthResponse = AuthResponse(success: bool, message: string, messageType: string, data: Option<AuthData>)

  /** `authApi`: JSON in and out, ten seconds. */
  const AuthApiConfig := RequestConfig(ApiUrl, Some(Json), Json, "", 10000)

  const AccessTokenCookie := "access_token"
  const RefreshTokenCookie := "refresh_token"
  const ExpiresAtCookie := "token_expires_at"
  const ExpiresInCookie := "token_expires_in"
  const DefaultRefreshMaxAge := 2592000

  /** What is thrown when the request failed without a response body. */
  const NetworkError := ErrorBody(false, "Network error occurred", "error", None)

  /** The catch block of `register`, `login`, `confirmPhone` and
      `resendOtp`: a response body is rethrown with its field errors folded
      into the message; anything else becomes the network error. */
  function AuthFailure(error: Thrown<ErrorBody>): (e: ErrorBody)
    ensures !error.HasBody() ==> e == NetworkError
    ensures error.HasBody() ==>
      var body := error.response.value.body.value;
      e.success == body.success && e.messageType == body.messageType && e.errors == body.errors
      && e.message == GetGeneralErrorMessage(body)
      && (ErrorList(body) == [] ==> e == body)
  {
    if error.HasBody() then
      var body := error.response.value.body.value;
      if |ErrorList(body)| > 0 then body.(message := GetGeneralErrorMessage(body)) else body
    else NetworkError
  }

  /** `register` (and `resendOtp`, which has the same body): the response
      data, or the formatted failure. */
  function AuthPost(call: Call<AuthResponse, ErrorBody>): (r: Result<AuthResponse, ErrorBody>)
    ensures call.Returned? ==> r == Ok(call.value)
    ensures call.Threw? ==> r == Err(AuthFailure(call.error))
  {
    match call
    case Returned(v) => Ok(v)
    case Threw(t) => Err(AuthFailure(t))
  }

  /** `logoutApi`: a response body is rethrown untouched. */
  function LogoutApi(call: Call<AuthResponse, ErrorBody>): (r: Result<AuthResponse, ErrorBody>)
    ensures call.Returned? ==> r == Ok(call.value)
    ensures call.Threw? && call.error.HasBody() ==> r == Err(call.error.response.value.body.value)
    ensures call.Threw? && !call.error.HasBody() ==> r == Err(NetworkError)
  {
    match call
    case Returned(v) => Ok(v)
    case Threw(t) => if t.HasBody() then Err(t.response.value.body.value) else Err(NetworkError)
  }

  /** `logoutApi` and the other requests fail the same way except that only
      the latter append the field errors to the message. */
  lemma LogoutApiDiffersOnlyInMessage(call: Call<AuthResponse, ErrorBody>)
    ensures LogoutApi(call).Err? == AuthPost(call).Err?
    ensures LogoutApi(call).Err? ==>
      LogoutApi(call).error == AuthPost(call).error.(message := LogoutApi(call).error.message)
      && StartsWith(AuthPost(call).error.message, LogoutApi(call).error.message)
    ensures call.Threw? && call.error.HasBody() && ErrorList(call.error.response.value.body.value) == []
      ==> LogoutApi(call) == AuthPost(call)
  {
  }

  /** `response.data.success && response.data.data?.token` */
  function SessionToken(r: AuthResponse): (t: Option<Token>)
    ensures t.Some? <==> r.success && r.data.Some? && r.data.value.token.Some?
  {
    if r.success && r.data.Some? && r.data.value.token.Some? then r.data.value.token else None
  }

  /** `token.refresh_expires_in || 2592000` */
  function RefreshMaxAge(t: Token): (age: int)
    ensures t.refreshExpiresIn.Some? && t.refreshExpiresIn.value != 0 ==> age == t.refreshExpiresIn.value
    ensures t.refreshExpiresIn.None? || t.refreshExpiresIn.value == 0 ==> age == DefaultRefreshMaxAge
  {
    if t.refreshExpiresIn.Some? && t.refreshExpiresIn.value != 0 then t.refreshExpiresIn.value else DefaultRefreshMaxAge
  }

  /** `if (token.refresh_token)` */
  predicate HasRefreshToken(t: Token)
  {
    t.refreshToken.Some? && t.refreshToken.value != ""
  }

  /** The three cookie assignments of a sign-in; `expiryName` is
      `token_expires_at` for `login` and `token_expires_in` for
      `confirmPhone`. */
  function WithSession(es: seq<Cookie>, t: Token, expiryName: string): seq<Cookie>
  {
    var withAccess := Store(es, AccessTokenCookie, t.accessToken, t.expiresIn);
    var withRefresh := if HasRefreshToken(t) then Store(withAccess, RefreshTokenCookie, t.refreshToken.value, RefreshMaxAge(t)) else withAccess;
    Store(withRefresh, expiryName, IntToString(t.expiresIn), t.expiresIn)
  }

  /** The store after the request: changed only by a successful sign-in that
      carries a token. */
  function AfterSignIn(es: seq<Cookie>, call: Call<AuthResponse, ErrorBody>, expiryName: string): seq<Cookie>
  {
    if call.Returned? && SessionToken(call.value).Some? then WithSession(es, SessionToken(call.value).value, expiryName) else es
  }

  predicate ExpiryName(n: string)
  {
    n == ExpiresAtCookie || n == ExpiresInCookie
  }

  /** The sign-in body shared by `login` and `confirmPhone`. */
  method SignIn(jar: CookieJar, call: Call<AuthResponse, ErrorBody>, expiryName: string) returns (r: Result<AuthResponse, ErrorBody>)
    requires jar.Valid() && ExpiryName(expiryName)
    modifies jar
    ensures jar.Valid()
    ensures r == AuthPost(call)
    ensures jar.entries == AfterSignIn(old(jar.entries), call, expiryName)
  {
    SessionNamesValid();
    match call {
      case Returned(response) =>
        var session := SessionToken(response);
        if session.Some? {
          var token := session.value;
          jar.Write(AccessTokenCookie, token.accessToken, token.expiresIn);
          if HasRefreshToken(token) {
            jar.Write(RefreshTokenCookie, token.refreshToken.value, RefreshMaxAge(token));
          }
          jar.Write(expiryName, IntToString(token.expiresIn), token.expiresIn);
        }
        r := Ok(response);
      case Threw(error) =>
        r := Err(AuthFailure(error));
    }
  }

  /** `login` */
  method Login(jar: CookieJar, call: Call<AuthResponse, ErrorBody>) returns (r: Result<AuthResponse, ErrorBody>)
    requires jar.Valid()
    modifies jar
    ensures jar.Valid()
    ensures r == AuthPost(call)
    ensures jar.entries == AfterSignIn(old(jar.entries), call, ExpiresAtCookie)
  {
    r := SignIn(jar, call, ExpiresAtCookie);
  }

  /** `confirmPhone` */
  method ConfirmPhone(jar: CookieJar, call: Call<AuthResponse, ErrorBody>) returns (r: Result<AuthResponse, ErrorBody>)
    requires jar.Valid()
    modifies jar
    ensures jar.Valid()
    ensures r == AuthPost(call)
    ensures jar.entries == AfterSignIn(old(jar.entries), call, ExpiresInCookie)
  {
    r := SignIn(jar, call, ExpiresInCookie);
  }

  /** The store after `logout`: its three expired cookies removed. */
  function ClearSession(es: seq<Cookie>): seq<Cookie>
  {
    Remove(Remove(Remove(es, AccessTokenCookie), RefreshTokenCookie), ExpiresInCookie)
  }

  /** `logout` */
  method Logout(jar: CookieJar)
    requires jar.Valid()
    modifies jar
    ensures jar.Valid()
    ensures jar.entries == ClearSession(old(jar.entries))
  {
    jar.Expire(AccessTokenCookie);
    jar.Expire(RefreshTokenCookie);
    jar.Expire(ExpiresInCookie);
  }

  /** `cookie.trim().startsWith('access_token=')` */
  predicate IsAccessSegment(segment: string)
  {
    StartsWith(Trim(segment), AccessTokenCookie + "=")
  }

  /** `cookies.find(...)`: the first matching piece. */
  function FindAccessSegment(segments: seq<string>): (found: Option<string>)
    ensures found.Some? ==> found.value in segments && IsAccessSegment(found.value)
    ensures found.None? <==> forall i :: 0 <= i < |segments| ==> !IsAccessSegment(segments[i])
  {
    if |segments| == 0 then None
    else if IsAccessSegment(segments[0]) then Some(segments[0])
    else FindAccessSegment(segments[1..])
  }

  /** A matching piece holds an `=`, so `split('=')` gives a second part. */
  lemma AccessSegmentHasValue(segment: string)
    requires IsAccessSegment(segment)
    ensures |Split(segment, '=')| >= 2
  {
    assert Trim(segment)[12] == '=';
    TrimmedCharIn(segment, 12);
    SplitFirstIsPrefix(segment, '=');
  }

  /** The token held by the pieces of a cookie string. */
  function TokenOfSegments(segments: seq<string>): Option<string>
  {
    match FindAccessSegment(segments)
    case None => None
    case Some(segment) =>
      AccessSegmentHasValue(segment);
      Some(Split(segment, '=')[1])
  }

  /** `getAccessToken`, given the current `document.cookie`. */
  function GetAccessToken(documentCookie: string): Option<string>
  {
    TokenOfSegments(Split(documentCookie, ';'))
  }

  /** `isAuthenticated`: a token that is not the empty string. */
  predicate IsAuthenticated(documentCookie: string)
  {
    var token := GetAccessToken(documentCookie);
    token.Some? && token.value != ""
  }

  /** The cookie names the service writes are valid names. */
  lemma SessionNamesValid()
    ensures ValidName(AccessTokenCookie) && ValidName(RefreshTokenCookie)
    ensures ValidName(ExpiresAtCookie) && ValidName(ExpiresInCookie)
  {
    SnakeCaseNameValid(AccessTokenCookie);
    SnakeCaseNameValid(RefreshTokenCookie);
    SnakeCaseNameValid(ExpiresAtCookie);
    SnakeCaseNameValid(ExpiresInCookie);
  }

  /** A leading blank run and trailing text do not change whether a pair
      trims to something starting with `access_token=`. */
  lemma TrimmedPair(lead: string, p: string)
    requires AllSpace(lead) && |p| > 0 && !IsSpace(p[0])
    ensures IsAccessSegment(lead + p) <==> StartsWith(p, AccessTokenCookie + "=")
  {
    TrimStartSkipsLead(lead, p);
    TrimEndKeepsPrefix(p, AccessTokenCookie + "=");
  }

  /** A pair starts with `access_token=` exactly when its name is
      `access_token`, names holding no `=`. */
  lemma PairPrefix(c: Cookie)
    requires '=' !in c.name
    ensures StartsWith(Pair(c), AccessTokenCookie + "=") <==> c.name == AccessTokenCookie
  {
    var p := Pair(c);
    var key := AccessTokenCookie + "=";
    assert p == c.name + ['='] + c.value;
    SplitAtFirst(c.name, '=', c.value);
    if StartsWith(p, key) {
      assert '=' !in AccessTokenCookie;
      assert p == AccessTokenCookie + ['='] + p[|key|..];
      SplitAtFirst(AccessTokenCookie, '=', p[|key|..]);
      assert Split(p, '=')[0] == AccessTokenCookie;
    }
    if c.name == AccessTokenCookie {
      assert p[..|key|] == key;
    }
  }

  /** The second `=`-separated part of a piece is the value up to its first
      `=`. */
  lemma PairValue(lead: string, c: Cookie)
    requires AllSpace(lead) && '=' !in c.name
    ensures |Split(lead + Pair(c), '=')| >= 2 && Split(lead + Pair(c), '=')[1] == Split(c.value, '=')[0]
  {
    assert '=' !in lead + c.name by {
      assert !IsSpace('=');
    }
    assert lead + Pair(c) == (lead + c.name) + ['='] + c.value;
    SplitAtFirst(lead + c.name, '=', c.value);
  }

  /** No piece of the list matches. */
  predicate NoAccessSegment(segments: seq<string>)
  {
    forall i :: 0 <= i < |segments| ==> !IsAccessSegment(segments[i])
  }

  lemma NoTokenIffNoMatchIn(segments: seq<string>)
    ensures TokenOfSegments(segments).None? <==> NoAccessSegment(segments)
  {
    var found := FindAccessSegment(segments);
    assert TokenOfSegments(segments).None? <==> found.None?;
  }

  /** `getAccessToken` finds nothing exactly when no piece of the cookie
      string matches. */
  lemma NoTokenIffNoMatch(documentCookie: string)
    ensures GetAccessToken(documentCookie).None? <==> NoAccessSegment(Split(documentCookie, ';'))
  {
    NoTokenIffNoMatchIn(Split(documentCookie, ';'));
  }

  /** A token is the text between the first and second `=` of the first
      matching piece, so it never holds an `=`. */
  lemma TokenHasNoEquals(documentCookie: string)
    ensures GetAccessToken(documentCookie).Some? ==> '=' !in GetAccessToken(documentCookie).value
  {
    var found := FindAccessSegment(Split(documentCookie, ';'));
    if found.Some? {
      AccessSegmentHasValue(found.value);
      SplitPartsLackSep(found.value, '=');
    }
  }

  /** Blanks in front of a piece never change whether it matches. */
  lemma LeadingBlanksIgnored(lead: string, segment: string)
    requires AllSpace(lead)
    ensures IsAccessSegment(lead + segment) <==> IsAccessSegment(segment)
  {
    TrimStartDropsLead(lead, segment);
  }

  /** A piece of the serialized store matches exactly when it is the
      `access_token` cookie, and then its token is the cookie value up to its
      first `=`. */
  lemma SegmentOfCookie(lead: string, c: Cookie)
    requires AllSpace(lead) && ValidName(c.name)
    ensures IsAccessSegment(lead + Pair(c)) <==> c.name == AccessTokenCookie
    ensures |Split(lead + Pair(c), '=')| >= 2 && Split(lead + Pair(c), '=')[1] == Split(c.value, '=')[0]
  {
    assert '=' !in c.name;
    assert Pair(c)[0] == c.name[0];
    TrimmedPair(lead, Pair(c));
    PairPrefix(c);
    PairValue(lead, c);
  }

  lemma {:induction false} TokenOfSpaced(lead: string, es: seq<Cookie>)
    requires AllSpace(lead) && WellFormed(es)
    ensures TokenOfSegments(Spaced(lead, es)) ==
      match Lookup(es, AccessTokenCookie)
      case None => None
      case Some(c) => Some(Split(c.value, '=')[0])
    decreases |es|
  {
    if |es| > 0 {
      SegmentOfCookie(lead, es[0]);
      assert Spaced(lead, es)[1..] == Spaced(" ", es[1..]);
      if es[0].name != AccessTokenCookie {
        var rest := es[1..];
        assert WellFormed(rest) by {
          assert forall i :: 0 <= i < |rest| ==> rest[i] == es[i + 1];
        }
        TokenOfSpaced(" ", rest);
      }
    }
  }

  /** Reading the token back from any well-formed store: the value of its
      `access_token` cookie up to the first `=`, and nothing when it has none;
      no other cookie matters. */
  lemma ReadAccessToken(es: seq<Cookie>)
    requires WellFormed(es)
    ensures GetAccessToken(Serialize(es)) ==
      match Lookup(es, AccessTokenCookie)
      case None => None
      case Some(c) => Some(Split(c.value, '=')[0])
  {
    DocumentCookieSegments(es);
    if |es| > 0 {
      TokenOfSpaced("", es);
      assert GetAccessToken(Serialize(es)) == TokenOfSegments(Spaced("", es));
    } else {
      assert !IsAccessSegment("");
      assert FindAccessSegment([""]).None?;
    }
  }

  /** What a sign-in leaves in the store. */
  lemma WithSessionEffect(es: seq<Cookie>, t: Token, expiryName: string)
    requires WellFormed(es) && ExpiryName(expiryName)
    ensures WellFormed(WithSession(es, t, expiryName))
    ensures Lookup(WithSession(es, t, expiryName), AccessTokenCookie) ==
      if t.expiresIn > 0 then Some(Cookie(AccessTokenCookie, StoredValue(t.accessToken), t.expiresIn)) else None
    ensures Lookup(WithSession(es, t, expiryName), RefreshTokenCookie) ==
      if !HasRefreshToken(t) then Lookup(es, RefreshTokenCookie)
      else if RefreshMaxAge(t) > 0 then Some(Cookie(RefreshTokenCookie, StoredValue(t.refreshToken.value), RefreshMaxAge(t)))
      else None
    ensures Lookup(WithSession(es, t, expiryName), expiryName) ==
      if t.expiresIn > 0 then Some(Cookie(expiryName, IntToString(t.expiresIn), t.expiresIn)) else None
    ensures forall n :: n != AccessTokenCookie && n != RefreshTokenCookie && n != expiryName ==>
      Lookup(WithSession(es, t, expiryName), n) == Lookup(es, n)
  {
    SessionNamesValid();
    var withAccess := Store(es, AccessTokenCookie, t.accessToken, t.expiresIn);
    StoreEffect(es, AccessTokenCookie, t.accessToken, t.expiresIn);
    var withRefresh := if HasRefreshToken(t) then Store(withAccess, RefreshTokenCookie, t.refreshToken.value, RefreshMaxAge(t)) else withAccess;
    if HasRefreshToken(t) {
      StoreEffect(withAccess, RefreshTokenCookie, t.refreshToken.value, RefreshMaxAge(t));
    }
    StoreEffect(withRefresh, expiryName, IntToString(t.expiresIn), t.expiresIn);
    DecimalHasNoSemicolon(t.expiresIn);
    assert WithSession(es, t, expiryName) == Store(withRefresh, expiryName, IntToString(t.expiresIn), t.expiresIn);
  }

  /** A lifetime written as a cookie value never ends the pair early. */
  lemma DecimalHasNoSemicolon(n: int)
    ensures ';' !in IntToString(n)
  {
    var digits := IntToString(if n < 0 then -n else n);
    NatStringDigits(if n < 0 then -n else n);
    if n < 0 {
      assert IntToString(n) == "-" + digits;
    }
  }

  /** After a sign-in whose token lives (`expires_in > 0`) the page is
      signed in with the token up to its first `;` or `=`; a token free of
      both comes back unchanged. A non-positive lifetime deletes the cookie
      at once and leaves the page signed out. */
  lemma SignInReadBack(es: seq<Cookie>, t: Token, expiryName: string)
    requires WellFormed(es) && ExpiryName(expiryName)
    ensures t.expiresIn > 0 ==> GetAccessToken(Serialize(WithSession(es, t, expiryName))) == Some(Split(StoredValue(t.accessToken), '=')[0])
    ensures t.expiresIn > 0 && ';' !in t.accessToken && '=' !in t.accessToken ==>
      GetAccessToken(Serialize(WithSession(es, t, expiryName))) == Some(t.accessToken)
      && (IsAuthenticated(Serialize(WithSession(es, t, expiryName))) <==> t.accessToken != "")
    ensures t.expiresIn <= 0 ==> !IsAuthenticated(Serialize(WithSession(es, t, expiryName)))
  {
    WithSessionEffect(es, t, expiryName);
    ReadAccessToken(WithSession(es, t, expiryName));
    if '=' !in t.accessToken {
      SplitWithoutSep(t.accessToken, '=');
    }
  }

  lemma ClearSessionEffect(es: seq<Cookie>)
    requires WellFormed(es)
    ensures WellFormed(ClearSession(es))
    ensures forall n :: Lookup(ClearSession(es), n) ==
             if n == AccessTokenCookie || n == RefreshTokenCookie || n == ExpiresInCookie then None else Lookup(es, n)
  {
    RemoveKeepsShape(es, AccessTokenCookie);
    RemoveKeepsShape(Remove(es, AccessTokenCookie), RefreshTokenCookie);
    RemoveKeepsShape(Remove(Remove(es, AccessTokenCookie), RefreshTokenCookie), ExpiresInCookie);
  }

  /** After `logout` no token can be read and the page is signed out. */
  lemma LogoutSignsOut(es: seq<Cookie>)
    requires WellFormed(es)
    ensures GetAccessToken(Serialize(ClearSession(es))).None?
    ensures !IsAuthenticated(Serialize(ClearSession(es)))
  {
    ClearSessionEffect(es);
    ReadAccessToken(ClearSession(es));
  }

  lemma {:induction false} RemoveAbsent(es: seq<Cookie>, name: string)
    requires forall i :: 0 <= i < |es| ==> es[i].name != name
    ensures Remove(es, name) == es
    decreases |es|
  {
    if |es| > 0 {
      RemoveAbsent(es[1..], name);
    }
  }

  /** Logging out twice is logging out once. */
  lemma LogoutIdempotent(es: seq<Cookie>)
    requires WellFormed(es)
    ensures ClearSession(ClearSession(es)) == ClearSession(es)
  {
    var c := ClearSession(es);
    ClearSessionEffect(es);
    assert Lookup(c, AccessTokenCookie).None?;
    RemoveAbsent(c, AccessTokenCookie);
    assert Lookup(c, RefreshTokenCookie).None?;
    RemoveAbsent(c, RefreshTokenCookie);
    assert Lookup(c, ExpiresInCookie).None?;
    RemoveAbsent(c, ExpiresInCookie);
  }

  /** `logout` expires `token_expires_in` but not `token_expires_at`, the
      cookie `login` writes: signing in with `login` and out again leaves it
      in place. */
  lemma LoginLogoutKeepsExpiresAt(es: seq<Cookie>, t: Token)
    requires WellFormed(es) && t.expiresIn > 0
    ensures Lookup(ClearSession(WithSession(es, t, ExpiresAtCookie)), ExpiresAtCookie)
      == Some(Cookie(ExpiresAtCookie, IntToString(t.expiresIn), t.expiresIn))
    ensures !IsAuthenticated(Serialize(ClearSession(WithSession(es, t, ExpiresAtCookie))))
  {
    WithSessionEffect(es, t, ExpiresAtCookie);
    ClearSessionEffect(WithSession(es, t, ExpiresAtCookie));
    LogoutSignsOut(WithSession(es, t, ExpiresAtCookie));
  }
}

# Globens web front end: decision logic in Dafny

This project models the deterministic core of the Globens web front end,
a Next.js site for an e-sports community (news, games, teams,
tournaments, user profiles). The front end talks to a remote back end
and draws what it gets back. Between those two steps it makes many small
decisions, and the model captures them:

- **Session cookies.** The client writes and clears the session cookies
  (`access_token`, `refresh_token` and the expiry entries) in
  `document.cookie`, and reads the token back out of the cookie string.
- **Failure envelopes.** Each service call ends in a first-match-wins
  chain that turns a thrown value into the envelope the caller sees.
- **Validators.** The registration fields, the profile edit form and the
  create-team form are checked, and each failing field gets its message.
- **Small state machines.** The OTP entry, the banner rotation, the
  related-news carousel, the tournament tab strip, the matches tab's
  filter and sort, and the menu and language dropdowns.
- **String, path and list helpers.** Locale stripping, active-link
  matching, language switching, description truncation, breadcrumbs,
  news pagination, and the tournament bracket and match cards.

Network calls become a `Call` value: either `Returned(value)` or
`Threw(error)`. A thrown value is `Thrown(response, message, code)`. The
response carries a status and an optional body, and a thrown value that
is not an object has all three parts absent. `document.cookie` is the
class `Cookies.CookieJar`, holding an ordered list of cookies, and its
serialisation is the `"name=value; name=value"` string the browser
returns. A state that a component keeps with `useState` becomes the
fields of a class; its handlers become methods. Everything else is
functions, each paired with the lemmas that state what it promises.

Modules, one per source file: `Common` (string helpers with JavaScript
semantics), `Http`, `Cookies`, `Validation`, `ErrorHandling`, `Auth`,
`AuthClient`, `Profile`, `Teams`, `Games`, `GamesClient`,
`ProfileEditModal`, `CreateTeamModal`, `OtpModal`, `Header`,
`LanguageSwitcher`, `RelatedNewsCarousel`, `Banner`, `NewsList`,
`Pgames`, `Tournament` (the records), `MatchesTab`, `BracketTab`,
`TournamentTabs`, `Breadcrumb`.

## Model

| member | source | states |
|---|---|---|
| Validation.PhoneShape | src/utilities/validation.ts:1-5 | a phone number is accepted exactly when it is `+998` followed by nine ASCII digits, so every accepted number has 13 characters |
| Validation.ShortNumberRejected | src/utilities/validation.ts:3 | illustration: `12345` and a number without the `+` are rejected; `+998901234567` is accepted |
| Validation.ValidatePassword | src/utilities/validation.ts:7-12 | valid exactly when the password has at least 6 characters; valid exactly when the message is empty; otherwise the too-short message |
| Validation.ValidateUsername | src/utilities/validation.ts:14-22 | valid exactly when there are at least 3 characters, all from `[a-zA-Z0-9_]`; the length message comes first, the character message only for long-enough names; valid exactly when the message is empty |
| Validation.ValidateFullName | src/utilities/validation.ts:24-29 | valid exactly when there are at least 2 characters, with no trimming; valid exactly when the message is empty |
| Validation.RuleOrder | src/utilities/validation.ts:14-27 | illustration: `a-` gets the length message, not the character one; `a-b` gets the character message; two spaces are a valid full name |
| ErrorHandling.GetFieldErrors | src/utilities/errorHandling.ts:3-13 | the `forEach` loop builds exactly the field-to-message map of the error list (empty when `errors` is absent) |
| ErrorHandling.FieldErrorsLastWins | src/utilities/errorHandling.ts:3-13 | the map's keys are exactly the fields named in the list, and a repeated field keeps the message of its last occurrence |
| ErrorHandling.Describe | src/utilities/errorHandling.ts:15-21 | one `field: message` line per error, in list order |
| ErrorHandling.GetGeneralErrorMessage | src/utilities/errorHandling.ts:15-21 | without errors the text is the message unchanged; with errors it still starts with the message |
| ErrorHandling.GeneralMessageMentionsEveryError | src/utilities/errorHandling.ts:15-21 | every `field: message` pair occurs in the general message |
| Cookies.Lookup | src/API/services/auth.ts:199 | the cookie found has the name asked for; none is found only when no cookie has that name |
| Cookies.StoredValue | src/API/services/auth.ts:67-71 | the stored value is the written text up to its first `;`, and all of it when it has none |
| Cookies.AssignKeepsShape | src/API/services/auth.ts:67-71 | an assignment keeps names distinct, replaces the named cookie and leaves every other cookie as it was |
| Cookies.RemoveKeepsShape | src/API/services/auth.ts:171-173 | a removal keeps names distinct, removes the named cookie and leaves every other cookie as it was |
| Cookies.StoreEffect | src/API/services/auth.ts:67-71 | a write with a positive max-age stores the cookie, one without removes it, and other names are untouched |
| Cookies.Pairs | src/API/services/auth.ts:199 | one `name=value` pair per stored cookie, in order |
| Cookies.SplitJoined | src/API/services/auth.ts:199 | splitting the cookie string at `;` gives back the stored pairs, each after a blank |
| Cookies.DocumentCookieSegments | src/API/services/auth.ts:199 | the segments of `document.cookie` are the stored pairs, or one empty segment for an empty jar |
| Cookies.CookieJar.constructor | src/API/services/auth.ts:199 | a jar holds the given well-formed cookie list |
| Cookies.CookieJar.Write | src/API/services/auth.ts:67-71 | one `document.cookie = …` assignment: the list becomes the stored one and stays well-formed |
| Cookies.CookieJar.Expire | src/API/services/auth.ts:171-173 | an assignment with a past expiry: the named cookie is gone and the list stays well-formed |
| Http.ErrorWithMessage | src/API/services/teams.ts:181 | `new Error(msg)` as a thrown value: no response, the message, no code |
| Http.BearerOrEmpty | src/API/services/gamesClient.ts:9-18 | `Bearer <token>` for a non-empty token, the empty string otherwise |
| Auth.AuthFailure | src/API/services/auth.ts:33-54 | no body gives the network-error envelope; a body keeps its other fields, gets the general message, and is unchanged when it lists no errors (the same catch in login 75-95, confirmPhone 116-136 and resendOtp 146-166) |
| Auth.AuthPost | src/API/services/auth.ts:26-55 | a returned response is the result; a thrown one becomes its failure envelope |
| Auth.LogoutApi | src/API/services/auth.ts:176-196 | a body is rethrown as it is, and no body gives the network-error envelope |
| Auth.LogoutApiDiffersOnlyInMessage | src/API/services/auth.ts:182-195 | logoutApi fails exactly when the other calls would, with the same envelope except for a message they extend; it is identical when no errors are listed |
| Auth.SessionToken | src/API/services/auth.ts:65-105 | cookies are written only when the response is successful and carries a token |
| Auth.RefreshMaxAge | src/API/services/auth.ts:69-110 | the refresh cookie lives `refresh_expires_in` seconds, or 2592000 when that is missing or 0 |
| Auth.SignIn | src/API/services/auth.ts:57-115 | returns what the call gives and leaves the jar as the sign-in writes define |
| Auth.Login | src/API/services/auth.ts:57-95 | sign-in that records the expiry under `token_expires_at` |
| Auth.ConfirmPhone | src/API/services/auth.ts:98-136 | sign-in that records the expiry under `token_expires_in` |
| Auth.WithSessionEffect | src/API/services/auth.ts:65-113 | after the writes, the access cookie, the refresh cookie (only if present, with its max-age), the expiry cookie and no other cookie have changed |
| Auth.SignInReadBack | src/API/services/auth.ts:65-72 | after sign-in the token read back is the one written; the user is authenticated exactly when it is non-empty, and never when `expires_in` is not positive |
| Auth.Logout | src/API/services/auth.ts:169-174 | the jar becomes the cleared session |
| Auth.ClearSessionEffect | src/API/services/auth.ts:169-174 | logout removes exactly `access_token`, `refresh_token` and `token_expires_in` |
| Auth.LogoutSignsOut | src/API/services/auth.ts:169-207 | after logout no token is found and the user is not authenticated |
| Auth.RemoveAbsent | src/API/services/auth.ts:169-174 | removing a cookie that is not there changes nothing |
| Auth.LogoutIdempotent | src/API/services/auth.ts:169-174 | a second logout changes nothing |
| Auth.LoginLogoutKeepsExpiresAt | src/API/services/auth.ts:169-174 | after login then logout, `token_expires_at` is still stored though the user is signed out |
| Auth.FindAccessSegment | src/API/services/auth.ts:198-202 | the segment found is a segment that, trimmed, starts with `access_token=`; none is found exactly when no segment does |
| Auth.AccessSegmentHasValue | src/API/services/auth.ts:201 | a matching segment splits at `=` into at least two parts, so `split('=')[1]` exists |
| Auth.SessionNamesValid | src/API/services/auth.ts:67-112 | the four session cookie names are valid cookie names |
| Auth.TrimmedPair | src/API/services/auth.ts:200 | after leading blanks, a segment matches exactly when the pair starts with `access_token=` |
| Auth.PairPrefix | src/API/services/auth.ts:200 | a stored pair starts with `access_token=` exactly when its cookie is the access cookie |
| Auth.PairValue | src/API/services/auth.ts:201 | the text after the first `=` of a pair is its value up to the value's own first `=` |
| Auth.NoTokenIffNoMatch | src/API/services/auth.ts:198-202 | `getAccessToken` is null exactly when no `;`-segment, trimmed, starts with `access_token=` |
| Auth.TokenHasNoEquals | src/API/services/auth.ts:201 | the token read back never contains `=` |
| Auth.LeadingBlanksIgnored | src/API/services/auth.ts:200 | leading blanks on a segment do not change whether it matches |
| Auth.SegmentOfCookie | src/API/services/auth.ts:199-201 | a stored pair matches exactly when it is the access cookie, and gives its value up to its first `=` |
| Auth.TokenOfSpaced | src/API/services/auth.ts:199-201 | the token found among the segments is the access cookie's value up to its first `=`, and none without one |
| Auth.ReadAccessToken | src/API/services/auth.ts:198-202 | `getAccessToken` of the serialised jar is the access cookie's value up to its first `=`, or null when there is no access cookie |
| Auth.DecimalHasNoSemicolon | src/API/services/auth.ts:71-112 | the decimal text of the expiry has no `;`, so it is stored whole |
| AuthClient.LoggedInIffTokenPresent | src/utilities/authClient.ts:7-11 | `isUserLoggedIn` holds exactly when `getAccessToken` finds a segment, and whenever the user is authenticated |
| AuthClient.LoggedInIffCookie | src/utilities/authClient.ts:7-11 | on the serialised jar, logged in exactly when an access cookie is stored, whatever the other cookies |
| AuthClient.EmptyTokenLoggedInNotAuthenticated | src/utilities/authClient.ts:10 | `access_token=` with an empty value counts as logged in but not as authenticated (src/API/services/auth.ts:204-207) |
| Profile.Envelope | src/API/services/profile.ts:153-157 | every envelope is unsuccessful, carries its message and has the `error` type |
| Profile.ProfileApiConfig | src/API/services/profile.ts:45-80 | fails with `Authentication token not found` exactly when not authenticated; otherwise it sends the Bearer token, with JSON or multipart content and a 15000 or 30000 ms timeout |
| Profile.Rejection | src/API/services/profile.ts:108-157 | the catch chain: 401/403 with a body becomes the session-expired envelope; 422 with errors becomes the method's prefix and the pairs; any other body is rethrown; the token-missing message becomes not-signed-in; where the method maps network failures, `Network Error` or code `NETWORK_ERROR` becomes the no-internet envelope, and otherwise code `ECONNABORTED` or a message containing `timeout` becomes the server-unreachable one; anything else becomes the method's failure (also 187-235, 267-329) |
| Profile.PlainMessageBecomesFailure | src/API/services/profile.ts:128-157 | a thrown message that no rule recognises ends as the method's failure message |
| Profile.GetProfile | src/API/services/profile.ts:83-159 | as written: succeeds exactly when authenticated and the response is successful with data, and then returns it |
| Profile.UpdateProfile | src/API/services/profile.ts:161-236 | as written: succeeds exactly when authenticated and the response is successful, and then returns it |
| Profile.UploadAvatar | src/API/services/profile.ts:238-330 | as written: succeeds exactly when authenticated and the response is successful, and then returns it |
| Profile.DeleteAvatar | src/API/services/profile.ts:332-352 | without a token the factory throws and it ends as `Network error occurred`; a returned response is the result; a thrown body is rethrown and no body gives the network-error envelope |
| Profile.FactoryNeverFailsAfterCheck | src/API/services/profile.ts:46-86 | once `isAuthenticated` holds, the factory cannot throw |
| Profile.SignedOutGetsFailure | src/API/services/profile.ts:86-157 | as written, a signed-out caller gets the generic failure message, never the not-signed-in one |
| Profile.NotSignedInUnrecognised | src/API/services/profile.ts:128-150 | the not-signed-in text matches none of the message rules of the catch chain |
| Profile.GuardedThrew | src/API/services/profile.ts:84-157 | once the sign-in check passes, a failed request ends as exactly the rejection its catch block builds from the caught value |
| Profile.ExpiredSessionMessage | src/API/services/profile.ts:116-122 | a 401 or 403 with a body always gives the session-expired envelope, whatever the body |
| Profile.InvalidDataMessage | src/API/services/profile.ts:203-292 | a 422 with errors starts with the update or upload prefix and mentions every pair; getProfile rethrows the body instead |
| Profile.NotDoneUnrecognised | src/API/services/profile.ts:99-106 | the default message of each guarded request for an unsuccessful response matches none of the catch rules |
| Profile.UnsuccessfulMessageReplaced | src/API/services/profile.ts:99-186 | as written, for each of the three guarded requests, an unsuccessful response's own message (or the request's default) is lost and replaced by the generic failure |
| Profile.IntendedReportsChecks | src/API/services/profile.ts:86-106 | corrected chain: signed-out callers get the not-signed-in message, unsuccessful responses keep their own message, and everything else is as written |
| Teams.AsString | src/API/services/teams.ts:216 | `String(body)`: a string is itself and an object is `[object Object]` |
| Teams.TeamsApiConfig | src/API/services/teams.ts:64-76 | JSON content, 10000 ms; an Authorization header exactly when authenticated, and then it is `Bearer <token>` |
| Teams.TeamsMultipartApiConfig | src/API/services/teams.ts:79-90 | no Content-Type, 30000 ms, and the same Authorization rule |
| Teams.GetTeams | src/API/services/teams.ts:93-125 | never throws: the body when it has data, `{data: []}` otherwise; on error the response body, or `{data: []}` without one |
| Teams.GetTeamsHasData | src/API/services/teams.ts:93-125 | the result lacks `data` only when an error response body lacked it |
| Teams.FormKeys | src/API/services/teams.ts:130-141 | the keys of the form entries, in append order |
| Teams.TeamForm | src/API/services/teams.ts:130-141 | `name` then `game_id` always come first; one more entry for an avatar and one for a non-empty description |
| Teams.TeamFormFields | src/API/services/teams.ts:130-141 | `avatar` is appended exactly when present and `description` exactly when non-empty, each with its own value |
| Teams.PlaceholderTeam | src/API/services/teams.ts:163-179 | the synthesized team has the input name, game and description (or `''`), one member, no member list, and ids from the clock |
| Teams.CreateTeam | src/API/services/teams.ts:127-195 | a body with data is the result; 200/201 without data gives the placeholder team; other statuses fail with `Failed to create team`; an error with a body is returned, not thrown; others are rethrown |
| Teams.CreateTeamRejectsOnlyWithoutBody | src/API/services/teams.ts:127-195 | createTeam fails only for a non-200/201 status without data or an error without a body; a synthesized team carries the input name |
| Teams.JoinTeam | src/API/services/teams.ts:197-222 | the body is the result; none fails with the join message; an error body is rethrown as `Error(String(body))`; other errors as they are |
| Teams.JoinTeamFailureIsMessageOnly | src/API/services/teams.ts:212-220 | a rethrown error body keeps only its text, and an object body becomes `[object Object]` |
| Games.EmptyPage | src/API/services/games.ts:22-33 | the fallback page: no data, page 1, the requested page size, total 0 |
| Games.GetGames | src/API/services/games.ts:8-37 | the request carries `page` and `per_page` (1 and 15 unless given); its response is the result; status 523 gives the empty first page of the requested size; every other error is rethrown |
| Games.GetGamesSendsQuery | src/API/services/games.ts:8-17 | the result depends only on what the backend answers to the query sent |
| Games.DefaultRequest | src/API/services/games.ts:8-33 | without arguments the request is page 1 of 15, and a 523 then gives an empty page claiming 15 per page |
| Games.GetGameBySlug | src/API/services/games.ts:39-56 | found exactly when the call returned, and then its response |
| Games.GameBySlugIgnoresStatus | src/API/services/games.ts:44-55 | every error, 523 included, gives the same not-found result |
| GamesClient.GamesApiConfig | src/API/services/gamesClient.ts:6-18 | JSON, 10000 ms, the API base; an Authorization header exactly when authenticated |
| GamesClient.GetGames | src/API/services/gamesClient.ts:24-45 | the request carries `page` and `per_page` (1 and 100 unless given); never throws: the response, or the empty first page of the requested size |
| GamesClient.DefaultSizesDiffer | src/API/services/gamesClient.ts:24-44 | without arguments a failed client request gives an empty page of 100, where the server version's 523 fallback gives 15 |
| GamesClient.GetGameBySlug | src/API/services/gamesClient.ts:47-56 | the game in the response, or null on any error |
| GamesClient.ClientAgreesWithServer | src/API/services/gamesClient.ts:24-44 | for every query and backend, the client gives what the server function gives whenever that succeeds, and the empty page where it throws |
| ProfileEditModal.KeysDistinct | src/components/ProfileEditModal/ProfileEditModal.tsx:54-66 | the four form fields have four distinct error keys |
| ProfileEditModal.Set | src/components/ProfileEditModal/ProfileEditModal.tsx:54-66 | setting a field changes that field only |
| ProfileEditModal.EmailAccepted | src/components/ProfileEditModal/ProfileEditModal.tsx:120-122 | illustration: `a@b.c` is a well-formed e-mail |
| ProfileEditModal.LeadingBlankRejected | src/components/ProfileEditModal/ProfileEditModal.tsx:120-122 | an e-mail starting with a blank never has the e-mail shape |
| ProfileEditModal.ErrorRecordKeys | src/components/ProfileEditModal/ProfileEditModal.tsx:108-130 | each key is present exactly when its check failed, with a non-empty message, and the record is empty exactly when no check failed |
| ProfileEditModal.FormErrorsSpec | src/components/ProfileEditModal/ProfileEditModal.tsx:108-130 | full name and username are required after trimming; a non-blank e-mail must have the shape; a non-empty phone must match the phone pattern; the form is valid exactly when all of these hold |
| ProfileEditModal.EmailNotTrimmed | src/components/ProfileEditModal/ProfileEditModal.tsx:120-122 | illustration: ` a@b.c` is reported as a bad e-mail |
| ProfileEditModal.AvatarSource | src/components/ProfileEditModal/ProfileEditModal.tsx:239-246 | the preview first, then an `http…` avatar as it is, then the API base plus the avatar, then the default image |
| ProfileEditModal.BuildErrors | src/components/ProfileEditModal/ProfileEditModal.tsx:108-130 | the field-by-field assignments build exactly the error record |
| ProfileEditModal.EditForm.constructor | src/components/ProfileEditModal/ProfileEditModal.tsx:27-52 | the form starts from the profile, with no file, no preview, no errors and not loading |
| ProfileEditModal.EditForm.Reset | src/components/ProfileEditModal/ProfileEditModal.tsx:27-52 | reopening reloads the profile and clears the file, preview and errors |
| ProfileEditModal.EditForm.InputChange | src/components/ProfileEditModal/ProfileEditModal.tsx:54-66 | the field takes the value, only that field's error key is removed, and nothing else changes |
| ProfileEditModal.EditForm.AvatarChange | src/components/ProfileEditModal/ProfileEditModal.tsx:68-93 | a file is kept only when its type starts with `image/` and it is at most 5 MB; otherwise the right toast is shown and the selection is unchanged |
| ProfileEditModal.EditForm.PreviewLoaded | src/components/ProfileEditModal/ProfileEditModal.tsx:95-100 | the loaded data URL becomes the preview and nothing else changes |
| ProfileEditModal.CheckFields | src/components/ProfileEditModal/ProfileEditModal.tsx:108-127 | running the four checks on the form gives exactly its error record, and every entry has a non-empty message |
| ProfileEditModal.EditForm.ValidateForm | src/components/ProfileEditModal/ProfileEditModal.tsx:108-130 | the errors become those of the form, and the form is valid exactly when there are none |
| ProfileEditModal.EditForm.HandleClose | src/components/ProfileEditModal/ProfileEditModal.tsx:191-195 | the modal closes exactly when nothing is loading |
| CreateTeamModal.Apply | src/components/Teams/CreateTeamModal/CreateTeamModal.tsx:99-111 | a text input sets its own field and a file input sets the avatar; nothing else changes |
| CreateTeamModal.NameMessages | src/components/Teams/CreateTeamModal/CreateTeamModal.tsx:55-61 | the trimmed name fails exactly when outside 2..50 characters, with one message: required, then too short, then too long |
| CreateTeamModal.AvatarMessages | src/components/Teams/CreateTeamModal/CreateTeamModal.tsx:67-76 | the avatar fails exactly when missing, of a type outside jpeg/jpg/png/webp, or over 5 MB; the type is reported before the size |
| CreateTeamModal.FormErrorsSpec | src/components/Teams/CreateTeamModal/CreateTeamModal.tsx:52-84 | the game is required, the untrimmed description is at most 200 characters, only form keys appear, and the form is valid exactly when every rule holds |
| CreateTeamModal.OptionalText | src/components/Teams/CreateTeamModal/CreateTeamModal.tsx:90-95 | undefined exactly when the text is blank, otherwise the trimmed, non-empty text |
| CreateTeamModal.TrimNoLonger | src/components/Teams/CreateTeamModal/CreateTeamModal.tsx:90-95 | trimming never makes a text longer |
| CreateTeamModal.PayloadOfValidForm | src/components/Teams/CreateTeamModal/CreateTeamModal.tsx:86-97 | a valid form submits a trimmed name of 2..50 characters, its game and avatar, and a trimmed description of at most 200 characters, or none when blank |
| CreateTeamModal.SubmittedForm | src/components/Teams/CreateTeamModal/CreateTeamModal.tsx:86-97 | the submitted form always includes the avatar, and the description exactly when it was not blank (src/API/services/teams.ts:130-141) |
| CreateTeamModal.SubmitDisabled | src/components/Teams/CreateTeamModal/CreateTeamModal.tsx:216 | submit is enabled exactly when not loading and the raw name, game and avatar are present |
| CreateTeamModal.BlankNameEnablesSubmit | src/components/Teams/CreateTeamModal/CreateTeamModal.tsx:216 | a one-blank name enables the button but fails validation as required |
| CreateTeamModal.CollectErrors | src/components/Teams/CreateTeamModal/CreateTeamModal.tsx:52-80 | writing, in order, a field's message only when its check failed builds exactly the record of the four checks' outcomes |
| CreateTeamModal.CreateForm.constructor | src/components/Teams/CreateTeamModal/CreateTeamModal.tsx:22-27 | an empty form with no errors |
| CreateTeamModal.CreateForm.ValidateForm | src/components/Teams/CreateTeamModal/CreateTeamModal.tsx:52-84 | the errors become those of the form, and the form is valid exactly when there are none |
| CreateTeamModal.CreateForm.HandleSubmit | src/components/Teams/CreateTeamModal/CreateTeamModal.tsx:86-97 | submits exactly when the form is valid, and then submits its payload |
| CreateTeamModal.CreateForm.InputChange | src/components/Teams/CreateTeamModal/CreateTeamModal.tsx:99-111 | the input is applied; an error on that field is set to `''` but kept; other errors are untouched |
| OtpModal.JoinedDigits | src/components/OtpModal/page.tsx:43-51 | joining the cells gives only digits |
| OtpModal.CompleteIffFilled | src/components/OtpModal/page.tsx:43-51 | the joined code has 6 characters exactly when every cell is filled, and never more |
| OtpModal.KeyDownFocus | src/components/OtpModal/page.tsx:37-41 | Backspace on an empty cell moves focus one cell back, except from the first cell |
| OtpModal.OtpEntry.constructor | src/components/OtpModal/page.tsx:21 | six empty cells, no error, nothing loading |
| OtpModal.OtpEntry.HandleChange | src/components/OtpModal/page.tsx:26-35 | only `''` or one digit is accepted, and it writes only that cell; focus moves on exactly for a digit before the last cell |
| OtpModal.OtpEntry.ConfirmDisabled | src/components/OtpModal/page.tsx:151 | confirm is disabled exactly when loading or some cell is empty |
| OtpModal.OtpEntry.BeginConfirm | src/components/OtpModal/page.tsx:43-51 | proceeds exactly when all cells are filled, with the six joined digits; otherwise sets the error and makes no call |
| OtpModal.OtpEntry.FinishConfirm | src/components/OtpModal/page.tsx:53-83 | redirects exactly on a successful response; a failure shows its message; loading ends |
| OtpModal.OtpEntry.BeginResend | src/components/OtpModal/page.tsx:86-105 | the resend starts loading and clears the error |
| OtpModal.OtpEntry.FinishResend | src/components/OtpModal/page.tsx:86-105 | success clears all six cells and focuses the first; failure shows its message and keeps the cells |
| Header.StripLocale | src/components/layout/header/header.tsx:45-56 | a path starting with `/<locale>` loses exactly that prefix; other paths are unchanged |
| Header.StripLocalized | src/components/layout/header/header.tsx:45 | stripping undoes prefixing |
| Header.ActiveOnSection | src/components/layout/header/header.tsx:43-48 | a link is active on its own page and on every page below it |
| Header.NewsNotActiveOnNewsletter | src/components/layout/header/header.tsx:43-48 | `/news` is not active on `/newsletter` |
| Header.RootActivity | src/components/layout/header/header.tsx:43-48 | `/` is not active on the bare `/<locale>`, only on `/<locale>/` |
| Header.IndexOf | src/components/layout/header/header.tsx:50-53 | the first position of the locale, or -1 exactly when it is absent |
| Header.LocaleCycle | src/components/layout/header/header.tsx:50-53 | uz goes to ru, ru to en, en to uz, and an unknown locale to uz |
| Header.CycleReturns | src/components/layout/header/header.tsx:50-53 | three switches bring a known locale back |
| Header.LanguageChangeKeepsPage | src/components/layout/header/header.tsx:50-58 | the new path starts with the next locale and leads to the same page |
| Header.HeaderMenu.constructor | src/components/layout/header/header.tsx:61-67 | the menu starts closed |
| Header.HeaderMenu.Toggle | src/components/layout/header/header.tsx:61-67 | toggling negates the menu state |
| Header.HeaderMenu.Close | src/components/layout/header/header.tsx:61-67 | closing always closes |
| LanguageSwitcher.ChangeLangKeepsPage | src/components/ui/LanguageSwitcher.tsx:20-24 | the target starts with the chosen language and leads to the same page; the header's switch is this with the next locale |
| LanguageSwitcher.CurrentName | src/components/ui/LanguageSwitcher.tsx:48 | the name of the first entry with the locale's code, and none exactly when no entry has it |
| LanguageSwitcher.ActiveItem | src/components/ui/LanguageSwitcher.tsx:14-63 | exactly one item is active for a known locale and none for another; `en` is shown as English |
| LanguageSwitcher.Switcher.constructor | src/components/ui/LanguageSwitcher.tsx:11 | the dropdown starts closed |
| LanguageSwitcher.Switcher.Toggle | src/components/ui/LanguageSwitcher.tsx:43 | the trigger negates the open state |
| LanguageSwitcher.Switcher.ChangeLang | src/components/ui/LanguageSwitcher.tsx:20-26 | returns the rewritten path and always closes the dropdown |
| LanguageSwitcher.Switcher.MouseDown | src/components/ui/LanguageSwitcher.tsx:28-37 | a press outside the dropdown closes it; one inside leaves it as it was |
| RelatedNewsCarousel.ItemsPerView | src/components/Cards/RelatedNewsCarousel/RelatedNewsCarousel.tsx:59-70 | 1 up to 480 px, 2 up to 768 px, 3 up to 1024 px, the prop beyond |
| RelatedNewsCarousel.MaxIndex | src/components/Cards/RelatedNewsCarousel/RelatedNewsCarousel.tsx:77 | never negative; 0 exactly when everything fits, else the count minus the items per view |
| RelatedNewsCarousel.Carousel.constructor | src/components/Cards/RelatedNewsCarousel/RelatedNewsCarousel.tsx:54-72 | the index starts at 0, inside the view |
| RelatedNewsCarousel.Carousel.Prev | src/components/Cards/RelatedNewsCarousel/RelatedNewsCarousel.tsx:79-87 | the index becomes `max(0, i-1)`: one back exactly when going back is allowed; it stays in range |
| RelatedNewsCarousel.Carousel.Next | src/components/Cards/RelatedNewsCarousel/RelatedNewsCarousel.tsx:83-88 | the index becomes `min(maxIndex, i+1)`: one on exactly when going on is allowed; it ends in range |
| RelatedNewsCarousel.Carousel.Resize | src/components/Cards/RelatedNewsCarousel/RelatedNewsCarousel.tsx:59-75 | the items per view follow the width and the index is not re-clamped |
| RelatedNewsCarousel.NextThenPrev | src/components/Cards/RelatedNewsCarousel/RelatedNewsCarousel.tsx:79-85 | next then prev restores an index below the maximum |
| RelatedNewsCarousel.PrevThenNext | src/components/Cards/RelatedNewsCarousel/RelatedNewsCarousel.tsx:79-85 | prev then next restores an index above 0 |
| RelatedNewsCarousel.ResizeLeavesIndexOutOfView | src/components/Cards/RelatedNewsCarousel/RelatedNewsCarousel.tsx:59-85 | illustration: five items at index 4, resized to three per view, leave the index past the maximum: next is disabled, prev enabled |
| Banner.BannerCount | src/components/banners/Banner.tsx:16 | `min(3, n)` |
| Banner.Dots | src/components/banners/Banner.tsx:63 | one dot per shown banner, numbered from 0 |
| Banner.Advance | src/components/banners/Banner.tsx:21 | the next index wraps to 0 after the last and stays below the count |
| Banner.AdvanceByWraps | src/components/banners/Banner.tsx:18-26 | k ticks move the index k places, wrapping once past the end |
| Banner.FullRotation | src/components/banners/Banner.tsx:18-26 | a full round of ticks returns to the same banner |
| Banner.BannerCarousel.constructor | src/components/banners/Banner.tsx:14 | the first banner is shown |
| Banner.BannerCarousel.Tick | src/components/banners/Banner.tsx:18-26 | with more than one banner the index advances cyclically; otherwise it stays |
| Banner.BannerCarousel.DotClick | src/components/banners/Banner.tsx:28-36 | the index becomes the dot clicked, one of the shown banners |
| Banner.BannerCarousel.Current | src/components/banners/Banner.tsx:38-70 | the banner shown is one of the first three, and its dot is the only active one |
| NewsList.CurrentPage | src/components/Cards/NewsList/NewsList.tsx:46 | the numeric `page` parameter, or 1 when it is missing, empty, 0 or not a number |
| NewsList.DecimalRoundTrip | src/components/Cards/NewsList/NewsList.tsx:46-134 | the decimal text of a number reads back as that number |
| NewsList.PageParamRoundTrip | src/components/Cards/NewsList/NewsList.tsx:46-134 | a page number written into the URL is read back as the current page |
| NewsList.Displayed | src/components/Cards/NewsList/NewsList.tsx:50 | the first `limit` items when a limit is set, else all, always a prefix |
| NewsList.ShowsPagination | src/components/Cards/NewsList/NewsList.tsx:90 | pagination is drawn exactly when there is no limit and there are links |
| NewsList.PrevDisabled | src/components/Cards/NewsList/NewsList.tsx:98-102 | prev is the first link and is disabled exactly when its URL is null |
| NewsList.NextDisabled | src/components/Cards/NewsList/NewsList.tsx:155-168 | next is the last link and is disabled exactly when its URL is null |
| NewsList.Middle | src/components/Cards/NewsList/NewsList.tsx:115-117 | the links between the first and the last, in order |
| NewsList.MiddleItems | src/components/Cards/NewsList/NewsList.tsx:115-143 | one item per middle link, in order |
| NewsList.ActivePage | src/components/Cards/NewsList/NewsList.tsx:118-143 | `...` is not clickable; a page button is active exactly when its number is the current page, and the current page's own button is |
| NewsList.BeforeFirst | src/components/Cards/NewsList/NewsList.tsx:55 | the text before the first occurrence of the separator |
| NewsList.AfterFirst | src/components/Cards/NewsList/NewsList.tsx:55 | the text after the first separator, and none exactly when there is no separator |
| NewsList.ParamOf | src/components/Cards/NewsList/NewsList.tsx:55-56 | a query segment splits at its first `=` into key and value |
| NewsList.GetParam | src/components/Cards/NewsList/NewsList.tsx:55-56 | the value of the first parameter with the key, none exactly when no parameter has it |
| NewsList.Without | src/components/Cards/NewsList/NewsList.tsx:59-62 | no parameter with the key is left |
| NewsList.WithoutKeepsOthers | src/components/Cards/NewsList/NewsList.tsx:59-62 | removing one key keeps every other key's values |
| NewsList.SetParamEffect | src/components/Cards/NewsList/NewsList.tsx:59-62 | after `set`, the key has exactly the new value and every other key keeps its values |
| NewsList.PageChangeEffect | src/components/Cards/NewsList/NewsList.tsx:52-64 | nothing happens for a null URL or one without `page`; otherwise only `page` is set, to the link's page, and other parameters are kept |
| NewsList.LinkToPageThree | src/components/Cards/NewsList/NewsList.tsx:52-64 | illustration: following a `?page=3` link makes 3 the current page |
| NewsList.PageThreeLink | src/components/Cards/NewsList/NewsList.tsx:52-64 | illustration: a `?page=3` link sets the page to `3` |
| NewsList.PageThreeNumber | src/components/Cards/NewsList/NewsList.tsx:46 | illustration: the parameter `3` is page 3 |
| NewsList.PageLink | src/components/Cards/NewsList/NewsList.tsx:52-64 | a link `base?page=p` sets the page to `p` |
| NewsList.PageLinkQuery | src/components/Cards/NewsList/NewsList.tsx:55 | the query of `base?page=p` is the single parameter `page=p` |
| NewsList.PageParam | src/components/Cards/NewsList/NewsList.tsx:55 | `page=p` parses as the parameter `page` with value `p` |
| NewsList.NoFragment | src/components/Cards/NewsList/NewsList.tsx:55 | a URL without `#` has no fragment to cut |
| NewsList.AfterFirstAt | src/components/Cards/NewsList/NewsList.tsx:55 | the text after the first separator is exactly what follows it |
| Pgames.TruncateDescription | src/components/Cards/Pgames_card/Pgames.tsx:27-30 | a text that fits is unchanged; a longer one keeps its first `max` characters and gets `...`; the result always starts with the kept prefix and has at most `max + 3` characters |
| Pgames.TruncateIdempotent | src/components/Cards/Pgames_card/Pgames.tsx:27-30 | truncating twice is truncating once |
| Pgames.TruncateSeesOnlyPrefix | src/components/Cards/Pgames_card/Pgames.tsx:27-30 | two long texts with the same first `max` characters show the same |
| Pgames.GameCardOf | src/components/Cards/Pgames_card/Pgames.tsx:56-66 | the card shows the game's fields, its description cut at 100, and links to `/<locale>/games/<slug>` |
| Pgames.Cards | src/components/Cards/Pgames_card/Pgames.tsx:26-40 | exactly three placeholders for an empty list, else one card per game in order |
| MatchesTab.StatusLookOf | src/components/Tournaments/Tabs/MatchesTab.tsx:19-50 | `completed` and `live` have their own look; every other status looks scheduled |
| MatchesTab.KnownStatusShownAsItself | src/components/Tournaments/Tabs/MatchesTab.tsx:19-50 | among the declared statuses, only `scheduled` looks scheduled |
| MatchesTab.StageTextOf | src/components/Tournaments/Tabs/MatchesTab.tsx:52-65 | the four known stages are translated; any other stage is shown as its raw string |
| MatchesTab.StageTextInjective | src/components/Tournaments/Tabs/MatchesTab.tsx:52-65 | different stages never show the same text |
| MatchesTab.WinnerLabel | src/components/Tournaments/Tabs/MatchesTab.tsx:199-201 | nothing without a winner; the stray text "0" for the falsy winner id 0; otherwise the winner line, naming team 1 when team 1 won and team 2 in every other case |
| MatchesTab.WinnerLabelAgreesWithHighlight | src/components/Tournaments/Tabs/MatchesTab.tsx:162-201 | with distinct teams the label names the highlighted side, and team 2 when the winner is neither side |
| MatchesTab.ZeroIdWinnerHighlightedWithoutLine | src/components/Tournaments/Tabs/MatchesTab.tsx:162-201 | illustration: a team with id 0 that won is highlighted, but its card shows the stray "0" and no winner line |
| MatchesTab.CardOf | src/components/Tournaments/Tabs/MatchesTab.tsx:148-203 | a card shows the status look, the stage text, each side's highlight and the winner slot, stray "0" included |
| MatchesTab.WithStatus | src/components/Tournaments/Tabs/MatchesTab.tsx:77-80 | keeps exactly the matches with the status, each as often as it occurs |
| MatchesTab.WithStatusAppend | src/components/Tournaments/Tabs/MatchesTab.tsx:77-80 | filtering keeps the order of the list |
| MatchesTab.FilterMatches | src/components/Tournaments/Tabs/MatchesTab.tsx:77-80 | `all` keeps every match; a status keeps exactly the matches with it |
| MatchesTab.LexLeTotal | src/components/Tournaments/Tabs/MatchesTab.tsx:86 | any two stage strings are comparable |
| MatchesTab.LexLeTransitive | src/components/Tournaments/Tabs/MatchesTab.tsx:86 | the stage comparison is transitive |
| MatchesTab.InOrderTotal | src/components/Tournaments/Tabs/MatchesTab.tsx:82-88 | the comparator orders any two matches one way or the other |
| MatchesTab.InOrderTransitive | src/components/Tournaments/Tabs/MatchesTab.tsx:82-88 | the comparator is transitive |
| MatchesTab.Insert | src/components/Tournaments/Tabs/MatchesTab.tsx:82-88 | inserting adds exactly the one match |
| MatchesTab.InsertSorted | src/components/Tournaments/Tabs/MatchesTab.tsx:82-88 | inserting into a sorted list keeps it sorted |
| MatchesTab.SortMatches | src/components/Tournaments/Tabs/MatchesTab.tsx:82-88 | the sorted copy is a permutation of the list, and sorted by the chosen key |
| MatchesTab.SortOrder | src/components/Tournaments/Tabs/MatchesTab.tsx:82-88 | by date the dates never increase down the list; by stage the stages never decrease |
| MatchesTab.ButtonCountIsCardCount | src/components/Tournaments/Tabs/MatchesTab.tsx:90-127 | the count on a filter button is the number of cards shown for that filter |
| MatchesTab.CountsPartition | src/components/Tournaments/Tabs/MatchesTab.tsx:90-95 | with the three declared statuses only, the three counts add up to the total |
| MatchesTab.UndeclaredStatusUncounted | src/components/Tournaments/Tabs/MatchesTab.tsx:90-95 | a match of another status is counted under `all` only |
| MatchesTab.NothingPassesIff | src/components/Tournaments/Tabs/MatchesTab.tsx:77-80 | the filter leaves nothing exactly when the list is empty, or no match has the chosen status |
| MatchesTab.MatchesView.constructor | src/components/Tournaments/Tabs/MatchesTab.tsx:16-17 | every status is shown, sorted by date |
| MatchesTab.MatchesView.SelectFilter | src/components/Tournaments/Tabs/MatchesTab.tsx:123 | a filter button sets the filter and keeps the sort |
| MatchesTab.MatchesView.SelectSort | src/components/Tournaments/Tabs/MatchesTab.tsx:138 | the select sets the sort and keeps the filter |
| MatchesTab.MatchesView.Shown | src/components/Tournaments/Tabs/MatchesTab.tsx:77-88 | the grid draws a permutation of the filtered matches, sorted by the chosen key |
| MatchesTab.MatchesView.Cards | src/components/Tournaments/Tabs/MatchesTab.tsx:148-205 | one card per shown match, in order |
| MatchesTab.MatchesView.EmptyState | src/components/Tournaments/Tabs/MatchesTab.tsx:208 | the empty state shows exactly when the selected button's count is 0, that is, no match passes the filter |
| BracketTab.CardOf | src/components/Tournaments/Tabs/BracketTab.tsx:62-117 | the status look, each side highlighted exactly when it is the winner, and the winner slot: nothing without a winner, the stray "0" for the winner id 0, else a line naming team 1 when it won and team 2 otherwise |
| BracketTab.CardsOf | src/components/Tournaments/Tabs/BracketTab.tsx:119-135 | one card per match, in order |
| BracketTab.CardsOfAppend | src/components/Tournaments/Tabs/BracketTab.tsx:119-135 | the cards of two lists are the cards of each in turn |
| BracketTab.StageSection | src/components/Tournaments/Tabs/BracketTab.tsx:119-135 | nothing exactly for an empty round; otherwise its title, its count and its cards |
| BracketTab.Drawn | src/components/Tournaments/Tabs/BracketTab.tsx:152-154 | a section drawn or not, as zero or one sections |
| BracketTab.AllCardsAppend | src/components/Tournaments/Tabs/BracketTab.tsx:152-154 | the cards of consecutive sections are read in order |
| BracketTab.DrawnCards | src/components/Tournaments/Tabs/BracketTab.tsx:119-135 | a drawn round shows exactly its matches' cards |
| BracketTab.CardsInStageOrder | src/components/Tournaments/Tabs/BracketTab.tsx:152-154 | every bracket match is drawn once: quarter-finals, then semi-finals, then the final |
| BracketTab.EmptyStateIffNoSection | src/components/Tournaments/Tabs/BracketTab.tsx:152-158 | the empty state shows exactly when no section is drawn, and there is one section per non-empty round |
| BracketTab.FinalOnly | src/components/Tournaments/Tabs/BracketTab.tsx:152-158 | with only a final, the grand final is the one section and there is no empty state |
| TournamentTabs.TabsOf | src/components/Tournaments/TournamentTabs.tsx:23-43 | participants, bracket and matches in that order; participants count the participants, and both other tabs count the matches |
| TournamentTabs.ContentOf | src/components/Tournaments/TournamentTabs.tsx:45-57 | each tab draws its own content, from the tournament's own list |
| TournamentTabs.BracketBadgeOverEmptyBracket | src/components/Tournaments/TournamentTabs.tsx:31-35 | a tournament with matches but empty rounds shows a bracket badge over the bracket's empty state (src/components/Tournaments/Tabs/BracketTab.tsx:156-158) |
| TournamentTabs.TabsView.constructor | src/components/Tournaments/TournamentTabs.tsx:21 | the participants tab is selected first |
| TournamentTabs.TabsView.Click | src/components/Tournaments/TournamentTabs.tsx:69 | a click selects the tab clicked |
| TournamentTabs.ClickSelectsOne | src/components/Tournaments/TournamentTabs.tsx:63-69 | after a click, exactly the clicked button is drawn active |
| Breadcrumb.ElementOf | src/components/ui/Breadcrumb.tsx:14-21 | a link exactly when the item has a non-empty target and is not active; otherwise plain text, active exactly when the item is; the caption is kept |
| Breadcrumb.Behind | src/components/ui/Breadcrumb.tsx:11-13 | two pieces per item after the first |
| Breadcrumb.BehindAt | src/components/ui/Breadcrumb.tsx:11-13 | every later item comes right after its own separator |
| Breadcrumb.TrailLayout | src/components/ui/Breadcrumb.tsx:11-13 | n items give 2n−1 pieces: item i at position 2i, in input order, with a separator before every item but the first |
| Breadcrumb.BehindSeparators | src/components/ui/Breadcrumb.tsx:11-13 | one separator per later item |
| Breadcrumb.SeparatorCount | src/components/ui/Breadcrumb.tsx:11-13 | n items give n−1 separators, and none for an empty trail |
| Breadcrumb.ActiveNeverLinks | src/components/ui/Breadcrumb.tsx:14-21 | the current page is never a link, and only it is drawn active |

## Left out

- Network I/O. Every axios or fetch call becomes a `Call` value, returned or thrown, passed in as a parameter. Timeouts, retries and response decoding are outside the model. The `register` and `resendOtp` bodies are only their shared catch chain (`Auth.AuthPost`).
- `src/API/services/tournaments.ts`, `servers.ts`, `news.ts`, `banners.ts` and `src/API/index.tsx` are not part of this model. They are fetch wrappers with no decision logic of their own.
- Cookie attributes (`path`, `secure`, `samesite`) are not modelled. Max-age timing is not modelled either: a positive max-age stores the cookie and any other value removes it. The browser's trimming of cookie values is also out. `src/utilities/authServer.ts` (server-side cookies) is not part of this model.
- Timers and listeners are out: the banner's interval restart, the toast timeouts, and the scroll, resize, key and mouse listeners. Each handler is a method called with the event's data.
- Other browser actions: `FileReader` becomes the separate method `PreviewLoaded`, and focus moves return the index to focus. `router.push` and `window.scrollTo` return the target, or are left out.
- Translations are out. Messages are translation keys or the fixed Uzbek texts of the services. Toasts are returned as values.
- Locale-dependent behaviour. `localeCompare` becomes lexicographic order of the characters (`MatchesTab.LexLe`). `toLocaleDateString` is out. A match date is the instant it denotes, in milliseconds.
- `Number(...)` is modelled only for strings of ASCII digits. Any other non-empty string is NaN, so `NewsList.CurrentPage` treats signs, blanks and decimals as not a number.
- NewsList.QueryOf: reads names and values as raw text. `URLSearchParams` percent-decodes them and reads `+` as a blank, so `?page=%33` gives the page `3` in the component but the page `%33` here. The page written back by `params.toString()` is not percent-encoded either.
- NewsList.PageChangeEffect: a url that `new URL(url, origin)` refuses throws, and `handlePageChange` catches that and does nothing. Here such a url is parsed like any other, because URL parsing and its failure cases are not modelled.
- NewsList's hiding of the middle page links on mobile widths is not modelled.
- String lengths count characters, not UTF-16 code units, so the length rules treat characters outside the Basic Multilingual Plane as one character.
- The e-mail and phone regular expressions of the profile form are written out as predicates. Their `\s` is the JavaScript whitespace set.
- Floating-point presentation is out: `PrizeTab.tsx` and the carousel's `translateX` percentages.
- The Lexical editor and viewer, the skeletons, the footer, the team and tournament presentation components, and `TeamsSection.tsx` are presentation only and are left out.
- `Teams.PlaceholderTeam`: `Date.now()` and `new Date().toISOString()` become a clock parameter, so the id, slug and timestamps are whatever that clock says.
- `Teams.AsString` renders only the two body shapes it is given (text and object). Numbers, arrays and other values that `String(...)` would print are not modelled.
- `MatchesTab.CountsPartition` holds only for the three statuses the type declares. `MatchesTab.UndeclaredStatusUncounted` shows that other statuses break the sum.

## Findings

| source | as written | input that shows it | evidently intended | confidence | as-written member | corrected member |
|---|---|---|---|---|---|---|
| src/API/services/profile.ts:86-106, 128-157 | The not-signed-in envelope and the unsuccessful-response envelope are thrown inside `try`, so the method's own `catch` catches them again. They have no `response` and their message matches no rule, so the caller gets the generic failure message. The same holds in updateProfile (164-170, 178-186, 216-234) and uploadAvatar (241-247, 258-266, 296-329). | `getProfile()` with a cookie string that has no `access_token` yields `Profil ma'lumotlarini yuklashda xatolik yuz berdi`, not `Siz tizimga kirmagansiz`. A response `{success: false, message: "X"}` also yields the generic message instead of `X`. | Signed-out callers get `Siz tizimga kirmagansiz`, and an unsuccessful response's own message (or the method's not-found text) reaches the caller. | not executed | Profile.SignedOutGetsFailure | Profile.IntendedReportsChecks |

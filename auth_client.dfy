/** The client-side sign-in test (src/utilities/authClient.ts). */
module AuthClient {
  import opened Common
  import opened Cookies
  import opened Auth

  /** `isUserLoggedIn`: some piece of `document.cookie` is the
      `access_token` cookie, whatever its value. */
  predicate IsUserLoggedIn(documentCookie: string)
  {
    FindAccessSegment(Split(documentCookie, ';')).Some?
  }

  /** The test agrees with `getAccessToken` finding a token at all, so a page
      that `isAuthenticated` counts as logged in. */
  lemma LoggedInIffTokenPresent(documentCookie: string)
    ensures IsUserLoggedIn(documentCookie) <==> GetAccessToken(documentCookie).Some?
    ensures IsAuthenticated(documentCookie) ==> IsUserLoggedIn(documentCookie)
  {
  }

  /** On the store: logged in exactly when an `access_token` cookie exists. */
  lemma LoggedInIffCookie(es: seq<Cookie>)
    requires WellFormed(es)
    ensures IsUserLoggedIn(Serialize(es)) <==> Lookup(es, AccessTokenCookie).Some?
  {
    ReadAccessToken(es);
    LoggedInIffTokenPresent(Serialize(es));
  }

  /** The converse fails: an `access_token` cookie with an empty value is
      logged in for this test but not authenticated for the service. */
  lemma EmptyTokenLoggedInNotAuthenticated()
    ensures IsUserLoggedIn("access_token=") && !IsAuthenticated("access_token=")
  {
    var es := [Cookie(AccessTokenCookie, "", 1)];
    SessionNamesValid();
    assert WellFormed(es);
    assert Serialize(es) == "access_token=";
    ReadAccessToken(es);
    LoggedInIffCookie(es);
  }
}

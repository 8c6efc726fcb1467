/** The anti-forgery `state` handshake of the Microsoft login: the token is
    stored in the session when the user is redirected and must come back
    unchanged on the callback. */
module OAuth {
  import opened Wrappers

  /** The parts of the session the login touches. */
  datatype Session = Session(oauthState: Option<string>, user: Option<string>)

  /** What the steps after the state check (code exchange, Graph lookup, user
      upsert) produced: the e-mail of the user to log in, or an HTTP error. */
  datatype ProviderLogin = Verified(email: string) | Refused(status: nat, message: string)

  datatype CallbackOutcome = LoggedIn(email: string) | Failed(status: nat, message: string)

  const InvalidStateMessage := "Authentication failed: Invalid state"

  /** `/microsoft-login`: the fresh token is stored in the session. */
  function BeginLogin(s: Session, token: string): (s': Session)
    ensures s'.oauthState == Some(token) && s'.user == s.user
  {
    s.(oauthState := Some(token))
  }

  /** Both tokens present, non-empty and equal. */
  predicate StateMatches(received: Option<string>, stored: Option<string>)
    ensures StateMatches(received, stored) <==> received.Some? && received == stored && received.value != ""
  {
    && received.Some? && received.value != ""
    && stored.Some? && stored.value != ""
    && received.value == stored.value
  }

  /** `/microsoft-auth`: the state check, then the abstracted rest of the login. */
  function Callback(s: Session, received: Option<string>, rest: ProviderLogin): (r: (Session, CallbackOutcome))
    ensures !StateMatches(received, s.oauthState) ==> r == (s, Failed(400, InvalidStateMessage))
    ensures StateMatches(received, s.oauthState) ==> r.0.oauthState == None
    ensures r.1.LoggedIn? <==> StateMatches(received, s.oauthState) && rest.Verified?
    ensures r.1.LoggedIn? ==> r.0.user == Some(r.1.email) && r.1.email == rest.email
    ensures !r.1.LoggedIn? ==> r.0.user == s.user
  {
    if !StateMatches(received, s.oauthState) then
      (s, Failed(400, InvalidStateMessage))
    else
      var cleared := s.(oauthState := None);
      match rest
      case Verified(email) => (cleared.(user := Some(email)), LoggedIn(email))
      case Refused(status, message) => (cleared, Failed(status, message))
  }

  /** Echoing the token issued at redirect time passes the check. */
  lemma {:induction false} EchoedTokenAccepted(s: Session, token: string, email: string)
    requires token != ""
    ensures Callback(BeginLogin(s, token), Some(token), Verified(email)).1 == LoggedIn(email)
  {
  }

  /** Any other token, or none, is refused before anything else happens, and
      the session keeps its pending token. */
  lemma {:induction false} ForgedTokenRefused(s: Session, token: string, received: Option<string>, rest: ProviderLogin)
    requires received != Some(token)
    ensures Callback(BeginLogin(s, token), received, rest) == (BeginLogin(s, token), Failed(400, InvalidStateMessage))
  {
  }

  /** The token is single-use: after a callback that passed the check, a
      second callback with the same token is refused. */
  lemma {:induction false} TokenSingleUse(s: Session, token: string, rest1: ProviderLogin, rest2: ProviderLogin)
    requires token != ""
    ensures
      var s1 := Callback(BeginLogin(s, token), Some(token), rest1).0;
      Callback(s1, Some(token), rest2).1 == Failed(400, InvalidStateMessage)
  {
  }
}

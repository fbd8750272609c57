/**
 * How login.js and app.js share `localStorage`: the session a sign-in writes
 * is what `isLoggedIn` reads and what `logout` removes, and a job-card click
 * made while logged out brings the visitor back to the application form once
 * signed in.
 */
module AuthProtocol {
  import opened Wrappers
  import opened Storage
  import Login
  import App

  /** `logout` removes exactly the keys a sign-in or sign-up writes. */
  lemma LogoutKeysAreSessionKeys()
    ensures App.AuthKeys == Login.SessionKeys
  {
  }

  /** After a successful sign-in the visitor counts as logged in exactly when the server sent a non-empty token. */
  lemma SessionLogsIn(items: map<string, string>, s: Login.Session)
    ensures App.IsLoggedIn(Login.WithSession(items, s)) <==> s.token != []
  {
    Login.WithSessionReadBack(items, s);
  }

  /** Logging out after a sign-in leaves the store as logging out before it would have. */
  lemma LogoutUndoesSession(items: map<string, string>, s: Login.Session)
    ensures Login.WithSession(items, s) - App.AuthKeys == items - App.AuthKeys
  {
    var r := Login.WithSession(items, s);
    assert forall k :: k in r - App.AuthKeys ==> k in items && (r - App.AuthKeys)[k] == items[k];
  }

  /** After `logout` nobody is logged in, and the remembered job and redirect target survive. */
  lemma LogoutLogsOut(items: map<string, string>)
    ensures !App.IsLoggedIn(items - App.AuthKeys)
    ensures App.Lookup(items - App.AuthKeys, App.SelectedJobKey) == App.Lookup(items, App.SelectedJobKey)
    ensures App.Lookup(items - App.AuthKeys, RedirectKey) == App.Lookup(items, RedirectKey)
  {
  }

  /**
   * A logged-out visitor clicks a job card, signs in, and the redirect timer
   * fires. The value the sign-in handler captures is the application form,
   * so the timer removes the key and goes there; afterwards the visitor is
   * logged in exactly when the token is non-empty and the chosen job is still
   * stored.
   */
  lemma ClickThenSignIn(items: map<string, string>, jobJson: string, s: Login.Session)
    requires !App.IsLoggedIn(items)
    ensures var signedIn := Login.WithSession(App.AfterCardClick(items, jobJson), s);
      var landed := signedIn - {RedirectKey};
      && RedirectKey in signedIn && signedIn[RedirectKey] == App.ApplicationPage
      && Truthy(Some(signedIn[RedirectKey]))
      && (App.IsLoggedIn(landed) <==> s.token != [])
      && App.SelectedJobKey in landed && landed[App.SelectedJobKey] == jobJson
  {
    var clicked := App.AfterCardClick(items, jobJson);
    App.CardClickEffect(items, jobJson);
    var signedIn := Login.WithSession(clicked, s);
    Login.WithSessionReadBack(clicked, s);
    var landed := signedIn - {RedirectKey};
    assert App.Lookup(landed, "token") == App.Lookup(signedIn, "token");
    assert App.Lookup(landed, "isLoggedIn") == App.Lookup(signedIn, "isLoggedIn");
  }
}

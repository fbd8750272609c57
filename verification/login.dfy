/**
 * The sign-in / sign-up page of login.js: the mode toggle, the shared
 * `loading` flag that keeps a second request out, the two validation chains,
 * the session written to `localStorage` on success, and the delayed redirect
 * that consumes `redirectAfterLogin`.
 */
module Login {
  import opened Wrappers
  import opened Text
  import opened Boundary
  import opened Storage

  const UsernameMissing := "Please enter your username"
  const PasswordMissing := "Please enter your password"
  const NewUsernameMissing := "Please enter a username"
  const NewEmailMissing := "Please enter an email"
  const NewPasswordMissing := "Please enter a password"
  const PasswordTooShort := "Password must be at least 8 characters long"
  const MinPasswordLength := 8

  const LoadingText := "Loading..."
  const SignInText := "Login"
  const SignUpText := "Sign up"
  const SignInRetry := "Login failed. Please try again."
  const SignUpRetry := "Registration failed. Please try again."

  const HomePage := "index.html"

  /** The five keys a successful sign-in or sign-up writes. */
  const SessionKeys: set<string> := {"token", "isLoggedIn", "username", "userEmail", "userId"}

  /** The `data` of a successful authentication reply: the token and the user record. */
  datatype Session = Session(token: string, username: string, email: string, id: string)

  /** The body sent to the sign-in or sign-up endpoint; `email` is empty for a sign-in. */
  datatype Credentials = Credentials(username: string, email: string, password: string)

  /** A submit button: its `value`, `disabled`, and whether it carries the `loading` class. */
  datatype Button = Button(value: string, disabled: bool, spinning: bool)

  datatype Which = SignIn | SignUp

  /** The sign-in chain on the trimmed username and the password as typed. */
  function SignInCheck(username: string, password: string): Outcome
  {
    if username == [] then Fail(UsernameMissing)
    else if password == [] then Fail(PasswordMissing)
    else Pass
  }

  /** The sign-up chain: username, email, password present, then the password's length. */
  function SignUpCheck(username: string, email: string, password: string): Outcome
  {
    if username == [] then Fail(NewUsernameMissing)
    else if email == [] then Fail(NewEmailMissing)
    else if password == [] then Fail(NewPasswordMissing)
    else if |password| < MinPasswordLength then Fail(PasswordTooShort)
    else Pass
  }

  /**
   * Sign-in is refused exactly when the username is white space only or the
   * password is empty, the username being reported first; a password of
   * spaces is sent as it is.
   */
  lemma SignInVerdict(username: string, password: string)
    ensures var r := SignInCheck(Trim(username), password);
      && (r == Pass <==> !Blank(username) && password != [])
      && (r == Fail(UsernameMissing) <==> forall k :: 0 <= k < |username| ==> IsSpace(username[k]))
      && (r == Fail(PasswordMissing) <==> !Blank(username) && password == [])
  {
    BlankIffAllSpace(username);
  }

  /**
   * Sign-up is accepted exactly when username and email are not blank and the
   * password has at least eight characters; each refusal names the first
   * check that failed.
   */
  lemma SignUpVerdict(username: string, email: string, password: string)
    ensures var r := SignUpCheck(Trim(username), Trim(email), password);
      && (r == Pass <==> !Blank(username) && !Blank(email) && |password| >= MinPasswordLength)
      && (r == Fail(NewUsernameMissing) <==> forall k :: 0 <= k < |username| ==> IsSpace(username[k]))
      && (r == Fail(NewEmailMissing) <==> !Blank(username) && forall k :: 0 <= k < |email| ==> IsSpace(email[k]))
      && (r == Fail(NewPasswordMissing) <==> !Blank(username) && !Blank(email) && password == [])
      && (r == Fail(PasswordTooShort) <==>
            !Blank(username) && !Blank(email) && 0 < |password| < MinPasswordLength)
  {
    BlankIffAllSpace(username);
    BlankIffAllSpace(email);
  }

  /** The store after the five `setItem` calls of a successful reply. */
  function WithSession(items: map<string, string>, s: Session): (r: map<string, string>)
    ensures r.Keys == items.Keys + SessionKeys
    ensures forall k :: k in items && k !in SessionKeys ==> r[k] == items[k]
  {
    items["token" := s.token]["isLoggedIn" := "true"]["username" := s.username]
         ["userEmail" := s.email]["userId" := s.id]
  }

  /** The session can be read back from the store it was written to. */
  lemma WithSessionReadBack(items: map<string, string>, s: Session)
    ensures var r := WithSession(items, s);
      && r["token"] == s.token && r["isLoggedIn"] == "true" && r["username"] == s.username
      && r["userEmail"] == s.email && r["userId"] == s.id
  {
  }

  /** The login page's state; the store is the origin's `localStorage`. */
  class LoginPage {
    var isSignUpMode: bool
    var loading: bool
    var signInButton: Button
    var signUpButton: Button
    const store: LocalStorage

    ghost predicate Valid()
      reads this
    {
      && !(signInButton.disabled && signUpButton.disabled)
      && loading == (signInButton.disabled || signUpButton.disabled)
    }

    /** Page load, ending with `showSignIn()`. */
    constructor (store: LocalStorage)
      ensures Valid() && !isSignUpMode && !loading && this.store == store
      ensures signInButton == Button(SignInText, false, false) && signUpButton == Button(SignUpText, false, false)
    {
      this.store := store;
      loading := false;
      signInButton := Button(SignInText, false, false);
      signUpButton := Button(SignUpText, false, false);
      isSignUpMode := false;
    }

    method ShowSignUp()
      modifies this`isSignUpMode
      ensures isSignUpMode
    {
      isSignUpMode := true;
    }

    method ShowSignIn()
      modifies this`isSignUpMode
      ensures !isSignUpMode
    {
      isSignUpMode := false;
    }

    /** `showLoading(button, text)`. */
    method ShowLoading(which: Which, text: string)
      modifies this`loading, this`signInButton, this`signUpButton
      ensures loading
      ensures which == SignIn ==> signInButton == Button(text, true, true) && signUpButton == old(signUpButton)
      ensures which == SignUp ==> signUpButton == Button(text, true, true) && signInButton == old(signInButton)
    {
      loading := true;
      if which == SignIn {
        signInButton := Button(text, true, true);
      } else {
        signUpButton := Button(text, true, true);
      }
    }

    /** `hideLoading(button, text)`. */
    method HideLoading(which: Which, text: string)
      modifies this`loading, this`signInButton, this`signUpButton
      ensures !loading
      ensures which == SignIn ==> signInButton == Button(text, false, false) && signUpButton == old(signUpButton)
      ensures which == SignUp ==> signUpButton == Button(text, false, false) && signInButton == old(signInButton)
    {
      loading := false;
      if which == SignIn {
        signInButton := Button(text, false, false);
      } else {
        signUpButton := Button(text, false, false);
      }
    }

    /** The synchronous part of the sign-in handler: validate, then enter the loading state and send. */
    method SubmitSignIn(username: string, password: string) returns (toast: Option<Toast>, request: Option<Credentials>)
      requires Valid()
      modifies this`loading, this`signInButton, this`signUpButton
      ensures Valid() && signUpButton == old(signUpButton)
      ensures old(loading) ==> toast == None && request == None && loading && signInButton == old(signInButton)
      ensures !old(loading) ==> match SignInCheck(Trim(username), password)
        case Fail(message) =>
          toast == Some(Toast(message, Error)) && request == None && !loading && signInButton == old(signInButton)
        case Pass =>
          && toast == None && request == Some(Credentials(Trim(username), "", password))
          && loading && signInButton == Button(LoadingText, true, true)
    {
      if loading {
        return None, None;
      }
      var name := Trim(username);
      var verdict := SignInCheck(name, password);
      if verdict.Fail? {
        return Some(Toast(verdict.message, Error)), None;
      }
      ShowLoading(SignIn, LoadingText);
      return None, Some(Credentials(name, "", password));
    }

    /** The synchronous part of the sign-up handler. */
    method SubmitSignUp(username: string, email: string, password: string)
      returns (toast: Option<Toast>, request: Option<Credentials>)
      requires Valid()
      modifies this`loading, this`signInButton, this`signUpButton
      ensures Valid() && signInButton == old(signInButton)
      ensures old(loading) ==> toast == None && request == None && loading && signUpButton == old(signUpButton)
      ensures !old(loading) ==> match SignUpCheck(Trim(username), Trim(email), password)
        case Fail(message) =>
          toast == Some(Toast(message, Error)) && request == None && !loading && signUpButton == old(signUpButton)
        case Pass =>
          && toast == None && request == Some(Credentials(Trim(username), Trim(email), password))
          && loading && signUpButton == Button(LoadingText, true, true)
    {
      if loading {
        return None, None;
      }
      var name := Trim(username);
      var address := Trim(email);
      var verdict := SignUpCheck(name, address, password);
      if verdict.Fail? {
        return Some(Toast(verdict.message, Error)), None;
      }
      ShowLoading(SignUp, LoadingText);
      return None, Some(Credentials(name, address, password));
    }

    /** The five `setItem` calls, in the handlers' order. */
    method StoreSession(s: Session)
      modifies store
      ensures store.items == WithSession(old(store.items), s)
    {
      store.SetItem("token", s.token);
      store.SetItem("isLoggedIn", "true");
      store.SetItem("username", s.username);
      store.SetItem("userEmail", s.email);
      store.SetItem("userId", s.id);
    }

    /**
     * The awaited reply of a sign-in or sign-up settles. On success the
     * session is stored, the button given back, and a one-second timer set
     * that carries the `redirectAfterLogin` value read now. An unsuccessful
     * body changes nothing, so the page stays loading. A thrown error gives a
     * toast and the button back.
     */
    method Receive(which: Which, reply: Reply<Session>) returns (toast: Option<Toast>, timer: Option<Option<string>>)
      requires Valid()
      requires which == SignIn ==> signInButton.disabled
      requires which == SignUp ==> signUpButton.disabled
      modifies this`loading, this`signInButton, this`signUpButton, store
      ensures Valid()
      ensures var caption := if which == SignIn then SignInText else SignUpText;
        var retry := if which == SignIn then SignInRetry else SignUpRetry;
        var released := if which == SignIn then signInButton else signUpButton;
        && (reply.Succeeded() ==>
             && store.items == WithSession(old(store.items), reply.data)
             && toast == Some(Toast(reply.message, Success))
             && timer == Some(if RedirectKey in old(store.items) then Some(old(store.items)[RedirectKey]) else None)
             && !loading && released == Button(caption, false, false))
        && (reply.Answered? && !reply.success ==>
             && store.items == old(store.items) && toast == None && timer == None
             && loading && signInButton == old(signInButton) && signUpButton == old(signUpButton))
        && (reply.Thrown? ==>
             && store.items == old(store.items) && toast == Some(Toast(OrElse(reply.reason, retry), Error))
             && timer == None && !loading && released == Button(caption, false, false))
      ensures which == SignIn ==> signUpButton == old(signUpButton)
      ensures which == SignUp ==> signInButton == old(signInButton)
    {
      var caption := if which == SignIn then SignInText else SignUpText;
      match reply
      case Answered(success, message, _, data) =>
        if !success {
          return None, None;
        }
        StoreSession(data);
        toast := Some(Toast(message, Success));
        HideLoading(which, caption);
        timer := Some(store.GetItem(RedirectKey));
      case Thrown(reason) =>
        var retry := if which == SignIn then SignInRetry else SignUpRetry;
        toast := Some(Toast(OrElse(reason, retry), Error));
        timer := None;
        HideLoading(which, caption);
    }

    /**
     * The one-second timer fires: a non-empty stored target is removed and
     * followed; otherwise the page goes home and the store is left alone.
     */
    method FireRedirect(redirectUrl: Option<string>) returns (target: string)
      modifies store
      ensures Truthy(redirectUrl) ==> target == redirectUrl.value && store.items == old(store.items) - {RedirectKey}
      ensures !Truthy(redirectUrl) ==> target == HomePage && store.items == old(store.items)
    {
      if Truthy(redirectUrl) {
        store.RemoveItem(RedirectKey);
        target := redirectUrl.value;
      } else {
        target := HomePage;
      }
    }
  }
}

/**
 * The Signup form: its React state as the fields of a class, and its
 * change, toggle and submit handlers as methods, each one atomic step.
 */
module Signup {
  import opened Wrappers
  import opened Backend
  import FormRules

  const MismatchError: string := "Passwords do not match!"
  const FailureFallback: string := "Invalid credentials"
  const LoginRoute: string := "/login"

  /** The credential object always holds the three fields the form starts with. */
  predicate HasSignupFields(credential: map<string, string>) {
    "name" in credential && "email" in credential && "password" in credential
  }

  /**
   * `JSON.stringify({ name, email, password })`: exactly the three
   * credential fields, with their current values; in particular never the
   * confirmation, nor any other key the credential object has collected.
   */
  function SignupBody(credential: map<string, string>): (body: map<string, string>)
    requires HasSignupFields(credential)
    ensures body.Keys == {"name", "email", "password"}
    ensures forall f :: f in body ==> f in credential && body[f] == credential[f]
    ensures "confirmPassword" !in body
  {
    map["name" := credential["name"], "email" := credential["email"], "password" := credential["password"]]
  }

  class SignupForm {
    var credential: map<string, string>
    var confirmPassword: string
    var showPassword: bool
    var loading: bool
    /** The inline error banner's text; the banner shows when it is non-empty. */
    var error: string
    /** The value of `localStorage` key 'token'. */
    var storedToken: Option<string>
    /** The routes passed to `navigate`, in order. */
    var navigations: seq<string>
    /** The requests sent to the endpoint, in order. */
    ghost var requests: seq<Request>

    ghost predicate Valid()
      reads this
    {
      HasSignupFields(credential)
    }

    /** The initial state of every `useState`; `token` is whatever storage already holds. */
    constructor (token: Option<string>)
      ensures Valid()
      ensures credential == map["name" := "", "email" := "", "password" := ""]
      ensures confirmPassword == "" && !showPassword && !loading && error == ""
      ensures storedToken == token && navigations == [] && requests == []
    {
      credential := map["name" := "", "email" := "", "password" := ""];
      confirmPassword := "";
      showPassword := false;
      loading := false;
      error := "";
      storedToken := token;
      navigations := [];
      requests := [];
    }

    /** `handleChange`: `{ ...credential, [field]: value }` replaces one field and keeps every other. */
    method Change(field: string, value: string)
      requires Valid()
      modifies this`credential
      ensures Valid()
      ensures credential == old(credential)[field := value]
      ensures forall f :: f in old(credential) && f != field ==> f in credential && credential[f] == old(credential)[f]
    {
      credential := credential[field := value];
    }

    /** The confirmation field's own change handler. */
    method ChangeConfirmPassword(value: string)
      modifies this`confirmPassword
      ensures confirmPassword == value
    {
      confirmPassword := value;
    }

    /** `togglePasswordVisibility` */
    method TogglePasswordVisibility()
      modifies this`showPassword
      ensures showPassword == !old(showPassword)
    {
      showPassword := !showPassword;
    }

    /**
     * `handleSubmit`, with the awaited outcome given.  A mismatch of
     * password and confirmation refuses locally (in particular whenever the
     * mismatch hint is showing); otherwise exactly one request goes out: the
     * handler itself checks neither the name nor the email.  A success
     * stores the token and navigates to the login route; a failure shows the
     * server's message or the fallback.  A rejected request is not caught:
     * the handler stops with `loading` still true, and `rejected` says so.
     */
    method Submit(outcome: Outcome) returns (rejected: bool)
      requires Valid()
      modifies this`loading, this`error, this`storedToken, this`navigations, this`requests
      ensures Valid()
      ensures rejected <==> credential["password"] == confirmPassword && outcome.Rejected?
      // refused locally
      ensures credential["password"] != confirmPassword ==>
        error == MismatchError && !loading && requests == old(requests)
        && storedToken == old(storedToken) && navigations == old(navigations)
      ensures FormRules.MismatchHintShown(credential["password"], confirmPassword) ==>
        error == MismatchError && requests == old(requests)
      // sent
      ensures credential["password"] == confirmPassword ==>
        requests == old(requests) + [Post(Endpoint, JsonContentType, SignupBody(credential))]
      ensures credential["password"] == confirmPassword && outcome.Rejected? ==>
        loading && error == "" && storedToken == old(storedToken) && navigations == old(navigations)
      ensures credential["password"] == confirmPassword && outcome.Replied? && outcome.reply.success ==>
        !loading && error == "" && storedToken == Some(StoredText(outcome.reply.authToken))
        && navigations == old(navigations) + [LoginRoute]
      ensures credential["password"] == confirmPassword && outcome.Replied? && !outcome.reply.success ==>
        !loading && error == MessageOr(outcome.reply.message, FailureFallback)
        && storedToken == old(storedToken) && navigations == old(navigations)
    {
      loading := true;
      error := "";
      var name, email, password := credential["name"], credential["email"], credential["password"];
      if password != confirmPassword {
        error := MismatchError;
        loading := false;
        return false;
      }
      requests := requests + [Post(Endpoint, JsonContentType, map["name" := name, "email" := email, "password" := password])];
      match outcome
      case Rejected =>
        return true;
      case Replied(reply) =>
        if reply.success {
          storedToken := Some(StoredText(reply.authToken));
          navigations := navigations + [LoginRoute];
        } else {
          error := MessageOr(reply.message, FailureFallback);
        }
        loading := false;
        return false;
    }
  }

  /** A client of the contracts: a mismatch sends nothing; an invalid name does not stop a matching submit. */
  method SignupWalkthrough() {
    var form := new SignupForm(None);
    form.Change("name", "R2-D2");
    form.Change("email", "r2@rebels.org");
    form.Change("password", "Beep-boop1");
    form.ChangeConfirmPassword("beep-boop1");
    var rejected := form.Submit(Replied(Reply(true, Some("T"), None)));
    assert !rejected && form.error == MismatchError && form.requests == [] && form.storedToken == None;
    form.ChangeConfirmPassword("Beep-boop1");
    assert !FormRules.IsValidName(form.credential["name"]) by { assert !FormRules.IsNameChar("R2-D2"[1]); }
    rejected := form.Submit(Replied(Reply(true, Some("T"), None)));
    assert |form.requests| == 1 && "confirmPassword" !in form.requests[0].body;
    assert form.storedToken == Some("T") && form.navigations == [LoginRoute] && !form.loading;
  }
}

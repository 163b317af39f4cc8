/**
 * The Login form: its React state as the fields of a class, the toasts it
 * raises as a log, and its change, toggle and submit handlers as methods,
 * each one atomic step.
 */
module Login {
  import opened Wrappers
  import opened Backend
  import FormRules

  const RequiredError: string := "All fields are required!"
  const SuccessText: string := "Login successful!"
  const FailureFallback: string := "Invalid credentials! Try again."
  const ServerWarning: string := "Server error! Please try again later."
  const HomeRoute: string := "/"

  /** `toast.error`, `toast.success` and `toast.warn`. */
  datatype Level = Error | Success | Warn

  /** A toast notification: its level and its text (position, timing and theme are presentation). */
  datatype Toast = Toast(level: Level, text: string)

  /** The credential object always holds the two fields the form starts with. */
  predicate HasLoginFields(credential: map<string, string>) {
    "email" in credential && "password" in credential
  }

  /** `JSON.stringify({ email, password })`: exactly the two credential fields, with their current values. */
  function LoginBody(credential: map<string, string>): (body: map<string, string>)
    requires HasLoginFields(credential)
    ensures body.Keys == {"email", "password"}
    ensures forall f :: f in body ==> f in credential && body[f] == credential[f]
  {
    map["email" := credential["email"], "password" := credential["password"]]
  }

  /** The credential a successful login leaves: a fresh object with both fields empty. */
  const EmptyCredential: map<string, string> := map["email" := "", "password" := ""]

  class LoginForm {
    var credential: map<string, string>
    var showPassword: bool
    var loading: bool
    /** The toasts raised, in order. */
    var toasts: seq<Toast>
    /** The value of `localStorage` key 'token'. */
    var storedToken: Option<string>
    /** The routes passed to `navigate`, in order. */
    var navigations: seq<string>
    /** The requests sent to the endpoint, in order. */
    ghost var requests: seq<Request>

    ghost predicate Valid()
      reads this
    {
      HasLoginFields(credential)
    }

    /** The initial state of every `useState`; `token` is whatever storage already holds. */
    constructor (token: Option<string>)
      ensures Valid()
      ensures credential == EmptyCredential && !showPassword && !loading && toasts == []
      ensures storedToken == token && navigations == [] && requests == []
    {
      credential := EmptyCredential;
      showPassword := false;
      loading := false;
      toasts := [];
      storedToken := token;
      navigations := [];
      requests := [];
    }

    /** The hint under the email field: shown when the email is non-empty and malformed. */
    function EmailHintShown(): (shown: bool)
      requires Valid()
      reads this
      ensures shown <==> credential["email"] != "" && !FormRules.EmailShape(credential["email"])
    {
      FormRules.EmailHintShown(credential["email"])
    }

    /** The password input's `type`. */
    function PasswordInputType(): (t: string)
      reads this
      ensures t == "text" <==> showPassword
      ensures t == "password" <==> !showPassword
    {
      FormRules.PasswordInputType(showPassword)
    }

    /** `handleChange`: `{ ...credential, [field]: value }` replaces one field and keeps every other. */
    method Change(field: string, value: string)
      requires Valid()
      modifies this`credential
      ensures Valid()
      ensures credential == old(credential)[field := value]
      ensures forall f :: f in old(credential) && f != field ==> f in credential && credential[f] == old(credential)[f]
    {
      credential := credential[field := value];
    }

    /** `togglePasswordVisibility` */
    method TogglePasswordVisibility()
      modifies this`showPassword
      ensures showPassword == !old(showPassword)
      ensures PasswordInputType() != old(PasswordInputType())
    {
      showPassword := !showPassword;
    }

    /**
     * `handleSubmit`, with the awaited outcome given.  An empty email or
     * password refuses locally; otherwise exactly one request goes out,
     * whether or not the email is well formed.  A success stores the token,
     * announces it, empties the credential and navigates home; a failure
     * shows the server's message or the fallback; a rejected request shows
     * the server warning.  Every path raises exactly one toast and ends with
     * `loading` false; only a success changes the credential or the token.
     */
    method Submit(outcome: Outcome)
      requires Valid()
      modifies this`credential, this`loading, this`toasts, this`storedToken, this`navigations, this`requests
      ensures Valid() && !loading
      ensures |toasts| == |old(toasts)| + 1 && toasts[..|old(toasts)|] == old(toasts)
      // refused locally
      ensures old(credential["email"]) == "" || old(credential["password"]) == "" ==>
        toasts[|old(toasts)|] == Toast(Error, RequiredError) && requests == old(requests)
        && credential == old(credential) && storedToken == old(storedToken) && navigations == old(navigations)
      // sent
      ensures old(credential["email"]) != "" && old(credential["password"]) != "" ==>
        requests == old(requests) + [Post(Endpoint, JsonContentType, LoginBody(old(credential)))]
      ensures old(credential["email"]) != "" && old(credential["password"]) != "" && outcome.Rejected? ==>
        toasts[|old(toasts)|] == Toast(Warn, ServerWarning)
        && credential == old(credential) && storedToken == old(storedToken) && navigations == old(navigations)
      ensures old(credential["email"]) != "" && old(credential["password"]) != "" && outcome.Replied? && outcome.reply.success ==>
        toasts[|old(toasts)|] == Toast(Success, SuccessText)
        && storedToken == Some(StoredText(outcome.reply.authToken))
        && credential == EmptyCredential && navigations == old(navigations) + [HomeRoute]
      ensures old(credential["email"]) != "" && old(credential["password"]) != "" && outcome.Replied? && !outcome.reply.success ==>
        toasts[|old(toasts)|] == Toast(Error, MessageOr(outcome.reply.message, FailureFallback))
        && credential == old(credential) && storedToken == old(storedToken) && navigations == old(navigations)
    {
      loading := true;
      var email, password := credential["email"], credential["password"];
      if email == "" || password == "" {
        toasts := toasts + [Toast(Error, RequiredError)];
        loading := false;
        return;
      }
      requests := requests + [Post(Endpoint, JsonContentType, map["email" := email, "password" := password])];
      match outcome {
        case Rejected =>
          toasts := toasts + [Toast(Warn, ServerWarning)];
        case Replied(reply) =>
          if reply.success {
            storedToken := Some(StoredText(reply.authToken));
            toasts := toasts + [Toast(Success, SuccessText)];
            credential := EmptyCredential;
            navigations := navigations + [HomeRoute];
          } else {
            toasts := toasts + [Toast(Error, MessageOr(reply.message, FailureFallback))];
          }
      }
      loading := false;
    }
  }

  /** A client of the contracts: empty fields send nothing; "a@b", which the email check rejects, is still sent. */
  method LoginRefusal() {
    var form := new LoginForm(None);
    form.Submit(Replied(Reply(true, Some("T"), None)));
    assert form.toasts == [Toast(Error, RequiredError)] && form.requests == [];
    form.Change("email", "a@b");
    form.Change("password", "secret");
    form.Submit(Rejected);
    assert form.toasts[1] == Toast(Warn, ServerWarning) && |form.requests| == 1;
    assert form.credential["email"] == "a@b" && form.storedToken == None && !form.loading;
  }

  /** A client of the contracts: a message, a missing message, and a success. */
  method LoginReplies() {
    var form := new LoginForm(None);
    form.Change("email", "a@b.co");
    form.Change("password", "secret");
    form.Submit(Replied(Reply(false, None, Some("bad creds"))));
    assert |form.toasts| == 1 && form.toasts[0] == Toast(Error, "bad creds") && form.storedToken == None;
    form.Submit(Replied(Reply(false, None, None)));
    assert form.toasts[1] == Toast(Error, FailureFallback);
    form.TogglePasswordVisibility();
    assert form.PasswordInputType() == "text";
    form.TogglePasswordVisibility();
    assert !form.showPassword;
    form.Submit(Replied(Reply(true, Some("T"), None)));
    assert form.storedToken == Some("T") && form.navigations == [HomeRoute];
    assert form.credential == EmptyCredential && |form.requests| == 3 && !form.loading;
  }
}

# Login and Signup forms: a Dafny model

The repository holds two React components of a web application's
authentication flow. Each keeps its form fields in local state, runs light
client-side checks, and submits the credential to a backend.

- **Login** collects an email and a password. An empty field is refused with
  an error toast. Otherwise the handler posts `{email, password}`. A success stores the
  returned token under the `localStorage` key `token`, shows a success toast,
  clears the fields and navigates to `/`. A failure reply shows the server's
  message or a fallback. A rejected request shows a server warning.
- **Signup** collects a name, an email, a password and a confirmation. A
  mismatch of password and confirmation is refused with an inline error.
  Otherwise the handler posts `{name, email, password}`. A success stores the token and
  navigates to `/login`. A failure shows the server's message or a fallback.
  The form also shows live hints: a malformed name, a malformed email, a
  mismatched confirmation, and a three-tier password strength.

The model has two layers.

1. **Validators** (`FormRules`, over `JsText`). Every regular expression is
   written as an explicit predicate over characters:
   - JavaScript's `\s` is the full ECMAScript set: WhiteSpace plus
     LineTerminator (`JsText.IsWhitespace`);
   - `[A-Z]`, `[a-z]` and `\d` are ASCII ranges;
   - `password.length` counts UTF-16 code units (`JsText.Utf16Length`), as
     JavaScript does. A character outside the Basic Multilingual Plane counts
     twice. For other strings it equals the sequence length.
   - The email check has three definitions, proved equal: a left-to-right
     matcher (`MatchEmail`), the language of the pattern
     (`MatchesEmailPattern`), and the shape stated in words (`EmailShape`).
     `IsValidEmail` is the matcher with both equalities in its contract.
2. **Forms** (`Signup.SignupForm`, `Login.LoginForm`). Each is a class whose
   fields stand for the React state: the credential object, the confirmation,
   `showPassword`, `loading`, and the error banner or toast log. Three more
   fields stand for the effects:
   - `storedToken` is the `localStorage` value under `token`;
   - `navigations` lists the routes passed to `navigate`;
   - the ghost field `requests` lists the requests sent.

   The credential is a `map<string, string>`, because `handleChange` writes a
   computed key (`[e.target.name]`). Each handler is one atomic method.
   `Submit` takes the awaited network result as a `Backend.Outcome`: a
   `Reply(success, authToken?, message?)`, or `Rejected`.

Unlike Login, Signup does not clear its busy flag on every exit path:
its `handleSubmit` has no `catch`. A rejected request leaves `loading`
true and the error empty, and the rejection propagates.
`Signup.SignupForm.Submit` returns `rejected == true` in that case. In the source the submit button is `disabled={loading}` (Signup.jsx:175), so after a rejection the Signup form cannot be submitted again until it is mounted anew; the model does not gate `Submit` on `loading`.

Two JavaScript coercions are modelled explicitly:
- `json.message || fallback` falls back on an empty message as well as on a
  missing one (`Backend.MessageOr`).
- `localStorage.setItem('token', undefined)` stores the string `"undefined"`
  (`Backend.StoredText`).

## Model

| member | source | states |
|---|---|---|
| `JsText.IsWhitespace` | Signup.jsx:64-65 | the `\s` class; none of its characters is an ASCII letter or digit, '@' or '.', or outside the Basic Multilingual Plane |
| `JsText.Utf16Length` | Signup.jsx:68-70 | `password.length` in code units lies between the character count and twice it, and equals the character count exactly when no character is outside the Basic Multilingual Plane |
| `JsText.Utf16LengthAppend` | Signup.jsx:68-70 | the length of a concatenation is the sum of the lengths |
| `FormRules.IsValidName` | Signup.jsx:64 | `/^[a-zA-Z\s]+$/` holds iff the name is non-empty and every character is an ASCII letter or JavaScript whitespace |
| `FormRules.NameHintShown` | Signup.jsx:104 | the name hint shows iff some character of the name is neither an ASCII letter nor whitespace |
| `FormRules.IsValidEmail` | Signup.jsx:65 | `isValidEmail` (the same pattern at Login.jsx:81) holds iff the string is in the pattern's language, and iff it has the stated shape |
| `FormRules.EmailMatcherIsPattern` | Signup.jsx:65 | the matcher accepts exactly local + "@" + host + "." + tld, with three non-empty runs of characters that are neither whitespace nor '@' |
| `FormRules.EmailMatcherIsShape` | Login.jsx:81 | the same pattern holds iff there is no whitespace, exactly one '@' with a non-empty part before it, and after it a '.' with a character on each side |
| `FormRules.EmailExamples` | Signup.jsx:65 | "a@b.co" is accepted; "a@b" and "a.com" are rejected |
| `FormRules.EmailHintShown` | Signup.jsx:123 | Signup's email hint shows iff the email is non-empty and lacks that shape |
| `Login.LoginForm.EmailHintShown` | Login.jsx:118 | Login's email hint shows iff the current email is non-empty and fails the same shape as Signup's |
| `FormRules.MismatchHintShown` | Signup.jsx:167 | the mismatch hint shows only when password and confirmation differ, stays hidden while the confirmation is empty, and otherwise shows for every difference |
| `FormRules.Contains` | Signup.jsx:68 | `/[A-Z]/.test`, `/\d/.test` and `/[^a-zA-Z\d]/.test` succeed iff some character is in the class |
| `FormRules.PasswordStrength` | Signup.jsx:67-74 | Strong iff longer than 8 with an uppercase letter, a digit and a non-alphanumeric character; Medium iff not Strong and longer than 6; Weak iff at most 6 long |
| `FormRules.Strength.Label` | Signup.jsx:69-73 | each tier returns its own string: "Strong", "Medium" or "Weak" |
| `FormRules.StrengthText` | Signup.jsx:149-150 | the text under the password field is "Strong password" iff the password is Strong, "Medium password" iff it is Medium, and "Weak password" iff it is at most 6 code units long |
| `FormRules.StrongIsLong` | Signup.jsx:68-73 | every Strong password is at least 9 code units (and 5 characters) long |
| `FormRules.StrengthExamples` | Signup.jsx:67-74 | "Abcdefg1!" is Strong, "abcdefg" Medium, "ab" Weak |
| `FormRules.StrengthGrowsWithInput` | Signup.jsx:67-76 | appending characters to a password never lowers its strength tier |
| `FormRules.PasswordInputType` | Signup.jsx:132 | the password input's type is "text" iff the password is shown, "password" otherwise |
| `Login.LoginForm.PasswordInputType` | Login.jsx:130 | Login's password input is "text" exactly while `showPassword` is true and "password" exactly while it is false |
| `Backend.MessageOr` | Login.jsx:55 | the message-or-fallback rule: a present non-empty message wins; a missing or empty one gives the fallback; a non-empty fallback never yields an empty text |
| `Backend.StoredText` | Login.jsx:46 | the text `localStorage.setItem('token', json.authToken)` stores (also Signup.jsx:48): the token when present, "undefined" when absent |
| `Signup.SignupBody` | Signup.jsx:41 | the request body has exactly the keys name, email and password, with the credential's values, and never confirmPassword |
| `Signup.SignupForm.constructor` | Signup.jsx:7-15 | initial state: empty name, email, password and confirmation; password hidden; not loading; no error; nothing navigated or sent |
| `Signup.SignupForm.Change` | Signup.jsx:56-58 | the named credential field takes the new value; every other field is unchanged |
| `Signup.SignupForm.ChangeConfirmPassword` | Signup.jsx:161 | the confirmation takes the new value and nothing else changes |
| `Signup.SignupForm.TogglePasswordVisibility` | Signup.jsx:60-62 | `showPassword` flips, so two toggles restore it |
| `Signup.SignupForm.Submit` | Signup.jsx:23-54 | mismatch, in particular whenever the mismatch hint shows: error "Passwords do not match!", not loading, nothing sent. Match: exactly one POST of `SignupBody`, with no check of name or email. Success: token stored, one navigation to /login. Failure: error is the message or "Invalid credentials", token and route kept. Rejection: propagates with loading still true. Credential and confirmation never change |
| `Login.LoginBody` | Login.jsx:40 | the request body has exactly the keys email and password, with the credential's values |
| `Login.LoginForm.constructor` | Login.jsx:9-14 | initial state: empty email and password, password hidden, not loading, no toasts, nothing navigated or sent |
| `Login.LoginForm.Change` | Login.jsx:72-74 | the named credential field takes the new value; every other field is unchanged |
| `Login.LoginForm.TogglePasswordVisibility` | Login.jsx:77-79 | `showPassword` flips, and so does the password input's type |
| `Login.LoginForm.Submit` | Login.jsx:19-69 | every path raises exactly one toast and ends with loading false. Empty email or password: "All fields are required!", nothing sent. Otherwise exactly one POST of `LoginBody`, with no email-format check. Success: token stored, "Login successful!", credential replaced by empty email and password, one navigation to /. Failure: error toast with the message or "Invalid credentials! Try again.". Rejection: warning "Server error! Please try again later.". On failure and rejection the credential, token and route are kept |

## Left out

- Rendering is left out: the JSX, CSS classes, the image, the `Link` elements, the `ToastContainer` configuration and the toast options. The colour matching the strength tier (Signup.jsx:149) is left out too. A toast is modelled by its level and text only.
- `fetch`, `response.json()`, `console.log` and the empty URL are I/O. The awaited result is a parameter of `Submit`. The request appears only as a ghost log entry holding the URL, content type and body.
- `localStorage` and `navigate` belong to other libraries. They are modelled only as the `storedToken` and `navigations` fields. A storage write that throws is not modelled.
- The button gate `disabled={loading}` (Signup.jsx:175, Login.jsx:153) is not modelled: `Submit` may be called while `loading` is true. In the source a rejected Signup request leaves the form stuck with its button disabled.
- Asynchrony is left out. Each handler is one atomic step, so the time while `loading` is true during a request cannot be observed. React's batched state updates and a double submit before `disabled={loading}` takes effect are not modelled either.
- The `useEffect` that focuses the name input (Signup.jsx:19-21) manipulates the DOM.
- The browser's own checks are not modelled: the `required` and `type="email"` attributes on Login's inputs (Login.jsx:107, 115, 137) and the `type="email"` attribute on Signup's email input (Signup.jsx:114). In a browser they can stop a submit before `handleSubmit` runs, for example for a malformed non-empty email. So "no check of name or email" and "no email-format check" describe the handlers only.
- A JavaScript string can hold a lone UTF-16 surrogate; a Dafny `string` cannot, since its characters are Unicode scalar values. Such strings are not modelled.
- Reply fields of other JSON types are not modelled: a non-string message or token, or `null`. `success` is modelled by its truthiness.
- JavaScript's regex engine works on UTF-16 code units. Only the length count depends on that: a surrogate half is never in `[A-Z]`, `\d`, `[a-zA-Z]` or `\s`, and it is always in `[^\s@]` and `[^a-zA-Z\d]`, just like the whole character. So every other check is stated per character.

/**
 * The live checks both forms evaluate on every render: the name, email and
 * password-strength validators, the inline hints they drive, and the
 * password field's input type.  Each regular expression of the forms is
 * written out as an explicit predicate over characters.
 */
module FormRules {
  import opened JsText

  // ---------------------------------------------------------------------
  // Name: /^[a-zA-Z\s]+$/
  // ---------------------------------------------------------------------

  /** `[a-zA-Z\s]` */
  predicate IsNameChar(c: char) { IsLetter(c) || IsWhitespace(c) }

  /**
   * The name pattern, read as its `+` loop: one class character, then
   * either the end of the string or another match.  It accepts exactly the
   * non-empty strings of ASCII letters and whitespace.
   */
  function IsValidName(name: string): (ok: bool)
    ensures ok <==> |name| > 0 && forall k :: 0 <= k < |name| ==> IsNameChar(name[k])
  {
    if name == [] then false
    else
      assert forall k :: 1 <= k < |name| ==> name[1..][k - 1] == name[k];
      IsNameChar(name[0]) && (|name| == 1 || IsValidName(name[1..]))
  }

  /**
   * The hint under the name field shows when the name is non-empty and
   * invalid, that is exactly when some character is neither an ASCII letter
   * nor whitespace.
   */
  function NameHintShown(name: string): (shown: bool)
    ensures shown <==> exists k :: 0 <= k < |name| && !IsNameChar(name[k])
  {
    !IsValidName(name) && name != ""
  }

  // ---------------------------------------------------------------------
  // Email: /^[^\s@]+@[^\s@]+\.[^\s@]+$/  (the same pattern in both forms)
  // ---------------------------------------------------------------------

  /** `[^\s@]` */
  predicate IsEmailChar(c: char) { !IsWhitespace(c) && c != '@' }

  predicate AllEmailChars(s: string) { forall k :: 0 <= k < |s| ==> IsEmailChar(s[k]) }

  /** How far a `[^\s@]+` run starting at the front of `s` can reach. */
  function EmailRun(s: string): (n: nat)
    ensures n <= |s|
    ensures forall k :: 0 <= k < n ==> IsEmailChar(s[k])
    ensures n < |s| ==> !IsEmailChar(s[n])
  {
    if s == [] || !IsEmailChar(s[0]) then 0
    else
      assert forall k :: 1 <= k < |s| ==> s[1..][k - 1] == s[k];
      1 + EmailRun(s[1..])
  }

  /** `[^\s@]+\.[^\s@]+$`: all class characters, with a '.' neither first nor last. */
  function IsEmailDomain(d: string): bool {
    EmailRun(d) == |d| && exists j | 0 < j < |d| - 1 :: d[j] == '.'
  }

  /**
   * The email pattern, matched left to right: the local part is the run of
   * class characters at the front, which must be non-empty and stop at an
   * '@'; everything after that '@' must be a domain.
   */
  function MatchEmail(s: string): bool {
    var n := EmailRun(s);
    0 < n < |s| && s[n] == '@' && IsEmailDomain(s[n + 1..])
  }

  /**
   * The language of the email pattern: `s` is local + "@" + host + "." +
   * tld, where local, host and tld are non-empty runs of class characters.
   */
  ghost predicate MatchesEmailPattern(s: string) {
    exists i, j :: 0 < i && i + 1 < j < |s| - 1 && s[i] == '@' && s[j] == '.' && EmailParts(s, i, j)
  }

  /**
   * The shape the pattern demands, stated directly: no whitespace, exactly
   * one '@' with something before it, and after it a '.' with at least one
   * character on each side.
   */
  ghost predicate EmailShape(s: string) {
    (forall k :: 0 <= k < |s| ==> !IsWhitespace(s[k]))
    && (exists i: nat :: 0 < i < |s| && s[i] == '@' && OnlyAt(s, i) && DotAfter(s, i))
  }

  /** Position `i` holds the only '@' of `s`. */
  ghost predicate OnlyAt(s: string, i: int) {
    forall k :: 0 <= k < |s| && s[k] == '@' ==> k == i
  }

  /** After position `i` there is a '.' with at least one character on each side. */
  ghost predicate DotAfter(s: string, i: nat) {
    exists j :: i + 1 < j < |s| - 1 && s[j] == '.'
  }

  /** The three parts around positions `i` ('@') and `j` ('.') are runs of class characters. */
  ghost predicate EmailParts(s: string, i: int, j: int)
    requires 0 <= i < j < |s|
  {
    AllEmailChars(s[..i]) && AllEmailChars(s[i + 1..j]) && AllEmailChars(s[j + 1..])
  }

  /** The three parts are runs of class characters exactly when every character but the '@' and the '.' is one. */
  lemma EmailPartsPointwise(s: string, i: int, j: int)
    requires 0 <= i < j < |s|
    ensures EmailParts(s, i, j) <==> forall k :: 0 <= k < |s| && k != i && k != j ==> IsEmailChar(s[k])
  {
    if EmailParts(s, i, j) {
      forall k | 0 <= k < |s| && k != i && k != j ensures IsEmailChar(s[k]) {
        if k < i {
          assert s[k] == s[..i][k];
        } else if k < j {
          assert s[k] == s[i + 1..j][k - i - 1];
        } else {
          assert s[k] == s[j + 1..][k - j - 1];
        }
      }
    }
  }

  /** A run of class characters of length `n` followed by a non-class character (or the end) is what `EmailRun` measures. */
  lemma {:induction false} AllEmailCharsRun(s: string, n: nat)
    requires n <= |s|
    requires forall k :: 0 <= k < n ==> IsEmailChar(s[k])
    requires n < |s| ==> !IsEmailChar(s[n])
    ensures EmailRun(s) == n
  {
    if n > 0 {
      assert forall k :: 0 <= k < n - 1 ==> s[1..][k] == s[k + 1];
      AllEmailCharsRun(s[1..], n - 1);
    }
  }

  /** What the matcher accepts is in the pattern's language. */
  lemma MatcherInPattern(s: string)
    requires MatchEmail(s)
    ensures MatchesEmailPattern(s)
  {
    var i := EmailRun(s);
    var d := s[i + 1..];
    var j' :| 0 < j' < |d| - 1 && d[j'] == '.';
    var j := i + 1 + j';
    assert s[j] == '.';
    assert forall k :: i < k < |s| ==> s[k] == d[k - i - 1];
    assert forall k :: 0 <= k < |s| && k != i && k != j ==> IsEmailChar(s[k]);
    EmailPartsPointwise(s, i, j);
  }

  /** Everything in the pattern's language is accepted by the matcher. */
  lemma PatternInMatcher(s: string, i: int, j: int)
    requires 0 < i && i + 1 < j < |s| - 1 && s[i] == '@' && s[j] == '.'
    requires EmailParts(s, i, j)
    ensures MatchEmail(s)
  {
    EmailPartsPointwise(s, i, j);
    AllEmailCharsRun(s, i);
    var d := s[i + 1..];
    assert forall k :: 0 <= k < |d| ==> d[k] == s[i + 1 + k];
    AllEmailCharsRun(d, |d|);
    assert d[j - i - 1] == '.';
  }

  /** The left-to-right matcher accepts exactly the language of the pattern. */
  lemma EmailMatcherIsPattern(s: string)
    ensures MatchEmail(s) <==> MatchesEmailPattern(s)
  {
    if MatchEmail(s) {
      MatcherInPattern(s);
    }
    if MatchesEmailPattern(s) {
      var i, j :| 0 < i && i + 1 < j < |s| - 1 && s[i] == '@' && s[j] == '.' && EmailParts(s, i, j);
      PatternInMatcher(s, i, j);
    }
  }

  /** A string in the pattern's language has the stated shape. */
  lemma PatternHasShape(s: string, i: int, j: int)
    requires 0 < i && i + 1 < j < |s| - 1 && s[i] == '@' && s[j] == '.'
    requires EmailParts(s, i, j)
    ensures EmailShape(s)
  {
    EmailPartsPointwise(s, i, j);
    assert OnlyAt(s, i);
    assert DotAfter(s, i);
  }

  /** A string of the stated shape is in the pattern's language. */
  lemma ShapeInPattern(s: string, i: int, j: int)
    requires forall k :: 0 <= k < |s| ==> !IsWhitespace(s[k])
    requires 0 < i < |s| && s[i] == '@' && OnlyAt(s, i)
    requires i + 1 < j < |s| - 1 && s[j] == '.'
    ensures MatchesEmailPattern(s)
  {
    assert forall k :: 0 <= k < |s| && k != i && k != j ==> IsEmailChar(s[k]);
    EmailPartsPointwise(s, i, j);
  }

  /** The matcher accepts exactly the strings of the stated shape. */
  lemma EmailMatcherIsShape(s: string)
    ensures MatchEmail(s) <==> EmailShape(s)
  {
    EmailMatcherIsPattern(s);
    if MatchesEmailPattern(s) {
      var i, j :| 0 < i && i + 1 < j < |s| - 1 && s[i] == '@' && s[j] == '.' && EmailParts(s, i, j);
      PatternHasShape(s, i, j);
    }
    if EmailShape(s) {
      var i: nat :| 0 < i < |s| && s[i] == '@' && OnlyAt(s, i) && DotAfter(s, i);
      var j :| i + 1 < j < |s| - 1 && s[j] == '.';
      ShapeInPattern(s, i, j);
    }
  }

  /**
   * `isValidEmail`, the test both forms apply: it holds exactly for the
   * strings in the pattern's language, which are exactly the strings of the
   * stated shape.
   */
  function IsValidEmail(s: string): (ok: bool)
    ensures ok <==> MatchesEmailPattern(s)
    ensures ok <==> EmailShape(s)
  {
    EmailMatcherIsPattern(s);
    EmailMatcherIsShape(s);
    MatchEmail(s)
  }

  /** Worked examples: "a@b.co" is accepted, "a@b" and "a.com" are not. */
  lemma EmailExamples()
    ensures IsValidEmail("a@b.co")
    ensures !IsValidEmail("a@b")
    ensures !IsValidEmail("a.com")
  {
    assert "a@b.co"[2..][1] == '.';
  }

  /**
   * The hint under an email field shows when the email is non-empty and
   * does not have the shape the pattern demands.
   */
  function EmailHintShown(email: string): (shown: bool)
    ensures shown <==> email != "" && !EmailShape(email)
  {
    !IsValidEmail(email) && email != ""
  }

  // ---------------------------------------------------------------------
  // Password confirmation hint
  // ---------------------------------------------------------------------

  /**
   * The "do not match" hint: it shows only when the passwords differ, stays
   * hidden while no confirmation has been typed, and otherwise shows for
   * every difference.
   */
  function MismatchHintShown(password: string, confirmation: string): (shown: bool)
    ensures shown ==> password != confirmation
    ensures confirmation == "" ==> !shown
    ensures password != confirmation && !shown ==> confirmation == ""
  {
    confirmation != "" && password != confirmation
  }

  // ---------------------------------------------------------------------
  // Password strength
  // ---------------------------------------------------------------------

  datatype Strength = Weak | Medium | Strong {

    /**
     * The string `getPasswordStrength` returns, which the form compares
     * against 'Strong' and 'Medium' to pick the hint's colour; each tier
     * has its own.
     */
    function Label(): (l: string)
      ensures l == "Strong" <==> this == Strong
      ensures l == "Medium" <==> this == Medium
      ensures l == "Weak" <==> this == Weak
    {
      match this
      case Weak => "Weak"
      case Medium => "Medium"
      case Strong => "Strong"
    }

    /** The order of the three tiers. */
    function Rank(): nat {
      match this
      case Weak => 0
      case Medium => 1
      case Strong => 2
    }
  }

  /** The three classes the classifier searches for: `[A-Z]`, `\d` and `[^a-zA-Z\d]`. */
  datatype CharClass = Upper | Digit | Symbol

  predicate InClass(c: char, cls: CharClass) {
    match cls
    case Upper => IsUpper(c)
    case Digit => IsDigit(c)
    case Symbol => !IsLetter(c) && !IsDigit(c)
  }

  /** Some character of `s` is in the class. */
  ghost predicate HasCharIn(s: string, cls: CharClass) {
    exists k :: 0 <= k < |s| && InClass(s[k], cls)
  }

  /** `/[...]/.test(s)` for one class: a search that succeeds iff some character is in the class. */
  function Contains(s: string, cls: CharClass): (found: bool)
    ensures found <==> HasCharIn(s, cls)
  {
    if s == [] then false
    else
      assert forall k :: 1 <= k < |s| ==> s[1..][k - 1] == s[k];
      InClass(s[0], cls) || Contains(s[1..], cls)
  }

  /**
   * `getPasswordStrength`: Strong exactly when the password is longer than
   * eight code units and has an uppercase ASCII letter, an ASCII digit and a
   * character that is neither; otherwise Medium exactly when it is longer
   * than six; Weak exactly when it is at most six long.
   */
  function PasswordStrength(password: string): (r: Strength)
    ensures r == Strong <==>
      Utf16Length(password) > 8 && HasCharIn(password, Upper) && HasCharIn(password, Digit) && HasCharIn(password, Symbol)
    ensures r == Medium <==> Utf16Length(password) > 6 && r != Strong
    ensures r == Weak <==> Utf16Length(password) <= 6
  {
    if Utf16Length(password) > 8 && Contains(password, Upper) && Contains(password, Digit) && Contains(password, Symbol) then
      Strong
    else if Utf16Length(password) > 6 then
      Medium
    else
      Weak
  }

  /** The text under the password field: the tier's name followed by " password". */
  function StrengthText(password: string): (t: string)
    ensures t == "Strong password" <==> PasswordStrength(password) == Strong
    ensures t == "Medium password" <==> PasswordStrength(password) == Medium
    ensures t == "Weak password" <==> Utf16Length(password) <= 6
  {
    var l := PasswordStrength(password).Label();
    assert (l + " password")[..|l|] == l;
    l + " password"
  }

  /** Every Strong password is at least nine code units long, and at least five characters. */
  lemma StrongIsLong(password: string)
    requires PasswordStrength(password) == Strong
    ensures Utf16Length(password) >= 9 && |password| >= 5
  {
  }

  /** Worked examples: "Abcdefg1!" is Strong, "abcdefg" Medium, "ab" Weak. */
  lemma StrengthExamples()
    ensures PasswordStrength("Abcdefg1!") == Strong
    ensures PasswordStrength("abcdefg") == Medium
    ensures PasswordStrength("ab") == Weak
  {
    assert InClass("Abcdefg1!"[0], Upper) && InClass("Abcdefg1!"[7], Digit) && InClass("Abcdefg1!"[8], Symbol);
  }

  /** Typing more characters never lowers the strength shown. */
  lemma {:induction false} StrengthGrowsWithInput(password: string, more: string)
    ensures PasswordStrength(password).Rank() <= PasswordStrength(password + more).Rank()
  {
    Utf16LengthAppend(password, more);
    var longer := password + more;
    assert forall k :: 0 <= k < |password| ==> longer[k] == password[k];
    if PasswordStrength(password) == Strong {
      var u :| 0 <= u < |password| && InClass(password[u], Upper);
      var d :| 0 <= d < |password| && InClass(password[d], Digit);
      var y :| 0 <= y < |password| && InClass(password[y], Symbol);
      assert InClass(longer[u], Upper) && InClass(longer[d], Digit) && InClass(longer[y], Symbol);
    }
  }

  // ---------------------------------------------------------------------
  // Password visibility
  // ---------------------------------------------------------------------

  /** The password input's `type`: plain text exactly while the password is shown. */
  function PasswordInputType(showPassword: bool): (t: string)
    ensures t == "text" <==> showPassword
    ensures t == "password" <==> !showPassword
  {
    if showPassword then "text" else "password"
  }
}

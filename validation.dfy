/** `ValidationUtils`: the checks on the registration and login fields, each a
    total function from the field strings to `Success` or `Error(message)`. */
module Validation {
  import opened Kotlin

  /** The sealed class `ValidationResult`. */
  datatype ValidationResult = Success | Error(message: string)

  // The messages, exactly as ValidationUtils returns them.
  const PasswordTooShort: string := "كلمة المرور يجب أن تكون 6 أحرف على الأقل"
  const PasswordTooLong: string := "كلمة المرور طويلة جداً (20 حرف كحد أقصى)"
  const UsernameRequired: string := "اسم المستخدم مطلوب"
  const UsernameTooShort: string := "اسم المستخدم يجب أن يكون 3 أحرف على الأقل"
  const UsernameTooLong: string := "اسم المستخدم طويل جداً (20 حرف كحد أقصى)"
  const UsernameBadCharacters: string := "اسم المستخدم يحتوي على أحرف غير مسموحة"
  const EmailInvalid: string := "البريد الإلكتروني غير صحيح"
  const EmailRequired: string := "البريد الإلكتروني مطلوب"
  const PasswordRequired: string := "كلمة المرور مطلوبة"

  // ---------------------------------------------------------------------
  // Character classes of the two regular expressions

  predicate IsAsciiLetterOrDigit(c: char)
  {
    'a' <= c <= 'z' || 'A' <= c <= 'Z' || '0' <= c <= '9'
  }

  /** The three classes the e-mail pattern is built from:
      `[a-zA-Z0-9._-]`, `[a-z]` and the literal `.`. */
  datatype CharClass = LocalPart | Lowercase | Dot

  predicate InClass(k: CharClass, c: char)
  {
    match k
    case LocalPart => IsAsciiLetterOrDigit(c) || c == '.' || c == '_' || c == '-'
    case Lowercase => 'a' <= c <= 'z'
    case Dot => c == '.'
  }

  /** The username class `[a-zA-Z0-9._]`. */
  predicate IsUsernameChar(c: char)
  {
    IsAsciiLetterOrDigit(c) || c == '.' || c == '_'
  }

  /** Every character of `s[lo..hi]` is in class `k`. */
  predicate AllIn(s: string, lo: nat, hi: nat, k: CharClass)
    requires lo <= hi <= |s|
  {
    forall m :: lo <= m < hi ==> InClass(k, s[m])
  }

  // ---------------------------------------------------------------------
  // The e-mail pattern

  /** The length of the longest run of class-`k` characters starting at `from`. */
  function Run(s: string, from: nat, k: CharClass): (n: nat)
    requires from <= |s|
    ensures from + n <= |s|
    ensures AllIn(s, from, from + n, k)
    ensures from + n == |s| || !InClass(k, s[from + n])
    decreases |s| - from
  {
    if from == |s| || !InClass(k, s[from]) then 0 else 1 + Run(s, from + 1, k)
  }

  /** A run of class-`k` characters that cannot be extended is the longest one. */
  lemma RunIsMaximal(s: string, from: nat, hi: nat, k: CharClass)
    requires from <= hi <= |s|
    requires AllIn(s, from, hi, k)
    requires hi == |s| || !InClass(k, s[hi])
    ensures Run(s, from, k) == hi - from
  {
  }

  /** `s.matches("[a-zA-Z0-9._-]+@[a-z]+\\.+[a-z]+")`: the whole string is
      matched. The pattern is deterministic ('@' is not a local-part
      character, '.' is not a lowercase letter), so each `+` takes the
      longest run of its class. */
  predicate MatchesEmailPattern(s: string)
  {
    var at := Run(s, 0, LocalPart);
    at > 0 && at < |s| && s[at] == '@' &&
    var domain := Run(s, at + 1, Lowercase);
    domain > 0 &&
    var dots := Run(s, at + 1 + domain, Dot);
    dots > 0 &&
    var tld := at + 1 + domain + dots;
    tld < |s| && Run(s, tld, Lowercase) == |s| - tld
  }

  /** `s` is local-part `s[..at]`, '@', domain `s[at+1..dot]`, dots
      `s[dot..tld]`, top-level domain `s[tld..]`, each part non-empty. */
  ghost predicate EmailSplit(s: string, at: nat, dot: nat, tld: nat)
  {
    && 0 < at && at + 1 < dot < tld < |s|
    && AllIn(s, 0, at, LocalPart)
    && s[at] == '@'
    && AllIn(s, at + 1, dot, Lowercase)
    && AllIn(s, dot, tld, Dot)
    && AllIn(s, tld, |s|, Lowercase)
  }

  /** The shape the e-mail regular expression describes. */
  ghost predicate EmailShape(s: string)
  {
    exists at: nat, dot: nat, tld: nat :: EmailSplit(s, at, dot, tld)
  }

  /** A successful greedy match exhibits the split. */
  lemma {:induction false} MatchGivesSplit(s: string)
    requires MatchesEmailPattern(s)
    ensures EmailShape(s)
  {
    var at := Run(s, 0, LocalPart);
    var dot := at + 1 + Run(s, at + 1, Lowercase);
    var tld := dot + Run(s, dot, Dot);
    assert EmailSplit(s, at, dot, tld);
  }

  /** Any split is the one the greedy matcher finds. */
  lemma {:induction false} SplitGivesMatch(s: string, at: nat, dot: nat, tld: nat)
    requires EmailSplit(s, at, dot, tld)
    ensures MatchesEmailPattern(s)
  {
    RunIsMaximal(s, 0, at, LocalPart);
    RunIsMaximal(s, at + 1, dot, Lowercase);
    RunIsMaximal(s, dot, tld, Dot);
    assert InClass(Lowercase, s[tld]);
    RunIsMaximal(s, tld, |s|, Lowercase);
  }

  /** The greedy matcher accepts exactly the strings of the regular shape. */
  lemma {:induction false} EmailPatternIff(s: string)
    ensures MatchesEmailPattern(s) <==> EmailShape(s)
  {
    if MatchesEmailPattern(s) {
      MatchGivesSplit(s);
    }
    if EmailShape(s) {
      var at: nat, dot: nat, tld: nat :| EmailSplit(s, at, dot, tld);
      SplitGivesMatch(s, at, dot, tld);
    }
  }

  /** No blank string has the e-mail shape: the '@' is not whitespace. */
  lemma BlankIsNotEmailShaped(s: string)
    requires IsBlank(s)
    ensures !EmailShape(s)
  {
  }

  /** `isValidEmail`: false for a blank string; otherwise whether the whole
      string matches the pattern. */
  function IsValidEmail(email: string): (r: bool)
    ensures r <==> EmailShape(email)
    ensures IsBlank(email) ==> !r
  {
    EmailPatternIff(email);
    if IsBlank(email) then
      BlankIsNotEmailShaped(email);
      false
    else
      MatchesEmailPattern(email)
  }

  // ---------------------------------------------------------------------
  // Password and username

  /** `isValidPassword`: only the length (in UTF-16 units) is looked at. */
  function IsValidPassword(password: string): (r: ValidationResult)
    ensures r == Success <==> 6 <= Utf16Length(password) <= 20
    ensures r.Error? ==> r.message == if Utf16Length(password) < 6 then PasswordTooShort else PasswordTooLong
    ensures r.Error? ==> r.message != ""
  {
    if Utf16Length(password) < 6 then Error(PasswordTooShort)
    else if Utf16Length(password) > 20 then Error(PasswordTooLong)
    else Success
  }

  /** `username.matches("^[a-zA-Z0-9._]+$")`. */
  predicate MatchesUsernamePattern(username: string)
  {
    |username| > 0 && forall i :: 0 <= i < |username| ==> IsUsernameChar(username[i])
  }

  /** A name made of username characters is never blank. */
  lemma UsernamePatternIsNotBlank(username: string)
    requires MatchesUsernamePattern(username)
    ensures !IsBlank(username)
  {
    assert IsUsernameChar(username[0]);
  }

  /** `isValidUsername`: blank, then too short, then too long, then bad
      characters. Success needs only the length and the character set, since
      a name of allowed characters is never blank. */
  function IsValidUsername(username: string): (r: ValidationResult)
    ensures r == Success <==> 3 <= Utf16Length(username) <= 20 && MatchesUsernamePattern(username)
    ensures IsBlank(username) ==> r == Error(UsernameRequired)
    ensures r.Error? ==> r.message != ""
  {
    if IsBlank(username) then Error(UsernameRequired)
    else if Utf16Length(username) < 3 then Error(UsernameTooShort)
    else if Utf16Length(username) > 20 then Error(UsernameTooLong)
    else if !MatchesUsernamePattern(username) then
      Error(UsernameBadCharacters)
    else
      UsernamePatternIsNotBlank(username);
      Success
  }

  /** The length checks come before the character check: a non-blank name of
      the wrong length is reported as such whatever characters it holds. */
  lemma UsernameLengthReportedBeforeCharacters(username: string)
    requires !IsBlank(username)
    ensures Utf16Length(username) < 3 ==> IsValidUsername(username) == Error(UsernameTooShort)
    ensures Utf16Length(username) > 20 ==> IsValidUsername(username) == Error(UsernameTooLong)
    ensures 3 <= Utf16Length(username) <= 20 && !MatchesUsernamePattern(username) ==>
              IsValidUsername(username) == Error(UsernameBadCharacters)
  {
  }

  // ---------------------------------------------------------------------
  // The combined checks

  /** `validateRegistration`: username, then e-mail, then password; the first
      failure is returned, the username and password errors unchanged. */
  function ValidateRegistration(username: string, email: string, password: string): (r: ValidationResult)
    ensures r == Success <==>
              IsValidUsername(username) == Success && IsValidEmail(email) && IsValidPassword(password) == Success
    ensures IsValidUsername(username).Error? ==> r == IsValidUsername(username)
    ensures IsValidUsername(username) == Success && !IsValidEmail(email) ==> r == Error(EmailInvalid)
    ensures IsValidUsername(username) == Success && IsValidEmail(email) ==> r == IsValidPassword(password)
    ensures r.Error? ==> r.message != ""
  {
    var usernameResult := IsValidUsername(username);
    if usernameResult.Error? then usernameResult
    else if !IsValidEmail(email) then Error(EmailInvalid)
    else
      var passwordResult := IsValidPassword(password);
      if passwordResult.Error? then passwordResult
      else Success
  }

  /** What registration accepts, in terms of the fields alone. */
  lemma {:induction false} RegistrationAcceptsExactly(username: string, email: string, password: string)
    ensures ValidateRegistration(username, email, password) == Success <==>
              && 3 <= Utf16Length(username) <= 20
              && MatchesUsernamePattern(username)
              && EmailShape(email)
              && 6 <= Utf16Length(password) <= 20
  {
  }

  /** `validateLogin`: blank e-mail, then malformed e-mail, then blank
      password. The password's length is not limited. */
  function ValidateLogin(email: string, password: string): (r: ValidationResult)
    ensures r == Success <==> EmailShape(email) && !IsBlank(password)
    ensures IsBlank(email) ==> r == Error(EmailRequired)
    ensures !IsBlank(email) && !EmailShape(email) ==> r == Error(EmailInvalid)
    ensures EmailShape(email) && IsBlank(password) ==> r == Error(PasswordRequired)
    ensures r.Error? ==> r.message != ""
  {
    if IsBlank(email) then Error(EmailRequired)
    else if !IsValidEmail(email) then Error(EmailInvalid)
    else if IsBlank(password) then Error(PasswordRequired)
    else Success
  }

  /** Login accepts a password that registration rejects as too short. */
  lemma LoginAcceptsShortPassword()
    ensures ValidateLogin("a@b.c", "x") == Success
    ensures IsValidPassword("x") == Error(PasswordTooShort)
  {
    assert EmailSplit("a@b.c", 1, 3, 4);
    assert !IsWhitespace("x"[0]);
  }

  /** The length rule alone decides the password: two passwords of equal
      length get the same verdict, blanks included. */
  lemma PasswordContentIgnored(p: string, q: string)
    requires Utf16Length(p) == Utf16Length(q)
    ensures IsValidPassword(p) == IsValidPassword(q)
  {
  }

  /** An upper-case domain is rejected. */
  lemma UppercaseDomainRejected()
    ensures !IsValidEmail("a@B.com")
  {
    var s := "a@B.com";
    RunIsMaximal(s, 0, 1, LocalPart);
    RunIsMaximal(s, 2, 2, Lowercase);
  }

  /** A second dot after the top-level domain starts is rejected. */
  lemma DottedTopLevelDomainRejected()
    ensures !IsValidEmail("a@b.c.d")
  {
    var s := "a@b.c.d";
    RunIsMaximal(s, 0, 1, LocalPart);
    RunIsMaximal(s, 2, 3, Lowercase);
    RunIsMaximal(s, 3, 4, Dot);
    RunIsMaximal(s, 4, 5, Lowercase);
  }

  /** Dots, dashes and capitals in the local part, and a run of dots before
      the top-level domain, are accepted. */
  lemma PermissiveAddressAccepted()
    ensures IsValidEmail("First.Last-1@mail..com")
  {
    assert EmailSplit("First.Last-1@mail..com", 12, 17, 19);
  }
}

/** The signup page's form logic (`src/front/pages/Signup.jsx`): the change
    handler, the validator that builds a field-to-message map, and the data
    the submit handler sends once validation passes. */
module Signup {
  import opened Js

  /** The form's inputs, by their `name` attribute. */
  datatype Field = Email | Password | ConfirmPassword | FirstName | LastName | PhoneNumber | Address

  /** `formData`: the current text of every input. */
  datatype Form = Form(
    email: string,
    password: string,
    confirmPassword: string,
    firstName: string,
    lastName: string,
    phoneNumber: string,
    address: string)

  /** The form as the page first renders it. */
  const EmptyForm: Form := Form("", "", "", "", "", "", "")

  lemma AllFields(f: Field)
    ensures f in {Email, Password, ConfirmPassword, FirstName, LastName, PhoneNumber, Address}
  {
  }

  function FieldValue(form: Form, f: Field): string {
    match f
    case Email => form.email
    case Password => form.password
    case ConfirmPassword => form.confirmPassword
    case FirstName => form.firstName
    case LastName => form.lastName
    case PhoneNumber => form.phoneNumber
    case Address => form.address
  }

  /** `{ ...formData, [name]: value }` */
  function WithField(form: Form, f: Field, v: string): (r: Form)
    ensures FieldValue(r, f) == v
    ensures forall g :: g != f ==> FieldValue(r, g) == FieldValue(form, g)
  {
    match f
    case Email => form.(email := v)
    case Password => form.(password := v)
    case ConfirmPassword => form.(confirmPassword := v)
    case FirstName => form.(firstName := v)
    case LastName => form.(lastName := v)
    case PhoneNumber => form.(phoneNumber := v)
    case Address => form.(address := v)
  }

  // ---- the messages ----

  const EmailRequired := "Email is required"
  const EmailInvalid := "Email is invalid"
  const PasswordRequired := "Password is required"
  const PasswordTooShort := "Password must be at least 6 characters"
  const PasswordsDiffer := "Passwords do not match"
  const FirstNameRequired := "First name is required"
  const LastNameRequired := "Last name is required"
  const PhoneInvalid := "Phone number is invalid"

  const MinPasswordLength := 6

  // ---- characters ----

  /** JavaScript's `\s`, the set `trim()` also strips: the WhiteSpace and
      LineTerminator code points of ECMAScript (tab, vertical tab, form
      feed, space, no-break space, byte order mark, the Unicode space
      separators, line feed, carriage return, line and paragraph separator). */
  predicate IsWhitespace(c: char) {
    || c == '\t' || c == '\U{000B}' || c == '\U{000C}' || c == ' ' || c == '\U{00A0}' || c == '\U{FEFF}'
    || c == '\U{1680}' || ('\U{2000}' <= c <= '\U{200A}') || c == '\U{202F}' || c == '\U{205F}' || c == '\U{3000}'
    || c == '\n' || c == '\r' || c == '\U{2028}' || c == '\U{2029}'
  }

  predicate AllWhitespace(s: string) {
    forall i :: 0 <= i < |s| ==> IsWhitespace(s[i])
  }

  predicate NoWhitespace(s: string) {
    forall i :: 0 <= i < |s| ==> !IsWhitespace(s[i])
  }

  // ---- trim ----

  /** `s` without its leading whitespace. */
  function TrimStart(s: string): (r: string)
    ensures |r| <= |s| && r == s[|s| - |r|..]
    ensures AllWhitespace(s[..|s| - |r|])
    ensures r == [] || !IsWhitespace(r[0])
    decreases s
  {
    if s != [] && IsWhitespace(s[0]) then
      var r := TrimStart(s[1..]);
      assert s[..|s| - |r|] == [s[0]] + s[1..][..|s[1..]| - |r|];
      r
    else s
  }

  /** `s` without its trailing whitespace. */
  function TrimEnd(s: string): (r: string)
    ensures |r| <= |s| && r == s[..|r|]
    ensures AllWhitespace(s[|r|..])
    ensures r == [] || !IsWhitespace(r[|r| - 1])
    decreases s
  {
    if s != [] && IsWhitespace(s[|s| - 1]) then
      var r := TrimEnd(s[..|s| - 1]);
      assert s[|r|..] == s[..|s| - 1][|r|..] + [s[|s| - 1]];
      r
    else s
  }

  /** `s.trim()` */
  function Trim(s: string): string {
    TrimEnd(TrimStart(s))
  }

  /** The trimmed string is empty exactly when every character is whitespace. */
  lemma TrimEmptyIffBlank(s: string)
    ensures Trim(s) == [] <==> AllWhitespace(s)
  {
    var t := TrimStart(s);
    if t == [] {
      assert s[..|s|] == s;
    } else {
      assert t[0..] == t;
      assert s[|s| - |t|] == t[0];
    }
  }

  // ---- the email pattern /\S+@\S+\.\S+/ ----

  /** `s[a..e]` is an occurrence of `\S+@\S+\.\S+` with its `@` at `p` and
      its `.` at `d`. */
  ghost predicate EmailMatchAt(s: string, a: int, p: int, d: int, e: int) {
    && 0 <= a < p && p + 1 < d && d + 1 < e <= |s|
    && NoWhitespace(s[a..p]) && s[p] == '@' && NoWhitespace(s[p + 1..d])
    && s[d] == '.' && NoWhitespace(s[d + 1..e])
  }

  /** What `regex.test(s)` answers for the unanchored pattern: an occurrence
      anywhere in the string. */
  ghost predicate MatchesEmailPattern(s: string) {
    exists a, p, d, e :: EmailMatchAt(s, a, p, d, e)
  }

  /** The test the validator runs: the shortest occurrences suffice, with a
      single non-whitespace character before the `@` and after the `.`. */
  predicate EmailPatternTest(s: string) {
    exists p, d | 1 <= p < |s| && p + 1 < d < |s| - 1 :: ShortestMatchAt(s, p, d)
  }

  /** `s[p - 1..d + 2]` is a shortest occurrence of the email pattern. */
  predicate ShortestMatchAt(s: string, p: int, d: int)
    requires 1 <= p < |s| && p + 1 < d < |s| - 1
  {
    !IsWhitespace(s[p - 1]) && s[p] == '@' && NoWhitespace(s[p + 1..d]) &&
    s[d] == '.' && !IsWhitespace(s[d + 1])
  }

  lemma ShortestMatchIsMatch(s: string, p: int, d: int)
    requires 1 <= p < |s| && p + 1 < d < |s| - 1
    requires ShortestMatchAt(s, p, d)
    ensures MatchesEmailPattern(s)
  {
    assert s[p - 1..p] == [s[p - 1]];
    assert s[d + 1..d + 2] == [s[d + 1]];
    assert EmailMatchAt(s, p - 1, p, d, d + 2);
  }

  lemma MatchContainsShortestMatch(s: string, a: int, p: int, d: int, e: int)
    requires EmailMatchAt(s, a, p, d, e)
    ensures EmailPatternTest(s)
  {
    assert s[p - 1] == s[a..p][p - 1 - a];
    assert s[d + 1] == s[d + 1..e][0];
    assert ShortestMatchAt(s, p, d);
  }

  /** The validator's test answers what the regular expression answers. */
  lemma EmailPatternTestCorrect(s: string)
    ensures EmailPatternTest(s) <==> MatchesEmailPattern(s)
  {
    if EmailPatternTest(s) {
      TestFindsMatch(s);
    }
    if MatchesEmailPattern(s) {
      var a, p, d, e :| EmailMatchAt(s, a, p, d, e);
      MatchContainsShortestMatch(s, a, p, d, e);
    }
  }

  lemma TestFindsMatch(s: string)
    requires EmailPatternTest(s)
    ensures MatchesEmailPattern(s)
  {
    var p, d :| 1 <= p < |s| && p + 1 < d < |s| - 1 && ShortestMatchAt(s, p, d);
    ShortestMatchIsMatch(s, p, d);
  }

  // ---- the phone pattern /^\+?[\d\s\-()]+$/ ----

  /** `[\d\s\-()]`: an ASCII digit, whitespace, a hyphen or a parenthesis. */
  predicate IsPhoneChar(c: char) {
    ('0' <= c <= '9') || IsWhitespace(c) || c == '-' || c == '(' || c == ')'
  }

  predicate AllPhoneChars(s: string) {
    forall i :: 0 <= i < |s| ==> IsPhoneChar(s[i])
  }

  /** The whole of `s` is an optional `+` (`k == 1`) followed by one or more
      phone characters. */
  ghost predicate PhoneMatchFrom(s: string, k: int) {
    0 <= k <= 1 && k < |s| && (k == 1 ==> s[0] == '+') && AllPhoneChars(s[k..])
  }

  ghost predicate MatchesPhonePattern(s: string) {
    exists k :: PhoneMatchFrom(s, k)
  }

  /** The test the validator runs. Since `+` is not a phone character, a
      leading `+` can only be the optional prefix. */
  predicate PhonePatternTest(s: string) {
    if |s| > 0 && s[0] == '+' then |s| > 1 && AllPhoneChars(s[1..])
    else |s| > 0 && AllPhoneChars(s)
  }

  lemma PhonePatternTestCorrect(s: string)
    ensures PhonePatternTest(s) <==> MatchesPhonePattern(s)
  {
    if PhonePatternTest(s) {
      if s[0] == '+' {
        assert PhoneMatchFrom(s, 1);
      } else {
        assert s[0..] == s;
        assert PhoneMatchFrom(s, 0);
      }
    }
    if MatchesPhonePattern(s) {
      var k :| PhoneMatchFrom(s, k);
      if k == 0 {
        assert s[0..] == s;
        assert s[0] == s[0..][0];
      }
    }
  }

  // ---- the rules, field by field ----

  /** An empty email is required; a non-empty one is invalid unless the
      pattern occurs in it. */
  function EmailError(email: string): (r: Option<string>)
    ensures email == "" ==> r == Some(EmailRequired)
    ensures email != "" ==> (r.None? <==> MatchesEmailPattern(email))
    ensures email != "" && r.Some? ==> r == Some(EmailInvalid)
  {
    EmailPatternTestCorrect(email);
    if email == "" then Some(EmailRequired)
    else if !EmailPatternTest(email) then Some(EmailInvalid)
    else None
  }

  /** An empty password is required, a shorter one than six is too short,
      and six characters or more pass. */
  function PasswordError(password: string): (r: Option<string>)
    ensures r.None? <==> |password| >= MinPasswordLength
    ensures password == "" ==> r == Some(PasswordRequired)
    ensures 0 < |password| < MinPasswordLength ==> r == Some(PasswordTooShort)
  {
    if password == "" then Some(PasswordRequired)
    else if |password| < MinPasswordLength then Some(PasswordTooShort)
    else None
  }

  /** The confirmation fails exactly when it differs from the password,
      whatever the password rules say. */
  function ConfirmError(password: string, confirm: string): (r: Option<string>)
    ensures r.Some? <==> password != confirm
    ensures r.Some? ==> r.value == PasswordsDiffer
  {
    if password != confirm then Some(PasswordsDiffer) else None
  }

  /** A name fails exactly when it is all whitespace (the empty name included). */
  function NameError(name: string, message: string): (r: Option<string>)
    ensures r.Some? <==> AllWhitespace(name)
    ensures r.Some? ==> r.value == message
  {
    TrimEmptyIffBlank(name);
    if Trim(name) == "" then Some(message) else None
  }

  /** The phone is optional: empty passes, anything else must match the
      whole pattern. */
  function PhoneError(phone: string): (r: Option<string>)
    ensures r.Some? <==> phone != "" && !MatchesPhonePattern(phone)
    ensures r.Some? ==> r.value == PhoneInvalid
  {
    PhonePatternTestCorrect(phone);
    if phone != "" && !PhonePatternTest(phone) then Some(PhoneInvalid) else None
  }

  /** The message `validateForm` records for a field, if any; the address is
      never checked. */
  function FieldError(form: Form, f: Field): Option<string> {
    match f
    case Email => EmailError(form.email)
    case Password => PasswordError(form.password)
    case ConfirmPassword => ConfirmError(form.password, form.confirmPassword)
    case FirstName => NameError(form.firstName, FirstNameRequired)
    case LastName => NameError(form.lastName, LastNameRequired)
    case PhoneNumber => PhoneError(form.phoneNumber)
    case Address => None
  }

  /** `errors` with the message `e` recorded for `f`, when there is one. */
  function Noted(errors: map<Field, string>, f: Field, e: Option<string>): map<Field, string> {
    if e.Some? then errors[f := e.value] else errors
  }

  /** Six outcomes recorded one after another under the six checked fields,
      in the order `validateForm` runs its checks. */
  function NotedInOrder(email: Option<string>, password: Option<string>, confirm: Option<string>,
                        firstName: Option<string>, lastName: Option<string>, phone: Option<string>)
    : map<Field, string>
  {
    var e1 := Noted(map[], Email, email);
    var e2 := Noted(e1, Password, password);
    var e3 := Noted(e2, ConfirmPassword, confirm);
    var e4 := Noted(e3, FirstName, firstName);
    var e5 := Noted(e4, LastName, lastName);
    Noted(e5, PhoneNumber, phone)
  }

  /** Recording under distinct fields loses nothing: each field holds its
      own outcome, and the address is never written. */
  lemma NotedInOrderKeepsEach(email: Option<string>, password: Option<string>, confirm: Option<string>,
                              firstName: Option<string>, lastName: Option<string>, phone: Option<string>)
    ensures var m := NotedInOrder(email, password, confirm, firstName, lastName, phone);
      && (Email in m <==> email.Some?) && (Email in m ==> m[Email] == email.value)
      && (Password in m <==> password.Some?) && (Password in m ==> m[Password] == password.value)
      && (ConfirmPassword in m <==> confirm.Some?) && (ConfirmPassword in m ==> m[ConfirmPassword] == confirm.value)
      && (FirstName in m <==> firstName.Some?) && (FirstName in m ==> m[FirstName] == firstName.value)
      && (LastName in m <==> lastName.Some?) && (LastName in m ==> m[LastName] == lastName.value)
      && (PhoneNumber in m <==> phone.Some?) && (PhoneNumber in m ==> m[PhoneNumber] == phone.value)
      && Address !in m
  {
  }

  /** `validateForm`: runs the six checks in order, each recording its
      message in the error map, and answers whether the map stayed empty.
      No check overwrites another's entry. */
  method ValidateForm(form: Form) returns (errors: map<Field, string>, valid: bool)
    ensures forall f :: f in errors <==> FieldError(form, f).Some?
    ensures forall f :: f in errors ==> errors[f] == FieldError(form, f).value
    ensures Address !in errors
    ensures valid <==> errors == map[]
  {
    errors := map[];
    errors := Noted(errors, Email, EmailError(form.email));
    errors := Noted(errors, Password, PasswordError(form.password));
    errors := Noted(errors, ConfirmPassword, ConfirmError(form.password, form.confirmPassword));
    errors := Noted(errors, FirstName, NameError(form.firstName, FirstNameRequired));
    errors := Noted(errors, LastName, NameError(form.lastName, LastNameRequired));
    errors := Noted(errors, PhoneNumber, PhoneError(form.phoneNumber));
    assert errors == NotedInOrder(FieldError(form, Email), FieldError(form, Password), FieldError(form, ConfirmPassword),
                                  FieldError(form, FirstName), FieldError(form, LastName), FieldError(form, PhoneNumber));
    NotedInOrderKeepsEach(FieldError(form, Email), FieldError(form, Password), FieldError(form, ConfirmPassword),
                          FieldError(form, FirstName), FieldError(form, LastName), FieldError(form, PhoneNumber));
    forall f ensures (f in errors <==> FieldError(form, f).Some?) && (f in errors ==> errors[f] == FieldError(form, f).value) {
      AllFields(f);
    }
    valid := |errors| == 0;
  }

  /** `handleChange`: the named field takes the typed value; that field's
      error is blanked when it has one, and nothing else changes. */
  function HandleChange(form: Form, errors: map<Field, string>, name: Field, value: string)
    : (r: (Form, map<Field, string>))
    ensures FieldValue(r.0, name) == value
    ensures forall g :: g != name ==> FieldValue(r.0, g) == FieldValue(form, g)
    ensures r.1.Keys == errors.Keys
    ensures forall g :: g in errors && g != name ==> r.1[g] == errors[g]
    ensures name in errors ==> r.1[name] == ""
    ensures !(name in errors && errors[name] != "") ==> r.1 == errors
  {
    var newForm := WithField(form, name, value);
    if name in errors && errors[name] != "" then (newForm, errors[name := ""])
    else (newForm, errors)
  }

  /** `const { confirm_password, ...signupData } = formData` */
  function SubmittedData(form: Form): (r: map<Field, string>)
    ensures ConfirmPassword !in r
    ensures forall f :: f != ConfirmPassword ==> f in r && r[f] == FieldValue(form, f)
  {
    var data := map[Email := form.email, Password := form.password, FirstName := form.firstName,
                     LastName := form.lastName, PhoneNumber := form.phoneNumber, Address := form.address];
    assert forall f :: f != ConfirmPassword ==> f in data && data[f] == FieldValue(form, f) by {
      forall f | f != ConfirmPassword ensures f in data && data[f] == FieldValue(form, f) {
        AllFields(f);
      }
    }
    data
  }

  /** `handleSubmit` up to the request: nothing is sent unless validation
      passes, and then the form without its confirmation is. */
  method HandleSubmit(form: Form) returns (errors: map<Field, string>, sent: Option<map<Field, string>>)
    ensures forall f :: f in errors <==> FieldError(form, f).Some?
    ensures sent.Some? <==> errors == map[]
    ensures sent.Some? ==> sent.value == SubmittedData(form)
  {
    var valid;
    errors, valid := ValidateForm(form);
    if !valid {
      return errors, None;
    }
    sent := Some(SubmittedData(form));
  }

  /** A form passes validation exactly when every rule holds. */
  lemma FormValidIff(form: Form)
    ensures (forall f :: FieldError(form, f).None?) <==>
      && MatchesEmailPattern(form.email)
      && |form.password| >= MinPasswordLength
      && form.password == form.confirmPassword
      && !AllWhitespace(form.firstName)
      && !AllWhitespace(form.lastName)
      && (form.phoneNumber == "" || MatchesPhonePattern(form.phoneNumber))
  {
    if form.email == "" {
      assert !MatchesEmailPattern(form.email) by { EmailPatternTestCorrect(form.email); }
    }
    var rules := FieldError(form, Email).None? && FieldError(form, Password).None? &&
      FieldError(form, ConfirmPassword).None? && FieldError(form, FirstName).None? &&
      FieldError(form, LastName).None? && FieldError(form, PhoneNumber).None?;
    if rules {
      forall f ensures FieldError(form, f).None? {
        AllFields(f);
      }
    }
  }

  // ---- examples ----

  /** A lone `+` is not a phone number; digits, spaces, hyphens and
      parentheses after an optional `+` are. */
  lemma PhoneExamples()
    ensures PhoneError("+") == Some(PhoneInvalid)
    ensures PhoneError("") == None
    ensures PhoneError("+1 (555) 123-4567") == None
  {
    assert !PhonePatternTest("+");
    assert PhonePatternTest("+1 (555) 123-4567");
  }

  /** The email pattern is found anywhere, so surrounding text does not matter. */
  lemma UnanchoredEmailExample()
    ensures EmailError("see a@b.co") == None
  {
    var s := "see a@b.co";
    assert NoWhitespace(s[6..7]);
    assert EmailPatternTest(s) by {
      assert ShortestMatchAt(s, 5, 7);
    }
  }

  /** Without a dot after the `@` an email is invalid. */
  lemma EmailWithoutDotExample()
    ensures EmailError("a@b") == Some(EmailInvalid)
  {
    assert !EmailPatternTest("a@b");
  }

  /** Two empty passwords are no mismatch; the initial form fails on the
      required fields only. */
  lemma EmptyFormErrors()
    ensures FieldError(EmptyForm, ConfirmPassword) == None
    ensures FieldError(EmptyForm, Email) == Some(EmailRequired)
    ensures FieldError(EmptyForm, Password) == Some(PasswordRequired)
    ensures FieldError(EmptyForm, FirstName) == Some(FirstNameRequired)
    ensures FieldError(EmptyForm, LastName) == Some(LastNameRequired)
    ensures FieldError(EmptyForm, PhoneNumber) == None
  {
  }
}

/** The pure checks of the browser code (TFS/assets/js/app.js and
    TF/assets/js/app.js): the search-box gate and its debounce state, the
    password-strength score and the register button, the registration
    required-field check, the registration error text and the login empty
    check. A string is a sequence of Unicode scalar values, where JavaScript
    counts UTF-16 code units. */
module Forms {
  import opened Wrappers
  import opened Text

  // ---------------------------------------------------------------------
  // Search box
  // ---------------------------------------------------------------------

  /** Minimum trimmed query length in TFS/assets/js/app.js. */
  const TfsMinQueryLength: nat := 2
  /** Minimum trimmed query length in TF/assets/js/app.js. */
  const TfMinQueryLength: nat := 3

  /** The query an input event leaves scheduled: none when the trimmed text is
      too short, otherwise the trimmed text. */
  function ScheduledQuery(minLength: nat, value: string): (r: Option<string>)
    ensures r.None? <==> |Trim(value)| < minLength
    ensures r.Some? ==> r.value == Trim(value) && |r.value| >= minLength
  {
    var query := Trim(value);
    if |query| < minLength then None else Some(query)
  }

  /** The search box of one page: the debounce timer (`timeoutId`) is the
      query it will send, `suggestionsShown` is the suggestion panel's
      display, `sent` the search requests issued so far. */
  class SearchBox {
    const minLength: nat
    var pending: Option<string>
    var suggestionsShown: bool
    var sent: seq<string>

    constructor (minLength: nat)
      ensures this.minLength == minLength
      ensures pending == None && !suggestionsShown && sent == []
    {
      this.minLength := minLength;
      pending := None;
      suggestionsShown := false;
      sent := [];
    }

    /** An `input` event: the previous timer is always cleared; a short query
        hides the panel and schedules nothing, a long one schedules itself. */
    method HandleInput(value: string)
      modifies this
      ensures pending == ScheduledQuery(minLength, value)
      ensures sent == old(sent)
      ensures suggestionsShown == (old(suggestionsShown) && |Trim(value)| >= minLength)
    {
      pending := None;
      var query := Trim(value);
      if |query| < minLength {
        suggestionsShown := false;
        return;
      }
      pending := Some(query);
    }

    /** The debounce timer expires: the scheduled query is sent and its answer
        (`matches`: how many songs came back, None on a failed request) shows
        the panel only when there is at least one match. */
    method TimerFires(matches: Option<nat>)
      modifies this
      ensures old(pending).None? ==> pending == None && sent == old(sent) && suggestionsShown == old(suggestionsShown)
      ensures old(pending).Some? ==> sent == old(sent) + [old(pending).value] && pending == None
      ensures old(pending).Some? ==> (suggestionsShown <==> matches.Some? && matches.value > 0)
    {
      if pending.Some? {
        sent := sent + [pending.value];
        pending := None;
        suggestionsShown := matches.Some? && matches.value > 0;
      }
    }
  }

  /** Two keystrokes before the timer fires send at most one request, and it
      carries the later query. */
  method LatestQueryWins(box: SearchBox, first: string, second: string, matches: Option<nat>)
    modifies box
    ensures box.sent == old(box.sent) + (if |Trim(second)| >= box.minLength then [Trim(second)] else [])
  {
    box.HandleInput(first);
    box.HandleInput(second);
    box.TimerFires(matches);
  }

  // ---------------------------------------------------------------------
  // Password strength
  // ---------------------------------------------------------------------

  /** The five patterns tested against the password. */
  datatype Criterion = Lowercase | Uppercase | Digit | Symbol | MinLength

  const Criteria: seq<Criterion> := [Lowercase, Uppercase, Digit, Symbol, MinLength]

  predicate IsLower(c: char) { 'a' <= c <= 'z' }
  predicate IsUpper(c: char) { 'A' <= c <= 'Z' }
  predicate IsDigit(c: char) { '0' <= c <= '9' }

  /** The characters the regular-expression `.` does not match. */
  predicate IsLineTerminator(c: char) {
    c == '\n' || c == '\r' || c == '\U{2028}' || c == '\U{2029}'
  }

  /** `/.{8,}/`: eight consecutive characters none of which ends a line. */
  predicate HasRunOfEight(p: string) {
    exists i :: 0 <= i < |p| && RunOfEightAt(p, i)
  }

  /** Eight characters from position `i` on, none of which ends a line. */
  predicate RunOfEightAt(p: string, i: int) {
    0 <= i && i + 8 <= |p| && forall k :: i <= k < i + 8 ==> !IsLineTerminator(p[k])
  }

  /** `pattern.test(password)` for each of the five patterns. */
  predicate Satisfies(p: string, c: Criterion) {
    match c
    case Lowercase => exists i :: 0 <= i < |p| && IsLower(p[i])
    case Uppercase => exists i :: 0 <= i < |p| && IsUpper(p[i])
    case Digit => exists i :: 0 <= i < |p| && IsDigit(p[i])
    case Symbol => exists i :: 0 <= i < |p| && !IsLower(p[i]) && !IsUpper(p[i]) && !IsDigit(p[i])
    case MinLength => HasRunOfEight(p)
  }

  /** `strength`: how many of `cs` the password satisfies. */
  function CountSatisfied(p: string, cs: seq<Criterion>): (n: nat)
    ensures n <= |cs|
    ensures n == |cs| <==> forall i :: 0 <= i < |cs| ==> Satisfies(p, cs[i])
  {
    if cs == [] then 0
    else (if Satisfies(p, cs[0]) then 1 else 0) + CountSatisfied(p, cs[1..])
  }

  function Score(p: string): (n: nat)
    ensures n <= 5
  {
    CountSatisfied(p, Criteria)
  }

  datatype Strength = Weak | Medium | Strong

  /** The bar shown under the password field. */
  function StrengthOf(p: string): (s: Strength)
    ensures s == Weak <==> Score(p) < 3
    ensures s == Strong <==> Score(p) == 5
  {
    var n := Score(p);
    if n < 3 then Weak else if n < 5 then Medium else Strong
  }

  /** `checkPasswordStrength`: true only for a strong password. */
  function CheckPasswordStrength(p: string): (ok: bool)
    ensures ok <==> StrengthOf(p) == Strong
  {
    StrengthOf(p) == Strong
  }

  /** A password is strong exactly when it meets all five criteria. */
  lemma StrongIffAllCriteria(p: string)
    ensures CheckPasswordStrength(p) <==>
      && Satisfies(p, Lowercase) && Satisfies(p, Uppercase) && Satisfies(p, Digit)
      && Satisfies(p, Symbol) && Satisfies(p, MinLength)
  {
    assert forall i :: 0 <= i < 5 ==> Criteria[i] in {Lowercase, Uppercase, Digit, Symbol, MinLength};
    assert Criteria[0] == Lowercase && Criteria[1] == Uppercase && Criteria[2] == Digit;
    assert Criteria[3] == Symbol && Criteria[4] == MinLength;
  }

  /** Without line breaks the length pattern is just `|p| >= 8`. */
  lemma RunOfEightIsLength(p: string)
    requires forall k :: 0 <= k < |p| ==> !IsLineTerminator(p[k])
    ensures HasRunOfEight(p) <==> |p| >= 8
  {
    if |p| >= 8 {
      assert RunOfEightAt(p, 0);
    }
  }

  /** `validateForm`: the register button is enabled exactly when the
      password is strong and equals its confirmation. */
  function RegisterButtonEnabled(password: string, confirm: string): (enabled: bool)
    ensures enabled ==> password == confirm
    ensures password != confirm ==> !enabled
    ensures enabled <==> CheckPasswordStrength(password) && password == confirm
  {
    CheckPasswordStrength(password) && password == confirm
  }

  /** 1 for a criterion the password meets, 0 otherwise. */
  function Point(p: string, c: Criterion): nat {
    if Satisfies(p, c) then 1 else 0
  }

  /** The score adds one point per pattern that matches. */
  lemma ScoreIsSum(p: string)
    ensures Score(p) == Point(p, Lowercase) + Point(p, Uppercase) + Point(p, Digit) + Point(p, Symbol) + Point(p, MinLength)
  {
    var cs := Criteria;
    assert cs[4..][1..] == [];
    assert CountSatisfied(p, cs[4..]) == Point(p, MinLength);
    assert cs[3..][1..] == cs[4..];
    assert CountSatisfied(p, cs[3..]) == Point(p, Symbol) + CountSatisfied(p, cs[4..]);
    assert cs[2..][1..] == cs[3..];
    assert CountSatisfied(p, cs[2..]) == Point(p, Digit) + CountSatisfied(p, cs[3..]);
    assert cs[1..][1..] == cs[2..];
    assert CountSatisfied(p, cs[1..]) == Point(p, Uppercase) + CountSatisfied(p, cs[2..]);
  }

  /** "abc" is weak: it only has lower-case letters. */
  lemma WeakExample()
    ensures StrengthOf("abc") == Weak
  {
    var weak := "abc";
    ScoreIsSum(weak);
    assert IsLower(weak[0]) && !Satisfies(weak, MinLength);
    assert !Satisfies(weak, Uppercase) && !Satisfies(weak, Digit);
    assert !Satisfies(weak, Symbol) by {
      forall i | 0 <= i < |weak| ensures IsLower(weak[i]) { }
    }
  }

  /** "Abcdef12" is only medium: it has no symbol. */
  lemma MediumExample()
    ensures StrengthOf("Abcdef12") == Medium
  {
    var medium := "Abcdef12";
    ScoreIsSum(medium);
    assert IsUpper(medium[0]) && IsLower(medium[1]) && IsDigit(medium[6]);
    assert RunOfEightAt(medium, 0);
    assert !Satisfies(medium, Symbol) by {
      forall i | 0 <= i < |medium| ensures IsLower(medium[i]) || IsUpper(medium[i]) || IsDigit(medium[i]) { }
    }
  }

  /** "Abcdef1!" is strong. */
  lemma StrongExample()
    ensures StrengthOf("Abcdef1!") == Strong
  {
    var strong := "Abcdef1!";
    assert IsUpper(strong[0]) && IsLower(strong[1]) && IsDigit(strong[6]);
    assert !IsLower(strong[7]) && !IsUpper(strong[7]) && !IsDigit(strong[7]);
    assert RunOfEightAt(strong, 0);
    StrongIffAllCriteria(strong);
  }

  // ---------------------------------------------------------------------
  // Registration form
  // ---------------------------------------------------------------------

  datatype RegisterForm = RegisterForm(
    username: string, email: string, password: string, firstname: string,
    lastname: string, dob: string, sex: string, country: string)

  datatype Field = Username | Email | Password | FirstName | LastName

  /** The required fields, in the order both scripts check them. */
  const RequiredFields: seq<Field> := [Username, Email, Password, FirstName, LastName]

  /** Position of a field in `RequiredFields`. */
  function Rank(f: Field): (r: nat)
    ensures r < |RequiredFields| && RequiredFields[r] == f
  {
    match f
    case Username => 0
    case Email => 1
    case Password => 2
    case FirstName => 3
    case LastName => 4
  }

  /** `formData`: the name, email and the two name inputs trimmed; the
      password, the date of birth, the sex and the country as typed. */
  function ReadForm(raw: RegisterForm): (f: RegisterForm)
    ensures f.username == Trim(raw.username) && f.email == Trim(raw.email)
    ensures f.firstname == Trim(raw.firstname) && f.lastname == Trim(raw.lastname)
    ensures f.password == raw.password && f.dob == raw.dob && f.sex == raw.sex && f.country == raw.country
  {
    raw.(username := Trim(raw.username), email := Trim(raw.email),
         firstname := Trim(raw.firstname), lastname := Trim(raw.lastname))
  }

  function FieldValue(f: RegisterForm, field: Field): string {
    match field
    case Username => f.username
    case Email => f.email
    case Password => f.password
    case FirstName => f.firstname
    case LastName => f.lastname
  }

  predicate InRankOrder(fields: seq<Field>) {
    forall a, b :: 0 <= a < b < |fields| ==> Rank(fields[a]) < Rank(fields[b])
  }

  /** `required.filter(field => !formData[field])` over `fields`. */
  function MissingAmong(f: RegisterForm, fields: seq<Field>): (missing: seq<Field>)
    ensures |missing| <= |fields|
  {
    if fields == [] then []
    else (if FieldValue(f, fields[0]) == [] then [fields[0]] else []) + MissingAmong(f, fields[1..])
  }

  /** The filter keeps exactly the empty fields. */
  lemma {:induction false} MissingAmongMembers(f: RegisterForm, fields: seq<Field>)
    ensures forall x :: x in MissingAmong(f, fields) <==> x in fields && FieldValue(f, x) == []
  {
    if fields != [] {
      MissingAmongMembers(f, fields[1..]);
      assert fields == [fields[0]] + fields[1..];
    }
  }

  /** The filter keeps the order of the fields it is given. */
  lemma {:induction false} MissingAmongOrdered(f: RegisterForm, fields: seq<Field>)
    requires InRankOrder(fields)
    ensures InRankOrder(MissingAmong(f, fields))
  {
    if fields != [] {
      var rest := MissingAmong(f, fields[1..]);
      MissingAmongOrdered(f, fields[1..]);
      MissingAmongMembers(f, fields[1..]);
      forall x | x in rest ensures Rank(fields[0]) < Rank(x) {
        var j :| 0 <= j < |fields[1..]| && fields[1..][j] == x;
        assert fields[j + 1] == x;
      }
    }
  }

  /** Every field is required, and the list is in rank order. */
  lemma RequiredFieldsInOrder()
    ensures forall x: Field :: x in RequiredFields
    ensures InRankOrder(RequiredFields)
  {
    forall x: Field ensures x in RequiredFields {
      assert RequiredFields[Rank(x)] == x;
    }
  }

  /** TF's missing-field list: exactly the empty required fields, in the order
      username, email, password, firstname, lastname. */
  function MissingFields(f: RegisterForm): (missing: seq<Field>)
    ensures forall x :: x in missing <==> FieldValue(f, x) == []
    ensures InRankOrder(missing)
  {
    RequiredFieldsInOrder();
    MissingAmongMembers(f, RequiredFields);
    MissingAmongOrdered(f, RequiredFields);
    MissingAmong(f, RequiredFields)
  }

  /** TFS's check, `required.some(field => !formData[field])`. */
  predicate RegistrationBlocked(f: RegisterForm) {
    exists i :: 0 <= i < |RequiredFields| && FieldValue(f, RequiredFields[i]) == []
  }

  /** The check reads exactly the five required fields. */
  lemma BlockedReadsFiveFields(f: RegisterForm)
    ensures !RegistrationBlocked(f) <==>
      f.username != [] && f.email != [] && f.password != [] && f.firstname != [] && f.lastname != []
  {
    if RegistrationBlocked(f) {
      var i :| 0 <= i < |RequiredFields| && FieldValue(f, RequiredFields[i]) == [];
      assert i == 0 || i == 1 || i == 2 || i == 3 || i == 4;
    } else {
      assert FieldValue(f, RequiredFields[0]) != [] && FieldValue(f, RequiredFields[1]) != [];
      assert FieldValue(f, RequiredFields[2]) != [] && FieldValue(f, RequiredFields[3]) != [];
      assert FieldValue(f, RequiredFields[4]) != [];
    }
  }

  /** In terms of what was typed: registration is refused exactly when the
      username, email, first or last name is blank or the password is
      empty (a password of spaces goes through). */
  lemma ReadFormBlocked(raw: RegisterForm)
    ensures RegistrationBlocked(ReadForm(raw)) <==>
      IsBlank(raw.username) || IsBlank(raw.email) || raw.password == [] ||
      IsBlank(raw.firstname) || IsBlank(raw.lastname)
  {
    BlockedReadsFiveFields(ReadForm(raw));
    TrimEmptyIffBlank(raw.username);
    TrimEmptyIffBlank(raw.email);
    TrimEmptyIffBlank(raw.firstname);
    TrimEmptyIffBlank(raw.lastname);
  }

  /** Both scripts abort on the same forms. */
  lemma BlockedIffSomethingMissing(f: RegisterForm)
    ensures RegistrationBlocked(f) <==> MissingFields(f) != []
  {
    if MissingFields(f) != [] {
      var x := MissingFields(f)[0];
      assert RequiredFields[Rank(x)] == x;
    }
  }

  // ---------------------------------------------------------------------
  // Registration error text (TFS)
  // ---------------------------------------------------------------------

  /** The friendly text for a known error code. */
  function KnownErrorMessage(code: string): (m: Option<string>)
    ensures m.Some? <==> code in {"username_taken", "email_taken", "database_error", "unexpected_error"}
  {
    if code == "username_taken" then Some("This username is already taken")
    else if code == "email_taken" then Some("This email is already registered")
    else if code == "database_error" then Some("An error occurred. Please try again")
    else if code == "unexpected_error" then Some("An unexpected error occurred")
    else None
  }

  /** `errorMessages[data.error] || data.error || 'Registration failed'`, where
      `error` is None when `data.error` is undefined or null. */
  function RegisterFailureMessage(error: Option<string>): (m: string)
    ensures m != []
    ensures error.Some? && KnownErrorMessage(error.value).Some? ==> m == KnownErrorMessage(error.value).value
    ensures error.Some? && KnownErrorMessage(error.value).None? && error.value != [] ==> m == error.value
    ensures error.None? || error.value == [] ==> m == "Registration failed"
  {
    match error
    case None => "Registration failed"
    case Some(code) =>
      match KnownErrorMessage(code)
      case Some(text) => text
      case None => if code != [] then code else "Registration failed"
  }

  // ---------------------------------------------------------------------
  // Login form (TFS)
  // ---------------------------------------------------------------------

  /** The credentials `handleLogin` posts, or None when it stops at the empty
      check (the username is trimmed, the password is not). */
  function LoginCredentials(username: string, password: string): (r: Option<(string, string)>)
    ensures r.None? <==> Trim(username) == [] || password == []
    ensures r.Some? ==> r.value == (Trim(username), password) && r.value.0 != [] && r.value.1 != []
  {
    var name := Trim(username);
    if name == [] || password == [] then None else Some((name, password))
  }
}

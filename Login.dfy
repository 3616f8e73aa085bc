/**
 * The sign-in page of `components/pages/Login.tsx`: the seven signup field
 * validators, the signup form's error map (`validateForm`, `handleChange`,
 * the confirm-password effect and `handleSubmit`) and the page's mode and
 * loading state.
 *
 * Each regular expression is given twice: as the pattern reads, with the
 * positions it matches as witnesses (`EmailPattern`, `PhonePattern`,
 * `PasswordPattern`), and as a direct check the validator computes; a lemma
 * shows the two agree.
 */
module Login {
  import opened Types
  import opened Js

  // ---------------------------------------------------------------------------
  // Fields and their errors

  /** The keys of the signup form, in the order `Object.keys` lists them. */
  datatype Field = FullName | Email | Phone | BirthDate | City | Password | ConfirmPassword

  const AllFields: seq<Field> := [FullName, Email, Phone, BirthDate, City, Password, ConfirmPassword]

  /** The messages the validators return, one per distinct message. */
  datatype FieldError =
    | NameRequired | EmailInvalid | PhoneInvalid | BirthDateRequired | CityRequired
    | PasswordTooShort | PasswordWeak | ConfirmMismatch

  datatype FormData = FormData(
    fullName: string,
    email: string,
    phone: string,
    birthDate: string,
    city: string,
    password: string,
    confirmPassword: string)

  const EmptyForm := FormData("", "", "", "", "", "", "")

  function Get(d: FormData, f: Field): string {
    match f
    case FullName => d.fullName
    case Email => d.email
    case Phone => d.phone
    case BirthDate => d.birthDate
    case City => d.city
    case Password => d.password
    case ConfirmPassword => d.confirmPassword
  }

  /** `{ ...prev, [name]: value }`: only the named field changes. */
  function Set(d: FormData, f: Field, v: string): (r: FormData)
    ensures Get(r, f) == v
    ensures forall g :: g != f ==> Get(r, g) == Get(d, g)
  {
    match f
    case FullName => d.(fullName := v)
    case Email => d.(email := v)
    case Phone => d.(phone := v)
    case BirthDate => d.(birthDate := v)
    case City => d.(city := v)
    case Password => d.(password := v)
    case ConfirmPassword => d.(confirmPassword := v)
  }

  lemma AllFieldsListed(f: Field)
    ensures f in AllFields
  {
    match f
    case FullName => assert AllFields[0] == f;
    case Email => assert AllFields[1] == f;
    case Phone => assert AllFields[2] == f;
    case BirthDate => assert AllFields[3] == f;
    case City => assert AllFields[4] == f;
    case Password => assert AllFields[5] == f;
    case ConfirmPassword => assert AllFields[6] == f;
  }

  // ---------------------------------------------------------------------------
  // `/^[^\s@]+@[^\s@]+\.[^\s@]{2,}$/`

  /** Every character is matched by `[^\s@]`. */
  predicate NoSpaceOrAt(s: string) {
    forall k :: 0 <= k < |s| ==> !IsSpace(s[k]) && s[k] != '@'
  }

  /** The pattern with the positions of its `@` and its `.` as witnesses. */
  ghost predicate EmailPattern(e: string) {
    exists i, k :: 1 <= i && i + 2 <= k && k + 3 <= |e| && e[i] == '@' && e[k] == '.'
      && NoSpaceOrAt(e[..i]) && NoSpaceOrAt(e[i + 1..k]) && NoSpaceOrAt(e[k + 1..])
  }

  /** The check: one `@` that is not first, nothing after it but `[^\s@]`, and
      a `.` with at least one character before it and two after it. */
  predicate ValidEmail(e: string) {
    var i := LastIndexOf(e, '@');
    1 <= i && i + 4 <= |e| && NoSpaceOrAt(e[..i]) && NoSpaceOrAt(e[i + 1..])
    && '.' in e[i + 2..|e| - 2]
  }

  lemma EmailCheckMatches(e: string)
    requires ValidEmail(e)
    ensures EmailPattern(e)
  {
    var i := LastIndexOf(e, '@');
    var rest := e[i + 1..];
    var j :| 0 <= j < |e[i + 2..|e| - 2]| && e[i + 2..|e| - 2][j] == '.';
    var k := i + 2 + j;
    assert e[k] == '.';
    assert e[i + 1..k] == rest[..k - i - 1];
    assert e[k + 1..] == rest[k - i..];
    assert NoSpaceOrAt(e[i + 1..k]) && NoSpaceOrAt(e[k + 1..]);
  }

  lemma EmailMatchChecks(e: string, i: int, k: int)
    requires 1 <= i && i + 2 <= k && k + 3 <= |e| && e[i] == '@' && e[k] == '.'
    requires NoSpaceOrAt(e[..i]) && NoSpaceOrAt(e[i + 1..k]) && NoSpaceOrAt(e[k + 1..])
    ensures ValidEmail(e)
  {
    assert NoSpaceOrAt(e[i + 1..]) by {
      forall p | i + 1 <= p < |e|
        ensures !IsSpace(e[p]) && e[p] != '@'
      {
        if p < k {
          assert e[p] == e[i + 1..k][p - i - 1];
        } else if p > k {
          assert e[p] == e[k + 1..][p - k - 1];
        }
      }
    }
    var r := LastIndexOf(e, '@');
    assert r == i;
    assert e[i + 2..|e| - 2][k - i - 2] == '.';
  }

  lemma EmailPatternIff(e: string)
    ensures ValidEmail(e) <==> EmailPattern(e)
  {
    if ValidEmail(e) {
      EmailCheckMatches(e);
    }
    if EmailPattern(e) {
      var i, k :| 1 <= i && i + 2 <= k && k + 3 <= |e| && e[i] == '@' && e[k] == '.'
        && NoSpaceOrAt(e[..i]) && NoSpaceOrAt(e[i + 1..k]) && NoSpaceOrAt(e[k + 1..]);
      EmailMatchChecks(e, i, k);
    }
  }

  function EmailError(e: string): Option<FieldError> {
    if ValidEmail(e) then None else Some(EmailInvalid)
  }

  // ---------------------------------------------------------------------------
  // `/^05[0-9]{8}$/`

  ghost predicate PhonePattern(p: string) {
    exists d :: p == "05" + d && |d| == 8 && forall k :: 0 <= k < |d| ==> IsDigit(d[k])
  }

  predicate ValidPhone(p: string) {
    |p| == 10 && p[0] == '0' && p[1] == '5' && forall k :: 2 <= k < 10 ==> IsDigit(p[k])
  }

  lemma PhonePatternIff(p: string)
    ensures ValidPhone(p) <==> PhonePattern(p)
  {
    if ValidPhone(p) {
      var d := p[2..];
      assert p == "05" + d;
      assert forall k :: 0 <= k < |d| ==> d[k] == p[k + 2];
    }
    if PhonePattern(p) {
      var d :| p == "05" + d && |d| == 8 && forall k :: 0 <= k < |d| ==> IsDigit(d[k]);
      assert forall k :: 2 <= k < 10 ==> p[k] == d[k - 2];
    }
  }

  function PhoneError(p: string): Option<FieldError> {
    if ValidPhone(p) then None else Some(PhoneInvalid)
  }

  // ---------------------------------------------------------------------------
  // Password: length first, then `/^(?=.*\d)(?=.*[^\w\s])/`

  /** Matched by `[^\w\s]`. */
  predicate IsSymbol(c: char) {
    !IsWordChar(c) && !IsSpace(c)
  }

  /** `(?=.*X)` at the start: some character satisfying `x` is reached
      through a run of characters `.` matches. */
  ghost predicate LookaheadFinds(p: string, x: char -> bool) {
    exists m :: 0 <= m < |p| && x(p[m]) && forall q :: 0 <= q < m ==> !IsLineTerminator(p[q])
  }

  ghost predicate PasswordPattern(p: string) {
    LookaheadFinds(p, IsDigit) && LookaheadFinds(p, IsSymbol)
  }

  /** The check: the first line holds a digit and a symbol. */
  predicate InFirstLine(p: string, x: char -> bool) {
    var l := LineText(p);
    exists k :: 0 <= k < |l| && x(l[k])
  }

  lemma LookaheadIff(p: string, x: char -> bool)
    requires forall c :: x(c) ==> !IsLineTerminator(c)
    ensures InFirstLine(p, x) <==> LookaheadFinds(p, x)
  {
    var l := LineText(p);
    if InFirstLine(p, x) {
      var k :| 0 <= k < |l| && x(l[k]);
      assert p[k] == l[k];
      assert forall q :: 0 <= q < k ==> p[q] == l[q];
    }
    if LookaheadFinds(p, x) {
      var m :| 0 <= m < |p| && x(p[m]) && forall q :: 0 <= q < m ==> !IsLineTerminator(p[q]);
      if |l| <= m {
        assert false;
      }
      assert l[m] == p[m];
    }
  }

  function PasswordError(p: string): Option<FieldError> {
    if |p| < 8 then Some(PasswordTooShort)
    else if !(InFirstLine(p, IsDigit) && InFirstLine(p, IsSymbol)) then Some(PasswordWeak)
    else None
  }

  /** The length message wins over the strength message, and the password
      passes iff it is long enough and matches the pattern. */
  lemma PasswordRules(p: string)
    ensures PasswordError(p) == Some(PasswordTooShort) <==> |p| < 8
    ensures PasswordError(p) == Some(PasswordWeak) <==> |p| >= 8 && !PasswordPattern(p)
    ensures PasswordError(p) == None <==> |p| >= 8 && PasswordPattern(p)
  {
    LookaheadIff(p, IsDigit);
    LookaheadIff(p, IsSymbol);
  }

  // ---------------------------------------------------------------------------
  // One field, and the whole form

  /** The `switch` of `validateForm`: which validator a field runs. */
  function Validate(d: FormData, f: Field): Option<FieldError> {
    match f
    case FullName => if IsBlank(d.fullName) then Some(NameRequired) else None
    case Email => EmailError(d.email)
    case Phone => PhoneError(d.phone)
    case BirthDate => if d.birthDate == "" then Some(BirthDateRequired) else None
    case City => if IsBlank(d.city) then Some(CityRequired) else None
    case Password => PasswordError(d.password)
    case ConfirmPassword => if d.password != d.confirmPassword then Some(ConfirmMismatch) else None
  }

  /** What the page accepts of one field: the requirement its validator
      states, with each pattern as it reads. */
  ghost predicate Meets(d: FormData, f: Field) {
    match f
    case FullName => !IsBlank(d.fullName)
    case Email => EmailPattern(d.email)
    case Phone => PhonePattern(d.phone)
    case BirthDate => d.birthDate != ""
    case City => !IsBlank(d.city)
    case Password => |d.password| >= 8 && PasswordPattern(d.password)
    case ConfirmPassword => d.confirmPassword == d.password
  }

  lemma ValidateField(d: FormData, f: Field)
    ensures Validate(d, f) == None <==> Meets(d, f)
  {
    match f
    case Email => EmailPatternIff(d.email);
    case Phone => PhonePatternIff(d.phone);
    case Password => PasswordRules(d.password);
    case _ =>
  }

  /** The whole form is acceptable: every field meets its requirement. */
  ghost predicate Acceptable(d: FormData) {
    Meets(d, FullName) && Meets(d, Email) && Meets(d, Phone) && Meets(d, BirthDate)
    && Meets(d, City) && Meets(d, Password) && Meets(d, ConfirmPassword)
  }

  lemma ValidateMeaning(d: FormData)
    ensures (forall f :: Validate(d, f) == None) <==> Acceptable(d)
  {
    ValidateField(d, FullName);
    ValidateField(d, Email);
    ValidateField(d, Phone);
    ValidateField(d, BirthDate);
    ValidateField(d, City);
    ValidateField(d, Password);
    ValidateField(d, ConfirmPassword);
    if Acceptable(d) {
      forall f ensures Validate(d, f) == None {
        match f
        case FullName =>
        case Email =>
        case Phone =>
        case BirthDate =>
        case City =>
        case Password =>
        case ConfirmPassword =>
      }
    }
  }

  /** The error map: an absent key is `undefined`, `None` is `null`. */
  type Errors = map<Field, Option<FieldError>>

  /** `newErrors` after the `forEach`: a copy of `errs` in which every field
      of `fs` holds its validator's verdict on `d`. */
  function Merged(errs: Errors, d: FormData, fs: seq<Field>): (r: Errors)
    ensures r.Keys == errs.Keys + set f | f in fs
    ensures forall f :: f in fs ==> r[f] == Validate(d, f)
    ensures forall f :: f in errs && f !in fs ==> r[f] == errs[f]
  {
    if fs == [] then errs
    else Merged(errs, d, fs[..|fs| - 1])[fs[|fs| - 1] := Validate(d, fs[|fs| - 1])]
  }

  /** `Object.values(newErrors).every(err => err === null)`. */
  predicate AllNull(errs: Errors) {
    forall f :: f in errs ==> errs[f] == None
  }

  /** Validating every field passes iff the form is acceptable, whatever
      errors were recorded before. */
  lemma ValidateAllIff(errs: Errors, d: FormData)
    ensures AllNull(Merged(errs, d, AllFields)) <==> Acceptable(d)
  {
    var r := Merged(errs, d, AllFields);
    if AllNull(r) {
      forall f ensures Validate(d, f) == None {
        AllFieldsListed(f);
        assert f in r;
      }
    }
    forall f | f in r ensures r[f] == Validate(d, f) {
      AllFieldsListed(f);
    }
    ValidateMeaning(d);
  }

  /** Validating one field cannot pass while another field holds an error. */
  lemma ValidateOneKeepsOthers(errs: Errors, d: FormData, f: Field, g: Field)
    requires g != f && g in errs && errs[g].Some?
    ensures !AllNull(Merged(errs, d, [f]))
  {
    assert g !in [f];
  }

  /** The error map `handleChange` leaves for field `f` when `d` is the data
      it validates. */
  function ChangedErrors(errs: Errors, d: FormData, f: Field): Errors {
    if f in errs then Merged(errs, d, [f]) else errs
  }

  /** As written, `handleChange` validates the `formData` of the render that
      created it, i.e. the data BEFORE the change. A phone entry that has
      just become valid still shows the old error. */
  lemma StaleRevalidation()
    ensures var d := EmptyForm.(phone := "051234567");
            var errs := map[Phone := Some(PhoneInvalid)];
            ValidPhone(Get(Set(d, Phone, "0512345678"), Phone))
            && ChangedErrors(errs, d, Phone)[Phone] == Some(PhoneInvalid)
  {
    var d := EmptyForm.(phone := "051234567");
    assert !ValidPhone(d.phone);
    var p := "0512345678";
    assert ValidPhone(p) by {
      assert forall k :: 2 <= k < 10 ==> IsDigit(p[k]);
    }
  }

  /** Validating the changed data instead, the entry always shows the
      verdict on the value just typed. */
  lemma FreshRevalidation(errs: Errors, d: FormData, f: Field, v: string)
    requires f in errs
    ensures ChangedErrors(errs, Set(d, f, v), f)[f] == Validate(Set(d, f, v), f)
    ensures forall g :: g in errs && g != f ==> ChangedErrors(errs, Set(d, f, v), f)[g] == errs[g]
  {
  }

  // ---------------------------------------------------------------------------
  // The signup form's state

  class SignupForm {
    var data: FormData
    var errors: Errors

    constructor ()
      ensures data == EmptyForm && errors == map[]
    {
      data := EmptyForm;
      errors := map[];
    }

    /** `validateForm(field?)`: validates `field`, or every field. */
    method ValidateForm(field: Option<Field>) returns (ok: bool)
      modifies this
      ensures data == old(data)
      ensures errors == Merged(old(errors), data, if field.Some? then [field.value] else AllFields)
      ensures ok == AllNull(errors)
    {
      var fs := if field.Some? then [field.value] else AllFields;
      var newErrors := errors;
      for i := 0 to |fs|
        invariant newErrors == Merged(errors, data, fs[..i])
      {
        assert fs[..i + 1][..i] == fs[..i];
        newErrors := newErrors[fs[i] := Validate(data, fs[i])];
      }
      assert fs[..|fs|] == fs;
      errors := newErrors;
      ok := forall f | f in errors :: errors[f] == None;
    }

    /** `handleChange`: stores the value and, if the field already has an
        entry, re-validates it against the new data. */
    method HandleChange(f: Field, v: string)
      modifies this
      ensures data == Set(old(data), f, v)
      ensures errors == ChangedErrors(old(errors), data, f)
    {
      data := Set(data, f, v);
      if f in errors {
        var _ := ValidateForm(Some(f));
      }
    }

    /** The effect run after a render that changed either password: once a
        password is typed, the confirm entry is recomputed (and created). */
    method ConfirmEffect()
      modifies this
      ensures data == old(data)
      ensures data.password != "" ==> errors == old(errors)[ConfirmPassword := Validate(data, ConfirmPassword)]
      ensures data.password == "" ==> errors == old(errors)
    {
      if data.password != "" {
        errors := errors[ConfirmPassword := Validate(data, ConfirmPassword)];
      }
    }

    /** `handleSubmit`: the data handed to `onSubmit`, if every field passes. */
    method HandleSubmit() returns (submitted: Option<FormData>)
      modifies this
      ensures data == old(data)
      ensures errors == Merged(old(errors), data, AllFields)
      ensures submitted.Some? <==> Acceptable(data)
      ensures submitted.Some? ==> submitted.value == data
    {
      var ok := ValidateForm(None);
      ValidateAllIff(old(errors), data);
      submitted := if ok then Some(data) else None;
    }
  }

  // ---------------------------------------------------------------------------
  // The page

  datatype Mode = SignIn | SignUp

  /** The page-level messages. */
  datatype PageError = BadCredentials | SignupRejected

  /** The page's `mode`, `formError`, `isLoading` and `signupSuccess`. The
      context's `login`/`signup` results are inputs of the finishing steps;
      the delayed navigation after a signup leaves the page. */
  class LoginPage {
    var mode: Mode
    var formError: Option<PageError>
    var isLoading: bool
    var signupSuccess: bool

    constructor ()
      ensures mode == SignIn && formError == None && !isLoading && !signupSuccess
    {
      mode := SignIn;
      formError := None;
      isLoading := false;
      signupSuccess := false;
    }

    /** `handleModeChange`: ignored while loading. */
    method HandleModeChange(m: Mode)
      modifies this
      ensures old(isLoading) ==>
        (mode == old(mode) && formError == old(formError) && signupSuccess == old(signupSuccess))
      ensures !old(isLoading) ==> mode == m && formError == None && !signupSuccess
      ensures isLoading == old(isLoading)
    {
      if isLoading {
        return;
      }
      mode := m;
      formError := None;
      signupSuccess := false;
    }

    /** The synchronous start of both submit handlers. */
    method StartSubmit()
      modifies this
      ensures isLoading && formError == None
      ensures mode == old(mode) && signupSuccess == old(signupSuccess)
    {
      isLoading := true;
      formError := None;
    }

    /** The rest of `handleLoginSubmit`, once `login` answered `success`. */
    method FinishLogin(success: bool)
      modifies this
      ensures !isLoading
      ensures formError == (if success then old(formError) else Some(BadCredentials))
      ensures mode == old(mode) && signupSuccess == old(signupSuccess)
    {
      if !success {
        formError := Some(BadCredentials);
      }
      isLoading := false;
    }

    /** The rest of `handleSignupSubmit`: a rejection reports and unlocks the
        page; a success marks it and keeps it locked until navigation. */
    method FinishSignup(success: bool)
      modifies this
      ensures !success ==>
        (formError == Some(SignupRejected) && !isLoading && signupSuccess == old(signupSuccess))
      ensures success ==>
        (signupSuccess && isLoading == old(isLoading) && formError == old(formError))
      ensures mode == old(mode)
    {
      if !success {
        formError := Some(SignupRejected);
        isLoading := false;
      } else {
        signupSuccess := true;
      }
    }
  }
}

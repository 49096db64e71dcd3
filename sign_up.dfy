/** The sign-up form (SignUp.tsx): four field rules that build a fresh
    error map on submit, the submit gate, and the change handler that
    blanks the message of the field being edited. */
module SignUp {
  import opened Text

  datatype Field = Name | Email | Password | ConfirmPassword

  datatype FormData = FormData(name: string, email: string, password: string, confirmPassword: string)

  function Value(data: FormData, field: Field): string {
    match field
    case Name => data.name
    case Email => data.email
    case Password => data.password
    case ConfirmPassword => data.confirmPassword
  }

  /** `{ ...formData, [name]: value }`. */
  function WithValue(data: FormData, field: Field, value: string): (r: FormData)
    ensures Value(r, field) == value
    ensures forall g :: g != field ==> Value(r, g) == Value(data, g)
  {
    match field
    case Name => data.(name := value)
    case Email => data.(email := value)
    case Password => data.(password := value)
    case ConfirmPassword => data.(confirmPassword := value)
  }

  /** The message each rule records. */
  function Message(field: Field): string {
    match field
    case Name => "Name must be at least 2 characters"
    case Email => "Please enter a valid email"
    case Password => "Password must be at least 6 characters"
    case ConfirmPassword => "Passwords do not match"
  }

  /** The rule of each field, as `validateForm` tests it. */
  predicate Fails(data: FormData, field: Field) {
    match field
    case Name => |data.name| < 2
    case Email => !Includes(data.email, "@")
    case Password => |data.password| < 6
    case ConfirmPassword => data.password != data.confirmPassword
  }

  /** The fields whose rule fails. */
  function FailingFields(data: FormData): (r: set<Field>)
    ensures Name in r <==> |data.name| < 2
    ensures Email in r <==> '@' !in data.email
    ensures Password in r <==> |data.password| < 6
    ensures ConfirmPassword in r <==> data.password != data.confirmPassword
  {
    IncludesChar(data.email, '@');
    (if Fails(data, Name) then {Name} else {})
    + (if Fails(data, Email) then {Email} else {})
    + (if Fails(data, Password) then {Password} else {})
    + (if Fails(data, ConfirmPassword) then {ConfirmPassword} else {})
  }

  /** All four rules pass. */
  predicate FormValid(data: FormData) {
    && 2 <= |data.name|
    && '@' in data.email
    && 6 <= |data.password|
    && data.password == data.confirmPassword
  }

  /** A valid form is one with no failing field. */
  lemma ValidIffNoFailingField(data: FormData)
    ensures FormValid(data) <==> FailingFields(data) == {}
  {
    if !FormValid(data) {
      if |data.name| < 2 { assert Name in FailingFields(data); }
      else if '@' !in data.email { assert Email in FailingFields(data); }
      else if |data.password| < 6 { assert Password in FailingFields(data); }
      else { assert ConfirmPassword in FailingFields(data); }
    }
  }

  class SignUpForm {
    var formData: FormData
    /** `errors`: a field's key, once set, stays; editing blanks its message. */
    var errors: map<Field, string>
    /** The form contents each accepted submit logs as a sign-up attempt. */
    var attempts: seq<FormData>

    constructor ()
      ensures formData == FormData("", "", "", "") && errors == map[] && attempts == []
    {
      formData := FormData("", "", "", "");
      errors := map[];
      attempts := [];
    }

    /** `validateForm()`: replaces the error map with one holding exactly
        the failing fields, each with its rule's message, and reports
        whether that map is empty — that is, whether the form is valid. */
    method ValidateForm() returns (ok: bool)
      modifies this`errors
      ensures errors.Keys == FailingFields(formData)
      ensures forall f :: f in errors ==> errors[f] == Message(f)
      ensures ok <==> errors == map[]
      ensures ok <==> FormValid(formData)
    {
      var data := formData;
      var newErrors: map<Field, string> := map[];
      if |data.name| < 2 {
        newErrors := newErrors[Name := Message(Name)];
      }
      ghost var k1 := if Fails(data, Name) then {Name} else {};
      assert newErrors.Keys == k1;
      IncludesChar(data.email, '@');
      if !Includes(data.email, "@") {
        newErrors := newErrors[Email := Message(Email)];
      }
      ghost var k2 := k1 + if Fails(data, Email) then {Email} else {};
      assert newErrors.Keys == k2;
      if |data.password| < 6 {
        newErrors := newErrors[Password := Message(Password)];
      }
      ghost var k3 := k2 + if Fails(data, Password) then {Password} else {};
      assert newErrors.Keys == k3;
      if data.password != data.confirmPassword {
        newErrors := newErrors[ConfirmPassword := Message(ConfirmPassword)];
      }
      assert newErrors.Keys == FailingFields(data);
      errors := newErrors;
      // `Object.keys(newErrors).length === 0`: the map has no key
      ok := newErrors.Keys == {};
      if ok {
        assert newErrors == map[];
      }
      ValidIffNoFailingField(data);
    }

    /** `handleSubmit()`: the sign-up attempt happens only when validation
        succeeds. */
    method HandleSubmit()
      modifies this`errors, this`attempts
      ensures errors.Keys == FailingFields(formData)
      ensures forall f :: f in errors ==> errors[f] == Message(f)
      ensures attempts == old(attempts) + (if FormValid(formData) then [formData] else [])
    {
      var ok := ValidateForm();
      if ok {
        attempts := attempts + [formData];
      }
    }

    /** `handleChange()` for one input: only that field's value changes; its
        error message is blanked when it had a non-empty one, and every
        other error entry is left as it was. */
    method HandleChange(field: Field, value: string)
      modifies this`formData, this`errors
      ensures formData == WithValue(old(formData), field, value)
      ensures forall g :: g != field ==> Value(formData, g) == Value(old(formData), g)
      ensures errors.Keys == old(errors).Keys
      ensures field in errors ==> errors[field] == ""
      ensures forall g :: g in errors && g != field ==> errors[g] == old(errors)[g]
    {
      formData := WithValue(formData, field, value);
      if field in errors && errors[field] != "" {
        errors := errors[field := ""];
      }
    }
  }
}

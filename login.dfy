/** The login form (`Login`): the CRM and UF fields, `validateForm` and the
    submit handler that calls `login` only for a valid form. */
module Login {
  import opened JsValues
  import opened JsStrings

  const CrmRequired: string := "CRM \U{00E9} obrigat\U{00F3}rio"
  const UfRequired: string := "UF \U{00E9} obrigat\U{00F3}rio"
  const UfLength: string := "UF deve ter 2 caracteres"

  /** The `formErrors` state: one message per field, `""` for none. */
  datatype FormErrors = FormErrors(crm: string, uf: string)

  /** What `validateForm` computes: the messages and `isValid`. */
  datatype Validation = Validation(errors: FormErrors, valid: bool)

  /** The credentials `login` is called with. */
  datatype Credentials = Credentials(crm: string, uf: string)

  /** The CRM message: required exactly when the CRM is blank. */
  function CrmError(crm: string): (message: string)
    ensures message == CrmRequired || message == ""
    ensures message == CrmRequired <==> AllWhitespace(crm)
  {
    TrimEmptyIff(crm);
    if Trim(crm) == "" then CrmRequired else ""
  }

  /** The UF message: required when the UF is blank; otherwise a length
      message when the untrimmed value is not two characters long. */
  function UfError(uf: string): (message: string)
    ensures AllWhitespace(uf) ==> message == UfRequired
    ensures !AllWhitespace(uf) && |uf| != 2 ==> message == UfLength
    ensures !AllWhitespace(uf) && |uf| == 2 ==> message == ""
  {
    TrimEmptyIff(uf);
    if Trim(uf) == "" then UfRequired
    else if |uf| != 2 then UfLength
    else ""
  }

  /** `validateForm`, as a value: each field is checked on its own, so both
      messages can be set at once, and the form is valid exactly when
      neither is. */
  function Validate(crm: string, uf: string): (v: Validation)
    ensures v.errors == FormErrors(CrmError(crm), UfError(uf))
    ensures v.valid <==> v.errors.crm == "" && v.errors.uf == ""
    ensures v.valid <==> !AllWhitespace(crm) && !AllWhitespace(uf) && |uf| == 2
  {
    var errors := FormErrors(CrmError(crm), UfError(uf));
    Validation(errors, errors.crm == "" && errors.uf == "")
  }

  /** The length check ignores trimming: a UF of a space and one letter
      is accepted. */
  lemma PaddedUfAccepted(crm: string, letter: char)
    requires !AllWhitespace(crm) && !IsWhitespace(letter)
    ensures Validate(crm, [' ', letter]).valid
  {
    assert !IsWhitespace([' ', letter][1]);
  }

  /** The form's state cells. */
  class LoginForm {
    var crm: string
    var uf: string
    var formErrors: FormErrors

    constructor ()
      ensures crm == "" && uf == "" && formErrors == FormErrors("", "")
    {
      crm, uf, formErrors := "", "", FormErrors("", "");
    }

    /** The CRM input's `onChange`. */
    method OnCrmChange(value: string)
      modifies this`crm
      ensures crm == value
    {
      crm := value;
    }

    /** The UF input's `onChange`: the value is upper-cased, so the field
        never holds a lower-case ASCII letter, and typing it again changes
        nothing. */
    method OnUfChange(value: string)
      modifies this`uf
      ensures uf == ToUpperCase(value)
      ensures forall k :: 0 <= k < |uf| ==> !('a' <= uf[k] <= 'z')
      ensures ToUpperCase(uf) == uf
    {
      uf := ToUpperCase(value);
      ToUpperCaseIdempotent(value);
      ToUpperCaseNoLower(value);
    }

    /** `validateForm`: starts from no messages and a valid form, sets each
        message branch by branch, and stores the messages. */
    method ValidateForm() returns (isValid: bool)
      modifies this`formErrors
      ensures formErrors == Validate(crm, uf).errors
      ensures isValid == Validate(crm, uf).valid
    {
      var errors := FormErrors("", "");
      isValid := true;
      var crmText := Trim(crm);
      var ufText := Trim(uf);
      TrimEmptyIff(crm);
      TrimEmptyIff(uf);
      if crmText == "" {
        errors := errors.(crm := CrmRequired);
        isValid := false;
      }
      assert errors.crm == CrmError(crm);
      if ufText == "" {
        errors := errors.(uf := UfRequired);
        isValid := false;
      } else if |uf| != 2 {
        errors := errors.(uf := UfLength);
        isValid := false;
      }
      assert errors.uf == UfError(uf);
      var v := Validate(crm, uf);
      assert errors == v.errors;
      formErrors := errors;
    }

    /** `handleSubmit`: `login` is called, with the fields as they are,
        exactly when the form is valid. */
    method HandleSubmit() returns (login: Option<Credentials>)
      modifies this`formErrors
      ensures formErrors == Validate(crm, uf).errors
      ensures login.Some? <==> Validate(crm, uf).valid
      ensures login.Some? ==> login.value == Credentials(crm, uf)
    {
      var ok := ValidateForm();
      if !ok {
        return None;
      }
      login := Some(Credentials(crm, uf));
    }
  }
}

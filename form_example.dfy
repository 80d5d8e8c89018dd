/**
 * The demo form: its five fields, the validator with its exact messages,
 * and the component state that `handleChange` and `handleSubmit` update.
 */
module FormExample {
  import opened Wrappers
  import opened JsText
  import opened EmailPattern

  /** The `name` attributes of the form's controls. */
  datatype FieldName = Name | Email | Role | Message | CustomField

  /** `formData`: one current value per field. */
  datatype FormData = FormData(name: JsString, email: JsString, role: JsString, message: JsString, customField: JsString)

  /** The initial and reset value: every field ''. */
  const Empty: FormData := FormData([], [], [], [], [])

  /** `errors`: a message per field that has one. */
  type Errors = map<FieldName, string>

  const NameRequired: string := "Name is required"
  const NameTooShort: string := "Name must be at least 2 characters"
  const EmailRequired: string := "Email is required"
  const EmailInvalid: string := "Please enter a valid email address"
  const RoleRequired: string := "Please select a role"
  const MessageRequired: string := "Message is required"
  const MessageTooShort: string := "Message must be at least 10 characters"

  const NameMinLength: int := 2
  const MessageMinLength: int := 10

  /** The fields `validate` checks. */
  const ValidatedFields: set<FieldName> := {Name, Email, Role, Message}

  function Get(d: FormData, f: FieldName): JsString {
    match f
    case Name => d.name
    case Email => d.email
    case Role => d.role
    case Message => d.message
    case CustomField => d.customField
  }

  /** `{ ...prev, [name]: value }`: the named field takes the new value and every other field keeps its own. */
  function With(d: FormData, f: FieldName, v: JsString): (r: FormData)
    ensures forall g :: Get(r, g) == if g == f then v else Get(d, g)
  {
    match f
    case Name => d.(name := v)
    case Email => d.(email := v)
    case Role => d.(role := v)
    case Message => d.(message := v)
    case CustomField => d.(customField := v)
  }

  /** `!s.trim()` */
  predicate Blank(s: JsString) {
    Trim(s) == []
  }

  /** The message `validate` records for field `f` holding `s`, if any; `length` counts the untrimmed code units. */
  function FieldError(f: FieldName, s: JsString): Option<string> {
    match f
    case Name =>
      if Blank(s) then Some(NameRequired)
      else if |s| < NameMinLength then Some(NameTooShort)
      else None
    case Email =>
      if Blank(s) then Some(EmailRequired)
      else if !Matches(s) then Some(EmailInvalid)
      else None
    case Role =>
      if s == [] then Some(RoleRequired) else None
    case Message =>
      if Blank(s) then Some(MessageRequired)
      else if |s| < MessageMinLength then Some(MessageTooShort)
      else None
    case CustomField => None
  }

  /**
   * `validate()`: the rules for name, email, role and message, each
   * recording at most one message under its own field. Only those four
   * fields can have an error, and every message is a non-empty string.
   */
  function Validate(d: FormData): (r: Errors)
    ensures r.Keys <= ValidatedFields
    ensures forall f :: f in r ==> r[f] != ""
  {
    map f | f in ValidatedFields && FieldError(f, Get(d, f)).Some? :: FieldError(f, Get(d, f)).value
  }

  /** Each field's entry in `validate()` is its own rule applied to its own value and nothing else. */
  lemma ValidateFields(d: FormData)
    ensures forall g :: (g in Validate(d) <==> FieldError(g, Get(d, g)).Some?)
    ensures forall g :: g in Validate(d) ==> Validate(d)[g] == FieldError(g, Get(d, g)).value
  {
  }

  /**
   * Name: the required message exactly when the value is all whitespace (or
   * empty), the too-short message exactly when it is a single
   * non-whitespace code unit, and no message otherwise.
   */
  lemma NameRule(s: JsString)
    ensures FieldError(Name, s) == Some(NameRequired) <==> AllWhitespace(s)
    ensures FieldError(Name, s) == Some(NameTooShort) <==> !AllWhitespace(s) && |s| == 1
    ensures FieldError(Name, s) == None <==> !AllWhitespace(s) && |s| >= 2
  {
    TrimEmptyIff(s);
    if !AllWhitespace(s) {
      assert |s| > 0;
    }
  }

  /**
   * Email: the required message exactly when the value is all whitespace,
   * the invalid message exactly when it has a non-whitespace code unit but
   * is not email-shaped, and no message exactly when it is email-shaped.
   */
  lemma EmailRule(s: JsString)
    ensures FieldError(Email, s) == Some(EmailRequired) <==> AllWhitespace(s)
    ensures FieldError(Email, s) == Some(EmailInvalid) <==> !AllWhitespace(s) && !EmailShaped(s)
    ensures FieldError(Email, s) == None <==> EmailShaped(s)
  {
    TrimEmptyIff(s);
    MatchesIff(s);
    if EmailShaped(s) {
      var a, b :| 0 < a < b < |s| && OnlyAtAt(s, a) && DotInDomain(s, a, b);
      assert !IsWhitespace(s[a]);
    }
  }

  /** Role: the message exactly when no role is selected; the value is not trimmed. */
  lemma RoleRule(s: JsString)
    ensures FieldError(Role, s) == Some(RoleRequired) <==> s == []
    ensures FieldError(Role, s) == None <==> s != []
  {
  }

  /**
   * Message: the required message exactly when the value is all whitespace,
   * the too-short message exactly when it has a non-whitespace code unit but
   * fewer than 10 code units in all, and no message otherwise.
   */
  lemma MessageRule(s: JsString)
    ensures FieldError(Message, s) == Some(MessageRequired) <==> AllWhitespace(s)
    ensures FieldError(Message, s) == Some(MessageTooShort) <==> !AllWhitespace(s) && |s| < 10
    ensures FieldError(Message, s) == None <==> !AllWhitespace(s) && |s| >= 10
  {
    TrimEmptyIff(s);
  }

  /** A form `validate` accepts, stated without the validator. */
  predicate Acceptable(d: FormData) {
    && !AllWhitespace(d.name) && |d.name| >= 2
    && EmailShaped(d.email)
    && d.role != []
    && !AllWhitespace(d.message) && |d.message| >= 10
  }

  /** `validate()` finds no error exactly when the form is acceptable; the custom field plays no part. */
  lemma ValidateEmptyIff(d: FormData)
    ensures Validate(d) == map[] <==> Acceptable(d)
  {
    ValidateFields(d);
    NameRule(d.name);
    EmailRule(d.email);
    RoleRule(d.role);
    MessageRule(d.message);
    if Validate(d) != map[] {
      var g :| g in Validate(d);
      assert FieldError(g, Get(d, g)).Some?;
    } else {
      assert Name !in Validate(d) && Email !in Validate(d) && Role !in Validate(d) && Message !in Validate(d);
    }
  }

  /** Changing one field leaves every other field's error, or its absence, as it was. */
  lemma ValidateIndependent(d: FormData, f: FieldName, v: JsString)
    ensures forall g :: g != f ==>
      (g in Validate(With(d, f, v)) <==> g in Validate(d))
      && (g in Validate(d) ==> Validate(With(d, f, v))[g] == Validate(d)[g])
  {
    ValidateFields(d);
    ValidateFields(With(d, f, v));
  }

  /** `errors` as far as it is a part of what `validate()` gives for the current data. */
  predicate SubErrors(e: Errors, d: FormData) {
    forall g :: g in e ==> g in Validate(d) && e[g] == Validate(d)[g]
  }

  /** The component's state. */
  class FormState {
    var formData: FormData
    var errors: Errors
    var isSubmitting: bool

    /**
     * Every error shown is the one `validate()` gives for the current data,
     * and while a submission is in flight no error is shown.
     */
    ghost predicate Consistent()
      reads this
    {
      SubErrors(errors, formData) && (isSubmitting ==> errors == map[])
    }

    constructor()
      ensures formData == Empty && errors == map[] && !isSubmitting
      ensures Consistent()
    {
      formData := Empty;
      errors := map[];
      isSubmitting := false;
    }

    /**
     * `handleChange`: the named field takes the new value; that field's
     * error, if it has a non-empty one, is removed; nothing else changes.
     */
    method HandleChange(f: FieldName, value: JsString)
      requires Consistent()
      modifies this
      ensures formData == With(old(formData), f, value)
      ensures errors == if f in old(errors) && old(errors)[f] != "" then old(errors) - {f} else old(errors)
      ensures isSubmitting == old(isSubmitting)
      ensures Consistent()
    {
      ValidateIndependent(formData, f, value);
      formData := With(formData, f, value);
      if f in errors && errors[f] != "" {
        errors := errors - {f};
      }
    }

    /**
     * `handleSubmit`: with validation errors, they replace the error map and
     * nothing else changes; without, the submission starts and the (empty)
     * error map stays as it is.
     */
    method HandleSubmit()
      requires Consistent() && !isSubmitting
      modifies this
      ensures formData == old(formData)
      ensures Validate(old(formData)) != map[] ==> errors == Validate(old(formData)) && !isSubmitting
      ensures Validate(old(formData)) == map[] ==> isSubmitting && errors == old(errors) == map[]
      ensures Consistent()
    {
      var validationErrors := Validate(formData);
      if |validationErrors| > 0 {
        errors := validationErrors;
        return;
      }
      assert validationErrors == map[];
      isSubmitting := true;
    }

    /** The simulated call completes: submitting ends and every field is reset to ''. */
    method CompleteSubmit()
      requires Consistent() && isSubmitting
      modifies this
      ensures formData == Empty && !isSubmitting && errors == old(errors) == map[]
      ensures Consistent()
    {
      isSubmitting := false;
      formData := Empty;
    }
  }
}

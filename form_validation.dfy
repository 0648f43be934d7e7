/**
 * The contact form's validation (app.js `validateForm`, `validateField`) and
 * the colour band of its character counter (`updateCharCount`).
 */
module FormValidation {
  import opened Wrappers
  import opened Text
  import opened EmailPattern

  datatype Field = Name | Email | Subject | Message

  /** The `name` attribute of each form control, which is also its key in `errors`. */
  function FieldKey(f: Field): string {
    match f
    case Name => "name"
    case Email => "email"
    case Subject => "subject"
    case Message => "message"
  }

  /** The field a control's `name` attribute denotes, if any. */
  function FieldOf(key: string): (f: Option<Field>)
    ensures f.Some? ==> FieldKey(f.value) == key
    ensures forall g: Field :: FieldKey(g) == key ==> f == Some(g)
  {
    if key == "name" then Some(Name)
    else if key == "email" then Some(Email)
    else if key == "subject" then Some(Subject)
    else if key == "message" then Some(Message)
    else None
  }

  const NameMessage := "Please enter your full name (at least 2 characters)"
  const EmailMissingMessage := "Please enter your email address"
  const EmailInvalidMessage := "Please enter a valid email address"
  const SubjectMessage := "Please select a subject"
  const MessageMissingMessage := "Please enter your message"
  const MessageTooShortMessage := "Message should be at least 10 characters long"
  const MessageTooLongMessage := "Message should not exceed 500 characters"

  const MinNameLength := 2
  const MinMessageLength := 10
  const MaxMessageLength := 500

  /**
   * The submitted values: `formData.get(key)?.trim()`, which is `undefined`
   * (here `None`) when the form has no such control.
   */
  datatype FormData = FormData(name: Option<string>, email: Option<string>,
                               subject: Option<string>, message: Option<string>)
  {
    function Get(f: Field): Option<string> {
      match f
      case Name => name
      case Email => email
      case Subject => subject
      case Message => message
    }
  }

  /** Trims every present value, as `handleFormSubmit` does before validating. */
  function TrimForm(raw: FormData): FormData {
    FormData(TrimOpt(raw.name), TrimOpt(raw.email), TrimOpt(raw.subject), TrimOpt(raw.message))
  }

  function TrimOpt(v: Option<string>): Option<string> {
    match v
    case Some(s) => Some(Trim(s))
    case None => None
  }

  /** JavaScript's `!v` on a string that may be undefined. */
  predicate Missing(v: Option<string>) {
    v.None? || v.value == ""
  }

  /** The length of a value, an absent one counting as empty. */
  function Len(v: Option<string>): nat {
    |v.GetOr("")|
  }

  function NameError(v: Option<string>): Option<string> {
    if Missing(v) || |v.value| < MinNameLength then Some(NameMessage) else None
  }

  function EmailError(v: Option<string>): Option<string> {
    if Missing(v) then Some(EmailMissingMessage)
    else if !EmailTest(v.value) then Some(EmailInvalidMessage)
    else None
  }

  function SubjectError(v: Option<string>): Option<string> {
    if Missing(v) then Some(SubjectMessage) else None
  }

  function MessageError(v: Option<string>): Option<string> {
    if Missing(v) then Some(MessageMissingMessage)
    else if |v.value| < MinMessageLength then Some(MessageTooShortMessage)
    else if |v.value| > MaxMessageLength then Some(MessageTooLongMessage)
    else None
  }

  /** The error, if any, the rules give for `f` holding `v`. */
  function FieldError(f: Field, v: Option<string>): Option<string> {
    match f
    case Name => NameError(v)
    case Email => EmailError(v)
    case Subject => SubjectError(v)
    case Message => MessageError(v)
  }

  /**
   * `validateForm(data)`: checks the four fields in turn, recording an error
   * message per failing field; `isValid` is cleared exactly when some error
   * is recorded.
   */
  method ValidateForm(data: FormData) returns (isValid: bool, errors: map<Field, string>)
    ensures isValid <==> errors == map[]
    ensures forall f :: f in errors <==> FieldError(f, data.Get(f)).Some?
    ensures forall f :: f in errors ==> errors[f] == FieldError(f, data.Get(f)).value
  {
    errors := map[];
    isValid := true;

    if Missing(data.name) || |data.name.value| < MinNameLength {
      errors := errors[Name := NameMessage];
      isValid := false;
    }

    if Missing(data.email) {
      errors := errors[Email := EmailMissingMessage];
      isValid := false;
    } else if !EmailTest(data.email.value) {
      errors := errors[Email := EmailInvalidMessage];
      isValid := false;
    }

    if Missing(data.subject) {
      errors := errors[Subject := SubjectMessage];
      isValid := false;
    }

    if Missing(data.message) {
      errors := errors[Message := MessageMissingMessage];
      isValid := false;
    } else if |data.message.value| < MinMessageLength {
      errors := errors[Message := MessageTooShortMessage];
      isValid := false;
    } else if |data.message.value| > MaxMessageLength {
      errors := errors[Message := MessageTooLongMessage];
      isValid := false;
    }

    assert !isValid ==> Name in errors || Email in errors || Subject in errors || Message in errors;
  }

  /** What `validateField` shows under a control. */
  datatype Feedback = Invalid(message: string) | LooksGood

  /**
   * `validateField(field)`: trims the control's value and applies the rule
   * of the field its `name` attribute denotes; a control that is none of the
   * four is always reported as good.
   */
  function ValidateField(key: string, value: string): Feedback {
    FeedbackFor(key, Trim(value))
  }

  /**
   * The `switch (fieldName)` of `validateField`, on the already trimmed
   * value. It is written apart from `validateForm`, with its own tests and
   * message texts; `error` starts as "" and a non-empty `error` is shown.
   */
  function FeedbackFor(key: string, v: string): Feedback {
    var error :=
      if key == "name" then
        (if v == "" || |v| < 2 then "Please enter your full name (at least 2 characters)" else "")
      else if key == "email" then
        (if v == "" then "Please enter your email address"
         else if !EmailTest(v) then "Please enter a valid email address"
         else "")
      else if key == "subject" then
        (if v == "" then "Please select a subject" else "")
      else if key == "message" then
        (if v == "" then "Please enter your message"
         else if |v| < 10 then "Message should be at least 10 characters long"
         else if |v| > 500 then "Message should not exceed 500 characters"
         else "")
      else "";
    if error != "" then Invalid(error) else LooksGood
  }

  // ---------------------------------------------------------------------
  // The rules, stated field by field.
  // ---------------------------------------------------------------------

  /** An absent value is judged exactly like the empty string. */
  lemma AbsentIsEmpty(f: Field)
    ensures FieldError(f, None) == FieldError(f, Some(""))
  {
  }

  /** The name is rejected exactly when it has fewer than two characters; "Jo" passes. */
  lemma NameRule(v: Option<string>)
    ensures NameError(v).Some? <==> Len(v) < 2
    ensures NameError(v).Some? ==> NameError(v).value == NameMessage
    ensures NameError(Some("Jo")) == None
  {
  }

  /**
   * An empty email asks for one; a non-empty email is called invalid exactly
   * when it is not `L@R` with a dot strictly inside `R`, that is, when it is
   * outside the language of `^[^\s@]+@[^\s@]+\.[^\s@]+$`.
   */
  lemma EmailRule(v: Option<string>)
    ensures Missing(v) ==> EmailError(v) == Some(EmailMissingMessage)
    ensures !Missing(v) ==> (EmailError(v) == Some(EmailInvalidMessage) <==> !InPattern(v.value))
    ensures !Missing(v) ==> (EmailError(v) == Some(EmailInvalidMessage) <==> !EmailShape(v.value))
    ensures EmailError(v) == None <==> !Missing(v) && InPattern(v.value)
  {
    if !Missing(v) {
      EmailTestIffPattern(v.value);
      EmailTestIffShape(v.value);
    }
  }

  /** The subject is rejected exactly when it is empty. */
  lemma SubjectRule(v: Option<string>)
    ensures SubjectError(v).Some? <==> Len(v) == 0
  {
  }

  /**
   * The message is rejected exactly when its length is outside [10, 500];
   * which of the three messages is given depends only on the length, so they
   * never overlap.
   */
  lemma MessageRule(v: Option<string>)
    ensures MessageError(v).Some? <==> Len(v) < MinMessageLength || Len(v) > MaxMessageLength
    ensures MessageError(v) == Some(MessageMissingMessage) <==> Len(v) == 0
    ensures MessageError(v) == Some(MessageTooShortMessage) <==> 0 < Len(v) < MinMessageLength
    ensures MessageError(v) == Some(MessageTooLongMessage) <==> Len(v) > MaxMessageLength
  {
  }

  /**
   * `validateField` on a control gives the same verdict `validateForm` gives
   * for that field once `handleFormSubmit` has trimmed the same value.
   */
  lemma ValidateFieldAgreesWithForm(f: Field, value: string, raw: FormData)
    requires raw.Get(f) == Some(value)
    ensures ValidateField(FieldKey(f), value) == LooksGood <==> FieldError(f, TrimForm(raw).Get(f)).None?
    ensures forall m :: ValidateField(FieldKey(f), value) == Invalid(m) <==> FieldError(f, TrimForm(raw).Get(f)) == Some(m)
  {
    var v := Trim(value);
    assert TrimForm(raw).Get(f) == Some(v) by {
      match f
      case Name =>
      case Email =>
      case Subject =>
      case Message =>
    }
    FeedbackForField(f, v);
  }

  /** The `switch` of `validateField` applies, for each field's key, that field's rule. */
  lemma FeedbackForField(f: Field, v: string)
    ensures FeedbackFor(FieldKey(f), v) == if FieldError(f, Some(v)).Some? then Invalid(FieldError(f, Some(v)).value) else LooksGood
  {
    match f
    case Name =>
    case Email =>
    case Subject =>
    case Message =>
  }

  /** `validateField` trims, so re-trimming the value changes nothing. */
  lemma ValidateFieldTrimInsensitive(key: string, value: string)
    ensures ValidateField(key, Trim(value)) == ValidateField(key, value)
  {
    TrimIdempotent(value);
  }

  /** A control whose name is none of the four fields is always reported as good. */
  lemma ValidateFieldUnknownKey(key: string, value: string)
    requires FieldOf(key) == None
    ensures ValidateField(key, value) == LooksGood
  {
  }

  /** Two examples: every field wrong, and every field right. */
  lemma ValidationExamples()
    ensures forall f :: FieldError(f, FormData(Some(""), Some("x"), Some(""), Some("short")).Get(f)).Some?
    ensures forall f :: FieldError(f, FormData(Some("Jo"), Some("a@b.co"), Some("General"),
                                               Some("this is a long enough message")).Get(f)).None?
  {
    assert !EmailTest("x");
    assert EmailTest("a@b.co");
  }

  // ---------------------------------------------------------------------
  // Character counter.
  // ---------------------------------------------------------------------

  /** The colour of the counter under the message box. */
  datatype CounterColour = Normal | Warning | Over

  /** More than 400 characters (`maxCount * 0.8`, which is exactly 400.0) turns the counter amber. */
  const WarningThreshold := 400

  /** `updateCharCount`: the colour for a message box holding `count` characters. */
  function CounterColourFor(count: nat): CounterColour {
    if count > MaxMessageLength then Over
    else if count > WarningThreshold then Warning
    else Normal
  }

  /**
   * The three colours split the counts into consecutive bands, and the red
   * band agrees with the validator: a message box whose trimmed text is too
   * long always shows red, and one showing red holds more than 500
   * characters (which trimming may bring back under the limit).
   */
  lemma CounterColourBands(text: string)
    ensures CounterColourFor(|text|) == Over <==> |text| > MaxMessageLength
    ensures CounterColourFor(|text|) == Warning <==> WarningThreshold < |text| <= MaxMessageLength
    ensures CounterColourFor(|text|) == Normal <==> |text| <= WarningThreshold
    ensures MessageError(Some(Trim(text))) == Some(MessageTooLongMessage) ==> CounterColourFor(|text|) == Over
    ensures MessageError(Some(text)) == Some(MessageTooLongMessage) <==> CounterColourFor(|text|) == Over
  {
  }
}

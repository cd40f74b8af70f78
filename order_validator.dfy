/**
 * `OrderValidator`: the field rules an order must meet before it is stored, each broken rule
 * appended as a field error in a fixed order.
 */
module OrderValidation {
  import opened Wrappers
  import opened OrderModel

  /**
   * `Character.isWhitespace`, as `StringUtils.hasText` applies it to each UTF-16 unit. No
   * character outside the Basic Multilingual Plane is whitespace, and neither is a surrogate.
   */
  predicate JavaWhitespace(c: char)
  {
    || ('\t' <= c <= '\r')           // tab, line feed, vertical tab, form feed, carriage return
    || ('\U{001C}' <= c <= '\U{001F}') // file, group, record and unit separators
    || c == ' ' || c == '\U{1680}'
    || ('\U{2000}' <= c <= '\U{2006}') || ('\U{2008}' <= c <= '\U{200A}')
    || c == '\U{2028}' || c == '\U{2029}' || c == '\U{205F}' || c == '\U{3000}'
  }

  /** `StringUtils.hasText`: present and holding a character that is not whitespace. */
  predicate HasText(s: Option<string>)
  {
    s.Some? && exists i :: 0 <= i < |s.value| && !JavaWhitespace(s.value[i])
  }

  /** `StringUtils.isEmpty`: `null` or the empty string. */
  predicate IsEmpty(s: Option<string>)
  {
    s.None? || s.value == ""
  }

  /** `\d` without the Unicode flag: an ASCII digit. */
  predicate IsAsciiDigit(c: char)
  {
    '0' <= c <= '9'
  }

  /** A line terminator, which the regular-expression `.` does not match. */
  predicate IsLineTerminator(c: char)
  {
    c == '\n' || c == '\r' || c == '\U{0085}' || c == '\U{2028}' || c == '\U{2029}'
  }

  /** The phone pattern `\+?\d+`, read as its parts: an optional plus, then one or more digits. */
  ghost predicate PhonePattern(s: string)
  {
    exists sign: string, digits: string ::
      && s == sign + digits
      && (sign == "" || sign == "+")
      && |digits| >= 1
      && forall i :: 0 <= i < |digits| ==> IsAsciiDigit(digits[i])
  }

  /** The email pattern `.{2,}[@].{2,}`, read as its parts: two or more, `@`, two or more. */
  ghost predicate EmailPattern(s: string)
  {
    exists local: string, domain: string ::
      && s == local + "@" + domain
      && |local| >= 2 && |domain| >= 2
      && (forall i :: 0 <= i < |local| ==> !IsLineTerminator(local[i]))
      && (forall i :: 0 <= i < |domain| ==> !IsLineTerminator(domain[i]))
  }

  /** Whether the phone pattern matches the whole string, by position. */
  predicate PhoneMatches(s: string)
  {
    var start := if |s| > 0 && s[0] == '+' then 1 else 0;
    |s| > start && forall i :: start <= i < |s| ==> IsAsciiDigit(s[i])
  }

  /** Whether the email pattern matches the whole string, by position. */
  predicate EmailMatches(s: string)
  {
    && (forall i :: 0 <= i < |s| ==> !IsLineTerminator(s[i]))
    && exists i :: 2 <= i < |s| - 2 && s[i] == '@'
  }

  /** The positional phone test is the pattern. */
  lemma PhoneMatchesIsPattern(s: string)
    ensures PhoneMatches(s) <==> PhonePattern(s)
  {
    if PhoneMatches(s) {
      PhoneSplit(s);
    }
    if PhonePattern(s) {
      var sign: string, digits: string :| s == sign + digits && (sign == "" || sign == "+")
        && |digits| >= 1 && forall i :: 0 <= i < |digits| ==> IsAsciiDigit(digits[i]);
      PhoneJoin(sign, digits);
    }
  }

  /** A string the positional test accepts splits into an optional plus and digits. */
  lemma PhoneSplit(s: string)
    requires PhoneMatches(s)
    ensures PhonePattern(s)
  {
    var start := if s[0] == '+' then 1 else 0;
    var sign, digits := s[..start], s[start..];
    assert s == sign + digits;
    assert forall i :: 0 <= i < |digits| ==> digits[i] == s[start + i];
  }

  /** An optional plus followed by digits passes the positional test. */
  lemma PhoneJoin(sign: string, digits: string)
    requires sign == "" || sign == "+"
    requires |digits| >= 1 && forall i :: 0 <= i < |digits| ==> IsAsciiDigit(digits[i])
    ensures PhoneMatches(sign + digits)
  {
    var s := sign + digits;
    assert forall i :: |sign| <= i < |s| ==> s[i] == digits[i - |sign|];
    if sign == "" {
      assert s[0] == digits[0];
      assert s[0] != '+';
    } else {
      assert s[0] == '+';
    }
  }

  /** The positional email test is the pattern. */
  lemma EmailMatchesIsPattern(s: string)
    ensures EmailMatches(s) <==> EmailPattern(s)
  {
    if EmailMatches(s) {
      var i :| 2 <= i < |s| - 2 && s[i] == '@';
      EmailSplit(s, i);
    }
    if EmailPattern(s) {
      var local: string, domain: string :| s == local + "@" + domain
        && |local| >= 2 && |domain| >= 2
        && (forall k :: 0 <= k < |local| ==> !IsLineTerminator(local[k]))
        && (forall k :: 0 <= k < |domain| ==> !IsLineTerminator(domain[k]));
      EmailJoin(local, domain);
    }
  }

  /** Splitting at an `@` with two characters on each side gives the pattern's parts. */
  lemma EmailSplit(s: string, i: int)
    requires 2 <= i < |s| - 2 && s[i] == '@'
    requires forall k :: 0 <= k < |s| ==> !IsLineTerminator(s[k])
    ensures EmailPattern(s)
  {
    var local, domain := s[..i], s[i + 1..];
    assert s == local + "@" + domain;
    assert forall k :: 0 <= k < |local| ==> local[k] == s[k];
    assert forall k :: 0 <= k < |domain| ==> domain[k] == s[i + 1 + k];
  }

  /** Joining the pattern's parts gives a string the positional test accepts. */
  lemma EmailJoin(local: string, domain: string)
    requires |local| >= 2 && |domain| >= 2
    requires forall k :: 0 <= k < |local| ==> !IsLineTerminator(local[k])
    requires forall k :: 0 <= k < |domain| ==> !IsLineTerminator(domain[k])
    ensures EmailMatches(local + "@" + domain)
  {
    var s := local + "@" + domain;
    var i := |local|;
    assert s[i] == '@';
    forall k | 0 <= k < |s| ensures !IsLineTerminator(s[k]) {
      if k < i {
        assert s[k] == local[k];
      } else if k > i {
        assert s[k] == domain[k - i - 1];
      }
    }
  }

  /** `String.length()`: UTF-16 code units, two for a character outside the Basic Multilingual Plane. */
  function Utf16Length(s: string): (n: nat)
    ensures |s| <= n <= 2 * |s|
    ensures (forall i :: 0 <= i < |s| ==> s[i] as int <= 0xFFFF) ==> n == |s|
  {
    if s == [] then 0 else (if s[0] as int > 0xFFFF then 2 else 1) + Utf16Length(s[1..])
  }

  /** The longest accepted description, in UTF-16 code units. */
  const MaxDescriptionLength := 4000

  /** The order properties the validator can reject. */
  datatype OrderField = ClientName | ClientPhone | ClientEmail | Description
  {
    /** The property name the error is filed under. */
    function PropertyName(): string
    {
      match this
      case ClientName => "clientName"
      case ClientPhone => "clientPhone"
      case ClientEmail => "clientEmail"
      case Description => "description"
    }
  }

  /** The two error codes the validator uses. */
  datatype ErrorCode = Required | Invalid
  {
    function Text(): string
    {
      if Required? then "required" else "invalid"
    }
  }

  /** The four default messages the validator passes along with a code. */
  datatype DefaultMessage = RequiredMessage | PhoneMessage | EmailMessage | DescriptionMessage
  {
    function Text(): string
    {
      match this
      case RequiredMessage => "Attribute value required"
      case PhoneMessage => "Client phone not valid"
      case EmailMessage => "Client email not valid"
      case DescriptionMessage => "Order's description too long"
    }
  }

  /** One rejected field: `rejectValue(field, errorCode, defaultMessage)`. */
  datatype FieldError = FieldError(field: OrderField, code: ErrorCode, defaultMessage: DefaultMessage)

  const NameRequired := FieldError(ClientName, Required, RequiredMessage)
  const PhoneRequired := FieldError(ClientPhone, Required, RequiredMessage)
  const PhoneInvalid := FieldError(ClientPhone, Invalid, PhoneMessage)
  const EmailInvalid := FieldError(ClientEmail, Invalid, EmailMessage)
  const DescriptionInvalid := FieldError(Description, Invalid, DescriptionMessage)

  /** The description breaks the length rule. */
  predicate DescriptionTooLong(d: Option<string>)
  {
    !IsEmpty(d) && Utf16Length(d.value) > MaxDescriptionLength
  }

  /** One rule of the validator: the error it adds when it is broken. */
  function Rule(broken: bool, e: FieldError): (errors: seq<FieldError>)
    ensures |errors| <= 1
    ensures forall x :: x in errors <==> broken && x == e
  {
    if broken then [e] else []
  }

  /** The errors `validate` adds for an order, in the order it adds them. */
  function ValidationErrors(o: OrderRecord): seq<FieldError>
  {
    Rule(!HasText(o.clientName), NameRequired)
    + Rule(!HasText(o.clientPhone), PhoneRequired)
    + Rule(!IsEmpty(o.clientPhone) && !PhoneMatches(o.clientPhone.value), PhoneInvalid)
    + Rule(!IsEmpty(o.clientEmail) && !EmailMatches(o.clientEmail.value), EmailInvalid)
    + Rule(DescriptionTooLong(o.description), DescriptionInvalid)
  }

  /**
   * Each error is reported exactly when its rule is broken, and there are at most five: the
   * name and the phone are required to hold text, a non-empty phone and a non-empty email
   * must match their patterns, and a non-empty description must fit the length limit.
   */
  lemma ErrorsIffRulesBroken(o: OrderRecord)
    ensures |ValidationErrors(o)| <= 5
    ensures NameRequired in ValidationErrors(o) <==> !HasText(o.clientName)
    ensures PhoneRequired in ValidationErrors(o) <==> !HasText(o.clientPhone)
    ensures PhoneInvalid in ValidationErrors(o) <==> !IsEmpty(o.clientPhone) && !PhoneMatches(o.clientPhone.value)
    ensures EmailInvalid in ValidationErrors(o) <==> !IsEmpty(o.clientEmail) && !EmailMatches(o.clientEmail.value)
    ensures DescriptionInvalid in ValidationErrors(o) <==> DescriptionTooLong(o.description)
  {
  }

  /** The phone is rejected as invalid exactly when it is non-empty and not of the phone pattern. */
  lemma PhoneInvalidIffNotPattern(o: OrderRecord)
    ensures PhoneInvalid in ValidationErrors(o) <==> !IsEmpty(o.clientPhone) && !PhonePattern(o.clientPhone.value)
  {
    ErrorsIffRulesBroken(o);
    if o.clientPhone.Some? {
      PhoneMatchesIsPattern(o.clientPhone.value);
    }
  }

  /** The email is rejected exactly when it is non-empty and not of the email pattern. */
  lemma EmailInvalidIffNotPattern(o: OrderRecord)
    ensures EmailInvalid in ValidationErrors(o) <==> !IsEmpty(o.clientEmail) && !EmailPattern(o.clientEmail.value)
  {
    ErrorsIffRulesBroken(o);
    if o.clientEmail.Some? {
      EmailMatchesIsPattern(o.clientEmail.value);
    }
  }

  /** A missing or empty phone gets the required error only, never the invalid one. */
  lemma EmptyPhoneOnlyRequired(o: OrderRecord)
    requires IsEmpty(o.clientPhone)
    ensures PhoneRequired in ValidationErrors(o) && PhoneInvalid !in ValidationErrors(o)
  {
  }

  /** A phone of spaces only gets both errors: it has no text, and it is not empty. */
  lemma BlankPhoneBothErrors(o: OrderRecord)
    requires o.clientPhone == Some(" ")
    ensures PhoneRequired in ValidationErrors(o) && PhoneInvalid in ValidationErrors(o)
  {
  }

  /** An order with every field unset gets exactly the two required errors, name first. */
  lemma AllMissing()
    ensures ValidationErrors(EmptyOrder) == [NameRequired, PhoneRequired]
  {
  }

  /** Absent email and description add no error; only the two required fields can then fail. */
  lemma OptionalFieldsMayBeAbsent(o: OrderRecord)
    requires o.clientEmail.None? && o.description.None?
    ensures forall e :: e in ValidationErrors(o) ==> e == NameRequired || e == PhoneRequired || e == PhoneInvalid
  {
  }

  /**
   * The length limit counts UTF-16 code units: a description of at most 2000 characters is
   * never too long, and one of more than 4000 characters always is.
   */
  lemma DescriptionLimit(d: string)
    ensures |d| <= MaxDescriptionLength / 2 ==> !DescriptionTooLong(Some(d))
    ensures |d| > MaxDescriptionLength ==> DescriptionTooLong(Some(d))
  {
  }

  /** `supports`: the validator handles orders and nothing else. */
  datatype JavaClass = JavaClass(name: string)

  const OrderClass := JavaClass("io.orvisual.api.model.Order")

  predicate Supports(c: JavaClass)
  {
    c == OrderClass
  }

  /** Spring's `Errors` accumulator, as far as field rejections go. */
  class Errors {
    var fieldErrors: seq<FieldError>

    constructor ()
      ensures fieldErrors == []
    {
      fieldErrors := [];
    }

    method RejectValue(field: OrderField, code: ErrorCode, defaultMessage: DefaultMessage)
      modifies this
      ensures fieldErrors == old(fieldErrors) + [FieldError(field, code, defaultMessage)]
    {
      fieldErrors := fieldErrors + [FieldError(field, code, defaultMessage)];
    }
  }

  /** `validate`: appends the errors of the order to `errors`, rule by rule. */
  method Validate(order: Order, errors: Errors)
    modifies errors
    ensures errors.fieldErrors == old(errors.fieldErrors) + ValidationErrors(order.Record())
  {
    ghost var before := errors.fieldErrors;
    var nameMissing := !HasText(order.clientName);
    var phoneMissing := !HasText(order.clientPhone);
    var phoneInvalid := !IsEmpty(order.clientPhone) && !PhoneMatches(order.clientPhone.value);
    var emailInvalid := !IsEmpty(order.clientEmail) && !EmailMatches(order.clientEmail.value);
    var descriptionInvalid := DescriptionTooLong(order.description);
    if nameMissing {
      errors.RejectValue(ClientName, Required, RequiredMessage);
    }
    ghost var s1 := errors.fieldErrors;
    assert s1 == before + Rule(nameMissing, NameRequired);
    if phoneMissing {
      errors.RejectValue(ClientPhone, Required, RequiredMessage);
    }
    ghost var s2 := errors.fieldErrors;
    assert s2 == s1 + Rule(phoneMissing, PhoneRequired);
    if phoneInvalid {
      errors.RejectValue(ClientPhone, Invalid, PhoneMessage);
    }
    ghost var s3 := errors.fieldErrors;
    assert s3 == s2 + Rule(phoneInvalid, PhoneInvalid);
    if emailInvalid {
      errors.RejectValue(ClientEmail, Invalid, EmailMessage);
    }
    ghost var s4 := errors.fieldErrors;
    assert s4 == s3 + Rule(emailInvalid, EmailInvalid);
    if descriptionInvalid {
      errors.RejectValue(Description, Invalid, DescriptionMessage);
    }
    assert errors.fieldErrors == s4 + Rule(descriptionInvalid, DescriptionInvalid);
    AppendFive(before, Rule(nameMissing, NameRequired), Rule(phoneMissing, PhoneRequired),
      Rule(phoneInvalid, PhoneInvalid), Rule(emailInvalid, EmailInvalid), Rule(descriptionInvalid, DescriptionInvalid));
  }

  /** Appending five pieces one at a time appends their concatenation. */
  lemma AppendFive<T>(s: seq<T>, a: seq<T>, b: seq<T>, c: seq<T>, d: seq<T>, e: seq<T>)
    ensures s + a + b + c + d + e == s + (a + b + c + d + e)
  {
  }
}

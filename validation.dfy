/** The two form rules of contact.php: both always run, each appends its own message. */
module Validation {

  const PhoneError := "A valid 10-digit phone number is required."
  const EmailError := "A valid email address is required."

  /** PHP's empty() on a string: the empty string and "0" are empty. */
  predicate PhpEmpty(s: string)
  {
    s == "" || s == "0"
  }

  /** PCRE's \d without the u modifier: an ASCII digit. */
  predicate AsciiDigit(c: char)
  {
    '0' <= c <= '9'
  }

  /** PCRE's $ without the D modifier: the end of the subject, or just before a final newline. */
  predicate DollarAt(s: string, i: nat)
  {
    i == |s| || (i + 1 == |s| && s[i] == '\n')
  }

  /** preg_match('/^\d{10}$/', s): ten digits from the start, then $. */
  predicate TenDigits(s: string)
  {
    |s| >= 10 && (forall i :: 0 <= i < 10 ==> AsciiDigit(s[i])) && DollarAt(s, 10)
  }

  predicate PhoneInvalid(phone: string)
  {
    PhpEmpty(phone) || !TenDigits(phone)
  }

  /** FILTER_VALIDATE_EMAIL is an opaque check supplied by the caller. */
  predicate EmailInvalid(email: string, isValidEmail: string -> bool)
  {
    PhpEmpty(email) || !isValidEmail(email)
  }

  /**
   * The accepted phone numbers are exactly ten ASCII digits, optionally followed by one
   * newline; such a number is never empty, so the rule's empty() test never decides.
   */
  lemma TenDigitsShape(s: string)
    ensures TenDigits(s) <==>
      (|s| == 10 || (|s| == 11 && s[10] == '\n')) && forall i :: 0 <= i < 10 ==> AsciiDigit(s[i])
    ensures TenDigits(s) ==> !PhpEmpty(s)
    ensures PhoneInvalid(s) <==> !TenDigits(s)
  {
  }

  /** Without the D modifier a final newline after the ten digits is accepted; nine digits are not. */
  lemma DollarAcceptsFinalNewline()
    ensures TenDigits("9876543210") && TenDigits("9876543210\n")
    ensures !TenDigits("987654321") && !TenDigits("9876543210\n\n") && !TenDigits("98765432x0")
  {
    var s := "98765432x0";
    assert s[8] == 'x';
  }

  /** $errors as contact.php defines it: the phone rule, then the email rule, no short-circuit. */
  function Errors(phone: string, email: string, isValidEmail: string -> bool): (errors: seq<string>)
    ensures PhoneError in errors <==> PhoneInvalid(phone)
    ensures EmailError in errors <==> EmailInvalid(email, isValidEmail)
    ensures forall e :: e in errors ==> e == PhoneError || e == EmailError
    ensures |errors| <= 2
    ensures |errors| == 2 ==> errors == [PhoneError, EmailError]
    ensures errors == [] <==> !PhoneInvalid(phone) && !EmailInvalid(email, isValidEmail)
  {
    (if PhoneInvalid(phone) then [PhoneError] else [])
    + (if EmailInvalid(email, isValidEmail) then [EmailError] else [])
  }

  /** The script's statements that build $errors, one rule at a time. */
  method Validate(phone: string, email: string, isValidEmail: string -> bool) returns (errors: seq<string>)
    ensures errors == Errors(phone, email, isValidEmail)
  {
    errors := [];
    if PhpEmpty(phone) || !TenDigits(phone) {
      errors := errors + [PhoneError];
    }
    if PhpEmpty(email) || !isValidEmail(email) {
      errors := errors + [EmailError];
    }
  }
}

/**
 * The sign-in screen's input checks (app/login.tsx): the e-mail and phone
 * validators and the order in which the sign-in handler applies its checks
 * before handing the trimmed values to `login`. Alerts, navigation and the
 * loading flag are screen effects and are not modelled; an error value
 * stands for the alert shown.
 */
module Login {
  import opened Wrappers
  import opened JsBuiltins

  // ---------------------------------------------------------------------
  // E-mail.

  /** A character the class `[^\s@]` accepts. */
  predicate IsPlainChar(c: char) {
    !IsWhitespace(c) && c != '@'
  }

  predicate IsPlain(s: string) {
    forall k :: 0 <= k < |s| ==> IsPlainChar(s[k])
  }

  /** Some `.` has at least one character on each side. */
  predicate HasInnerDot(s: string) {
    exists k :: 0 < k < |s| - 1 && s[k] == '.'
  }

  /**
   * The test of `/^[^\s@]+@[^\s@]+\.[^\s@]+$/`: the text up to the first
   * `@` is a non-empty plain run, and the rest is a plain run with a dot
   * strictly inside it.
   */
  function ValidateEmail(email: string): (r: bool)
    ensures r ==> |email| >= 5
  {
    match IndexOf(email, '@')
    case None => false
    case Some(a) => a > 0 && IsPlain(email[..a]) && IsPlain(email[a + 1..]) && HasInnerDot(email[a + 1..])
  }

  /**
   * The regular expression's reading of `email` with its `@` at `a` and the
   * escaped dot at `d`: three non-empty runs of characters other than
   * whitespace and `@`, joined by `@` and `.`.
   */
  predicate EmailSplit(email: string, a: int, d: int) {
    && 0 < a && a + 1 < d < |email| - 1
    && email[a] == '@' && email[d] == '.'
    && IsPlain(email[..a]) && IsPlain(email[a + 1..d]) && IsPlain(email[d + 1..])
  }

  /** The validator accepts exactly the texts the pattern matches in full. */
  lemma ValidateEmailMatchesPattern(email: string)
    ensures ValidateEmail(email) <==> exists a, d :: EmailSplit(email, a, d)
  {
    if ValidateEmail(email) {
      ValidEmailMatches(email);
    }
    if exists a, d :: EmailSplit(email, a, d) {
      var a, d :| EmailSplit(email, a, d);
      MatchIsValidEmail(email, a, d);
    }
  }

  /** Every address the validator accepts splits as the pattern reads it. */
  lemma ValidEmailMatches(email: string)
    requires ValidateEmail(email)
    ensures exists a, d :: EmailSplit(email, a, d)
  {
    var a := IndexOf(email, '@').value;
    var domain := email[a + 1..];
    var k :| 0 < k < |domain| - 1 && domain[k] == '.';
    var d := a + 1 + k;
    assert email[a + 1..d] == domain[..k];
    assert email[d + 1..] == domain[k + 1..];
    assert EmailSplit(email, a, d);
  }

  /** Every split the pattern reads is accepted by the validator. */
  lemma MatchIsValidEmail(email: string, a: int, d: int)
    requires EmailSplit(email, a, d)
    ensures ValidateEmail(email)
  {
    assert forall k :: 0 <= k < a ==> email[k] == email[..a][k];
    assert IndexOf(email, '@') == Some(a);
    var domain := email[a + 1..];
    assert domain == email[a + 1..d] + email[d..d + 1] + email[d + 1..];
    assert domain[d - a - 1] == '.';
    assert IsPlain(domain);
  }

  /** A valid e-mail address has exactly one `@`. */
  lemma ValidEmailHasOneAt(email: string, i: int, j: int)
    requires ValidateEmail(email)
    requires 0 <= i < |email| && 0 <= j < |email| && email[i] == '@' && email[j] == '@'
    ensures i == j
  {
    var a := IndexOf(email, '@').value;
    assert forall k :: a < k < |email| ==> email[k] == email[a + 1..][k - a - 1];
  }

  /** A valid e-mail address contains no whitespace at all. */
  lemma ValidEmailHasNoWhitespace(email: string)
    requires ValidateEmail(email)
    ensures forall k :: 0 <= k < |email| ==> !IsWhitespace(email[k])
  {
    var a := IndexOf(email, '@').value;
    assert forall k :: 0 <= k < a ==> email[k] == email[..a][k];
    assert forall k :: a < k < |email| ==> email[k] == email[a + 1..][k - a - 1];
  }

  /** A valid e-mail address is not blank. */
  lemma ValidEmailIsNotBlank(email: string)
    requires ValidateEmail(email)
    ensures Trim(email) != []
  {
    ValidEmailHasNoWhitespace(email);
    TrimOfTrimmed(email);
    assert IndexOf(email, '@').Some?;
  }

  /**
   * An address with whitespace before or after it is rejected, although it
   * is not blank: the validator sees the untrimmed text.
   */
  lemma PaddedEmailRejected(email: string)
    requires Trim(email) != email
    ensures !ValidateEmail(email)
  {
    if ValidateEmail(email) {
      ValidEmailHasNoWhitespace(email);
      TrimOfTrimmed(email);
    }
  }

  // ---------------------------------------------------------------------
  // Phone number.

  /** A character `/[\s-]/` matches. */
  predicate IsSeparator(c: char) {
    IsWhitespace(c) || c == '-'
  }

  /**
   * `phone.replace(/[\s-]/g, '')`: no separator is left, a text without
   * separators is kept as it is, and a text of separators disappears.
   * With RemoveSeparatorsAppend this fixes the result for every text.
   */
  function RemoveSeparators(s: string): (r: string)
    ensures |r| <= |s|
    ensures forall k :: 0 <= k < |r| ==> !IsSeparator(r[k])
    ensures (forall k :: 0 <= k < |s| ==> !IsSeparator(s[k])) ==> r == s
    ensures (forall k :: 0 <= k < |s| ==> IsSeparator(s[k])) ==> r == []
  {
    if s == [] then []
    else if IsSeparator(s[|s| - 1]) then RemoveSeparators(s[..|s| - 1])
    else
      assert s == s[..|s| - 1] + [s[|s| - 1]];
      RemoveSeparators(s[..|s| - 1]) + [s[|s| - 1]]
  }

  /**
   * The test of `/^[0-9]{10,15}$/` on the number without separators: it
   * accepts exactly the texts made of digits, spaces and dashes with
   * between 10 and 15 digits.
   */
  function ValidatePhone(phone: string): (r: bool)
    ensures r <==> DigitsAndSeparators(phone) && 10 <= DigitCount(phone) <= 15
  {
    RemoveSeparatorsDigits(phone);
    var digits := RemoveSeparators(phone);
    10 <= |digits| <= 15 && AllDigits(digits)
  }

  lemma {:induction false} RemoveSeparatorsAppend(a: string, b: string)
    ensures RemoveSeparators(a + b) == RemoveSeparators(a) + RemoveSeparators(b)
    decreases |b|
  {
    if b == [] {
      assert a + b == a;
    } else {
      assert (a + b)[..|a + b| - 1] == a + b[..|b| - 1];
      RemoveSeparatorsAppend(a, b[..|b| - 1]);
    }
  }

  /** Inserting a space or a dash anywhere does not change the validator's answer. */
  lemma SeparatorDoesNotMatter(a: string, c: char, b: string)
    requires IsSeparator(c)
    ensures ValidatePhone(a + [c] + b) == ValidatePhone(a + b)
  {
    RemoveSeparatorsAppend(a + [c], b);
    RemoveSeparatorsAppend(a, [c]);
    RemoveSeparatorsAppend(a, b);
    assert RemoveSeparators([c]) == RemoveSeparators([]) by { assert [c][..0] == []; }
    assert RemoveSeparators(a) + [] == RemoveSeparators(a);
  }

  /** How many decimal digits `s` holds. */
  function DigitCount(s: string): nat {
    if s == [] then 0 else DigitCount(s[..|s| - 1]) + (if IsDigit(s[|s| - 1]) then 1 else 0)
  }

  predicate AllDigits(s: string) {
    forall k :: 0 <= k < |s| ==> IsDigit(s[k])
  }

  predicate DigitsAndSeparators(s: string) {
    forall k :: 0 <= k < |s| ==> IsDigit(s[k]) || IsSeparator(s[k])
  }

  /**
   * Without separators the text is all digits exactly when every character
   * of the original is a digit or a separator, and it then has one
   * character per digit.
   */
  lemma {:induction false} RemoveSeparatorsDigits(s: string)
    ensures AllDigits(RemoveSeparators(s)) <==> DigitsAndSeparators(s)
    ensures DigitsAndSeparators(s) ==> |RemoveSeparators(s)| == DigitCount(s)
    decreases |s|
  {
    if s != [] {
      var init, c := s[..|s| - 1], s[|s| - 1];
      RemoveSeparatorsDigits(init);
      DigitsAndSeparatorsSnoc(init, c);
      if !IsSeparator(c) {
        AllDigitsSnoc(RemoveSeparators(init), c);
      }
    }
  }

  /** Extending a text by one character keeps it digits-and-separators exactly when that character is one. */
  lemma DigitsAndSeparatorsSnoc(init: string, c: char)
    ensures DigitsAndSeparators(init + [c]) <==> DigitsAndSeparators(init) && (IsDigit(c) || IsSeparator(c))
  {
    assert forall k :: 0 <= k < |init| ==> (init + [c])[k] == init[k];
    assert (init + [c])[|init|] == c;
  }

  /** Extending a text by one character keeps it all digits exactly when that character is a digit. */
  lemma AllDigitsSnoc(init: string, c: char)
    ensures AllDigits(init + [c]) <==> AllDigits(init) && IsDigit(c)
  {
    assert forall k :: 0 <= k < |init| ==> (init + [c])[k] == init[k];
    assert (init + [c])[|init|] == c;
  }

  /** Trimming a phone number does not change the validator's answer. */
  lemma TrimmedPhoneValidatesAlike(phone: string)
    ensures ValidatePhone(Trim(phone)) == ValidatePhone(phone)
  {
    TrimKeepsDigits(phone);
  }

  /** Trimming removes only characters that separator removal drops anyway. */
  lemma TrimKeepsDigits(phone: string)
    ensures RemoveSeparators(Trim(phone)) == RemoveSeparators(phone)
  {
    var a, b := TrimSpan(phone);
    PaddingVanishes(phone, a, b);
  }

  /** Whitespace around the middle of a text disappears with the separators. */
  lemma PaddingVanishes(s: string, a: int, b: int)
    requires 0 <= a <= b <= |s| && AllWhitespace(s[..a]) && AllWhitespace(s[b..])
    ensures RemoveSeparators(s) == RemoveSeparators(s[a..b])
  {
    var pre, mid, post := s[..a], s[a..b], s[b..];
    assert s == pre + mid + post;
    RemoveSeparatorsAppend(pre + mid, post);
    RemoveSeparatorsAppend(pre, mid);
    WhitespaceVanishes(pre);
    WhitespaceVanishes(post);
  }

  /** A text of whitespace disappears with the separators. */
  lemma WhitespaceVanishes(s: string)
    requires AllWhitespace(s)
    ensures RemoveSeparators(s) == []
  {
    assert forall k :: 0 <= k < |s| ==> IsSeparator(s[k]);
  }

  /** A valid phone number is not blank. */
  lemma ValidPhoneIsNotBlank(phone: string)
    requires ValidatePhone(phone)
    ensures Trim(phone) != []
  {
    TrimShape(phone);
  }

  // ---------------------------------------------------------------------
  // The sign-in handler.

  /** The alert the handler raises, one per failed check. */
  datatype LoginError = NameMissing | EmailMissing | EmailInvalid | PhoneMissing | PhoneInvalid

  /** What the handler passes to `login`. */
  datatype Credentials = Credentials(name: string, email: string, phone: string)

  /**
   * The sign-in handler's checks, in order: a blank name, a blank e-mail, an
   * invalid e-mail (tested untrimmed), a blank phone, an invalid phone. The
   * first failure stops the handler; when all pass, `login` receives the
   * three trimmed values.
   */
  function HandleLogin(name: string, email: string, phone: string): (r: Result<Credentials, LoginError>)
    ensures r == Failure(NameMissing) <==> Trim(name) == []
    ensures r == Failure(EmailMissing) <==> Trim(name) != [] && Trim(email) == []
    ensures r == Failure(EmailInvalid) <==> Trim(name) != [] && Trim(email) != [] && !ValidateEmail(email)
    ensures r == Failure(PhoneMissing) <==>
      Trim(name) != [] && Trim(email) != [] && ValidateEmail(email) && Trim(phone) == []
    ensures r == Failure(PhoneInvalid) <==>
      Trim(name) != [] && Trim(email) != [] && ValidateEmail(email) && Trim(phone) != [] && !ValidatePhone(phone)
    ensures r.Success? ==> r.value == Credentials(Trim(name), Trim(email), Trim(phone))
  {
    if Trim(name) == [] then Failure(NameMissing)
    else if Trim(email) == [] then Failure(EmailMissing)
    else if !ValidateEmail(email) then Failure(EmailInvalid)
    else if Trim(phone) == [] then Failure(PhoneMissing)
    else if !ValidatePhone(phone) then Failure(PhoneInvalid)
    else Success(Credentials(Trim(name), Trim(email), Trim(phone)))
  }

  /**
   * Sign-in goes ahead exactly when the name is not blank, the e-mail is
   * valid and the phone is valid; the blank checks on e-mail and phone never
   * decide on their own.
   */
  lemma LoginAcceptsExactly(name: string, email: string, phone: string)
    ensures HandleLogin(name, email, phone).Success? <==>
            Trim(name) != [] && ValidateEmail(email) && ValidatePhone(phone)
  {
    if ValidateEmail(email) {
      ValidEmailIsNotBlank(email);
    }
    if ValidatePhone(phone) {
      ValidPhoneIsNotBlank(phone);
    }
  }

  /**
   * On success `login` receives the e-mail exactly as typed, and a phone
   * number that validates as the typed one does.
   */
  lemma LoginCredentials(name: string, email: string, phone: string)
    requires HandleLogin(name, email, phone).Success?
    ensures HandleLogin(name, email, phone).value.email == email
    ensures ValidatePhone(HandleLogin(name, email, phone).value.phone)
  {
    ValidEmailHasNoWhitespace(email);
    TrimOfTrimmed(email);
    TrimmedPhoneValidatesAlike(phone);
  }
}

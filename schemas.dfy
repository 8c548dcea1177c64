/** The form validators of src/lib/schemas.ts as acceptance predicates, and
    `safeZodResolver`, which folds a list of validation issues into a map
    holding the first error of each field. Lengths are JavaScript string
    lengths (UTF-16 code units); `\s` is the JavaScript whitespace class. */
module Schemas {
  import opened Types
  import opened JsText
  import QuoteEngine

  // ---------------------------------------------------------------------
  // Step 1: personal info

  /** `[a-zA-Z\s-']`: the characters a name may contain. */
  predicate IsNameChar(c: char) {
    IsAsciiLetter(c) || IsJsSpace(c) || c == '-' || c == '\''
  }

  /** firstName / lastName: 2 to 50 code units, all of them name characters. */
  predicate NameOk(name: string) {
    2 <= JsLength(name) <= 50 && AllChars(name, IsNameChar)
  }

  /** A name is accepted exactly when it has 2 to 50 characters, all
      letters, whitespace, hyphens or apostrophes (every such character
      is a single code unit). */
  lemma NameOkCharacterised(name: string)
    ensures NameOk(name) <==> 2 <= |name| <= 50 && AllChars(name, IsNameChar)
  {
    if AllChars(name, IsNameChar) {
      assert AllChars(name, c => c as int <= 0xFFFF);
    }
  }

  /** A calendar date; "today" and the parsed date of birth are inputs. */
  datatype Date = Date(year: int, month: int, day: int)

  /** The time order of dates (`dob <= today`, at day granularity). */
  predicate NotAfter(a: Date, b: Date) {
    a.year < b.year
    || (a.year == b.year && (a.month < b.month || (a.month == b.month && a.day <= b.day)))
  }

  /** dateOfBirth as written: non-empty, parsed to a date (an unparsable
      string gives NaN, which fails the age test), the difference of
      calendar years at least 18, and not after today. */
  predicate DateOfBirthOk(raw: string, dob: Option<Date>, today: Date) {
    |raw| >= 1 && dob.Some? && today.year - dob.value.year >= 18 && NotAfter(dob.value, today)
  }

  /** Completed years of age on `today`. */
  function AgeInYears(dob: Date, today: Date): (age: int)
    ensures age == today.year - dob.year || age == today.year - dob.year - 1
    ensures NotAfter(dob, today) ==> age >= 0
  {
    var hadBirthday := today.month > dob.month || (today.month == dob.month && today.day >= dob.day);
    today.year - dob.year - (if hadBirthday then 0 else 1)
  }

  /** dateOfBirth with the evident intent: at least 18 full years old. */
  predicate DateOfBirthOfAge(raw: string, dob: Option<Date>, today: Date) {
    |raw| >= 1 && dob.Some? && AgeInYears(dob.value, today) >= 18 && NotAfter(dob.value, today)
  }

  /** The full-age check is the stricter one: whatever it accepts the
      written check accepts, and the two differ only for applicants who
      turn 18 later in the current calendar year. */
  lemma DateOfBirthOfAgeStricter(raw: string, dob: Option<Date>, today: Date)
    ensures DateOfBirthOfAge(raw, dob, today) ==> DateOfBirthOk(raw, dob, today)
    ensures DateOfBirthOk(raw, dob, today) && !DateOfBirthOfAge(raw, dob, today) ==>
      today.year - dob.value.year == 18 && AgeInYears(dob.value, today) == 17
  {
  }

  /** Someone born on 31 December 2008 is 17 on 1 January 2026, yet the
      written check lets them through. */
  lemma UnderageAccepted()
    ensures DateOfBirthOk("2008-12-31", Some(Date(2008, 12, 31)), Date(2026, 1, 1))
    ensures AgeInYears(Date(2008, 12, 31), Date(2026, 1, 1)) == 17
    ensures !DateOfBirthOfAge("2008-12-31", Some(Date(2008, 12, 31)), Date(2026, 1, 1))
  {
  }

  /** `step1Schema` as written, with the calendar-year age check. */
  predicate Step1Ok(data: Step1Data, dob: Option<Date>, today: Date) {
    NameOk(data.firstName) && NameOk(data.lastName) && DateOfBirthOk(data.dateOfBirth, dob, today)
  }

  /** `step1Schema` with the full-age check it evidently intends. */
  predicate Step1OkIntended(data: Step1Data, dob: Option<Date>, today: Date) {
    NameOk(data.firstName) && NameOk(data.lastName) && DateOfBirthOfAge(data.dateOfBirth, dob, today)
  }

  /** The intended schema accepts only what the written one accepts, and
      they part only on a calendar-year difference of exactly 18. */
  lemma Step1OkIntendedStricter(data: Step1Data, dob: Option<Date>, today: Date)
    ensures Step1OkIntended(data, dob, today) ==> Step1Ok(data, dob, today)
    ensures Step1Ok(data, dob, today) && !Step1OkIntended(data, dob, today) ==>
      today.year - dob.value.year == 18 && AgeInYears(dob.value, today) == 17
  {
    DateOfBirthOfAgeStricter(data.dateOfBirth, dob, today);
  }

  /** The step-1 test cases: hyphens and apostrophes are accepted; a
      single letter, digits and the empty string are not. */
  lemma NameTestCases()
    ensures NameOk("John") && NameOk("Doe") && NameOk("Mary-Jane") && NameOk("O'Brien")
    ensures !NameOk("A") && !NameOk("John123") && !NameOk("")
  {
    NameJohn();
    NameDoe();
    NameMaryJane();
    NameOBrien();
    NameOkCharacterised("A");
    NameOkCharacterised("");
    NameJohn123();
  }

  lemma NameJohn() ensures NameOk("John") {
    SimpleName("John");
  }

  lemma NameDoe() ensures NameOk("Doe") {
    SimpleName("Doe");
  }

  lemma NameMaryJane() ensures NameOk("Mary-Jane") {
    SimpleName("Mary-Jane");
  }

  lemma NameOBrien() ensures NameOk("O'Brien") {
    SimpleName("O'Brien");
  }

  lemma NameJohn123() ensures !NameOk("John123") {
    NameOkCharacterised("John123");
    assert "John123"[4] == '1';
  }

  /** A name of 2 to 50 ASCII letters, hyphens and apostrophes is accepted. */
  lemma SimpleName(s: string)
    requires 2 <= |s| <= 50
    requires forall i :: 0 <= i < |s| ==> 'a' <= s[i] <= 'z' || 'A' <= s[i] <= 'Z' || s[i] == '-' || s[i] == '\''
    ensures NameOk(s)
  {
    NameOkCharacterised(s);
  }

  /** The step-1 form of the tests passes on any day from 2008 on; a birth
      date exactly 17 years back, an empty one and a future one fail. */
  lemma Step1TestCases(today: Date, raw: string)
    requires today.year >= 2008
    ensures Step1Ok(Step1Data("John", "Doe", "1990-01-15"), Some(Date(1990, 1, 15)), today)
    ensures !Step1Ok(Step1Data("John", "Doe", raw), Some(Date(today.year - 17, today.month, today.day)), today)
    ensures !Step1Ok(Step1Data("John", "Doe", ""), Some(Date(1990, 1, 15)), today)
    ensures !Step1Ok(Step1Data("John", "Doe", raw), Some(Date(today.year + 1, today.month, today.day)), today)
  {
    NameTestCases();
  }

  // ---------------------------------------------------------------------
  // Step 2: income details

  /** `val.replace(/[,$]/g, '')` */
  function StripCommaDollar(s: string): (r: string)
    ensures ',' !in r && '$' !in r
  {
    FilterMembership(c => c != ',' && c != '$', s, ',');
    FilterMembership(c => c != ',' && c != '$', s, '$');
    Filter(c => c != ',' && c != '$', s)
  }

  /** annualIncome: non-empty, and after removing ',' and '$' its leading
      number is not NaN and is at least 0 (Infinity passes). */
  predicate IncomeOk(s: string) {
    |s| >= 1 &&
    match ParseFloat(StripCommaDollar(s))
    case NaN => false
    case Finite(v) => v >= 0.0
    case Infinite(negative) => !negative
  }

  /** `step2Schema`: the two selections from their lists, and the income. */
  predicate Step2Ok(data: Step2Data) {
    data.employmentStatus in QuoteEngine.EmploymentStatuses
    && IncomeOk(data.annualIncome)
    && data.creditScoreRange in QuoteEngine.CreditScores
  }

  /** A plain digit string is a valid income, and the quote engine reads
      the same amount from it. */
  lemma DigitIncomeAgrees(s: string)
    requires |s| > 0 && AllChars(s, IsDigit)
    ensures IncomeOk(s)
    ensures ParseFloat(StripCommaDollar(s)) == Finite(QuoteEngine.ParseIncome(s))
  {
    FilterKeepsAll(c => c != ',' && c != '$', s);
    ParseFloatDigits(s);
    QuoteEngine.ParseIncomeDigits(s);
  }

  /** `parseFloat("5 000")` stops at the space: the validator sees 5. */
  lemma ValidatorReadsLeadingNumber(s: string)
    requires s == "5 000"
    ensures IncomeOk(s) && ParseFloat(StripCommaDollar(s)) == Finite(5.0)
  {
    KeepsSpacedIncome(s);
    assert s[..1] == "5";
    assert DigitsValue(s[..1]) == 5 by {
      assert s[..1][..0] == [];
    }
    ParseFloatLeadingDigits(s, 1);
  }

  lemma KeepsSpacedIncome(s: string)
    requires s == "5 000"
    ensures StripCommaDollar(s) == s
  {
    FilterKeepsAll(c => c != ',' && c != '$', s);
  }

  /** The engine drops the space and sees 5,000. */
  lemma EngineDropsSpaces(s: string)
    requires s == "5 000"
    ensures QuoteEngine.ParseIncome(s) == 5000.0
  {
    var t := KeepNumeric(s);
    DropSpace();
    QuoteEngine.ParseIncomeOnlyNumeric(s);
    FourDigits();
    QuoteEngine.ParseIncomeDigits(t);
  }

  lemma DropSpace()
    ensures KeepNumeric("5 000") == "5000"
  {
  }

  lemma FourDigits()
    ensures AllChars("5000", IsDigit) && DigitsValue("5000") == 5000
  {
    assert "5000"[..3] == "500" && "500"[..2] == "50" && "50"[..1] == "5" && "5"[..0] == [];
  }

  /** The validator and the engine can read the same accepted income
      differently. */
  lemma IncomeReadingsDiffer()
    ensures exists s :: IncomeOk(s) && ParseFloat(StripCommaDollar(s)) != Finite(QuoteEngine.ParseIncome(s))
  {
    var s := "5 000";
    ValidatorReadsLeadingNumber(s);
    EngineDropsSpaces(s);
  }

  /** The step-2 test cases: every listed status and score range passes
      with the income "75000" or "75,000". */
  lemma Step2TestCases(status: string, range: string)
    requires status in QuoteEngine.EmploymentStatuses && range in QuoteEngine.CreditScores
    ensures Step2Ok(Step2Data(status, "75000", range))
    ensures Step2Ok(Step2Data(status, "75,000", range))
  {
    PlainIncomeOk();
    CommaIncomeOk();
  }

  /** An unknown status, an unknown score range and an empty income fail. */
  lemma Step2RejectedCases(status: string, income: string, range: string)
    ensures !Step2Ok(Step2Data("invalid", income, range))
    ensures !Step2Ok(Step2Data(status, income, "invalid"))
    ensures !Step2Ok(Step2Data(status, "", range))
  {
    UnknownSelections();
    assert !IncomeOk("");
  }

  lemma UnknownSelections()
    ensures "invalid" !in QuoteEngine.EmploymentStatuses && "invalid" !in QuoteEngine.CreditScores
  {
  }

  lemma PlainIncomeOk() ensures IncomeOk("75000") {
    FiveDigits();
    DigitIncomeAgrees("75000");
  }

  lemma CommaIncomeOk() ensures IncomeOk("75,000") {
    StripComma();
    FiveDigits();
    StrippedDigitsOk("75,000", "75000");
  }

  lemma FiveDigits() ensures AllChars("75000", IsDigit) {
  }

  /** An income that reads as a digit string once ',' and '$' are gone is valid. */
  lemma StrippedDigitsOk(s: string, t: string)
    requires |s| > 0 && StripCommaDollar(s) == t && |t| > 0 && AllChars(t, IsDigit)
    ensures IncomeOk(s)
  {
    ParseFloatDigits(t);
  }

  lemma StripComma() ensures StripCommaDollar("75,000") == "75000" {
  }


  // ---------------------------------------------------------------------
  // Step 3: preferences

  const OfferTypes: set<string> := {"loan", "credit-card", "insurance"}

  const ContactPreferences: set<string> := {"email", "phone", "both"}

  /** `step3Schema`: an offer type and contact preference from their
      lists, and the terms accepted. */
  predicate Step3Ok(data: Step3Data) {
    data.offerType in OfferTypes && data.contactPreference in ContactPreferences && data.termsAccepted
  }

  /** For every step-3 form the schema accepts, the engine quotes the
      product the user asked for. */
  lemma AcceptedOfferTypeIsQuoted(step2: Step2Data, step3: Step3Data)
    requires Step3Ok(step3)
    ensures QuoteEngine.CalculateOffer(step2, step3).Type() == step3.offerType
  {
  }

  /** The step-3 test cases: each listed offer type and contact preference
      passes with the terms accepted; an unknown value or unaccepted terms
      fail. */
  lemma Step3TestCases(offerType: string, contact: string)
    requires offerType in OfferTypes && contact in ContactPreferences
    ensures Step3Ok(Step3Data(offerType, contact, true))
    ensures !Step3Ok(Step3Data("invalid", contact, true))
    ensures !Step3Ok(Step3Data(offerType, "invalid", true))
    ensures !Step3Ok(Step3Data(offerType, contact, false))
  {
  }

  // ---------------------------------------------------------------------
  // Sign-up and login

  /** `[a-zA-Z0-9_]` */
  predicate IsUsernameChar(c: char) { IsAlphanumeric(c) || c == '_' }

  /** username: 3 to 20 characters (20 itself is allowed), letters, digits
      and underscores only. */
  predicate UsernameOk(username: string) {
    3 <= JsLength(username) <= 20 && AllChars(username, IsUsernameChar)
  }

  /** A username is accepted exactly when it has 3 to 20 characters, all
      ASCII letters, digits or underscores. */
  lemma UsernameOkCharacterised(username: string)
    ensures UsernameOk(username) <==> 3 <= |username| <= 20 && AllChars(username, IsUsernameChar)
  {
    if AllChars(username, IsUsernameChar) {
      assert AllChars(username, c => c as int <= 0xFFFF);
    }
  }

  /** The username test cases: underscores are allowed; two characters,
      twenty-one characters and an '@' are not. */
  lemma UsernameTestCases()
    ensures UsernameOk("john_doe") && UsernameOk("john_doe_123")
    ensures !UsernameOk("ab") && !UsernameOk("aaaaaaaaaaaaaaaaaaaaa") && !UsernameOk("john@doe")
  {
    UsernameJohnDoe();
    UsernameJohnDoe123();
    UsernameTooShort();
    UsernameTooLong();
    UsernameWithAt();
  }

  lemma UsernameTooShort() ensures !UsernameOk("ab") {
    UsernameOkCharacterised("ab");
  }

  lemma UsernameTooLong() ensures !UsernameOk("aaaaaaaaaaaaaaaaaaaaa") {
    UsernameOkCharacterised("aaaaaaaaaaaaaaaaaaaaa");
  }

  lemma UsernameWithAt() ensures !UsernameOk("john@doe") {
    UsernameOkCharacterised("john@doe");
    assert !IsUsernameChar("john@doe"[4]);
  }

  lemma UsernameJohnDoe() ensures UsernameOk("john_doe") {
    SimpleUsername("john_doe");
  }

  lemma UsernameJohnDoe123() ensures UsernameOk("john_doe_123") {
    SimpleUsername("john_doe_123");
  }

  /** A lower-case ASCII username of the right length is accepted. */
  lemma SimpleUsername(s: string)
    requires 3 <= |s| <= 20
    requires forall i :: 0 <= i < |s| ==> 'a' <= s[i] <= 'z' || '0' <= s[i] <= '9' || s[i] == '_'
    ensures UsernameOk(s)
  {
    UsernameOkCharacterised(s);
  }

  /** `[1-9]` */
  predicate IsNonZeroDigit(c: char) { '1' <= c <= '9' }

  /** phone, `^\+?[1-9]\d{1,14}$`: an optional '+', a digit 1-9, then 1 to
      14 more decimal digits. */
  predicate PhoneOk(phone: string) {
    var digits := if |phone| > 0 && phone[0] == '+' then phone[1..] else phone;
    2 <= |digits| <= 15 && IsNonZeroDigit(digits[0]) && AllChars(digits, IsDigit)
  }

  /** A phone number has 2 to 15 digits, no leading zero, and at most one
      character besides them, a leading '+'. */
  lemma PhoneShape(phone: string)
    requires PhoneOk(phone)
    ensures 2 <= |phone| <= 16
    ensures phone[0] == '+' || IsNonZeroDigit(phone[0])
    ensures forall i :: 0 < i < |phone| ==> IsDigit(phone[i])
  {
    var digits := if phone[0] == '+' then phone[1..] else phone;
    if phone[0] == '+' {
      assert forall i :: 0 < i < |phone| ==> phone[i] == digits[i - 1];
    }
  }

  /** A digit string of the right length with no leading zero is a valid
      phone number with or without the '+'. */
  lemma PhonePlusOptional(digits: string)
    requires 2 <= |digits| <= 15 && IsNonZeroDigit(digits[0]) && AllChars(digits, IsDigit)
    ensures PhoneOk(digits) && PhoneOk("+" + digits)
  {
    assert ("+" + digits)[1..] == digits;
  }

  /** The phone test cases: three international numbers pass; letters,
      an '@' and a doubled '+' fail. */
  lemma PhoneTestCases()
    ensures PhoneOk("+1234567890") && PhoneOk("+12025551234") && PhoneOk("+447911123456")
    ensures !PhoneOk("notaphone") && !PhoneOk("abc") && !PhoneOk("phone@123") && !PhoneOk("++1234567890")
  {
    PhoneA();
    PhoneB();
    PhoneC();
    NotPhones();
    PhoneDoublePlus();
  }

  lemma PhoneA() ensures PhoneOk("+1234567890") {
    PhonePlus("1234567890");
  }

  lemma PhoneB() ensures PhoneOk("+12025551234") {
    PhonePlus("12025551234");
  }

  lemma PhoneC() ensures PhoneOk("+447911123456") {
    PhonePlus("447911123456");
  }

  lemma NotPhones() ensures !PhoneOk("notaphone") && !PhoneOk("abc") && !PhoneOk("phone@123") {
    assert !IsNonZeroDigit("notaphone"[0]) && !IsNonZeroDigit("abc"[0]) && !IsNonZeroDigit("phone@123"[0]);
  }

  lemma PhoneDoublePlus() ensures !PhoneOk("++1234567890") {
    assert "++1234567890"[1..][0] == '+';
  }

  lemma PhonePlus(digits: string)
    requires 2 <= |digits| <= 15 && IsNonZeroDigit(digits[0])
    requires forall i :: 0 <= i < |digits| ==> '0' <= digits[i] <= '9'
    ensures PhoneOk("+" + digits)
  {
    PhonePlusOptional(digits);
  }

  /** `[^A-Za-z0-9]` */
  predicate IsSpecial(c: char) { !IsAlphanumeric(c) }

  /** password: at least 8 code units, with an uppercase letter, a lowercase
      letter, a digit and a character that is none of these. */
  predicate PasswordOk(password: string) {
    JsLength(password) >= 8
    && HasChar(password, IsUpper) && HasChar(password, IsLower) && HasChar(password, IsDigit)
    && HasChar(password, IsSpecial)
  }

  /** Positions i, j, k, l hold an uppercase letter, a lowercase letter, a
      digit and a special character, four pairwise different characters. */
  predicate FourClassesAt(p: string, i: int, j: int, k: int, l: int) {
    && 0 <= i < |p| && 0 <= j < |p| && 0 <= k < |p| && 0 <= l < |p|
    && IsUpper(p[i]) && IsLower(p[j]) && IsDigit(p[k]) && IsSpecial(p[l])
    && p[i] != p[j] && p[i] != p[k] && p[i] != p[l]
    && p[j] != p[k] && p[j] != p[l] && p[k] != p[l]
  }

  /** An accepted password has one character of each of the four classes,
      so at least four distinct characters. */
  lemma PasswordHasFourClasses(password: string)
    requires PasswordOk(password)
    ensures exists i, j, k, l :: FourClassesAt(password, i, j, k, l)
  {
    var i :| 0 <= i < |password| && IsUpper(password[i]);
    var j :| 0 <= j < |password| && IsLower(password[j]);
    var k :| 0 <= k < |password| && IsDigit(password[k]);
    var l :| 0 <= l < |password| && IsSpecial(password[l]);
    assert FourClassesAt(password, i, j, k, l);
  }

  /** The test cases: 'Password1!' is accepted; each of the five weakened
      variants is refused for the rule it breaks. */
  lemma PasswordTestCases()
    ensures PasswordOk("Password1!")
    ensures !PasswordOk("Short1!")
    ensures !PasswordOk("password1!") && !PasswordOk("PASSWORD1!")
    ensures !PasswordOk("Password!") && !PasswordOk("Password1")
  {
    StrongPassword();
    ShortPassword();
    NoUpper();
    NoLower();
    NoDigit();
    NoSpecial();
  }

  lemma StrongPassword() ensures PasswordOk("Password1!") {
    var p := "Password1!";
    assert IsUpper(p[0]) && IsLower(p[1]) && IsDigit(p[8]);
    assert IsSpecial(p[9]);
    StrongPasswordLength();
  }

  lemma StrongPasswordLength() ensures JsLength("Password1!") == 10 {
    PasswordLength("Password1!");
  }

  lemma ShortPassword() ensures JsLength("Short1!") == 7 {
    PasswordLength("Short1!");
  }

  lemma NoUpper() ensures !HasChar("password1!", IsUpper) {
    var p := "password1!";
    assert forall i :: 0 <= i < |p| ==> !IsUpper(p[i]);
  }

  lemma NoLower() ensures !HasChar("PASSWORD1!", IsLower) {
    var p := "PASSWORD1!";
    assert forall i :: 0 <= i < |p| ==> !IsLower(p[i]);
  }

  lemma NoDigit() ensures !HasChar("Password!", IsDigit) {
    var p := "Password!";
    assert forall i :: 0 <= i < |p| ==> !IsDigit(p[i]);
  }

  lemma NoSpecial() ensures !HasChar("Password1", IsSpecial) {
    var p := "Password1";
    assert forall i :: 0 <= i < |p| ==> IsAlphanumeric(p[i]);
  }

  /** A password of BMP characters is measured by its character count. */
  lemma PasswordLength(password: string)
    requires AllChars(password, IsAlphanumeric) || forall i :: 0 <= i < |password| ==> password[i] as int < 128
    ensures JsLength(password) == |password|
  {
    assert AllChars(password, c => c as int <= 0xFFFF);
  }

  /** `signUpSchema`. Whether the address passes zod's `.email()` check is
      an input. */
  predicate SignUpOk(data: SignUpData, emailFormatOk: bool) {
    UsernameOk(data.username)
    && |data.email| >= 1 && emailFormatOk
    && PhoneOk(data.phone)
    && PasswordOk(data.password)
  }

  /** `loginSchema`: both fields non-empty. */
  predicate LoginOk(data: LoginData) {
    |data.emailOrUsername| >= 1 && |data.password| >= 1
  }

  /** The login test cases: an e-mail or a username with a password
      passes; an empty identifier or password fails. */
  lemma LoginTestCases()
    ensures LoginOk(LoginData("john@example.com", "Password1!")) && LoginOk(LoginData("john_doe", "Password1!"))
    ensures !LoginOk(LoginData("", "Password1!")) && !LoginOk(LoginData("john@example.com", ""))
  {
  }

  /** Anything that could sign up can log in with its username or email. */
  lemma SignUpCredentialsLogIn(data: SignUpData, emailFormatOk: bool)
    requires SignUpOk(data, emailFormatOk)
    ensures LoginOk(LoginData(data.username, data.password))
    ensures LoginOk(LoginData(data.email, data.password))
  {
  }

  // ---------------------------------------------------------------------
  // safeZodResolver

  /** A zod issue: the path to the failing field, its code and message. */
  datatype Issue = Issue(path: seq<string>, code: string, message: string)

  /** The react-hook-form field error built from an issue. */
  datatype FieldError = FieldError(kind: string, message: string)

  /** `issue.path.join('.')`: the key of the field an issue is about. */
  function KeyOf(issue: Issue): string {
    Join(issue.path, '.')
  }

  /** The index of the first issue about field `key`, if any. */
  function FirstIssueIndex(issues: seq<Issue>, key: string): (r: Option<nat>)
    ensures r.Some? ==> r.value < |issues| && KeyOf(issues[r.value]) == key
    ensures r.Some? ==> forall j :: 0 <= j < r.value ==> KeyOf(issues[j]) != key
    ensures r.None? ==> forall j :: 0 <= j < |issues| ==> KeyOf(issues[j]) != key
  {
    if issues == [] then None
    else if KeyOf(issues[0]) == key then Some(0)
    else match FirstIssueIndex(issues[1..], key)
      case None => None
      case Some(i) => Some(i + 1)
  }

  /** Appending an issue leaves an existing first index alone and
      otherwise makes the new issue the first for its key. */
  lemma FirstIssueIndexAppend(issues: seq<Issue>, issue: Issue, key: string)
    ensures FirstIssueIndex(issues + [issue], key) ==
      if FirstIssueIndex(issues, key).Some? then FirstIssueIndex(issues, key)
      else if KeyOf(issue) == key then Some(|issues|)
      else None
  {
    var all := issues + [issue];
    var p := FirstIssueIndex(issues, key);
    if p.Some? {
      assert forall j :: 0 <= j <= p.value ==> all[j] == issues[j];
      FirstIssueAt(all, key, p.value);
    } else {
      assert forall j :: 0 <= j < |issues| ==> all[j] == issues[j];
      if KeyOf(issue) == key {
        FirstIssueAt(all, key, |issues|);
      } else {
        assert forall j :: 0 <= j < |all| ==> KeyOf(all[j]) != key;
      }
    }
  }

  /** The index found is determined: it is the one first issue for the key. */
  lemma FirstIssueAt(issues: seq<Issue>, key: string, i: nat)
    requires i < |issues| && KeyOf(issues[i]) == key
    requires forall j :: 0 <= j < i ==> KeyOf(issues[j]) != key
    ensures FirstIssueIndex(issues, key) == Some(i)
  {
  }

  /** `safeZodResolver` on a failed or successful parse: the issues fold
      into a map from each field key to the error of its first issue; no
      issues (success) give an empty map. */
  method ResolveIssues(issues: seq<Issue>) returns (errors: map<string, FieldError>)
    ensures errors == map[] <==> issues == []
    ensures forall key :: key in errors <==> FirstIssueIndex(issues, key).Some?
    ensures forall key :: key in errors ==>
      var first := issues[FirstIssueIndex(issues, key).value];
      errors[key] == FieldError(first.code, first.message)
  {
    errors := map[];
    for i := 0 to |issues|
      invariant forall key :: key in errors <==> FirstIssueIndex(issues[..i], key).Some?
      invariant forall key :: key in errors ==>
        var first := issues[..i][FirstIssueIndex(issues[..i], key).value];
        errors[key] == FieldError(first.code, first.message)
    {
      var issue := issues[i];
      assert issues[..i + 1] == issues[..i] + [issue];
      forall key
        ensures FirstIssueIndex(issues[..i + 1], key) ==
          if FirstIssueIndex(issues[..i], key).Some? then FirstIssueIndex(issues[..i], key)
          else if KeyOf(issue) == key then Some(i)
          else None
      {
        FirstIssueIndexAppend(issues[..i], issue, key);
      }
      var path := KeyOf(issue);
      if path !in errors {
        errors := errors[path := FieldError(issue.code, issue.message)];
      }
    }
    assert issues[..|issues|] == issues;
    if issues != [] {
      assert KeyOf(issues[0]) in errors;
    }
  }
}

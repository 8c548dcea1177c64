/** The offer calculation engine (src/lib/quoteEngine.ts): three lookup
    tables, the income cleaner, the loan, credit-card and insurance
    calculators, the dispatcher and the display summary. Money is `real`;
    `Math.round(x)` is `Floor(x + 0.5)` and `Math.pow` a recursive product. */
module QuoteEngine {
  import opened Types
  import opened JsText

  // ---------------------------------------------------------------------
  // Lookup tables. A key outside a table falls through `|| default`; the
  // explicit '' entry of each table equals that default.

  const CreditScores: set<string> := {"excellent", "good", "fair", "poor"}

  const EmploymentStatuses: set<string> := {"employed", "self-employed", "retired", "unemployed"}

  /** `CREDIT_SCORE_APR[creditScore]?.loan || 12.9` */
  function LoanApr(creditScore: string): (apr: real)
    ensures creditScore !in CreditScores ==> apr == 12.9
    ensures 5.9 <= apr <= 18.9
  {
    if creditScore == "excellent" then 5.9
    else if creditScore == "good" then 8.9
    else if creditScore == "fair" then 12.9
    else if creditScore == "poor" then 18.9
    else 12.9
  }

  /** `CREDIT_SCORE_APR[creditScore]?.creditCard || 21.9` */
  function CardApr(creditScore: string): (apr: real)
    ensures creditScore !in CreditScores ==> apr == 21.9
    ensures 14.9 <= apr <= 24.9
  {
    if creditScore == "excellent" then 14.9
    else if creditScore == "good" then 17.9
    else if creditScore == "fair" then 21.9
    else if creditScore == "poor" then 24.9
    else 21.9
  }

  /** `EMPLOYMENT_MULTIPLIER[employment] || 0.5` */
  function EmploymentMultiplier(employment: string): (m: real)
    ensures employment !in EmploymentStatuses ==> m == 0.5
    ensures 0.3 <= m <= 1.0
  {
    if employment == "employed" then 1.0
    else if employment == "self-employed" then 0.85
    else if employment == "retired" then 0.7
    else if employment == "unemployed" then 0.3
    else 0.5
  }

  /** `INSURANCE_BASE_RATE[creditScore] || 39`: monthly premium per $100,000 of cover. */
  function InsuranceBaseRate(creditScore: string): (rate: real)
    ensures creditScore !in CreditScores ==> rate == 39.0
    ensures 19.0 <= rate <= 65.0
  {
    if creditScore == "excellent" then 19.0
    else if creditScore == "good" then 29.0
    else if creditScore == "fair" then 45.0
    else if creditScore == "poor" then 65.0
    else 39.0
  }

  // ---------------------------------------------------------------------
  // Arithmetic helpers

  function Min(a: real, b: real): real { if a <= b then a else b }

  function Max(a: real, b: real): real { if a >= b then a else b }

  /** `Math.round(x)`: the nearest integer, halves rounded up. */
  function Round(x: real): (k: int)
    ensures x - 0.5 < k as real <= x + 0.5
  {
    (x + 0.5).Floor
  }

  lemma RoundMonotone(x: real, y: real)
    requires x <= y
    ensures Round(x) <= Round(y)
  {
  }

  /** `Math.round(x * 100) / 100`: to whole cents. */
  function RoundCents(x: real): (c: real)
    ensures x - 0.005 < c <= x + 0.005
    ensures (c * 100.0).Floor as real == c * 100.0
  {
    Round(x * 100.0) as real / 100.0
  }

  /** x is a whole number of dollars divisible by `step`. */
  predicate IsMultipleOf(x: real, step: nat)
    requires step > 0
  {
    x.Floor as real == x && x.Floor % step == 0
  }

  /** `Math.round(x / step) * step`: to the nearest multiple of `step`. */
  function RoundTo(x: real, step: nat): real
    requires step > 0
  {
    (Round(x / step as real) * step) as real
  }

  /** `Math.pow(b, n)` for a whole exponent. */
  function Pow(b: real, n: nat): real {
    if n == 0 then 1.0 else b * Pow(b, n - 1)
  }

  lemma {:induction false} PowAboveOne(b: real, n: nat)
    requires b > 1.0
    ensures Pow(b, n) >= 1.0
    ensures n >= 1 ==> Pow(b, n) > 1.0
  {
    if n >= 1 {
      PowAboveOne(b, n - 1);
      assert b * Pow(b, n - 1) >= b * 1.0;
    }
  }

  // ---------------------------------------------------------------------
  // Income parsing

  /** `parseIncome`: '' gives 0; otherwise only digits and '.' are kept and
      parsed as a float, NaN (and 0) giving 0. */
  function ParseIncome(incomeStr: string): (income: real)
    ensures income >= 0.0
    ensures !HasChar(incomeStr, IsDigit) ==> income == 0.0
  {
    var cleaned := KeepNumeric(incomeStr);
    ParseFloatNumeric(cleaned);
    FilterHasChar(IsNumericChar, IsDigit, incomeStr);
    if incomeStr == "" then 0.0
    else
      match ParseFloat(cleaned)
      case Finite(v) => v
      case _ => 0.0
  }

  /** A plain string of digits is read as its decimal value. */
  lemma ParseIncomeDigits(s: string)
    requires |s| > 0 && AllChars(s, IsDigit)
    ensures ParseIncome(s) == DigitsValue(s) as real
  {
    FilterKeepsAll(IsNumericChar, s);
    ParseFloatDigits(s);
  }

  /** The value of five decimal digits. */
  lemma DigitsValueFive(s: string)
    requires |s| == 5 && AllChars(s, IsDigit)
    ensures DigitsValue(s) as int ==
      (s[0] as int - '0' as int) * 10000 + (s[1] as int - '0' as int) * 1000
      + (s[2] as int - '0' as int) * 100 + (s[3] as int - '0' as int) * 10 + (s[4] as int - '0' as int)
  {
    assert DigitsValue(s[..1]) == s[0] as int - '0' as int by {
      assert s[..1][..0] == [];
    }
    assert DigitsValue(s[..2]) == DigitsValue(s[..1]) * 10 + (s[1] as int - '0' as int) by {
      assert s[..2][..1] == s[..1];
    }
    assert DigitsValue(s[..3]) == DigitsValue(s[..2]) * 10 + (s[2] as int - '0' as int) by {
      assert s[..3][..2] == s[..2];
    }
    assert DigitsValue(s[..4]) == DigitsValue(s[..3]) * 10 + (s[3] as int - '0' as int) by {
      assert s[..4][..3] == s[..3];
    }
    assert s[..5] == s;
  }

  /** Only the digits and dots of an income matter. */
  lemma ParseIncomeOnlyNumeric(s: string)
    ensures ParseIncome(s) == ParseIncome(KeepNumeric(s))
  {
    var t := KeepNumeric(s);
    FilterIdempotent(IsNumericChar, s);
    assert KeepNumeric(t) == t;
    if t == "" {
      ParseFloatEmpty();
      assert ParseIncome(t) == 0.0;
    } else {
      assert s != "";
      assert ParseIncome(t) == match ParseFloat(t) case Finite(v) => v case _ => 0.0;
    }
  }

  /** A five-digit income, as in the worked examples below. */
  lemma ParseIncomeFiveDigits(s: string)
    requires |s| == 5 && AllChars(s, IsDigit)
    ensures ParseIncome(s) ==
      ((s[0] as int - '0' as int) * 10000 + (s[1] as int - '0' as int) * 1000
      + (s[2] as int - '0' as int) * 100 + (s[3] as int - '0' as int) * 10 + (s[4] as int - '0' as int)) as real
  {
    DigitsValueFive(s);
    ParseIncomeDigits(s);
  }

  lemma DropComma()
    ensures KeepNumeric("75,000") == "75000"
  {
  }

  /** Thousands separators are ignored: "75,000" is 75,000. */
  lemma ParseIncomeWithComma(income: string)
    requires income == "75,000"
    ensures ParseIncome(income) == 75000.0
  {
    var cleaned := KeepNumeric(income);
    DropComma();
    ParseIncomeOnlyNumeric(income);
    ParseIncomeFiveDigits(cleaned);
  }

  // ---------------------------------------------------------------------
  // Monthly payment

  /** The exact annuity payment P·r·(1+r)^n / ((1+r)^n − 1). */
  function Annuity(principal: real, rate: real, months: nat): real
    requires rate > 0.0 && months > 0
  {
    PowAboveOne(1.0 + rate, months);
    principal * (rate * Pow(1.0 + rate, months)) / (Pow(1.0 + rate, months) - 1.0)
  }

  /** An amortizing payment is more than the interest alone. */
  lemma AnnuityCoversInterest(principal: real, rate: real, months: nat)
    requires principal >= 0.0 && rate > 0.0 && months > 0
    ensures Annuity(principal, rate, months) >= principal * rate
  {
    PowAboveOne(1.0 + rate, months);
    var q := Pow(1.0 + rate, months);
    var d := q - 1.0;
    var a := Annuity(principal, rate, months);
    assert a * d == principal * rate * q;
    assert principal * rate * q == principal * rate * d + principal * rate;
    if a < principal * rate {
      assert a * d < principal * rate * d;
    }
  }

  /** `calculateMonthlyPayment`: annual rate in percent, to whole cents;
      a zero rate gives principal / months, not rounded. The engine calls
      it only with a table APR and a 36/48/60-month term. */
  function MonthlyPayment(principal: real, annualRate: real, termMonths: nat): (payment: real)
    requires termMonths > 0 && annualRate >= 0.0
    ensures annualRate == 0.0 ==> payment * termMonths as real == principal
    ensures annualRate > 0.0 ==> (payment * 100.0).Floor as real == payment * 100.0
    ensures annualRate > 0.0 ==>
      var exact := Annuity(principal, annualRate / 1200.0, termMonths);
      exact - 0.005 < payment <= exact + 0.005
  {
    var monthlyRate := annualRate / 100.0 / 12.0;
    if monthlyRate == 0.0 then principal / termMonths as real
    else RoundCents(Annuity(principal, monthlyRate, termMonths))
  }

  /** A loan payment on a positive principal at a positive table APR is positive. */
  lemma MonthlyPaymentPositive(principal: real, annualRate: real, termMonths: nat)
    requires principal >= 5000.0 && annualRate >= 5.9 && termMonths > 0
    ensures MonthlyPayment(principal, annualRate, termMonths) > 0.0
  {
    var r := annualRate / 1200.0;
    AnnuityCoversInterest(principal, r, termMonths);
    assert principal * r >= 5000.0 * r;
  }

  // ---------------------------------------------------------------------
  // Offers

  datatype LoanOffer = LoanOffer(
    title: string, maxAmount: real, approvedAmount: real, apr: real,
    monthlyPayment: real, term: nat, icon: string)

  datatype CreditCardOffer = CreditCardOffer(
    title: string, creditLimit: real, introApr: real, regularApr: real,
    introPeriod: nat, cashBack: real, icon: string)

  datatype InsuranceOffer = InsuranceOffer(
    title: string, coverageAmount: real, monthlyPremium: real, termYears: nat, icon: string)

  /** CalculatedOffer: the `type` tag is the constructor. */
  datatype Offer = LoanQuote(loan: LoanOffer) | CardQuote(card: CreditCardOffer) | InsuranceQuote(insurance: InsuranceOffer)
  {
    function Type(): string {
      match this
      case LoanQuote(_) => "loan"
      case CardQuote(_) => "credit-card"
      case InsuranceQuote(_) => "insurance"
    }
  }

  // ---------------------------------------------------------------------
  // Loan

  /** The loan amount before the $5,000 minimum: income × 0.3 × multiplier,
      capped at 50,000, rounded to the nearest 1,000. */
  function LoanCandidate(income: real, multiplier: real): (amount: real)
    ensures IsMultipleOf(amount, 1000)
    ensures amount <= 50000.0
    ensures income >= 0.0 && multiplier >= 0.0 ==> amount >= 0.0
  {
    var capped := Min(income * 0.3 * multiplier, 50000.0);
    var amount := RoundTo(capped, 1000);
    assert income >= 0.0 && multiplier >= 0.0 ==> income * 0.3 * multiplier >= 0.0;
    amount
  }

  /** A larger income never gives a smaller loan. */
  lemma LoanCandidateMonotone(income1: real, income2: real, multiplier: real)
    requires 0.0 <= income1 <= income2 && multiplier >= 0.0
    ensures LoanCandidate(income1, multiplier) <= LoanCandidate(income2, multiplier)
  {
    assert income1 * 0.3 * multiplier <= income2 * 0.3 * multiplier;
    var c1, c2 := Min(income1 * 0.3 * multiplier, 50000.0), Min(income2 * 0.3 * multiplier, 50000.0);
    assert c1 / 1000.0 <= c2 / 1000.0;
    RoundMonotone(c1 / 1000.0, c2 / 1000.0);
    var k1, k2 := Round(c1 / 1000.0), Round(c2 / 1000.0);
    assert (k1 * 1000) as real <= (k2 * 1000) as real;
  }

  /** Loan term in months by amount. */
  function LoanTerm(amount: real): (months: nat)
    ensures months in {36, 48, 60}
  {
    if amount <= 10000.0 then 36 else if amount <= 25000.0 then 48 else 60
  }

  /** `calculateLoanOffer`. The term tier is chosen on the pre-minimum
      amount and the payment recomputed for $5,000 when the minimum
      applies; the result is consistent with the amount it shows. */
  function CalculateLoanOffer(step2: Step2Data): (offer: LoanOffer)
    ensures offer.maxAmount == 50000.0
    ensures 5000.0 <= offer.approvedAmount <= 50000.0 && IsMultipleOf(offer.approvedAmount, 1000)
    ensures offer.apr == LoanApr(step2.creditScoreRange)
    ensures offer.term == LoanTerm(offer.approvedAmount)
    ensures offer.monthlyPayment == MonthlyPayment(offer.approvedAmount, offer.apr, offer.term)
    ensures offer.monthlyPayment > 0.0
  {
    var income := ParseIncome(step2.annualIncome);
    var multiplier := EmploymentMultiplier(step2.employmentStatus);
    var approvedAmount := LoanCandidate(income, multiplier);
    var apr := LoanApr(step2.creditScoreRange);
    var term := LoanTerm(approvedAmount);
    var monthlyPayment := MonthlyPayment(approvedAmount, apr, term);
    var shown := Max(approvedAmount, 5000.0);
    assert IsMultipleOf(5000.0, 1000);
    MonthlyPaymentPositive(shown, apr, term);
    LoanOffer(
      "Personal Loan", 50000.0, shown, apr,
      if shown == 5000.0 then MonthlyPayment(5000.0, apr, term) else monthlyPayment,
      term, "\U{1F4B0}")
  }

  /** The $5,000 minimum: a pre-minimum amount at or below it is shown as
      5,000 with a 36-month term and the payment for 5,000; above it the
      amount is shown as computed. */
  lemma LoanMinimum(step2: Step2Data)
    ensures
      var candidate := LoanCandidate(ParseIncome(step2.annualIncome), EmploymentMultiplier(step2.employmentStatus));
      var offer := CalculateLoanOffer(step2);
      && offer.term == LoanTerm(candidate)
      && (candidate <= 5000.0 ==>
            offer.approvedAmount == 5000.0 && offer.term == 36
            && offer.monthlyPayment == MonthlyPayment(5000.0, offer.apr, 36))
      && (candidate > 5000.0 ==> offer.approvedAmount == candidate)
  {
  }

  // ---------------------------------------------------------------------
  // Credit card

  /** The credit limit before the $5,000 minimum: income × 0.15 ×
      multiplier, capped at 25,000, rounded to the nearest 500. */
  function CardCandidate(income: real, multiplier: real): (limit: real)
    ensures IsMultipleOf(limit, 500)
    ensures limit <= 25000.0
    ensures income >= 0.0 && multiplier >= 0.0 ==> limit >= 0.0
  {
    var capped := Min(income * 0.15 * multiplier, 25000.0);
    var limit := RoundTo(capped, 500);
    assert income >= 0.0 && multiplier >= 0.0 ==> income * 0.15 * multiplier >= 0.0;
    limit
  }

  /** `calculateCreditCardOffer`. Only excellent, good and fair scores get
      a 0% intro period; any other score, '' included, pays the regular APR. */
  function CalculateCreditCardOffer(step2: Step2Data): (offer: CreditCardOffer)
    ensures 5000.0 <= offer.creditLimit <= 25000.0 && IsMultipleOf(offer.creditLimit, 500)
    ensures offer.regularApr == CardApr(step2.creditScoreRange)
    ensures offer.introPeriod > 0 <==> step2.creditScoreRange in {"excellent", "good", "fair"}
    ensures offer.introPeriod > 0 ==> offer.introApr == 0.0
    ensures offer.introPeriod == 0 ==> offer.introApr == offer.regularApr && offer.cashBack == 0.5
    ensures offer.cashBack in {0.5, 1.0, 1.5, 2.0}
  {
    var income := ParseIncome(step2.annualIncome);
    var creditScore := step2.creditScoreRange;
    var multiplier := EmploymentMultiplier(step2.employmentStatus);
    var creditLimit := CardCandidate(income, multiplier);
    var regularApr := CardApr(creditScore);
    var (introApr, introPeriod, cashBack) :=
      if creditScore == "excellent" then (0.0, 21, 2.0)
      else if creditScore == "good" then (0.0, 15, 1.5)
      else if creditScore == "fair" then (0.0, 12, 1.0)
      else (regularApr, 0, 0.5);
    assert IsMultipleOf(5000.0, 500);
    var shown := Max(creditLimit, 5000.0);
    CreditCardOffer("Premium Credit Card", shown, introApr, regularApr, introPeriod, cashBack, "\U{1F4B3}")
  }

  /** The intro terms per credit tier. */
  lemma CardIntroTerms(step2: Step2Data)
    ensures
      var offer := CalculateCreditCardOffer(step2);
      var score := step2.creditScoreRange;
      && (score == "excellent" ==> offer.introPeriod == 21 && offer.cashBack == 2.0)
      && (score == "good" ==> offer.introPeriod == 15 && offer.cashBack == 1.5)
      && (score == "fair" ==> offer.introPeriod == 12 && offer.cashBack == 1.0)
      && (score !in CreditScores ==> offer.introApr == 21.9)
      && (score == "poor" ==> offer.introApr == 24.9)
  {
  }

  // ---------------------------------------------------------------------
  // Insurance

  /** The coverage before the $100,000 minimum: income × 10 × multiplier,
      capped at 1,000,000, rounded to the nearest 50,000. */
  function InsuranceCandidate(income: real, multiplier: real): (coverage: real)
    ensures IsMultipleOf(coverage, 50000)
    ensures coverage <= 1000000.0
    ensures income >= 0.0 && multiplier >= 0.0 ==> coverage >= 0.0
  {
    var capped := Min(income * 10.0 * multiplier, 1000000.0);
    var coverage := RoundTo(capped, 50000);
    assert income >= 0.0 && multiplier >= 0.0 ==> income * 10.0 * multiplier >= 0.0;
    coverage
  }

  /** The monthly premium for `coverage` at `baseRate` per $100,000, to whole cents. */
  function ScaledPremium(baseRate: real, coverage: real): real {
    RoundCents(baseRate * (coverage / 100000.0))
  }

  /** Coverage above the $100,000 minimum is at least $150,000, so its
      premium is at least 1.5 times the smallest base rate, well above $15. */
  lemma PremiumAboveMinimum(coverage: real, baseRate: real)
    requires IsMultipleOf(coverage, 50000) && baseRate >= 19.0
    ensures coverage > 100000.0 ==> coverage >= 150000.0 && ScaledPremium(baseRate, coverage) > 28.0
  {
    if coverage > 100000.0 {
      var ratio := coverage / 100000.0;
      assert ratio >= 1.5;
      assert (baseRate - 19.0) * ratio >= 0.0;
      assert baseRate * ratio >= 28.5;
    }
  }

  /** Policy term in years by coverage. */
  function InsuranceTerm(coverage: real): (years: nat)
    ensures years in {10, 20, 30}
  {
    if coverage <= 250000.0 then 10 else if coverage <= 500000.0 then 20 else 30
  }

  /** `calculateInsuranceOffer`. At the $100,000 minimum the premium is the
      base rate itself and the term 20 years; above it the premium is the
      per-$100,000 rate scaled to the coverage, and the $15 minimum premium
      never applies because that is always at least 1.5 × 19. */
  function CalculateInsuranceOffer(step2: Step2Data): (offer: InsuranceOffer)
    ensures 100000.0 <= offer.coverageAmount <= 1000000.0 && IsMultipleOf(offer.coverageAmount, 50000)
    ensures offer.termYears in {10, 20, 30}
    ensures offer.monthlyPremium >= 15.0
    ensures offer.coverageAmount == 100000.0 ==>
      offer.monthlyPremium == InsuranceBaseRate(step2.creditScoreRange) && offer.termYears == 20
    ensures offer.coverageAmount > 100000.0 ==>
      && offer.termYears == InsuranceTerm(offer.coverageAmount)
      && offer.monthlyPremium == ScaledPremium(InsuranceBaseRate(step2.creditScoreRange), offer.coverageAmount)
  {
    var income := ParseIncome(step2.annualIncome);
    var multiplier := EmploymentMultiplier(step2.employmentStatus);
    var coverageAmount := InsuranceCandidate(income, multiplier);
    var baseRate := InsuranceBaseRate(step2.creditScoreRange);
    var monthlyPremium := ScaledPremium(baseRate, coverageAmount);
    var termYears := InsuranceTerm(coverageAmount);
    var shown := Max(coverageAmount, 100000.0);
    assert IsMultipleOf(100000.0, 50000);
    PremiumAboveMinimum(coverageAmount, baseRate);
    InsuranceOffer(
      "Life Insurance", shown,
      if shown == 100000.0 then baseRate else Max(monthlyPremium, 15.0),
      if shown == 100000.0 then 20 else termYears,
      "\U{1F6E1}\U{FE0F}")
  }

  /** The $100,000 minimum: at or below it the shown coverage is 100,000;
      above it the coverage is shown as computed. */
  lemma InsuranceMinimum(step2: Step2Data)
    ensures
      var candidate := InsuranceCandidate(ParseIncome(step2.annualIncome), EmploymentMultiplier(step2.employmentStatus));
      var offer := CalculateInsuranceOffer(step2);
      && (candidate <= 100000.0 ==> offer.coverageAmount == 100000.0)
      && (candidate > 100000.0 ==> offer.coverageAmount == candidate)
  {
  }

  /** Income 10,000, employed, good credit: coverage 100,000, the
      minimum, which is given a 20-year term. */
  lemma InsuranceExampleAtMinimum(step2: Step2Data)
    requires step2 == Step2Data("employed", "10000", "good")
    ensures CalculateInsuranceOffer(step2).coverageAmount == 100000.0
    ensures CalculateInsuranceOffer(step2).termYears == 20
  {
    IncomeOf10000();
    CoverageAt10000();
    InsuranceMinimum(step2);
  }

  lemma IncomeOf10000()
    ensures ParseIncome("10000") == 10000.0
  {
    ParseIncomeFiveDigits("10000");
  }

  lemma CoverageAt10000()
    ensures InsuranceCandidate(10000.0, 1.0) == 100000.0
  {
    assert Round(100000.0 / 50000.0) == 2;
  }

  /** Income 15,000, employed, good credit: coverage 150,000, which is
      given a 10-year term. */
  lemma InsuranceExampleAboveMinimum(step2: Step2Data)
    requires step2 == Step2Data("employed", "15000", "good")
    ensures CalculateInsuranceOffer(step2).coverageAmount == 150000.0
    ensures CalculateInsuranceOffer(step2).termYears == 10
  {
    IncomeOf15000();
    CoverageAt15000();
    InsuranceMinimum(step2);
  }

  lemma IncomeOf15000()
    ensures ParseIncome("15000") == 15000.0
  {
    ParseIncomeFiveDigits("15000");
  }

  lemma CoverageAt15000()
    ensures InsuranceCandidate(15000.0, 1.0) == 150000.0
  {
    assert Round(150000.0 / 50000.0) == 3;
  }

  /** Coverage of $100,000 gets a 20-year term while $150,000 gets 10
      years: the term is not monotone in the coverage. */
  lemma InsuranceTermNotMonotone()
    ensures exists low: Step2Data, high: Step2Data ::
      CalculateInsuranceOffer(low).coverageAmount < CalculateInsuranceOffer(high).coverageAmount
      && CalculateInsuranceOffer(low).termYears > CalculateInsuranceOffer(high).termYears
  {
    var low, high := Step2Data("employed", "10000", "good"), Step2Data("employed", "15000", "good");
    InsuranceExampleAtMinimum(low);
    InsuranceExampleAboveMinimum(high);
  }



  // ---------------------------------------------------------------------
  // Dispatch, comparison and summary

  /** `calculateOffer`: 'credit-card' and 'insurance' pick their
      calculator; 'loan', '' and every other value give the loan. */
  function CalculateOffer(step2: Step2Data, step3: Step3Data): (offer: Offer)
    ensures offer.Type() == if step3.offerType in {"credit-card", "insurance"} then step3.offerType else "loan"
  {
    if step3.offerType == "loan" then LoanQuote(CalculateLoanOffer(step2))
    else if step3.offerType == "credit-card" then CardQuote(CalculateCreditCardOffer(step2))
    else if step3.offerType == "insurance" then InsuranceQuote(CalculateInsuranceOffer(step2))
    else LoanQuote(CalculateLoanOffer(step2))
  }

  datatype AllOffers = AllOffers(loan: LoanOffer, creditCard: CreditCardOffer, insurance: InsuranceOffer)

  /** `calculateAllOffers`: the three calculators side by side. */
  function CalculateAllOffers(step2: Step2Data): AllOffers {
    AllOffers(CalculateLoanOffer(step2), CalculateCreditCardOffer(step2), CalculateInsuranceOffer(step2))
  }

  /** The comparison view agrees with the single offer for every offer type. */
  lemma AllOffersAgreeWithOffer(step2: Step2Data, step3: Step3Data)
    ensures
      var all := CalculateAllOffers(step2);
      CalculateOffer(step2, step3) ==
        if step3.offerType == "credit-card" then CardQuote(all.creditCard)
        else if step3.offerType == "insurance" then InsuranceQuote(all.insurance)
        else LoanQuote(all.loan)
  {
  }

  /** A piece of display text. Numbers interpolated into a template and the
      two `Intl.NumberFormat` currency formats are kept as values. */
  datatype Piece = Lit(text: string) | Num(value: real) | Dollars(amount: real) | DollarsCents(amount: real)

  datatype OfferSummary = OfferSummary(title: string, amount: seq<Piece>, rate: seq<Piece>, icon: string, details: seq<Piece>)

  /** `getOfferSummary`: the display projection of an offer. */
  function GetOfferSummary(offer: Offer): (summary: OfferSummary)
    ensures offer.CardQuote? ==>
      (summary.rate == [Num(offer.card.introApr), Lit("% Intro APR")] <==> offer.card.introPeriod > 0)
  {
    match offer
    case LoanQuote(o) =>
      OfferSummary(
        o.title, [Dollars(o.approvedAmount)], [Num(o.apr), Lit("% APR")], o.icon,
        [Num(o.term as real), Lit(" months \U{2022} "), DollarsCents(o.monthlyPayment), Lit("/mo")])
    case CardQuote(o) =>
      OfferSummary(
        o.title, [Dollars(o.creditLimit), Lit(" Limit")],
        if o.introPeriod > 0 then [Num(o.introApr), Lit("% Intro APR")] else [Num(o.regularApr), Lit("% APR")],
        o.icon,
        if o.introPeriod > 0 then [Num(o.introPeriod as real), Lit(" months intro \U{2022} "), Num(o.cashBack), Lit("% cash back")]
        else [Num(o.cashBack), Lit("% cash back")])
    case InsuranceQuote(o) =>
      OfferSummary(
        o.title, [Dollars(o.coverageAmount), Lit(" Coverage")], [DollarsCents(o.monthlyPremium), Lit("/month")],
        o.icon, [Num(o.termYears as real), Lit(" year term")])
  }

  /** The card summary advertises an intro APR exactly for the excellent,
      good and fair tiers, and then it advertises 0%. */
  lemma CardSummaryShowsIntro(step2: Step2Data)
    ensures
      var summary := GetOfferSummary(CardQuote(CalculateCreditCardOffer(step2)));
      && (summary.rate == [Num(0.0), Lit("% Intro APR")] <==> step2.creditScoreRange in {"excellent", "good", "fair"})
      && (step2.creditScoreRange !in {"excellent", "good", "fair"} ==>
            summary.rate == [Num(CardApr(step2.creditScoreRange)), Lit("% APR")])
  {
  }

  // ---------------------------------------------------------------------
  // Worked examples

  /** Income "75000", employed, good credit: 75000 × 0.3 = 22,500 rounds
      half up to 23,000; 48 months at 8.9%. */
  lemma LoanExampleGoodCredit(step2: Step2Data)
    requires step2 == Step2Data("employed", "75000", "good")
    ensures
      var offer := CalculateLoanOffer(step2);
      offer.approvedAmount == 23000.0 && offer.term == 48 && offer.apr == 8.9
  {
    IncomeOf75000();
    LoanAt75000();
    LoanMinimum(step2);
  }

  lemma IncomeOf75000()
    ensures ParseIncome("75000") == 75000.0
  {
    ParseIncomeFiveDigits("75000");
  }

  lemma LoanAt75000()
    ensures LoanCandidate(75000.0, 1.0) == 23000.0
  {
    assert Round(22500.0 / 1000.0) == 23;
  }

  /** All fields unset: income 0, so the $5,000 minimum at the default 12.9% over 36 months. */
  lemma LoanExampleUnset()
    ensures
      var offer := CalculateLoanOffer(Step2Data("", "", ""));
      offer.approvedAmount == 5000.0 && offer.term == 36 && offer.apr == 12.9
  {
  }
}

# Offer-unlock: a verified model of the onboarding and quote core

The app walks a user through sign-up or login, a three-step wizard
(personal details, income, preferences) and then reveals a personalised
offer: a personal loan, a credit card or life insurance. This project
models, in Dafny, the parts of the app that decide things:

- `quote_engine.dfy` (module `QuoteEngine`) — the rate tables, income
  parsing, the annuity payment and the three offer calculators of
  `src/lib/quoteEngine.ts`, the dispatch on the chosen offer type, the
  comparison of all three offers, and the structure of the offer summary.
- `schemas.dfy` (module `Schemas`) — the zod schemas of
  `src/lib/schemas.ts` as acceptance predicates, and `safeZodResolver` as a
  loop that folds validation issues into a map of first errors per field.
- `wizard_store.dfy` (module `Wizard`) — the wizard store
  (`useOnboardingStore` and its duplicate `useWizardStore`) as a class whose
  methods are proved against a pure transition function `Apply`.
- `hydration.dfy` (module `Hydration`) — the hydration gate every persisted
  store keeps: a flag plus a queue of callbacks flushed once on rehydration.
- `session_store.dfy` (module `Session`) — the mock authentication store
  (`useSessionStore` and its duplicate `useAuthStore`): the `mockUsers`
  table keyed by lower-cased username, sign-up, login, logout, account
  deletion and clearing the error.
- `income_field.dfy` (module `IncomeField`) — the thousands-separator
  formatter and the keystroke filter of the annual-income field.
- `root_navigator.dfy` (module `RootNavigator`) — the initial route and the
  readiness check that waits for the session and onboarding stores.
- `js_text.dfy` (module `JsText`) and `types.dfy` (module `Types`) — the
  JavaScript string operations the core relies on (`replace` with a
  character class, `split`/`join`, ASCII `toLowerCase`, UTF-16 `length`,
  `parseFloat`) and the shared records of `src/types`.

Money and rates are real numbers; `Math.round(x)` is `⌊x + 0.5⌋`. The
clock, `Date.now()` and the storage layer are parameters or left out (see
below). The duplicated store files carry the same logic, so one model
serves both; the table cites each file.

## Model

| member | source | states |
|---|---|---|
| QuoteEngine.LoanApr | src/lib/quoteEngine.ts:4-10 | a score outside excellent/good/fair/poor (including '') gets the default loan APR 12.9; every loan APR is in [5.9, 18.9] |
| QuoteEngine.CardApr | src/lib/quoteEngine.ts:4-10 | an unknown score gets card APR 21.9; every card APR is in [14.9, 24.9] |
| QuoteEngine.EmploymentMultiplier | src/lib/quoteEngine.ts:12-18 | an unknown employment status gets multiplier 0.5; every multiplier is in [0.3, 1.0] |
| QuoteEngine.InsuranceBaseRate | src/lib/quoteEngine.ts:20-26 | an unknown score gets base rate 39; every base rate is in [19, 65] |
| QuoteEngine.Round | src/lib/quoteEngine.ts:110 | `Math.round` yields the integer within half a unit, halves going up |
| QuoteEngine.RoundMonotone | src/lib/quoteEngine.ts:110 | rounding never reverses the order of two amounts |
| QuoteEngine.RoundCents | src/lib/quoteEngine.ts:97 | rounding to cents moves the value by at most half a cent and leaves a whole number of cents |
| QuoteEngine.RoundTo | src/lib/quoteEngine.ts:110 | `Math.round(x / step) * step` |
| QuoteEngine.PowAboveOne | src/lib/quoteEngine.ts:94-95 | `(1+r)^n` exceeds 1 for r > 0 and n ≥ 1, so the annuity denominator is positive |
| QuoteEngine.ParseIncome | src/lib/quoteEngine.ts:61-65 | the parsed income is never negative, and an income string with no digit (including '') is 0 |
| QuoteEngine.ParseIncomeDigits | src/lib/quoteEngine.ts:61-65 | a plain digit string is read as its decimal value |
| QuoteEngine.ParseIncomeOnlyNumeric | src/lib/quoteEngine.ts:63 | only the digits and dots of the income matter: any other character is dropped before parsing |
| QuoteEngine.ParseIncomeFiveDigits | src/lib/quoteEngine.ts:61-65 | a five-digit income is read digit by digit as its decimal value |
| QuoteEngine.DigitsValueFive | src/lib/quoteEngine.ts:64 | the decimal value of five digits, written out place by place |
| QuoteEngine.DropComma | src/lib/quoteEngine.ts:63 | "75,000" loses its comma before parsing |
| QuoteEngine.ParseIncomeWithComma | src/lib/quoteEngine.ts:61-65 | "75,000" is read as 75000 |
| QuoteEngine.AnnuityCoversInterest | src/lib/quoteEngine.ts:93-95 | the exact annuity payment is at least the first month's interest P·r |
| QuoteEngine.Annuity | src/lib/quoteEngine.ts:93-95 | the exact annuity payment P·r·(1+r)ⁿ/((1+r)ⁿ−1) |
| QuoteEngine.Pow | src/lib/quoteEngine.ts:94 | `Math.pow` with a whole exponent, as repeated multiplication |
| QuoteEngine.MonthlyPayment | src/lib/quoteEngine.ts:85-98 | at APR 0 the payment times the term is the principal (unrounded); otherwise it is within half a cent of P·r·(1+r)ⁿ/((1+r)ⁿ−1) with r = apr/1200, in whole cents |
| QuoteEngine.MonthlyPaymentPositive | src/lib/quoteEngine.ts:113-123 | a principal of at least 5000 at a table APR has a positive payment |
| QuoteEngine.LoanCandidate | src/lib/quoteEngine.ts:107-110 | the pre-minimum loan amount is a whole multiple of 1000, at most 50000, and not negative for a non-negative income |
| QuoteEngine.LoanCandidateMonotone | src/lib/quoteEngine.ts:107-110 | a larger income never gives a smaller loan |
| QuoteEngine.LoanTerm | src/lib/quoteEngine.ts:112 | the term is 36, 48 or 60 months |
| QuoteEngine.CalculateLoanOffer | src/lib/quoteEngine.ts:100-127 | maxAmount is 50000; the approved amount is a multiple of 1000 in [5000, 50000]; the APR is the table APR; the term is the tier of the approved amount; the payment is the annuity payment for that amount, APR and term, and it is positive |
| QuoteEngine.LoanMinimum | src/lib/quoteEngine.ts:112-123 | the term is chosen from the pre-minimum amount; when that is at most 5000 the offer shows 5000, 36 months and the payment recomputed for 5000; otherwise it shows the computed amount |
| QuoteEngine.LoanExampleGoodCredit | src/lib/quoteEngine.ts:107-124 | employed, income "75000", good credit: 23000 over 48 months at 8.9% |
| QuoteEngine.LoanExampleUnset | src/lib/quoteEngine.ts:103-124 | all fields empty: the 5000 minimum over 36 months at the default 12.9% |
| QuoteEngine.CardCandidate | src/lib/quoteEngine.ts:136-139 | the pre-minimum credit limit is a multiple of 500, at most 25000, and not negative for a non-negative income |
| QuoteEngine.CalculateCreditCardOffer | src/lib/quoteEngine.ts:129-174 | the limit is a multiple of 500 in [5000, 25000]; the regular APR is the table APR; there is an intro period exactly for excellent, good and fair, and then the intro APR is 0; otherwise the intro APR equals the regular APR and cash back is 0.5 |
| QuoteEngine.CardIntroTerms | src/lib/quoteEngine.ts:142-162 | excellent/good/fair give intro periods 21/15/12 and cash back 2/1.5/1; an unknown score gets intro APR 21.9 and poor gets 24.9 |
| QuoteEngine.InsuranceCandidate | src/lib/quoteEngine.ts:183-186 | the pre-minimum coverage is a multiple of 50000, at most 1000000, and not negative for a non-negative income |
| QuoteEngine.PremiumAboveMinimum | src/lib/quoteEngine.ts:188-197 | coverage above the minimum is at least 150000, so its scaled premium exceeds 28 and the 15 floor never applies |
| QuoteEngine.InsuranceTerm | src/lib/quoteEngine.ts:189 | the policy term is 10, 20 or 30 years |
| QuoteEngine.CalculateInsuranceOffer | src/lib/quoteEngine.ts:176-201 | coverage is a multiple of 50000 in [100000, 1000000]; the term is 10, 20 or 30; the premium is at least 15; at the 100000 minimum the premium is the base rate and the term 20; above it the term follows the coverage tier and the premium is the base rate scaled to the coverage, in cents |
| QuoteEngine.InsuranceMinimum | src/lib/quoteEngine.ts:194-198 | a pre-minimum coverage at or below 100000 is shown as 100000, a larger one as computed |
| QuoteEngine.InsuranceExampleAtMinimum | src/lib/quoteEngine.ts:183-198 | employed, income "10000", good credit: coverage 100000 over 20 years |
| QuoteEngine.InsuranceExampleAboveMinimum | src/lib/quoteEngine.ts:183-198 | employed, income "15000", good credit: coverage 150000 over 10 years |
| QuoteEngine.InsuranceTermNotMonotone | src/lib/quoteEngine.ts:189-198 | there are two applicants where the smaller coverage gets the longer term (100000 → 20 years, 150000 → 10 years) |
| QuoteEngine.CalculateOffer | src/lib/quoteEngine.ts:203-219 | the offer's type is the requested 'credit-card' or 'insurance', and 'loan' for 'loan', '' and every other value |
| QuoteEngine.AllOffersAgreeWithOffer | src/lib/quoteEngine.ts:260-272 | each offer of the comparison equals the single offer computed for that offer type |
| QuoteEngine.CalculateAllOffers | src/lib/quoteEngine.ts:260-272 | the loan, card and insurance offers computed side by side |
| QuoteEngine.GetOfferSummary | src/lib/quoteEngine.ts:221-258 | a card summary shows the intro APR exactly when the intro period is positive |
| QuoteEngine.CardSummaryShowsIntro | src/lib/quoteEngine.ts:241-247 | the card summary advertises "0% Intro APR" exactly for excellent, good and fair, and the regular table APR otherwise |
| Schemas.NameOkCharacterised | src/lib/schemas.ts:31-42 | a first or last name is accepted iff it has 2 to 50 characters, all ASCII letters, whitespace, '-' or '\'' |
| Schemas.NameOk | src/lib/schemas.ts:31-42 | a name passes with 2 to 50 code units of letters, whitespace, '-' and '\'' |
| Schemas.NameTestCases | __tests__/unit/validation.test.ts:22-48 | 'John', 'Doe', 'Mary-Jane' and "O'Brien" are accepted; 'A', 'John123' and '' are not |
| Schemas.DateOfBirthOk | src/lib/schemas.ts:43-64 | the date of birth as written: non-empty, parsed, calendar-year difference at least 18, and not after today |
| Schemas.DateOfBirthOfAge | src/lib/schemas.ts:43-64 | the intended check: non-empty, parsed, at least 18 completed years, and not after today |
| Schemas.AgeInYears | src/lib/schemas.ts:49-52 | completed years of age differ from the calendar-year difference by at most one, and are never negative for a birth date not after today |
| Schemas.DateOfBirthOfAgeStricter | src/lib/schemas.ts:43-64 | the full-age check accepts only what the written check accepts, and the two differ only for applicants turning 18 later in the current calendar year |
| Schemas.UnderageAccepted | src/lib/schemas.ts:46-55 | someone born 2008-12-31 is 17 on 2026-01-01, yet the written calendar-year check accepts them |
| Schemas.Step1Ok | src/lib/schemas.ts:30-65 | `step1Schema` as written: both names and the calendar-year date-of-birth check |
| Schemas.Step1OkIntended | src/lib/schemas.ts:30-65 | `step1Schema` with the full-age check |
| Schemas.Step1OkIntendedStricter | src/lib/schemas.ts:30-65 | the intended schema accepts only what the written one accepts, and they part only when the calendar-year difference is 18 and the applicant is 17 |
| Schemas.Step1TestCases | __tests__/unit/validation.test.ts:10-76 | the test form passes on any day from 2008 on; a birth date exactly 17 years back, an empty one and one a year ahead fail |
| Schemas.StripCommaDollar | src/lib/schemas.ts:86 | removing ',' and '$' leaves neither character |
| Schemas.IncomeOk | src/lib/schemas.ts:81-90 | a non-empty income whose leading number, after removing ',' and '$', is not NaN and not negative |
| Schemas.Step2Ok | src/lib/schemas.ts:73-98 | a listed employment status, a valid income and a listed credit-score range |
| Schemas.Step2TestCases | __tests__/unit/validation.test.ts:86-125 | every listed status and score range passes with income "75000" and with "75,000" |
| Schemas.Step2RejectedCases | __tests__/unit/validation.test.ts:91-117 | an unknown status, an unknown score range and an empty income fail |
| Schemas.DigitIncomeAgrees | src/lib/schemas.ts:81-90 | a plain digit string is a valid income, and the validator and the quote engine read the same amount from it |
| Schemas.ValidatorReadsLeadingNumber | src/lib/schemas.ts:84-88 | the validator reads only the leading number: "5 000" passes as 5 |
| Schemas.EngineDropsSpaces | src/lib/quoteEngine.ts:61-65 | the quote engine drops the space: "5 000" is 5000 |
| Schemas.IncomeReadingsDiffer | src/lib/schemas.ts:84-88 | some income the validator accepts is read as a different amount by the quote engine |
| Schemas.Step3Ok | src/lib/schemas.ts:106-124 | a listed offer type, a listed contact preference and the terms accepted |
| Schemas.Step3TestCases | __tests__/unit/validation.test.ts:128-170 | each listed offer type and contact preference passes with the terms accepted; an unknown value or unaccepted terms fail |
| Schemas.AcceptedOfferTypeIsQuoted | src/lib/schemas.ts:106-124 | for every accepted step-3 form the engine quotes the requested product |
| Schemas.UsernameOkCharacterised | src/lib/schemas.ts:128-135 | a username is accepted iff it has 3 to 20 characters, all letters, digits or '_' |
| Schemas.UsernameOk | src/lib/schemas.ts:128-135 | 3 to 20 code units of letters, digits and '_' |
| Schemas.UsernameTestCases | __tests__/unit/validation.test.ts:185-204 | 'john_doe' and 'john_doe_123' pass; 'ab', 21 letters and 'john@doe' fail |
| Schemas.PhoneOk | src/lib/schemas.ts:140-146 | an optional '+', a digit 1-9, then 1 to 14 digits |
| Schemas.PhoneShape | src/lib/schemas.ts:140-146 | an accepted phone number has 2 to 16 characters, starts with '+' or a digit 1-9, and is digits after that |
| Schemas.PhonePlusOptional | src/lib/schemas.ts:143-145 | 2 to 15 digits with no leading zero are accepted with or without a leading '+' |
| Schemas.PhoneTestCases | __tests__/unit/validation.test.ts:223-238 | the three international numbers pass; 'notaphone', 'abc', 'phone@123' and '++1234567890' fail |
| Schemas.PasswordOk | src/lib/schemas.ts:147-156 | at least 8 code units with an uppercase letter, a lowercase letter, a digit and a special character |
| Schemas.PasswordHasFourClasses | src/lib/schemas.ts:147-156 | an accepted password has an uppercase letter, a lowercase letter, a digit and a special character at four positions, four pairwise different characters |
| Schemas.PasswordTestCases | __tests__/unit/validation.test.ts:240-264 | 'Password1!' passes; 'Short1!', 'password1!', 'PASSWORD1!', 'Password!' and 'Password1' each fail |
| Schemas.SignUpOk | src/lib/schemas.ts:127-157 | username, non-empty e-mail in a valid format, phone and password all pass |
| Schemas.LoginOk | src/lib/schemas.ts:160-167 | identifier and password both non-empty |
| Schemas.LoginTestCases | __tests__/unit/validation.test.ts:267-292 | an e-mail or a username with a password passes; an empty identifier or password fails |
| Schemas.SignUpCredentialsLogIn | src/lib/schemas.ts:127-167 | any accepted sign-up form yields accepted login forms with its username or its e-mail |
| Schemas.FirstIssueIndex | src/lib/schemas.ts:15-17 | the index found is the first issue whose joined path is the key, and none is found only when no issue has that key |
| Schemas.FirstIssueIndexAppend | src/lib/schemas.ts:17 | appending an issue keeps an existing first issue and otherwise makes the new issue first for its key |
| Schemas.ResolveIssues | src/lib/schemas.ts:8-26 | the errors map is empty iff there are no issues; its keys are exactly the joined issue paths, each mapped to the code and message of the first issue with that path |
| Wizard.OverlayTwice | src/state/useOnboardingStore.ts:52 | spreading two patches one after the other is spreading their combination |
| Wizard.MergeStep1Twice | src/state/useOnboardingStore.ts:48-55 | a second step-1 update keeps every field the first set unless it sets that field itself |
| Wizard.Apply | src/state/useOnboardingStore.ts:44-85 | setCurrentStep changes only the step; completeWizard only sets the flag; resetWizard gives step 1, empty data, not completed; updateStepK merges its patch into step K field by field and touches no other step |
| Wizard.UpdateStep1Fields | src/state/useOnboardingStore.ts:48-55 | an update writes exactly the fields its patch carries and keeps the others |
| Wizard.UpdateStep2Fields | src/state/useOnboardingStore.ts:57-64 | a step-2 update writes exactly the fields its patch carries and keeps the others |
| Wizard.UpdateStep3Fields | src/state/useOnboardingStore.ts:66-73 | a step-3 update writes exactly the fields its patch carries and keeps the others |
| Wizard.EmptyPatchesChangeNothing | src/store/useWizardStore.ts:49-74 | an empty patch changes no state |
| Wizard.UpdatesOfDifferentStepsCommute | src/store/useWizardStore.ts:49-74 | updates to different steps can be applied in either order |
| Wizard.CompleteAndResetIdempotent | src/store/useWizardStore.ts:76-86 | completing twice is completing once; reset from any state gives the initial state, and twice is once |
| Wizard.ResetForgetsHistory | src/state/useOnboardingStore.ts:79-85 | whatever came before a reset, the actions after it act as on a fresh store |
| Wizard.FieldByFieldKeepsEarlierFields | src/state/useOnboardingStore.ts:48-64 | filling the form one field at a time keeps every earlier field |
| Wizard.WizardStore.constructor | src/state/useOnboardingStore.ts:19-42 | a fresh store has step 1, empty strings, terms not accepted, not completed |
| Wizard.WizardStore.SetCurrentStep | src/state/useOnboardingStore.ts:44-46 | the new persisted state is `Apply` of the old one with setCurrentStep: no range check |
| Wizard.WizardStore.UpdateStep1 | src/state/useOnboardingStore.ts:48-55 | the new persisted state is `Apply` of the old one with the step-1 patch |
| Wizard.WizardStore.UpdateStep2 | src/state/useOnboardingStore.ts:57-64 | the new persisted state is `Apply` of the old one with the step-2 patch |
| Wizard.WizardStore.UpdateStep3 | src/state/useOnboardingStore.ts:66-73 | the new persisted state is `Apply` of the old one with the step-3 patch |
| Wizard.WizardStore.CompleteWizard | src/state/useOnboardingStore.ts:75-77 | the new persisted state is `Apply` of the old one with completeWizard |
| Wizard.WizardStore.ResetWizard | src/state/useOnboardingStore.ts:79-85 | the new persisted state is `Apply` of the old one with resetWizard |
| Wizard.ResetScenario | src/store/useWizardStore.ts:45-86 | filling all steps, moving to step 3, completing and resetting leaves exactly the initial persisted state |
| Hydration.Register | src/state/useOnboardingStore.ts:9-15 | registering keeps the flag; before hydration the callback is queued and not run; after hydration it runs at once and nothing is queued |
| Hydration.Flush | src/state/useOnboardingStore.ts:95-99 | rehydration sets the flag and runs every waiting callback in order, leaving none waiting |
| Hydration.Run | src/state/useSessionStore.ts:9-15 | the gate after a sequence of registrations and rehydrations, from its initial state |
| Hydration.RunAccountsForEveryCallback | src/store/useWizardStore.ts:10-100 | over any sequence of registrations and rehydrations, no callback is lost, duplicated or reordered; the gate is hydrated iff a rehydration happened, and then nothing waits |
| Hydration.AfterRehydrationAllRan | src/store/useWizardStore.ts:96-100 | after a rehydration every registered callback has run exactly once, in order |
| Hydration.LateCallbackRunsImmediately | src/store/useAuthStore.ts:10-16 | a callback registered after hydration runs at once |
| Hydration.NothingRunsBeforeRehydration | src/state/useSessionStore.ts:9-15 | until a rehydration no callback has run, the gate is not hydrated, and every registration waits in the queue in order |
| Hydration.Gate.constructor | src/state/useSessionStore.ts:6-7 | a new gate is not hydrated and holds no callbacks |
| Hydration.Gate.IsHydrated | src/state/useSessionStore.ts:17 | reports the gate's flag |
| Hydration.Gate.OnHydration | src/state/useSessionStore.ts:9-15 | the gate's new state is `Register` of the old one |
| Hydration.Gate.Rehydrate | src/state/useSessionStore.ts:164-168 | the loop leaves the gate in `Flush` of its old state |
| Session.Without | src/state/useSessionStore.ts:143 | removing a key keeps every other key and no duplicates; a key not present leaves the order unchanged |
| Session.WithoutRemovesOne | src/state/useSessionStore.ts:143 | removing a key that occurs once closes its gap: the keys before it and after it stay, in their order |
| Session.Put | src/state/useSessionStore.ts:77-80 | `Map.set` stores the entry; a new key goes to the end of the order, an existing key keeps its place; the key order stays well formed |
| Session.Delete | src/store/useAuthStore.ts:159 | `Map.delete` removes exactly that key and keeps the key order well formed; an absent key leaves the order unchanged |
| Session.DeleteClosesGap | src/store/useAuthStore.ts:159 | deleting a stored key removes it from its position in the order, the remaining keys keeping their order |
| Session.FindEmail | src/state/useSessionStore.ts:105-107 | the scan returns the first account in insertion order whose e-mail matches ignoring case, and finds none only when no account matches |
| Session.FindEmailIffTaken | src/state/useSessionStore.ts:63-65 | the `find` scan succeeds exactly when the `some` test says the e-mail is taken |
| Session.FindEmailOnlyMatch | src/store/useAuthStore.ts:121-123 | when exactly one account has the e-mail, the scan returns that account |
| Session.Lookup | src/state/useSessionStore.ts:102-109 | the lower-cased identifier as a username key wins, whatever the e-mails say; when it is not a key, the result is the e-mail scan in insertion order |
| Session.SignUpCheck | src/state/useSessionStore.ts:59-68 | 'Username already taken' iff the lower-cased username is a key; otherwise 'Email already registered' iff an e-mail matches ignoring case; otherwise success (src/store/useAuthStore.ts:66-76 makes the same checks) |
| Session.NewUser | src/state/useSessionStore.ts:70-75 | the new user record: id 'user_' followed by the stamp, and the username, e-mail and phone as given |
| Session.SignUpTable | src/state/useSessionStore.ts:59-81 | the table after sign-up: the new account under the lower-cased username when the checks pass, else unchanged |
| Session.LoginCheck | src/state/useSessionStore.ts:111-117 | login succeeds iff the lookup finds an entry whose password equals the one given; every failure is 'Invalid credentials' (the same in src/store/useAuthStore.ts:126-132) |
| Session.SignUpKeepsUnique | src/state/useSessionStore.ts:59-81 | a sign-up keeps every entry under its own lower-cased username and no two entries sharing an e-mail up to case |
| Session.DeleteKeepsUnique | src/store/useAuthStore.ts:155-161 | deleting an account keeps those uniqueness properties |
| Session.SignUpThenLogIn | src/state/useSessionStore.ts:70-124 | after a successful sign-up, logging in with that username and password succeeds and finds the new user |
| Session.SignUpThenLogInByEmail | src/store/useAuthStore.ts:79-139 | after a successful sign-up, logging in with the new e-mail in any case succeeds, unless that text is itself a username key |
| Session.NewEmailFound | src/store/useAuthStore.ts:79-139 | after a successful sign-up the table stays well formed and the e-mail scan, in any case, finds exactly the new account |
| Session.UsernameTakesPrecedence | src/store/useAuthStore.ts:117-132 | a username key with another password fails even if an account with that e-mail has the given password |
| Session.SessionStore.constructor | src/state/useSessionStore.ts:43-51 | a new store holds the accounts read back and no session |
| Session.SessionStore.FindByEmail | src/state/useSessionStore.ts:105-107 | the loop returns `FindEmail` over the keys in insertion order |
| Session.SessionStore.SignUp | src/state/useSessionStore.ts:53-94 | the outcome is `SignUpCheck`; the table becomes the sign-up table (unchanged on failure); success authenticates the new user with loading off and no error; failure turns loading off, records the message and keeps user and authentication |
| Session.SessionStore.Login | src/state/useSessionStore.ts:96-130 | the table is unchanged; the outcome is `LoginCheck`; success signs in the found user with loading off and no error; failure turns loading off, records 'Invalid credentials' and keeps user and authentication |
| Session.SessionStore.Logout | src/state/useSessionStore.ts:132-138 | clears user, authentication and error; keeps the table and the loading flag |
| Session.SessionStore.DeleteAccount | src/state/useSessionStore.ts:140-151 | removes the signed-in user's lower-cased key, if any, then clears the session as logout does |
| Session.SessionStore.ClearError | src/state/useSessionStore.ts:153-155 | only the error is cleared |
| IncomeField.RemoveCommas | src/screens/wizard/Step2IncomeDetails.tsx:92 | the result holds no comma |
| IncomeField.GroupThousands | src/screens/wizard/Step2IncomeDetails.tsx:92 | grouping never shortens the digits |
| IncomeField.GroupsShape | src/screens/wizard/Step2IncomeDetails.tsx:92 | the grouped digits are the groups joined by commas: the first has 1 to 3 digits, the rest exactly 3 |
| IncomeField.GroupThousandsRemoveCommas | src/screens/wizard/Step2IncomeDetails.tsx:92 | grouping only inserts commas |
| IncomeField.GroupThousandsShape | src/screens/wizard/Step2IncomeDetails.tsx:92 | split at the commas, the grouped whole part is 1 to 3 digits and then full groups of 3: a comma precedes each full group of three from the right and never stands first |
| IncomeField.FirstDot | src/screens/wizard/Step2IncomeDetails.tsx:91 | the position of the first '.', or the length |
| IncomeField.FormatCurrencyParts | src/screens/wizard/Step2IncomeDetails.tsx:85-93 | the formatted text is the grouped part before the first '.', then everything from that '.' on, unchanged |
| IncomeField.FormatCurrency | src/screens/wizard/Step2IncomeDetails.tsx:85-94 | the shown income: digits and dots only, '' when none, the part before the first '.' grouped in thousands |
| IncomeField.FirstDotIsSplitHead | src/screens/wizard/Step2IncomeDetails.tsx:91 | the first piece of `split('.')` ends at the first '.' |
| IncomeField.FormatCurrencyEmpty | src/screens/wizard/Step2IncomeDetails.tsx:87-88 | the shown text is '' exactly when no digit or '.' was typed |
| IncomeField.FormatCurrencyRemoveCommas | src/screens/wizard/Step2IncomeDetails.tsx:87-93 | deleting the commas from the shown text gives back the digits and dots of the input, in order |
| IncomeField.FormatCurrencyWholePart | src/screens/wizard/Step2IncomeDetails.tsx:91-92 | before the first '.', the shown text is the whole part grouped in thousands |
| IncomeField.OnChangeText | src/screens/wizard/Step2IncomeDetails.tsx:137 | the stored value holds only digits and '.' |
| IncomeField.StoredValueDisplaysAsTyped | src/screens/wizard/Step2IncomeDetails.tsx:136-137 | filtering the stored value again changes nothing, and it is displayed as the raw text would be |
| IncomeField.FormatExample | src/screens/wizard/Step2IncomeDetails.tsx:85-93 | "75000" is shown as "75,000" |
| IncomeField.JoinSnoc | src/screens/wizard/Step2IncomeDetails.tsx:93 | joining one more piece appends the separator and the piece |
| RootNavigator.GetInitialRoute | src/navigation/RootNavigator.tsx:40-48 | 'Home' iff authenticated with the wizard completed, 'Wizard' iff authenticated without it, 'Auth' iff not authenticated; nothing else |
| RootNavigator.CheckHydration | src/navigation/RootNavigator.tsx:22-26 | the navigator becomes ready iff it was or both stores report hydrated |
| RootNavigator.Mount | src/navigation/RootNavigator.tsx:21-30 | the mount effect: check once, then register the check with the session gate and the onboarding gate |
| RootNavigator.Rehydrated | src/state/useSessionStore.ts:164-168 | one store's rehydration flushes its gate, running the check if it waits there |
| RootNavigator.MountWaits | src/navigation/RootNavigator.tsx:28-30 | after mounting, the check waits on exactly the gates not yet hydrated, and the navigator is ready iff both are |
| RootNavigator.ReplayWaits | src/navigation/RootNavigator.tsx:22-30 | rehydrations keep that waiting relation, and a gate is hydrated iff it was or its store rehydrated |
| RootNavigator.ReadyIffBothHydrated | src/navigation/RootNavigator.tsx:22-30 | apart from the timer, the navigator becomes ready exactly when both the session and the onboarding store have been hydrated, in either order |
| JsText.ParseFloatNumeric | src/lib/quoteEngine.ts:64 | on digits and dots `parseFloat` is NaN or a finite non-negative number, finite iff a digit comes first or right after a leading '.' |
| JsText.ParseFloatDigits | src/lib/schemas.ts:86 | `parseFloat` of a digit string is its decimal value |
| JsText.ParseFloat | src/lib/schemas.ts:86 | `parseFloat`: leading whitespace, sign, "Infinity", then the longest decimal prefix, NaN when there is none |
| JsText.KeepNumeric | src/lib/quoteEngine.ts:63 | `replace(/[^0-9.]/g, '')`: only digits and dots remain, in order |
| JsText.Split | src/screens/wizard/Step2IncomeDetails.tsx:91 | `split` at a character: the pieces between separators |
| JsText.Join | src/screens/wizard/Step2IncomeDetails.tsx:93 | `join`: the pieces with the separator between them |
| JsText.ToLower | src/state/useSessionStore.ts:59 | `toLowerCase` on ASCII letters |
| JsText.JoinSplit | src/screens/wizard/Step2IncomeDetails.tsx:91-93 | joining the pieces of a split with the same separator gives the string back |
| JsText.SplitJoin | src/screens/wizard/Step2IncomeDetails.tsx:91-93 | splitting joined separator-free pieces gives the pieces back |
| JsText.FilterIdempotent | src/lib/quoteEngine.ts:63 | deleting a character class twice is deleting it once |
| JsText.ToLowerIdempotent | src/state/useSessionStore.ts:59 | lower-casing twice is lower-casing once |

## Left out

- Floating point: money, rates and `Math.pow` are exact reals; IEEE-754 rounding of the arithmetic and of `Math.round` is not modelled.
- `formatCurrency` and `formatCurrencyDecimal` in src/lib/quoteEngine.ts wrap `Intl.NumberFormat`; the summary keeps the amounts as `Dollars`/`DollarsCents` pieces and numbers interpolated into templates as `Num` pieces instead of their text.
- QuoteEngine.RoundTo: its rounding-to-a-step property is stated for the literal steps used (1000, 500, 50000) through the candidate functions, not for an arbitrary step.
- QuoteEngine.EmploymentMultiplier and QuoteEngine.InsuranceBaseRate: a status or score naming an `Object.prototype` member (such as "toString") finds a function, which is truthy, so `|| 0.5` and `|| 39` do not apply and the source's amounts become NaN; the model gives such keys the default. The `?.loan` and `?.creditCard` APR lookups do fall back to 12.9 and 21.9 for them, as modelled.
- `parseFloat` follows JavaScript's decimal grammar (sign, digits, one '.', exponent, "Infinity") over exact reals, without rounding to the nearest double.
- Schemas: zod's `.email()` check is an input (`emailFormatOk`); the order and messages of the issues zod produces are not modelled, only what `safeZodResolver` does with a given issue list.
- Schemas: `new Date(string)` parsing, time zones and the wall clock are outside the model; the parsed birth date (`None` when unparsable) and today's date are inputs.
- Schemas.Step1Ok is the schema as written; `Schemas.Step1OkIntended` is the corrected one (see Findings).
- `toLowerCase` is modelled for ASCII letters only; other characters keep their case.
- Session: the simulated network delay, `saveMockUsers`/`loadMockUsers` and the storage layer are not modelled; the table read back from storage is a constructor parameter, and `Date.now()` is the `stamp` parameter of the user id.
- Session.SessionStore.SignUp: the intermediate state with `isLoading` true during the delay is not observable in the model, and the rethrown error is the `Fail` outcome.
- Session: the two store copies share one storage key but keep separate in-memory tables; that interaction is not modelled.
- Session and Wizard: the zustand `persist` middleware, JSON serialisation and the persisted `{user, isAuthenticated}` projection of the session store are not modelled beyond the wizard's `Partialize` snapshot.
- Wizard: a `Partial<StepN>` patch is an `Option` per field; a field present with the value `undefined` is not modelled.
- Wizard: `currentStep` is an integer; fractional or non-numeric steps are not modelled.
- Hydration: callbacks are identified by number and their effects are not run; the navigator models the one callback whose effect matters to it (`checkHydration`).
- RootNavigator: the 500 ms timer that forces readiness and the React state and effect machinery are not modelled.
- Screens, navigation calls, animations and styling are outside the model.

## Findings

| source | as written | input that shows it | evidently intended | confidence | as-written member | corrected member |
|---|---|---|---|---|---|---|
| src/lib/schemas.ts:46-55 | the age is today's calendar year minus the birth year | born 2008-12-31, checked on 2026-01-01: the difference is 18 but the applicant is 17, and the form accepts them | the applicant has completed 18 years | medium; not executed | Schemas.UnderageAccepted | Schemas.DateOfBirthOfAgeStricter |

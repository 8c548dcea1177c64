/** Records shared by the wizard, the quote engine and the session store
    (src/types/index.ts), plus the two small wrappers the model uses for
    absent values and for operations that throw. */
module Types {

  /** An optional value: a missing object key, `null`, or `undefined`. */
  datatype Option<T> = None | Some(value: T) {
    function GetOr(default: T): T {
      match this
      case Some(v) => v
      case None => default
    }
  }

  /** The result of an action that either completes or throws an `Error`
      whose `message` is carried in `Fail`. */
  datatype Outcome = Pass | Fail(message: string)

  /** Wizard step 1: personal info. */
  datatype Step1Data = Step1Data(firstName: string, lastName: string, dateOfBirth: string)

  /** Wizard step 2: income details. Classifications stay strings, as in the
      source, so that unset ('') and unknown values can be modelled. */
  datatype Step2Data = Step2Data(employmentStatus: string, annualIncome: string, creditScoreRange: string)

  /** Wizard step 3: preferences. */
  datatype Step3Data = Step3Data(offerType: string, contactPreference: string, termsAccepted: bool)

  /** All wizard data. */
  datatype WizardData = WizardData(step1: Step1Data, step2: Step2Data, step3: Step3Data)

  /** A registered user as the session store keeps it. */
  datatype User = User(id: string, username: string, email: string, phone: string)

  datatype SignUpData = SignUpData(username: string, email: string, phone: string, password: string)

  datatype LoginData = LoginData(emailOrUsername: string, password: string)

  /** The routes of the root stack (RootStackParamList). */
  datatype Route = Auth | Wizard | Result | Home | Compare | Support | Settings
}

/** The wizard store shared by src/state/useOnboardingStore.ts and
    src/store/useWizardStore.ts: the current step, the three steps' data and
    the completion flag, changed only through the store actions. A
    `Partial<StepN>` argument is a patch whose absent fields are `None`. */
module Wizard {
  import opened Types

  // ---------------------------------------------------------------------
  // Patches: `{...current, ...patch}`

  /** One field of an object spread: the patch's value if it has one. */
  function Overlay<T>(current: T, patch: Option<T>): (r: T)
    ensures patch.Some? ==> r == patch.value
    ensures patch.None? ==> r == current
  {
    match patch
    case Some(v) => v
    case None => current
  }

  /** A field set by `second`, else by `first`: applying two patches one
      after the other is applying this one. */
  function Later<T>(first: Option<T>, second: Option<T>): Option<T> {
    if second.Some? then second else first
  }

  lemma OverlayTwice<T>(current: T, first: Option<T>, second: Option<T>)
    ensures Overlay(Overlay(current, first), second) == Overlay(current, Later(first, second))
  {
  }

  datatype Step1Patch = Step1Patch(firstName: Option<string>, lastName: Option<string>, dateOfBirth: Option<string>)

  datatype Step2Patch = Step2Patch(employmentStatus: Option<string>, annualIncome: Option<string>, creditScoreRange: Option<string>)

  datatype Step3Patch = Step3Patch(offerType: Option<string>, contactPreference: Option<string>, termsAccepted: Option<bool>)

  function MergeStep1(d: Step1Data, p: Step1Patch): Step1Data {
    Step1Data(Overlay(d.firstName, p.firstName), Overlay(d.lastName, p.lastName), Overlay(d.dateOfBirth, p.dateOfBirth))
  }

  function MergeStep2(d: Step2Data, p: Step2Patch): Step2Data {
    Step2Data(
      Overlay(d.employmentStatus, p.employmentStatus), Overlay(d.annualIncome, p.annualIncome),
      Overlay(d.creditScoreRange, p.creditScoreRange))
  }

  function MergeStep3(d: Step3Data, p: Step3Patch): Step3Data {
    Step3Data(
      Overlay(d.offerType, p.offerType), Overlay(d.contactPreference, p.contactPreference),
      Overlay(d.termsAccepted, p.termsAccepted))
  }

  function ThenStep1(p: Step1Patch, q: Step1Patch): Step1Patch {
    Step1Patch(Later(p.firstName, q.firstName), Later(p.lastName, q.lastName), Later(p.dateOfBirth, q.dateOfBirth))
  }

  /** Step-1 updates accumulate: a second update keeps every field the
      first set unless it sets that field itself. */
  lemma MergeStep1Twice(d: Step1Data, p: Step1Patch, q: Step1Patch)
    ensures MergeStep1(MergeStep1(d, p), q) == MergeStep1(d, ThenStep1(p, q))
  {
    OverlayTwice(d.firstName, p.firstName, q.firstName);
    OverlayTwice(d.lastName, p.lastName, q.lastName);
    OverlayTwice(d.dateOfBirth, p.dateOfBirth, q.dateOfBirth);
  }

  // ---------------------------------------------------------------------
  // Store state and actions

  /** The persisted part of the store (`partialize`): exactly these three
      fields; the action functions are not stored. */
  datatype Snapshot = Snapshot(currentStep: int, data: WizardData, isCompleted: bool)

  /** `initialData`: every string empty, terms not accepted. */
  const EmptyData := WizardData(Step1Data("", "", ""), Step2Data("", "", ""), Step3Data("", "", false))

  /** A fresh store: step 1, empty data, not completed. */
  const InitialSnapshot := Snapshot(1, EmptyData, false)

  datatype WizardAction =
    | SetCurrentStep(step: int)
    | UpdateStep1(patch1: Step1Patch)
    | UpdateStep2(patch2: Step2Patch)
    | UpdateStep3(patch3: Step3Patch)
    | CompleteWizard
    | ResetWizard

  /** The state after one action. */
  function Apply(s: Snapshot, a: WizardAction): (t: Snapshot)
    ensures a.SetCurrentStep? ==> t.currentStep == a.step && t.data == s.data && t.isCompleted == s.isCompleted
    ensures a.CompleteWizard? ==> t.isCompleted && t.currentStep == s.currentStep && t.data == s.data
    ensures a.ResetWizard? ==> t.currentStep == 1 && !t.isCompleted && t.data == EmptyData
    ensures a.UpdateStep1? || a.UpdateStep2? || a.UpdateStep3? ==>
      t.currentStep == s.currentStep && t.isCompleted == s.isCompleted
    ensures a.UpdateStep1? ==> t.data.step1 == MergeStep1(s.data.step1, a.patch1)
    ensures a.UpdateStep2? ==> t.data.step2 == MergeStep2(s.data.step2, a.patch2)
    ensures a.UpdateStep3? ==> t.data.step3 == MergeStep3(s.data.step3, a.patch3)
    ensures !a.UpdateStep1? ==> t.data.step1 == s.data.step1 || a.ResetWizard?
    ensures !a.UpdateStep2? ==> t.data.step2 == s.data.step2 || a.ResetWizard?
    ensures !a.UpdateStep3? ==> t.data.step3 == s.data.step3 || a.ResetWizard?
  {
    match a
    case SetCurrentStep(step) => s.(currentStep := step)
    case UpdateStep1(p) => s.(data := s.data.(step1 := MergeStep1(s.data.step1, p)))
    case UpdateStep2(p) => s.(data := s.data.(step2 := MergeStep2(s.data.step2, p)))
    case UpdateStep3(p) => s.(data := s.data.(step3 := MergeStep3(s.data.step3, p)))
    case CompleteWizard => s.(isCompleted := true)
    case ResetWizard => InitialSnapshot
  }

  /** The state after a sequence of actions. */
  function ApplyAll(s: Snapshot, actions: seq<WizardAction>): Snapshot
    decreases |actions|
  {
    if actions == [] then s else ApplyAll(Apply(s, actions[0]), actions[1..])
  }

  /** An update writes exactly the fields its patch carries. */
  lemma UpdateStep1Fields(s: Snapshot, p: Step1Patch)
    ensures var t := Apply(s, UpdateStep1(p));
      && t.data.step1.firstName == (if p.firstName.Some? then p.firstName.value else s.data.step1.firstName)
      && t.data.step1.lastName == (if p.lastName.Some? then p.lastName.value else s.data.step1.lastName)
      && t.data.step1.dateOfBirth == (if p.dateOfBirth.Some? then p.dateOfBirth.value else s.data.step1.dateOfBirth)
  {
  }

  lemma UpdateStep2Fields(s: Snapshot, p: Step2Patch)
    ensures var t := Apply(s, UpdateStep2(p));
      && t.data.step2.employmentStatus == (if p.employmentStatus.Some? then p.employmentStatus.value else s.data.step2.employmentStatus)
      && t.data.step2.annualIncome == (if p.annualIncome.Some? then p.annualIncome.value else s.data.step2.annualIncome)
      && t.data.step2.creditScoreRange == (if p.creditScoreRange.Some? then p.creditScoreRange.value else s.data.step2.creditScoreRange)
  {
  }

  lemma UpdateStep3Fields(s: Snapshot, p: Step3Patch)
    ensures var t := Apply(s, UpdateStep3(p));
      && t.data.step3.offerType == (if p.offerType.Some? then p.offerType.value else s.data.step3.offerType)
      && t.data.step3.contactPreference == (if p.contactPreference.Some? then p.contactPreference.value else s.data.step3.contactPreference)
      && t.data.step3.termsAccepted == (if p.termsAccepted.Some? then p.termsAccepted.value else s.data.step3.termsAccepted)
  {
  }

  /** An empty patch changes nothing. */
  lemma EmptyPatchesChangeNothing(s: Snapshot)
    ensures Apply(s, UpdateStep1(Step1Patch(None, None, None))) == s
    ensures Apply(s, UpdateStep2(Step2Patch(None, None, None))) == s
    ensures Apply(s, UpdateStep3(Step3Patch(None, None, None))) == s
  {
  }

  /** Updates to different steps do not interfere: their order does not matter. */
  lemma UpdatesOfDifferentStepsCommute(s: Snapshot, p: Step1Patch, q: Step2Patch, r: Step3Patch)
    ensures Apply(Apply(s, UpdateStep1(p)), UpdateStep2(q)) == Apply(Apply(s, UpdateStep2(q)), UpdateStep1(p))
    ensures Apply(Apply(s, UpdateStep1(p)), UpdateStep3(r)) == Apply(Apply(s, UpdateStep3(r)), UpdateStep1(p))
    ensures Apply(Apply(s, UpdateStep2(q)), UpdateStep3(r)) == Apply(Apply(s, UpdateStep3(r)), UpdateStep2(q))
  {
  }

  /** `completeWizard` and `resetWizard` are idempotent, and reset returns
      to the initial state from anywhere. */
  lemma CompleteAndResetIdempotent(s: Snapshot)
    ensures Apply(Apply(s, CompleteWizard), CompleteWizard) == Apply(s, CompleteWizard)
    ensures Apply(s, ResetWizard) == InitialSnapshot
    ensures Apply(Apply(s, ResetWizard), ResetWizard) == Apply(s, ResetWizard)
  {
  }

  /** Whatever happened before, a reset followed by further actions behaves
      like those actions on a fresh store. */
  lemma {:induction false} ResetForgetsHistory(s: Snapshot, before: seq<WizardAction>, after: seq<WizardAction>)
    ensures ApplyAll(s, before + [ResetWizard] + after) == ApplyAll(InitialSnapshot, after)
    decreases |before|
  {
    if before == [] {
      assert before + [ResetWizard] + after == [ResetWizard] + after;
      assert ([ResetWizard] + after)[1..] == after;
    } else {
      assert (before + [ResetWizard] + after)[0] == before[0];
      assert (before + [ResetWizard] + after)[1..] == before[1..] + [ResetWizard] + after;
      ResetForgetsHistory(Apply(s, before[0]), before[1..], after);
    }
  }

  /** Filling the form one field at a time keeps every earlier field. */
  lemma FieldByFieldKeepsEarlierFields()
    ensures
      var t := ApplyAll(InitialSnapshot, [
        UpdateStep1(Step1Patch(Some("John"), None, None)),
        UpdateStep1(Step1Patch(None, Some("Doe"), None)),
        UpdateStep1(Step1Patch(None, None, Some("1990-01-15"))),
        UpdateStep2(Step2Patch(Some("employed"), None, None)),
        UpdateStep2(Step2Patch(None, Some("75000"), None))]);
      t.data.step1 == Step1Data("John", "Doe", "1990-01-15")
      && t.data.step2 == Step2Data("employed", "75000", "")
      && t.currentStep == 1 && !t.isCompleted
  {
  }

  /** The store object: its three fields are replaced by `set(...)`. */
  class WizardStore {
    var currentStep: int
    var data: WizardData
    var isCompleted: bool

    /** `partialize`: the persisted snapshot. */
    function Partialize(): Snapshot
      reads this
    {
      Snapshot(currentStep, data, isCompleted)
    }

    constructor()
      ensures Partialize() == InitialSnapshot
    {
      currentStep := 1;
      data := EmptyData;
      isCompleted := false;
    }

    /** `setCurrentStep(step)`, with no range check. */
    method SetCurrentStep(step: int)
      modifies this
      ensures Partialize() == Apply(old(Partialize()), WizardAction.SetCurrentStep(step))
    {
      currentStep := step;
    }

    method UpdateStep1(patch: Step1Patch)
      modifies this
      ensures Partialize() == Apply(old(Partialize()), WizardAction.UpdateStep1(patch))
    {
      data := data.(step1 := MergeStep1(data.step1, patch));
    }

    method UpdateStep2(patch: Step2Patch)
      modifies this
      ensures Partialize() == Apply(old(Partialize()), WizardAction.UpdateStep2(patch))
    {
      data := data.(step2 := MergeStep2(data.step2, patch));
    }

    method UpdateStep3(patch: Step3Patch)
      modifies this
      ensures Partialize() == Apply(old(Partialize()), WizardAction.UpdateStep3(patch))
    {
      data := data.(step3 := MergeStep3(data.step3, patch));
    }

    method CompleteWizard()
      modifies this
      ensures Partialize() == Apply(old(Partialize()), WizardAction.CompleteWizard)
    {
      isCompleted := true;
    }

    method ResetWizard()
      modifies this
      ensures Partialize() == Apply(old(Partialize()), WizardAction.ResetWizard)
    {
      currentStep := 1;
      data := EmptyData;
      isCompleted := false;
    }
  }

  /** The store-reset scenario: fill everything in, go to step 3, complete,
      reset; the store is back to its initial state. */
  method ResetScenario() returns (snapshot: Snapshot)
    ensures snapshot == InitialSnapshot
  {
    var store := new WizardStore();
    store.UpdateStep1(Step1Patch(Some("John"), Some("Doe"), None));
    store.UpdateStep2(Step2Patch(Some("employed"), Some("75000"), None));
    store.UpdateStep3(Step3Patch(Some("loan"), None, Some(true)));
    store.SetCurrentStep(3);
    store.CompleteWizard();
    store.ResetWizard();
    snapshot := store.Partialize();
  }
}

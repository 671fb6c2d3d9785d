/** The claim draft the first-notice-of-loss wizard collects, the field groups
    checked before each forward move, and the rule each field declares. */
module FnolForm {
  import opened Options

  /** The form values; `vehicleYear` is `None` while the year input is empty or
      does not hold a number. */
  datatype Draft = Draft(
    policyNumber: string,
    claimantName: string,
    claimantEmail: string,
    claimantPhone: string,
    incidentDate: string,
    incidentLocation: string,
    incidentDescription: string,
    vehicleYear: Option<int>,
    vehicleMake: string,
    vehicleModel: string,
    vehicleVin: string)

  /** The form before anything was typed. */
  const EmptyDraft := Draft("", "", "", "", "", "", "", None, "", "", "")

  datatype Field =
    | PolicyNumber | ClaimantName | ClaimantEmail | ClaimantPhone
    | IncidentDate | IncidentLocation | IncidentDescription
    | VehicleYear | VehicleMake | VehicleModel | VehicleVin

  /** What an input registers: a non-empty value, a non-empty numeric value, or nothing. */
  datatype Rule = Required | RequiredNumber | NoRule

  const TotalSteps := 4

  /** `STEP_FIELDS`: the fields validated before leaving each of the three data steps. */
  function StepFields(step: int): (fs: seq<Field>)
    requires 1 <= step <= 3
    ensures |fs| == if step == 2 then 3 else 4
  {
    if step == 1 then [PolicyNumber, ClaimantName, ClaimantEmail, ClaimantPhone]
    else if step == 2 then [IncidentDate, IncidentLocation, IncidentDescription]
    else [VehicleYear, VehicleMake, VehicleModel, VehicleVin]
  }

  /** The step whose field list holds `f`: the inverse lookup of `StepFields`. */
  function StepOf(f: Field): (step: int)
    ensures 1 <= step <= 3 && f in StepFields(step)
  {
    if f in StepFields(1) then 1
    else if f in StepFields(2) then 2
    else assert f.VehicleYear? || f.VehicleMake? || f.VehicleModel? || f.VehicleVin?; 3
  }

  /** The rule each step component registers for its input. */
  function RuleOf(f: Field): (r: Rule)
    ensures r == NoRule <==> f == VehicleVin
    ensures r == RequiredNumber <==> f == VehicleYear
  {
    match f
    case VehicleYear => RequiredNumber
    case VehicleVin => NoRule
    case _ => Required
  }

  /** The text held by a text field. */
  function Text(d: Draft, f: Field): string
    requires f != VehicleYear
  {
    match f
    case PolicyNumber => d.policyNumber
    case ClaimantName => d.claimantName
    case ClaimantEmail => d.claimantEmail
    case ClaimantPhone => d.claimantPhone
    case IncidentDate => d.incidentDate
    case IncidentLocation => d.incidentLocation
    case IncidentDescription => d.incidentDescription
    case VehicleMake => d.vehicleMake
    case VehicleModel => d.vehicleModel
    case VehicleVin => d.vehicleVin
  }

  /** Typing into a text field. */
  function SetText(d: Draft, f: Field, s: string): (e: Draft)
    requires f != VehicleYear
    ensures Text(e, f) == s
    ensures forall g :: g != f && g != VehicleYear ==> Text(e, g) == Text(d, g)
    ensures e.vehicleYear == d.vehicleYear
  {
    match f
    case PolicyNumber => d.(policyNumber := s)
    case ClaimantName => d.(claimantName := s)
    case ClaimantEmail => d.(claimantEmail := s)
    case ClaimantPhone => d.(claimantPhone := s)
    case IncidentDate => d.(incidentDate := s)
    case IncidentLocation => d.(incidentLocation := s)
    case IncidentDescription => d.(incidentDescription := s)
    case VehicleMake => d.(vehicleMake := s)
    case VehicleModel => d.(vehicleModel := s)
    case VehicleVin => d.(vehicleVin := s)
  }

  /** The field meets its registered rule. */
  predicate FieldValid(d: Draft, f: Field)
    ensures f == VehicleVin ==> FieldValid(d, f)
    ensures f == VehicleYear ==> (FieldValid(d, f) <==> d.vehicleYear.Some?)
    ensures f != VehicleYear && f != VehicleVin ==> (FieldValid(d, f) <==> Text(d, f) != "")
  {
    match RuleOf(f)
    case Required => f != VehicleYear && Text(d, f) != ""
    case RequiredNumber => d.vehicleYear.Some?
    case NoRule => true
  }

  /** `trigger(STEP_FIELDS[step])` resolves to true. */
  predicate StepValid(d: Draft, step: int)
    requires 1 <= step <= 3
  {
    forall f | f in StepFields(step) :: FieldValid(d, f)
  }

  /** `progress`: the share of the wizard reached, in percent. */
  function Progress(step: int): real
  {
    (step as real / TotalSteps as real) * 100.0
  }

  // ---------------------------------------------------------------------------
  // Properties

  /** Each field belongs to exactly one step. */
  lemma FieldInOneStep(f: Field, step: int)
    requires 1 <= step <= 3
    ensures f in StepFields(step) <==> step == StepOf(f)
  {
  }

  /** Step 1 gate: the four policy and claimant fields are non-empty. */
  lemma PolicyStepRules(d: Draft)
    ensures StepValid(d, 1) <==>
      d.policyNumber != "" && d.claimantName != "" && d.claimantEmail != "" && d.claimantPhone != ""
  {
    assert (FieldValid(d, PolicyNumber) && FieldValid(d, ClaimantName) && FieldValid(d, ClaimantEmail)
      && FieldValid(d, ClaimantPhone)) ==> StepValid(d, 1);
  }

  /** Step 2 gate: the three incident fields are non-empty. */
  lemma IncidentStepRules(d: Draft)
    ensures StepValid(d, 2) <==>
      d.incidentDate != "" && d.incidentLocation != "" && d.incidentDescription != ""
  {
    assert (FieldValid(d, IncidentDate) && FieldValid(d, IncidentLocation)
      && FieldValid(d, IncidentDescription)) ==> StepValid(d, 2);
  }

  /** Step 3 gate: the year holds a number and make and model are non-empty. */
  lemma VehicleStepRules(d: Draft)
    ensures StepValid(d, 3) <==>
      d.vehicleYear.Some? && d.vehicleMake != "" && d.vehicleModel != ""
  {
    assert (FieldValid(d, VehicleYear) && FieldValid(d, VehicleMake) && FieldValid(d, VehicleModel)
      && FieldValid(d, VehicleVin)) ==> StepValid(d, 3);
  }

  /** The VIN is listed for step 3 but carries no rule: it never blocks. */
  lemma VinNeverBlocks(d: Draft, vin: string)
    ensures StepValid(SetText(d, VehicleVin, vin), 3) == StepValid(d, 3)
  {
    VehicleStepRules(d);
    VehicleStepRules(SetText(d, VehicleVin, vin));
  }

  /** Editing a field leaves the gate of every other step as it was. */
  lemma EditKeepsOtherSteps(d: Draft, f: Field, s: string, step: int)
    requires f != VehicleYear && 1 <= step <= 3 && step != StepOf(f)
    ensures StepValid(SetText(d, f, s), step) == StepValid(d, step)
  {
    var e := SetText(d, f, s);
    forall g | g in StepFields(step)
      ensures FieldValid(e, g) == FieldValid(d, g)
    {
      FieldInOneStep(g, step);
    }
  }

  /** Setting the year touches only step 3. */
  lemma YearKeepsOtherSteps(d: Draft, y: Option<int>, step: int)
    requires 1 <= step <= 2
    ensures StepValid(d.(vehicleYear := y), step) == StepValid(d, step)
  {
    PolicyStepRules(d);
    PolicyStepRules(d.(vehicleYear := y));
    IncidentStepRules(d);
    IncidentStepRules(d.(vehicleYear := y));
  }

  /** The empty form passes none of the gates. */
  lemma EmptyDraftBlocked(step: int)
    requires 1 <= step <= 3
    ensures !StepValid(EmptyDraft, step)
  {
    PolicyStepRules(EmptyDraft);
    IncidentStepRules(EmptyDraft);
    VehicleStepRules(EmptyDraft);
  }

  /** On the four steps the bar shows a quarter, a half, three quarters and all. */
  lemma ProgressValues(step: int)
    requires 1 <= step <= TotalSteps
    ensures Progress(step) == 25.0 * step as real
    ensures Progress(step) in {25.0, 50.0, 75.0, 100.0}
    ensures Progress(step) == 100.0 <==> step == TotalSteps
  {
  }
}

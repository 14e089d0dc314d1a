/**
 * The step dispatcher (frontend/components/StepContent.tsx): a switch from
 * the step id to the component shown, with "Step not found" for anything else.
 */
module StepContent {
  import Wizard

  datatype Component =
    | PersonalDetails | ResidenceAddress | PublicOfficialStatus
    | EmploymentStatus | Industry | AnnualIncome | AvailableToInvest | PlanToInvest | InvestmentSource
    | ProfessionalExperience | RiskTolerance | TradingObjective
    | VerificationStep
    | StepNotFound

  /** Which of the container's callbacks a component receives. */
  datatype Wiring =
    | FormWiring   // formData, onSaveData and onNext
    | KycWiring    // onInitiateKyc only
    | NoWiring     // the fallback message

  function Render(stepId: string): Component {
    match stepId
    case "1-0" => PersonalDetails
    case "1-1" => ResidenceAddress
    case "1-2" => PublicOfficialStatus
    case "2-0" => EmploymentStatus
    case "2-1" => Industry
    case "2-2" => AnnualIncome
    case "2-3" => AvailableToInvest
    case "2-4" => PlanToInvest
    case "2-5" => InvestmentSource
    case "3-0" => ProfessionalExperience
    case "3-1" => RiskTolerance
    case "3-2" => TradingObjective
    case "4-0" => VerificationStep
    case _ => StepNotFound
  }

  function WiringOf(c: Component): Wiring {
    match c
    case VerificationStep => KycWiring
    case StepNotFound => NoWiring
    case _ => FormWiring
  }

  /** The components of the flow, in flow order. */
  const FlowComponents: seq<Component> := [
    PersonalDetails, ResidenceAddress, PublicOfficialStatus,
    EmploymentStatus, Industry, AnnualIncome, AvailableToInvest, PlanToInvest, InvestmentSource,
    ProfessionalExperience, RiskTolerance, TradingObjective,
    VerificationStep
  ]

  /** Each id of the flow selects its own component, in the order above. */
  lemma FlowIdsRender(i: nat)
    requires i < |Wizard.StepFlow|
    ensures |FlowComponents| == |Wizard.StepFlow|
    ensures Render(Wizard.StepFlow[i]) == FlowComponents[i] != StepNotFound
  {
    if i < 3 {
    } else if i < 6 {
    } else if i < 9 {
    } else {
    }
  }

  /** Distinct ids select distinct components, unless both fall to "Step not found". */
  lemma RenderInjective(a: string, b: string)
    requires a != b
    requires Render(a) != StepNotFound || Render(b) != StepNotFound
    ensures Render(a) != Render(b)
  {
  }

  /** Exactly the thirteen ids of the flow select a component; every other id yields "Step not found". */
  lemma RenderTotal(stepId: string)
    ensures Render(stepId) != StepNotFound <==> stepId in Wizard.StepFlow
  {
  }

  /** Verification is the only step wired to `onInitiateKyc`, and it gets no form data. */
  lemma OnlyVerificationGetsKyc(stepId: string)
    ensures WiringOf(Render(stepId)) == KycWiring <==> stepId == "4-0"
    ensures WiringOf(Render(stepId)) == FormWiring <==> stepId in Wizard.StepFlow && stepId != "4-0"
  {
  }
}

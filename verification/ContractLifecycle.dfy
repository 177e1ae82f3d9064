/**
  The life of an ordinary contract: what each service call of src/contracts/contract.service.ts
  does to the record, and what every run of such calls keeps.
 */
module ContractLifecycle {
  import opened Common
  import opened Contracts
  import opened SignerStatus

  datatype QualificationType = Hard | Soft

  /** Everything `sendContract` learns from other services during one call. */
  datatype SendContext = SendContext(
    draftAccepted: bool,
    opportunityFound: bool,
    quoteFound: bool,
    requiresHardCreditApproval: bool,
    requiresSoftCreditApproval: bool,
    approvedQualifications: seq<QualificationType>,
    hasHisNumber: bool,
    primaryContractFound: bool,
    response: EnvelopeResponse,
    now: Date)

  datatype WetSignContext = WetSignContext(
    opportunityFound: bool,
    contactFound: bool,
    /** `None` when DocuSign throws. */
    envelope: Option<WetEnvelope>,
    now: Date)

  datatype WetEnvelope = WetEnvelope(status: string, envelopeId: string)

  /** Each qualification type the product requires is among the approved ones. */
  predicate CreditGate(ctx: SendContext) {
    && (ctx.requiresHardCreditApproval ==> Hard in ctx.approvedQualifications)
    && (ctx.requiresSoftCreditApproval ==> Soft in ctx.approvedQualifications)
  }

  /** Why the full path of `sendContract` stops before DocuSign is asked for an envelope. */
  function Refusal(c: Contract, ctx: SendContext): Option<ContractError> {
    if !ctx.opportunityFound then Some(OpportunityNotFound)
    else if !ctx.quoteFound then Some(QuoteNotFound)
    else if !CreditGate(ctx) then Some(CreditApprovalRequired)
    else if !ctx.hasHisNumber then Some(HisNumberMissing)
    else if c.contractType != PrimaryContract && !ctx.primaryContractFound then Some(PrimaryContractNotFound)
    else None
  }

  /** A contract without a name is answered with a failure before DocuSign is asked. */
  function Response(c: Contract, ctx: SendContext): EnvelopeResponse {
    if ctx.response.Threw? then Threw else if c.name == "" then Failure else ctx.response
  }

  function FirstSignerSent(signers: seq<Signer>, now: Date): seq<Signer>
    requires signers != []
  {
    signers[0 := signers[0].(signStatus := Some(SignStatus.Sent), sentOn := Some(now))]
  }

  function CreatedEnvelopes(id: Option<string>, isDraft: bool): seq<Effect> {
    if id.Some? then [EnvelopeCreated(id.value, isDraft)] else []
  }

  /** `sendContract`, both as preview and as send. */
  function SendContract(c: Contract, isDraft: bool, ctx: SendContext): Outcome {
    if c.contractStatus == Voided then
      Rejected(c, AlreadyVoided)
    else if c.contractStatus == Draft then
      if isDraft then Rejected(c, PreviewAlreadyGenerated)
      else if !ctx.draftAccepted then Rejected(c, DocusignFailed)
      else if c.signerDetails == [] then Outcome(Err(NoSigner), c, [DraftSent(c.referenceId)])
      else Outcome(Ok(Succeeded),
                   c.(signerDetails := FirstSignerSent(c.signerDetails, ctx.now), contractStatus := InProgress),
                   [DraftSent(c.referenceId)])
    else if Refusal(c, ctx).Some? then
      Rejected(c, Refusal(c, ctx).value)
    else AfterResponse(c, isDraft, Response(c, ctx), ctx.now)
  }

  /** What DocuSign's answer to a new envelope leaves behind. */
  function AfterResponse(c: Contract, isDraft: bool, response: EnvelopeResponse, now: Date): Outcome {
    match response
    case Threw => Rejected(c, DocusignFailed)
    case Failure => Outcome(Ok(Failed), c.(contractStatus := Errored), [])
    case Success(id) =>
      if isDraft && id.GetOr("") == "" then
        Outcome(Ok(Failed), c.(contractStatus := Errored), CreatedEnvelopes(id, isDraft))
      else if isDraft then
        Outcome(Ok(Succeeded), c.(contractStatus := Draft, referenceId := id.value), CreatedEnvelopes(id, isDraft))
      else if c.signerDetails == [] then
        Outcome(Err(NoSigner), c, CreatedEnvelopes(id, isDraft))
      else
        Outcome(Ok(Succeeded),
                c.(signerDetails := FirstSignerSent(c.signerDetails, now),
                   contractStatus := InProgress,
                   referenceId := id.GetOr("")),
                CreatedEnvelopes(id, isDraft))
  }

  function WetSigned(s: Signer, now: Date): Signer {
    s.(signStatus := Some(SignStatus.WetSigned), signedOn := Some(now), sentOn := Some(now))
  }

  /** The first financier is asked to sign; everyone who is not a financier has signed on paper. */
  function WetSignedSigners(signers: seq<Signer>, now: Date): seq<Signer> {
    seq(|signers|, i requires 0 <= i < |signers| =>
      if i == FindIndex(signers, HasRole(FINANCIER))
      then signers[i].(signStatus := Some(SignStatus.Sent), sentOn := Some(now))
      else if signers[i].role == FINANCIER then signers[i]
      else WetSigned(signers[i], now))
  }

  /** `sendContractByWetSigned`. */
  function SendWetSigned(c: Contract, ctx: WetSignContext): Outcome {
    if !ctx.opportunityFound then Rejected(c, OpportunityNotFound)
    else if FindIndex(c.signerDetails, HasRole(FINANCIER)) < 0 then Rejected(c, FinancierMissing)
    else if !ctx.contactFound then Rejected(c, ContactNotFound)
    else if ctx.envelope.None? then Rejected(c, DocusignFailed)
    else
      var created := [EnvelopeCreated(ctx.envelope.value.envelopeId, false)];
      if ctx.envelope.value.status != "sent" || ctx.envelope.value.envelopeId == "" then
        Outcome(Err(EnvelopeNotSent), c, created)
      else
        Outcome(Ok(Succeeded),
                c.(signerDetails := WetSignedSigners(c.signerDetails, ctx.now),
                   contractStatus := InProgress,
                   referenceId := ctx.envelope.value.envelopeId),
                created)
  }

  /** `resendContract`; `accepted` is `None` when DocuSign throws. */
  function Resend(c: Contract, accepted: Option<bool>): Outcome {
    if c.referenceId == "" || c.contractStatus == Voided then Rejected(c, ResendNotAllowed)
    else if accepted.None? then Rejected(c, DocusignFailed)
    else Outcome(Ok(Resent(accepted.value)), c, if accepted.value then [EnvelopeResent(c.referenceId)] else [])
  }

  /** The record's part of `voidContract`: a refusal by DocuSign is logged and ignored. */
  function Void(c: Contract, accepted: bool): Outcome {
    Outcome(Ok(Succeeded), c.(contractStatus := Voided),
            if c.referenceId != "" && accepted then [EnvelopeVoided(c.referenceId)] else [])
  }

  /** `saveContract` in update mode. */
  function Rename(c: Contract, name: string): Outcome {
    if c.contractStatus != Initiated then Rejected(c, ContractAlreadyInProgress)
    else Outcome(Ok(Succeeded), if name == "" then c else c.(name := name), [])
  }

  /** `saveChangeOrder` in update mode, behind its pipe: what it touches becomes a change order. */
  function UpdateChangeOrder(c: Contract): Outcome {
    if c.contractStatus != Initiated then Rejected(c, ContractAlreadyInProgress)
    else Outcome(Ok(Succeeded), c.(contractType := ChangeOrder), [])
  }

  function ReceiveEvents(c: Contract, events: seq<RecipientEvent>, completed: bool, quote: QuoteLookup): Outcome {
    match Callback(c, events, completed, quote)
    case Ok(after) => Outcome(Ok(Succeeded), after, [])
    case Err(error) => Rejected(c, error)
  }

  datatype Step =
    | RenameStep(name: string)
    | UpdateChangeOrderStep
    | SendStep(isDraft: bool, send: SendContext)
    | WetSignStep(wetSign: WetSignContext)
    | ResendStep(resendAccepted: Option<bool>)
    | VoidStep(voidAccepted: bool)
    | CallbackStep(events: seq<RecipientEvent>, completed: bool, quote: QuoteLookup)

  function Take(c: Contract, step: Step): Outcome {
    match step
    case RenameStep(name) => Rename(c, name)
    case UpdateChangeOrderStep => UpdateChangeOrder(c)
    case SendStep(isDraft, ctx) => SendContract(c, isDraft, ctx)
    case WetSignStep(ctx) => SendWetSigned(c, ctx)
    case ResendStep(accepted) => Resend(c, accepted)
    case VoidStep(accepted) => Void(c, accepted)
    case CallbackStep(events, completed, quote) => ReceiveEvents(c, events, completed, quote)
  }

  function Run(c: Contract, steps: seq<Step>): Contract {
    if steps == [] then c else Take(Run(c, Init(steps)), Last(steps)).contract
  }

  // ---------------------------------------------------------------- invariants of every run

  predicate SentOut(s: Signer) {
    s.signStatus.Some? && s.sentOn.Some?
  }

  ghost predicate Consistent(c: Contract) {
    && (c.contractStatus == Draft ==> c.referenceId != "")
    && (c.contractStatus == InProgress ==> c.signerDetails != [] && SentOut(c.signerDetails[0]))
  }

  lemma CallbackKeepsSentOut(signers: seq<Signer>, events: seq<RecipientEvent>)
    requires signers != [] && SentOut(signers[0])
    ensures SentOut(SignersAfter(signers, events)[0])
  {
  }

  lemma StepKeepsConsistent(c: Contract, step: Step)
    requires Consistent(c)
    ensures Consistent(Take(c, step).contract)
  {
    if step.CallbackStep? && c.contractStatus == InProgress {
      CallbackKeepsSentOut(c.signerDetails, step.events);
    }
    if step.WetSignStep? && c.signerDetails != [] {
      assert c.signerDetails[0].role == FINANCIER ==> FindIndex(c.signerDetails, HasRole(FINANCIER)) == 0;
    }
  }

  /** In every run a draft has an envelope and a contract in progress was sent to its first signer. */
  lemma {:induction false} EveryRunIsConsistent(c: Contract, steps: seq<Step>)
    requires c.contractStatus == Initiated
    ensures Consistent(Run(c, steps))
  {
    if steps != [] {
      EveryRunIsConsistent(c, Init(steps));
      StepKeepsConsistent(Run(c, Init(steps)), Last(steps));
    }
  }

  /** A date once recorded is never taken back, nor is a sign status. */
  predicate KeepsRecorded(before: Signer, after: Signer) {
    && (before.signStatus.Some? ==> after.signStatus.Some?)
    && (before.sentOn.Some? ==> after.sentOn.Some?)
    && (before.signedOn.Some? ==> after.signedOn.Some?)
  }

  /** The signers are the same people in the same order, and nothing recorded about them was erased. */
  ghost predicate SamePeople(before: seq<Signer>, after: seq<Signer>) {
    && SameRouting(before, after)
    && forall i :: 0 <= i < |before| ==> KeepsRecorded(before[i], after[i])
  }

  lemma StepKeepsPeople(c: Contract, step: Step)
    ensures SamePeople(c.signerDetails, Take(c, step).contract.signerDetails)
  {
    match step
    case SendStep(isDraft, ctx) =>
      if c.signerDetails != [] {
        SendingKeepsPeople(c.signerDetails, ctx.now);
      }
    case WetSignStep(ctx) =>
      WetSigningKeepsPeople(c.signerDetails, ctx.now);
    case CallbackStep(events, completed, quote) =>
      EventsKeepPeople(c.signerDetails, events);
    case _ =>
  }

  lemma SendingKeepsPeople(signers: seq<Signer>, now: Date)
    requires signers != []
    ensures SamePeople(signers, FirstSignerSent(signers, now))
  {
  }

  lemma WetSigningKeepsPeople(signers: seq<Signer>, now: Date)
    ensures SamePeople(signers, WetSignedSigners(signers, now))
  {
  }

  lemma EventsKeepPeople(signers: seq<Signer>, events: seq<RecipientEvent>)
    ensures SamePeople(signers, SignersAfter(signers, events))
  {
  }

  /** What every call keeps: the people and what is recorded about them, and consistency. */
  ghost predicate Keeps(before: Contract, after: Contract) {
    SamePeople(before.signerDetails, after.signerDetails) && (Consistent(before) ==> Consistent(after))
  }

  lemma StepKeeps(c: Contract, step: Step)
    ensures Keeps(c, Take(c, step).contract)
  {
    StepKeepsPeople(c, step);
    if Consistent(c) {
      StepKeepsConsistent(c, step);
    }
  }

  lemma ResponseKeeps(c: Contract, isDraft: bool, response: EnvelopeResponse, now: Date)
    ensures Keeps(c, AfterResponse(c, isDraft, response, now).contract)
  {
    if c.signerDetails != [] {
      SendingKeepsPeople(c.signerDetails, now);
    }
  }

  /** No run of calls and callbacks swaps, drops or renames a signer or erases a date. */
  lemma {:induction false} EveryRunKeepsPeople(c: Contract, steps: seq<Step>)
    ensures SamePeople(c.signerDetails, Run(c, steps).signerDetails)
  {
    if steps != [] {
      EveryRunKeepsPeople(c, Init(steps));
      StepKeepsPeople(Run(c, Init(steps)), Last(steps));
    }
  }

  // ---------------------------------------------------------------- where envelopes come from

  /** The step gives the contract an envelope of its own: a preview, a direct send or a wet signature. */
  predicate AssignsEnvelope(c: Contract, step: Step) {
    Take(c, step).reply == Ok(Succeeded)
    && (step.WetSignStep? || (step.SendStep? && c.contractStatus != Draft))
  }

  predicate GateHeld(step: Step) {
    step.WetSignStep? || (step.SendStep? && CreditGate(step.send))
  }

  predicate IsPreview(step: Step) {
    step.SendStep? && step.isDraft
  }

  /** The id a step that assigns an envelope was given by DocuSign. */
  function AssignedEnvelope(step: Step): string {
    if step.SendStep? && step.send.response.Success? then
      step.send.response.contractingSystemReferenceId.GetOr("")
    else if step.WetSignStep? && step.wetSign.envelope.Some? then
      step.wetSign.envelope.value.envelopeId
    else
      ""
  }

  /** Position of the last step of the run that assigned an envelope, or -1. */
  function LastAssignment(c: Contract, steps: seq<Step>): (j: int)
    ensures -1 <= j < |steps|
  {
    if steps == [] then -1
    else if AssignsEnvelope(Run(c, Init(steps)), Last(steps)) then |steps| - 1
    else LastAssignment(c, Init(steps))
  }

  lemma {:induction false} LastAssignmentIsLast(c: Contract, steps: seq<Step>)
    ensures var j := LastAssignment(c, steps);
            && (j >= 0 ==> AssignsEnvelope(Run(c, steps[..j]), steps[j]))
            && forall k :: j < k < |steps| ==> !AssignsEnvelope(Run(c, steps[..k]), steps[k])
  {
    if steps != [] {
      LastAssignmentIsLast(c, Init(steps));
      forall k | 0 <= k < |steps| - 1
        ensures Init(steps)[..k] == steps[..k]
      {
      }
    }
  }

  /**
    The history behind a stored envelope id. At any point of any run the id is the one DocuSign gave the
    last step that assigned an envelope. If the contract is a draft that step was a preview, and a draft
    or a contract in progress passed the credit gate at that very step, unless it was signed on paper.
   */
  lemma {:induction false} EnvelopeHistory(c: Contract, steps: seq<Step>)
    requires c.contractStatus == Initiated
    ensures var j, now := LastAssignment(c, steps), Run(c, steps);
            && now.referenceId == (if j < 0 then c.referenceId else AssignedEnvelope(steps[j]))
            && (now.contractStatus == Draft ==> j >= 0 && IsPreview(steps[j]))
            && (HasEnvelopeOut(now) ==> j >= 0 && GateHeld(steps[j]))
  {
    if steps != [] {
      EnvelopeHistory(c, Init(steps));
      var before := Run(c, Init(steps));
      if AssignsEnvelope(before, Last(steps)) {
        AssignmentSetsEnvelope(before, Last(steps));
      } else {
        OtherStepsKeepEnvelope(before, Last(steps));
      }
    }
  }

  predicate HasEnvelopeOut(c: Contract) {
    c.contractStatus == Draft || c.contractStatus == InProgress
  }

  lemma AssignmentSetsEnvelope(c: Contract, step: Step)
    requires AssignsEnvelope(c, step)
    ensures Take(c, step).contract.referenceId == AssignedEnvelope(step)
    ensures Take(c, step).contract.contractStatus == Draft ==> IsPreview(step)
    ensures GateHeld(step)
  {
  }

  lemma OtherStepsKeepEnvelope(c: Contract, step: Step)
    requires !AssignsEnvelope(c, step)
    ensures Take(c, step).contract.referenceId == c.referenceId
    ensures Take(c, step).contract.contractStatus == Draft ==> c.contractStatus == Draft
    ensures HasEnvelopeOut(Take(c, step).contract) ==> HasEnvelopeOut(c)
  {
  }

  /** The envelope a draft send asks DocuSign to send is the one the latest successful preview created. */
  lemma DraftSendUsesLatestPreview(c: Contract, steps: seq<Step>, step: Step, id: string)
    requires c.contractStatus == Initiated
    requires DraftSent(id) in Take(Run(c, steps), step).effects
    ensures var j := LastAssignment(c, steps);
            && j >= 0 && IsPreview(steps[j]) && CreditGate(steps[j].send)
            && id == AssignedEnvelope(steps[j]) && id != ""
            && EnvelopeCreated(id, true) in Take(Run(c, steps[..j]), steps[j]).effects
            && forall k :: j < k <= |steps| ==> IsDraftOf(Run(c, steps[..k]), id)
  {
    var j := LastAssignment(c, steps);
    DraftSentOfDraft(Run(c, steps), step, id);
    EveryRunIsConsistent(c, steps);
    EnvelopeHistory(c, steps);
    LastAssignmentIsLast(c, steps);
    StaysDraftSince(c, steps);
    AssignmentCreatesEnvelope(Run(c, steps[..j]), steps[j]);
  }

  lemma DraftSentOfDraft(c: Contract, step: Step, id: string)
    requires DraftSent(id) in Take(c, step).effects
    ensures c.contractStatus == Draft && c.referenceId == id
  {
  }

  lemma AssignmentCreatesEnvelope(c: Contract, step: Step)
    requires AssignsEnvelope(c, step) && IsPreview(step) && AssignedEnvelope(step) != ""
    ensures EnvelopeCreated(AssignedEnvelope(step), true) in Take(c, step).effects
  {
  }

  predicate IsDraftOf(c: Contract, id: string) {
    c.contractStatus == Draft && c.referenceId == id
  }

  /** A draft has been one, with the same envelope, ever since its preview. */
  lemma StaysDraftSince(c: Contract, steps: seq<Step>)
    requires c.contractStatus == Initiated
    requires Run(c, steps).contractStatus == Draft
    ensures forall k :: LastAssignment(c, steps) < k <= |steps| ==>
              IsDraftOf(Run(c, steps[..k]), Run(c, steps).referenceId)
  {
    forall k | LastAssignment(c, steps) < k <= |steps|
      ensures IsDraftOf(Run(c, steps[..k]), Run(c, steps).referenceId)
    {
      WasDraftAt(c, steps, k);
    }
  }

  lemma {:induction false} WasDraftAt(c: Contract, steps: seq<Step>, k: nat)
    requires c.contractStatus == Initiated
    requires Run(c, steps).contractStatus == Draft && LastAssignment(c, steps) < k <= |steps|
    ensures IsDraftOf(Run(c, steps[..k]), Run(c, steps).referenceId)
  {
    if k == |steps| {
      assert steps[..k] == steps;
    } else {
      OtherStepsKeepEnvelope(Run(c, Init(steps)), Last(steps));
      WasDraftAt(c, Init(steps), k);
      assert Init(steps)[..k] == steps[..k];
    }
  }

  // ---------------------------------------------------------------- voided contracts

  /** The only two calls that never look whether the contract was voided. */
  predicate Revives(c: Contract, step: Step) {
    match step
    case WetSignStep(ctx) =>
      && ctx.opportunityFound && ctx.contactFound
      && (exists i :: 0 <= i < |c.signerDetails| && c.signerDetails[i].role == FINANCIER)
      && ctx.envelope.Some? && ctx.envelope.value.status == "sent" && ctx.envelope.value.envelopeId != ""
    case CallbackStep(events, completed, quote) =>
      && completed
      && !(quote.NoSnapshot? && exists j :: 0 <= j < |events| && SignsPrimaryOwner(c.signerDetails, events[j]))
    case _ => false
  }

  /** A voided contract comes back to life exactly through a successful wet signature or completion callback. */
  lemma VoidedIsLeftExactly(c: Contract, step: Step)
    requires c.contractStatus == Voided
    ensures Take(c, step).contract.contractStatus != Voided <==> Revives(c, step)
  {
    match step
    case WetSignStep(_) =>
      var i := FindIndex(c.signerDetails, HasRole(FINANCIER));
      assert i >= 0 ==> c.signerDetails[i].role == FINANCIER;
    case CallbackStep(events, completed, quote) =>
      CallbackFailsExactly(c, events, completed, quote);
    case _ =>
  }

  lemma {:induction false} RunKeepsVoided(c: Contract, steps: seq<Step>)
    requires c.contractStatus == Voided
    requires forall k :: 0 <= k < |steps| ==> !Revives(Run(c, steps[..k]), steps[k])
    ensures Run(c, steps).contractStatus == Voided
  {
    if steps != [] {
      var n := |steps| - 1;
      assert steps[..n] == Init(steps);
      forall k | 0 <= k < n
        ensures Init(steps)[..k] == steps[..k]
      {
      }
      RunKeepsVoided(c, Init(steps));
      VoidedIsLeftExactly(Run(c, Init(steps)), Last(steps));
    }
  }

  /** So preview, send, resend, rename, change-order update and void alone can never leave VOIDED. */
  lemma {:induction false} OrdinaryCallsKeepVoided(c: Contract, steps: seq<Step>)
    requires c.contractStatus == Voided
    requires forall k :: 0 <= k < |steps| ==> !steps[k].WetSignStep? && !steps[k].CallbackStep?
    ensures Run(c, steps) == c
  {
    if steps != [] {
      OrdinaryCallsKeepVoided(c, Init(steps));
    }
  }

  // ---------------------------------------------------------------- completed contracts

  /**
    The calls that never look whether the contract was completed: a void, a wet signature, and a preview or send
    that is not refused and gets an answer from DocuSign, except a send of a contract without signers.
   */
  predicate Reopens(c: Contract, step: Step) {
    match step
    case VoidStep(_) => true
    case WetSignStep(_) => Revives(c, step)
    case SendStep(isDraft, ctx) =>
      && Refusal(c, ctx).None? && !Response(c, ctx).Threw?
      && (isDraft || Response(c, ctx).Failure? || c.signerDetails != [])
    case _ => false
  }

  /** COMPLETED is left exactly through one of these. */
  lemma CompletedIsLeftExactly(c: Contract, step: Step)
    requires c.contractStatus == Completed
    ensures Take(c, step).contract.contractStatus != Completed <==> Reopens(c, step)
  {
    if step.WetSignStep? {
      var i := FindIndex(c.signerDetails, HasRole(FINANCIER));
      assert i >= 0 ==> c.signerDetails[i].role == FINANCIER;
    }
  }

  lemma {:induction false} RunKeepsCompleted(c: Contract, steps: seq<Step>)
    requires c.contractStatus == Completed
    requires forall k :: 0 <= k < |steps| ==> !Reopens(Run(c, steps[..k]), steps[k])
    ensures Run(c, steps).contractStatus == Completed
  {
    if steps != [] {
      var n := |steps| - 1;
      assert steps[..n] == Init(steps);
      forall k | 0 <= k < n
        ensures Init(steps)[..k] == steps[..k]
      {
      }
      RunKeepsCompleted(c, Init(steps));
      CompletedIsLeftExactly(Run(c, Init(steps)), Last(steps));
    }
  }

  /** One way it happens: a preview that DocuSign accepts turns a signed contract back into a draft. */
  lemma CompletedIsNotFinal(c: Contract, ctx: SendContext, id: string)
    requires c.contractStatus == Completed && c.name != ""
    requires Refusal(c, ctx).None? && ctx.response == Success(Some(id)) && id != ""
    ensures Run(c, [SendStep(true, ctx)]).contractStatus == Draft
    ensures Run(c, [SendStep(true, ctx)]).signerDetails == c.signerDetails
  {
    assert Init([SendStep(true, ctx)]) == [];
  }

  // ---------------------------------------------------------------- each call, on the fields of its inputs

  /** An envelope is created exactly when nothing the contract, its quote or its people lack stops the call. */
  lemma EnvelopeIsCreatedExactly(c: Contract, isDraft: bool, ctx: SendContext, id: string)
    ensures EnvelopeCreated(id, isDraft) in Take(c, SendStep(isDraft, ctx)).effects <==>
              && c.contractStatus != Voided && c.contractStatus != Draft && c.name != ""
              && ctx.opportunityFound && ctx.quoteFound && ctx.hasHisNumber
              && (ctx.requiresHardCreditApproval ==> Hard in ctx.approvedQualifications)
              && (ctx.requiresSoftCreditApproval ==> Soft in ctx.approvedQualifications)
              && (c.contractType != PrimaryContract ==> ctx.primaryContractFound)
              && ctx.response == Success(Some(id))
    ensures EnvelopeCreated(id, !isDraft) !in Take(c, SendStep(isDraft, ctx)).effects
  {
  }

  /** A draft is released exactly by a send DocuSign accepts, and it is the stored one. */
  lemma DraftIsSentExactly(c: Contract, isDraft: bool, ctx: SendContext, id: string)
    ensures DraftSent(id) in Take(c, SendStep(isDraft, ctx)).effects <==>
              c.contractStatus == Draft && !isDraft && ctx.draftAccepted && id == c.referenceId
    ensures |Take(c, SendStep(isDraft, ctx)).effects| <= 1
  {
  }

  /** Each refusal, in the order they are made. */
  lemma SendIsRefusedExactly(c: Contract, isDraft: bool, ctx: SendContext)
    ensures var reply := Take(c, SendStep(isDraft, ctx)).reply;
            var open := c.contractStatus != Voided && c.contractStatus != Draft;
            var known := open && ctx.opportunityFound && ctx.quoteFound;
            var lacksApproval := (ctx.requiresHardCreditApproval && Hard !in ctx.approvedQualifications)
                                 || (ctx.requiresSoftCreditApproval && Soft !in ctx.approvedQualifications);
            && (reply == Err(AlreadyVoided) <==> c.contractStatus == Voided)
            && (reply == Err(PreviewAlreadyGenerated) <==> c.contractStatus == Draft && isDraft)
            && (reply == Err(OpportunityNotFound) <==> open && !ctx.opportunityFound)
            && (reply == Err(QuoteNotFound) <==> open && ctx.opportunityFound && !ctx.quoteFound)
            && (reply == Err(CreditApprovalRequired) <==> known && lacksApproval)
            && (reply == Err(HisNumberMissing) <==> known && !lacksApproval && !ctx.hasHisNumber)
            && (reply == Err(PrimaryContractNotFound) <==>
                  known && !lacksApproval && ctx.hasHisNumber
                  && c.contractType != PrimaryContract && !ctx.primaryContractFound)
  {
  }

  /** The call reaches DocuSign with a new envelope, all lookups and approvals being there. */
  ghost predicate AsksDocusign(c: Contract, ctx: SendContext) {
    && c.contractStatus != Voided && c.contractStatus != Draft
    && ctx.opportunityFound && ctx.quoteFound && ctx.hasHisNumber
    && (ctx.requiresHardCreditApproval ==> Hard in ctx.approvedQualifications)
    && (ctx.requiresSoftCreditApproval ==> Soft in ctx.approvedQualifications)
    && (c.contractType != PrimaryContract ==> ctx.primaryContractFound)
  }

  /** The first signer is SENT now; nobody else is touched. */
  ghost predicate OnlyFirstSent(before: seq<Signer>, after: seq<Signer>, now: Date) {
    && before != [] && |after| == |before| && after[1..] == before[1..]
    && after[0] == before[0].(signStatus := Some(SignStatus.Sent), sentOn := Some(now))
  }

  /** What a preview or send stores for each answer: ERROR after a failure, nothing when something throws. */
  lemma SendStores(c: Contract, isDraft: bool, ctx: SendContext)
    ensures var after, asks := Take(c, SendStep(isDraft, ctx)).contract, AsksDocusign(c, ctx);
            var id := if ctx.response.Success? then ctx.response.contractingSystemReferenceId.GetOr("") else "";
            var fails := !ctx.response.Threw? && (c.name == "" || ctx.response.Failure? || (isDraft && id == ""));
            var released := c.contractStatus == Draft && !isDraft && ctx.draftAccepted;
            var signs := released || (asks && !ctx.response.Threw? && !fails && !isDraft);
            && (asks && fails ==> after == c.(contractStatus := Errored))
            && (asks && !ctx.response.Threw? && !fails && isDraft ==>
                  after == c.(contractStatus := Draft, referenceId := id))
            && (signs && c.signerDetails != [] ==>
                  && OnlyFirstSent(c.signerDetails, after.signerDetails, ctx.now)
                  && after == c.(contractStatus := InProgress, signerDetails := after.signerDetails,
                                 referenceId := if c.contractStatus == Draft then c.referenceId else id))
            && (signs && c.signerDetails == [] ==> after == c)
            && (!signs && !(asks && !ctx.response.Threw?) ==> after == c)
  {
  }

  /** A wet signature: when it succeeds, and what becomes of every signer. */
  lemma WetSignDoes(c: Contract, ctx: WetSignContext)
    ensures var out := Take(c, WetSignStep(ctx));
            && (out.reply == Ok(Succeeded) <==>
                  && ctx.opportunityFound && ctx.contactFound
                  && (exists i :: 0 <= i < |c.signerDetails| && c.signerDetails[i].role == "Financier")
                  && ctx.envelope.Some? && ctx.envelope.value.status == "sent" && ctx.envelope.value.envelopeId != "")
            && (out.reply != Ok(Succeeded) ==> out.contract == c)
            && out.effects == (
                 if ctx.opportunityFound && ctx.contactFound && ctx.envelope.Some?
                    && exists i :: 0 <= i < |c.signerDetails| && c.signerDetails[i].role == "Financier"
                 then [EnvelopeCreated(ctx.envelope.value.envelopeId, false)] else [])
            && (out.reply == Ok(Succeeded) ==>
                  && |out.contract.signerDetails| == |c.signerDetails|
                  && out.contract == c.(contractStatus := InProgress, referenceId := ctx.envelope.value.envelopeId,
                                        signerDetails := out.contract.signerDetails)
                  && forall i :: 0 <= i < |c.signerDetails| ==>
                       IsWetSigned(c.signerDetails, out.contract.signerDetails[i], i, ctx.now))
  {
    var signers := c.signerDetails;
    var f := FindIndex(signers, HasRole(FINANCIER));
    assert f >= 0 ==> signers[f].role == "Financier";
    assert forall i :: 0 <= i < |signers| && signers[i].role == "Financier" ==> HasRole(FINANCIER)(signers[i]);
  }

  /** The first financier is asked to sign now, others are left, everyone else has signed on paper now. */
  ghost predicate IsWetSigned(before: seq<Signer>, after: Signer, i: nat, now: Date)
    requires i < |before|
  {
    && (before[i].role != "Financier" ==>
          after == before[i].(signStatus := Some(SignStatus.WetSigned), sentOn := Some(now), signedOn := Some(now)))
    && (before[i].role == "Financier" && (forall k :: 0 <= k < i ==> before[k].role != "Financier") ==>
          after == before[i].(signStatus := Some(SignStatus.Sent), sentOn := Some(now)))
    && (before[i].role == "Financier" && (exists k :: 0 <= k < i && before[k].role == "Financier") ==>
          after == before[i])
  }

  /** The remaining calls: resending and voiding at DocuSign, and the one field each of the others may change. */
  lemma OtherCallsDo(c: Contract, accepted: bool, answered: Option<bool>, name: string, id: string)
    ensures var resent, voided := Take(c, ResendStep(answered)), Take(c, VoidStep(accepted));
            var renamed, changed := Take(c, RenameStep(name)), Take(c, UpdateChangeOrderStep);
            && resent.contract == c
            && resent.reply == (if c.referenceId == "" || c.contractStatus == Voided then Err(ResendNotAllowed)
                                else if answered == None then Err(DocusignFailed) else Ok(Resent(answered.value)))
            && (EnvelopeResent(id) in resent.effects <==>
                  id == c.referenceId && id != "" && c.contractStatus != Voided && answered == Some(true))
            && voided.contract == c.(contractStatus := Voided)
            && (EnvelopeVoided(id) in voided.effects <==> id == c.referenceId && id != "" && accepted)
            && renamed.contract == (if c.contractStatus == Initiated && name != "" then c.(name := name) else c)
            && changed.contract == (if c.contractStatus == Initiated then c.(contractType := ChangeOrder) else c)
            && (renamed.reply.Ok? <==> c.contractStatus == Initiated)
            && (changed.reply.Ok? <==> c.contractStatus == Initiated)
  {
  }

  /** A callback replies as it ends and asks nothing of DocuSign; a failing one stores nothing. */
  lemma CallbackStepDoes(c: Contract, events: seq<RecipientEvent>, completed: bool, quote: QuoteLookup)
    ensures var out, r := Take(c, CallbackStep(events, completed, quote)), Callback(c, events, completed, quote);
            && out.effects == []
            && (r.Ok? ==> out.reply == Ok(Succeeded) && out.contract == r.value)
            && (r.Err? ==> out.reply == Err(SnapshotMissing) && out.contract == c)
  {
  }
}

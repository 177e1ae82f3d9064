/** The life of a grid-service contract, driven through its own entry points only. */
module GspLifecycle {
  import opened Common
  import opened Contracts
  import Lifecycle = ContractLifecycle

  datatype GspContext = GspContext(
    gsOpportunityFound: bool,
    draftAccepted: bool,
    response: EnvelopeResponse,
    now: Date)

  /** `saveGSPContract`: how such a contract starts. */
  function SaveGspContract(name: string, signers: seq<Signer>): Contract {
    Contract(GridServicesPacket, name, NotStarted, Some(GspStatus.New), "", signers, None)
  }

  /** `sendGSPContract`, both as generation (`isDraft`) and as send. */
  function SendGspContract(c: Contract, isDraft: bool, ctx: GspContext): Outcome {
    if !ctx.gsOpportunityFound then
      Rejected(c, OpportunityNotFound)
    else if c.contractStatus == Voided then
      Rejected(c, AlreadyVoided)
    else if c.status == Some(AgreementGenerated) then
      if isDraft then Rejected(c, PreviewAlreadyGenerated)
      else if !ctx.draftAccepted then Rejected(c, DocusignFailed)
      else if c.signerDetails == [] then Outcome(Err(NoSigner), c, [DraftSent(c.referenceId)])
      else Outcome(Ok(Succeeded),
                   c.(signerDetails := Lifecycle.FirstSignerSent(c.signerDetails, ctx.now),
                      contractStatus := InProgress,
                      status := Some(SentToPrimaryOwner)),
                   [DraftSent(c.referenceId)])
    else match ctx.response
      case Threw => Rejected(c, DocusignFailed)
      case Failure => Outcome(Ok(Failed), c.(contractStatus := Errored), [])
      case Success(id) =>
        if isDraft && id.GetOr("") == "" then
          Outcome(Ok(Failed), c.(contractStatus := Errored), Lifecycle.CreatedEnvelopes(id, isDraft))
        else if isDraft then
          Outcome(Ok(Succeeded),
                  c.(contractStatus := InProgress, status := Some(AgreementGenerated), referenceId := id.value),
                  Lifecycle.CreatedEnvelopes(id, isDraft))
        else if c.signerDetails == [] then
          Outcome(Err(NoSigner), c, Lifecycle.CreatedEnvelopes(id, isDraft))
        else
          Outcome(Ok(Succeeded),
                  c.(signerDetails := Lifecycle.FirstSignerSent(c.signerDetails, ctx.now),
                     contractStatus := InProgress,
                     status := Some(SentToPrimaryOwner),
                     referenceId := id.GetOr("")),
                  Lifecycle.CreatedEnvelopes(id, isDraft))
  }

  datatype GspStep =
    | SendGspStep(isDraft: bool, send: GspContext)
    | VoidGspStep(voidAccepted: bool)

  function Take(c: Contract, step: GspStep): Outcome {
    match step
    case SendGspStep(isDraft, ctx) => SendGspContract(c, isDraft, ctx)
    case VoidGspStep(accepted) => Lifecycle.Void(c, accepted)
  }

  function Run(c: Contract, steps: seq<GspStep>): Contract {
    if steps == [] then c else Take(Run(c, Init(steps)), Last(steps)).contract
  }

  /**
    What holds at every moment: a generated agreement has an envelope and is in progress or voided, a
    contract sent to its owner was sent to its first signer, and a contract in progress is one of the two.
   */
  ghost predicate Consistent(c: Contract) {
    && (c.status == Some(AgreementGenerated) ==>
          c.referenceId != "" && (c.contractStatus == InProgress || c.contractStatus == Voided))
    && (c.status == Some(SentToPrimaryOwner) ==>
          c.signerDetails != [] && c.signerDetails[0].signStatus == Some(SignStatus.Sent)
          && c.signerDetails[0].sentOn.Some?)
    && (c.contractStatus == InProgress ==>
          c.status == Some(AgreementGenerated) || c.status == Some(SentToPrimaryOwner))
    && c.status.Some? && c.status.value in {GspStatus.New, AgreementGenerated, SentToPrimaryOwner}
  }

  /** What every call keeps. */
  ghost predicate Keeps(before: Contract, after: Contract) {
    Lifecycle.SamePeople(before.signerDetails, after.signerDetails) && (Consistent(before) ==> Consistent(after))
  }

  lemma StepKeeps(c: Contract, step: GspStep)
    ensures Keeps(c, Take(c, step).contract)
  {
  }

  /** Failed generations and sends in between do not matter. */
  lemma {:induction false} EveryRunIsConsistent(name: string, signers: seq<Signer>, steps: seq<GspStep>)
    ensures Consistent(Run(SaveGspContract(name, signers), steps))
  {
    if steps != [] {
      EveryRunIsConsistent(name, signers, Init(steps));
      StepKeeps(Run(SaveGspContract(name, signers), Init(steps)), Last(steps));
    }
  }

  /** The agreement a send releases is the one the last successful generation produced. */
  function LastGenerated(c: Contract, steps: seq<GspStep>): Option<string> {
    if steps == [] then None
    else
      var before, step := Run(c, Init(steps)), Last(steps);
      if step.SendGspStep? && step.isDraft && Take(before, step).reply == Ok(Succeeded)
      then step.send.response.contractingSystemReferenceId
      else LastGenerated(c, Init(steps))
  }

  lemma {:induction false} SendReleasesLastGenerated(name: string, signers: seq<Signer>, steps: seq<GspStep>,
                                                    step: GspStep, id: string)
    requires DraftSent(id) in Take(Run(SaveGspContract(name, signers), steps), step).effects
    ensures LastGenerated(SaveGspContract(name, signers), steps) == Some(id)
  {
    GeneratedIsLast(name, signers, steps);
  }

  lemma {:induction false} GeneratedIsLast(name: string, signers: seq<Signer>, steps: seq<GspStep>)
    ensures var c := SaveGspContract(name, signers);
            Run(c, steps).status == Some(AgreementGenerated) ==>
              LastGenerated(c, steps) == Some(Run(c, steps).referenceId)
  {
    if steps != [] {
      GeneratedIsLast(name, signers, Init(steps));
    }
  }

  /** Unlike an ordinary contract, a grid-service contract stays voided in every run. */
  lemma {:induction false} VoidedIsFinal(c: Contract, steps: seq<GspStep>)
    requires c.contractStatus == Voided
    ensures Run(c, steps) == c
  {
    if steps != [] {
      VoidedIsFinal(c, Init(steps));
    }
  }

  /** ERROR beside a status that still says the agreement was sent. */
  predicate Disagrees(c: Contract) {
    c.contractStatus == Errored && c.status == Some(SentToPrimaryOwner)
  }

  /** A further generation or send of an agreement already sent, which DocuSign does not carry out. */
  predicate FailsRetry(c: Contract, step: GspStep) {
    && step.SendGspStep? && step.send.gsOpportunityFound
    && c.status == Some(SentToPrimaryOwner) && c.contractStatus != Voided
    && (step.send.response.Failure?
        || (step.isDraft && step.send.response.Success?
            && step.send.response.contractingSystemReferenceId.GetOr("") == ""))
  }

  /** The two status fields come to disagree exactly by such a failed retry. */
  lemma DisagreementArisesExactly(c: Contract, step: GspStep)
    requires !Disagrees(c)
    ensures Disagrees(Take(c, step).contract) <==> FailsRetry(c, step)
  {
  }

  /** So in every run they agree unless some retry failed, and they can only disagree after one. */
  lemma {:induction false} DisagreementComesFromRetry(name: string, signers: seq<Signer>, steps: seq<GspStep>)
    ensures Disagrees(Run(SaveGspContract(name, signers), steps)) ==>
              exists n :: 0 <= n < |steps| && FailsRetry(Run(SaveGspContract(name, signers), steps[..n]), steps[n])
  {
    if steps != [] {
      var c := SaveGspContract(name, signers);
      assert steps[..|steps| - 1] == Init(steps);
      DisagreementComesFromRetry(name, signers, Init(steps));
      if Disagrees(Run(c, Init(steps))) {
        var n :| 0 <= n < |steps| - 1 && FailsRetry(Run(c, Init(steps)[..n]), Init(steps)[n]);
        assert Init(steps)[..n] == steps[..n];
      } else {
        DisagreementArisesExactly(Run(c, Init(steps)), Last(steps));
      }
    }
  }

  // ---------------------------------------------------------------- the send, on the fields of its inputs

  /** When an envelope is created and when a generated agreement is released. */
  lemma GspEnvelopesExactly(c: Contract, isDraft: bool, ctx: GspContext, id: string)
    ensures var out := Take(c, SendGspStep(isDraft, ctx));
            var known := ctx.gsOpportunityFound && c.contractStatus != Voided;
            && (EnvelopeCreated(id, isDraft) in out.effects <==>
                  known && c.status != Some(AgreementGenerated) && ctx.response == Success(Some(id)))
            && (DraftSent(id) in out.effects <==>
                  known && c.status == Some(AgreementGenerated) && !isDraft && ctx.draftAccepted && id == c.referenceId)
            && EnvelopeCreated(id, !isDraft) !in out.effects && |out.effects| <= 1
            && (out.reply == Err(OpportunityNotFound) <==> !ctx.gsOpportunityFound)
            && (out.reply == Err(AlreadyVoided) <==> ctx.gsOpportunityFound && c.contractStatus == Voided)
            && (out.reply == Err(PreviewAlreadyGenerated) <==> known && c.status == Some(AgreementGenerated) && isDraft)
  {
  }

  /** What each answer stores. */
  lemma GspSendStores(c: Contract, isDraft: bool, ctx: GspContext)
    ensures var after := Take(c, SendGspStep(isDraft, ctx)).contract;
            var known := ctx.gsOpportunityFound && c.contractStatus != Voided;
            var asks := known && c.status != Some(AgreementGenerated) && !ctx.response.Threw?;
            var releases := known && c.status == Some(AgreementGenerated) && !isDraft && ctx.draftAccepted;
            var id := if ctx.response.Success? then ctx.response.contractingSystemReferenceId.GetOr("") else "";
            var fails := ctx.response.Failure? || (isDraft && id == "");
            var signs := releases || (asks && !fails && !isDraft);
            && (asks && fails ==> after == c.(contractStatus := Errored))
            && (asks && !fails && isDraft ==>
                  after == c.(contractStatus := InProgress, status := Some(AgreementGenerated), referenceId := id))
            && (signs && c.signerDetails != [] ==>
                  && Lifecycle.OnlyFirstSent(c.signerDetails, after.signerDetails, ctx.now)
                  && after == c.(contractStatus := InProgress, status := Some(SentToPrimaryOwner),
                                 signerDetails := after.signerDetails,
                                 referenceId := if releases then c.referenceId else id))
            && (signs && c.signerDetails == [] ==> after == c)
            && (!releases && !asks ==> after == c)
  {
  }
}

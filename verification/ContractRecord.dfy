/**
  The stored contract as an object, with the service calls that assign its fields. Every method is
  proved against the function of `ContractLifecycle`, `GspLifecycle` or `SignerStatus` it implements.
 */
module ContractRecord {
  import opened Common
  import opened Contracts
  import opened SignerStatus
  import Lifecycle = ContractLifecycle
  import Gsp = GspLifecycle

  class Record {
    var contractType: ContractType
    var name: string
    var contractStatus: ProcessStatus
    var status: Option<GspStatus>
    var referenceId: string
    var signerDetails: seq<Signer>
    var projectCompletionDate: Option<Date>

    function View(): Contract
      reads this
    {
      Contract(contractType, name, contractStatus, status, referenceId, signerDetails, projectCompletionDate)
    }

    /** `saveContract` in add mode: the request carries type, name and signers. */
    constructor Ordinary(contractType: ContractType, name: string, signers: seq<Signer>)
      ensures View() == Contract(contractType, name, Initiated, None, "", signers, None)
    {
      this.contractType, this.name, this.signerDetails := contractType, name, signers;
      this.contractStatus, this.status := Initiated, None;
      this.referenceId, this.projectCompletionDate := "", None;
    }

    /** `saveGSPContract` in add mode. */
    constructor GridServices(name: string, signers: seq<Signer>)
      ensures View() == Gsp.SaveGspContract(name, signers)
      ensures View() == Contract(GridServicesPacket, name, NotStarted, Some(GspStatus.New), "", signers, None)
    {
      this.contractType, this.name, this.signerDetails := GridServicesPacket, name, signers;
      this.contractStatus, this.status := NotStarted, Some(GspStatus.New);
      this.referenceId, this.projectCompletionDate := "", None;
    }

    method MarkFirstSignerSent(now: Date)
      requires signerDetails != []
      modifies this`signerDetails
      ensures signerDetails == Lifecycle.FirstSignerSent(old(signerDetails), now)
    {
      var signer := signerDetails[0];
      signer := signer.(sentOn := Some(now));
      signer := signer.(signStatus := Some(SignStatus.Sent));
      signerDetails := signerDetails[0 := signer];
    }

    /** The qualification types the quote requires, collected and then looked up one by one. */
    static method CanGenerateContract(ctx: Lifecycle.SendContext) returns (can: bool)
      ensures can <==> Lifecycle.CreditGate(ctx)
    {
      var required: seq<Lifecycle.QualificationType> := [];
      if ctx.requiresHardCreditApproval {
        required := required + [Lifecycle.Hard];
      }
      if ctx.requiresSoftCreditApproval {
        required := required + [Lifecycle.Soft];
      }
      can := true;
      for i := 0 to |required|
        invariant can <==> forall k :: 0 <= k < i ==> required[k] in ctx.approvedQualifications
      {
        can := can && required[i] in ctx.approvedQualifications;
      }
      assert ctx.requiresHardCreditApproval ==> required[0] == Lifecycle.Hard;
      assert ctx.requiresSoftCreditApproval ==> Last(required) == Lifecycle.Soft;
    }

    method SendContract(isDraft: bool, ctx: Lifecycle.SendContext)
      returns (reply: Result<Reply, ContractError>, effects: seq<Effect>)
      modifies this
      ensures Outcome(reply, View(), effects) == Lifecycle.SendContract(old(View()), isDraft, ctx)
      ensures Lifecycle.Keeps(old(View()), View())
    {
      Lifecycle.StepKeeps(View(), Lifecycle.SendStep(isDraft, ctx));
      effects := [];
      if contractStatus == Voided {
        return Err(AlreadyVoided), effects;
      }
      if contractStatus == Draft {
        if isDraft {
          return Err(PreviewAlreadyGenerated), effects;
        }
        if !ctx.draftAccepted {
          return Err(DocusignFailed), effects;
        }
        effects := effects + [DraftSent(referenceId)];
        if signerDetails == [] {
          return Err(NoSigner), effects;
        }
        MarkFirstSignerSent(ctx.now);
        contractStatus := InProgress;
        return Ok(Succeeded), effects;
      }
      if !ctx.opportunityFound {
        return Err(OpportunityNotFound), effects;
      }
      if !ctx.quoteFound {
        return Err(QuoteNotFound), effects;
      }
      var canGenerateContract := CanGenerateContract(ctx);
      if !canGenerateContract {
        return Err(CreditApprovalRequired), effects;
      }
      if !ctx.hasHisNumber {
        return Err(HisNumberMissing), effects;
      }
      if contractType != PrimaryContract && !ctx.primaryContractFound {
        return Err(PrimaryContractNotFound), effects;
      }
      reply, effects := StoreResponse(isDraft, Lifecycle.Response(View(), ctx), ctx.now);
    }

    /** The end of `sendContract`: what it stores once DocuSign has answered. */
    method StoreResponse(isDraft: bool, response: EnvelopeResponse, now: Date)
      returns (reply: Result<Reply, ContractError>, effects: seq<Effect>)
      modifies this
      ensures Outcome(reply, View(), effects) == Lifecycle.AfterResponse(old(View()), isDraft, response, now)
      ensures Lifecycle.Keeps(old(View()), View())
    {
      Lifecycle.ResponseKeeps(View(), isDraft, response, now);
      effects := [];
      if response.Threw? {
        return Err(DocusignFailed), effects;
      }
      if response.Success? {
        effects := effects + Lifecycle.CreatedEnvelopes(response.contractingSystemReferenceId, isDraft);
      }
      if isDraft {
        if response.Success? && response.contractingSystemReferenceId.GetOr("") != "" {
          contractStatus := Draft;
          referenceId := response.contractingSystemReferenceId.value;
          return Ok(Succeeded), effects;
        }
        contractStatus := Errored;
        return Ok(Failed), effects;
      }
      if response.Success? {
        if signerDetails == [] {
          return Err(NoSigner), effects;
        }
        contractStatus := InProgress;
        MarkFirstSignerSent(now);
        referenceId := response.contractingSystemReferenceId.GetOr("");
        return Ok(Succeeded), effects;
      }
      contractStatus := Errored;
      return Ok(Failed), effects;
    }

    /** The financier is asked to sign, then the loop marks everyone who is not one. */
    static method SendToFinancier(signerDetails: seq<Signer>, financier: nat, now: Date) returns (signers: seq<Signer>)
      requires financier == FindIndex(signerDetails, HasRole(FINANCIER))
      ensures signers == Lifecycle.WetSignedSigners(signerDetails, now)
    {
      signers := signerDetails[financier :=
        signerDetails[financier].(signStatus := Some(SignStatus.Sent), sentOn := Some(now))];
      ghost var sent := signers;
      var i := 0;
      while i < |signers|
        invariant 0 <= i <= |signers| == |signerDetails|
        invariant forall k :: 0 <= k < i ==> signers[k] == Lifecycle.WetSignedSigners(signerDetails, now)[k]
        invariant forall k :: i <= k < |signers| ==> signers[k] == sent[k]
      {
        if signers[i].role != FINANCIER {
          var signer := signers[i];
          signer := signer.(signStatus := Some(SignStatus.WetSigned));
          signer := signer.(signedOn := Some(now));
          signer := signer.(sentOn := Some(now));
          signers := signers[i := signer];
        }
        i := i + 1;
      }
    }

    method SendContractByWetSigned(ctx: Lifecycle.WetSignContext)
      returns (reply: Result<Reply, ContractError>, effects: seq<Effect>)
      modifies this
      ensures Outcome(reply, View(), effects) == Lifecycle.SendWetSigned(old(View()), ctx)
      ensures Lifecycle.Keeps(old(View()), View())
    {
      Lifecycle.StepKeeps(View(), Lifecycle.WetSignStep(ctx));
      effects := [];
      var financier := FindIndex(signerDetails, HasRole(FINANCIER));
      if !ctx.opportunityFound {
        return Err(OpportunityNotFound), effects;
      }
      if financier == -1 {
        return Err(FinancierMissing), effects;
      }
      if !ctx.contactFound {
        return Err(ContactNotFound), effects;
      }
      if ctx.envelope.None? {
        return Err(DocusignFailed), effects;
      }
      var envelope := ctx.envelope.value;
      effects := [EnvelopeCreated(envelope.envelopeId, false)];
      if envelope.status != "sent" || envelope.envelopeId == "" {
        return Err(EnvelopeNotSent), effects;
      }
      var signers := SendToFinancier(signerDetails, financier, ctx.now);
      contractStatus := InProgress;
      referenceId := envelope.envelopeId;
      signerDetails := signers;
      reply := Ok(Succeeded);
    }

    /** The assignments one event makes to the signer it is routed to. */
    static method AssignEvent(signers: seq<Signer>, e: RecipientEvent) returns (after: seq<Signer>)
      ensures after == SignersWith(signers, e)
    {
      after := signers;
      var idx := FindIndex(signers, HasEmail(e.email));
      if idx == -1 {
        return;
      }
      if e.status == RecipientSent {
        after := after[idx := after[idx].(signStatus := Some(SignStatus.Sent))];
        after := after[idx := after[idx].(sentOn := Some(e.date))];
      }
      if e.status == RecipientSigned {
        after := after[idx := after[idx].(signStatus := Some(SignStatus.Signed))];
        after := after[idx := after[idx].(signedOn := Some(e.date))];
      }
    }

    /** The loop over the events, on the lean copy of the record the source works on. */
    static method ApplyEvents(before: Contract, events: seq<RecipientEvent>, quote: QuoteLookup)
      returns (applied: bool, signers: seq<Signer>, completion: Option<Date>)
      ensures applied <==> !(quote.NoSnapshot? && LastOn(before.signerDetails, CompletionDate, events) >= 0)
      ensures applied ==> signers == SignersAfter(before.signerDetails, events)
      ensures applied ==>
                completion == CompletionDateAfter(before.signerDetails, before.projectCompletionDate, events, quote)
    {
      signers, completion := before.signerDetails, before.projectCompletionDate;
      for n := 0 to |events|
        invariant signers == SignersAfter(before.signerDetails, events[..n])
        invariant completion
               == CompletionDateAfter(before.signerDetails, before.projectCompletionDate, events[..n], quote)
        invariant quote.NoSnapshot? ==> LastOn(before.signerDetails, CompletionDate, events[..n]) < 0
      {
        var e := events[n];
        assert events[..n + 1] == events[..n] + [e];
        OneMoreEvent(before.signerDetails, events[..n], e);
        LastOnOneMore(before.signerDetails, CompletionDate, events[..n], e);
        CompletionDateOneMore(before.signerDetails, before.projectCompletionDate, events[..n], e, quote);
        SignersAfterKeepRouting(before.signerDetails, events[..n]);
        RoutingIsStable(before.signerDetails, signers, CompletionDate, e);
        var signsPrimaryOwner := Concerns(signers, CompletionDate, e);
        signers := AssignEvent(signers, e);
        if signsPrimaryOwner {
          if quote.NoSnapshot? {
            LastOnIsLast(before.signerDetails, CompletionDate, events);
            return false, signers, completion;
          }
          completion := Some(e.date + OffsetDays(quote) * MILLISECONDS_PER_DAY);
        }
      }
      assert events[..|events|] == events;
      applied := true;
    }

    /** The copy is written back at the end, unless the loop throws. */
    method UpdateByDocusign(events: seq<RecipientEvent>, overallCompleted: bool, quote: QuoteLookup)
      returns (reply: Result<Reply, ContractError>)
      modifies this
      ensures Outcome(reply, View(), []) == Lifecycle.ReceiveEvents(old(View()), events, overallCompleted, quote)
      ensures Lifecycle.Keeps(old(View()), View())
    {
      Lifecycle.StepKeeps(View(), Lifecycle.CallbackStep(events, overallCompleted, quote));
      var applied, signers, completion := ApplyEvents(View(), events, quote);
      if !applied {
        return Err(SnapshotMissing);
      }
      signerDetails, projectCompletionDate := signers, completion;
      if overallCompleted {
        contractStatus := Completed;
      }
      reply := Ok(Succeeded);
    }

    method ResendContract(accepted: Option<bool>) returns (reply: Result<Reply, ContractError>, effects: seq<Effect>)
      ensures Outcome(reply, View(), effects) == Lifecycle.Resend(View(), accepted)
      ensures effects != [] ==>
                effects == [EnvelopeResent(referenceId)] && referenceId != "" && contractStatus != Voided
    {
      effects := [];
      if referenceId == "" || contractStatus == Voided {
        return Err(ResendNotAllowed), effects;
      }
      if accepted.None? {
        return Err(DocusignFailed), effects;
      }
      if accepted.value {
        effects := [EnvelopeResent(referenceId)];
      }
      reply := Ok(Resent(accepted.value));
    }

    /** Shared by `voidContract` and `voidGSPContract`: a refusal by DocuSign is only logged. */
    method VoidContract(accepted: bool) returns (effects: seq<Effect>)
      modifies this`contractStatus
      ensures Outcome(Ok(Succeeded), View(), effects) == Lifecycle.Void(old(View()), accepted)
      ensures Lifecycle.Keeps(old(View()), View())
    {
      Lifecycle.StepKeeps(View(), Lifecycle.VoidStep(accepted));
      effects := [];
      if referenceId != "" {
        if accepted {
          effects := [EnvelopeVoided(referenceId)];
        }
      }
      contractStatus := Voided;
    }

    method SaveContractUpdate(newName: string) returns (reply: Result<Reply, ContractError>)
      modifies this`name
      ensures Outcome(reply, View(), []) == Lifecycle.Rename(old(View()), newName)
      ensures Lifecycle.Keeps(old(View()), View())
    {
      Lifecycle.StepKeeps(View(), Lifecycle.RenameStep(newName));
      if contractStatus != Initiated {
        return Err(ContractAlreadyInProgress);
      }
      name := if newName != "" then newName else name;
      reply := Ok(Succeeded);
    }

    method SaveChangeOrderUpdate() returns (reply: Result<Reply, ContractError>)
      modifies this`contractType
      ensures Outcome(reply, View(), []) == Lifecycle.UpdateChangeOrder(old(View()))
      ensures Lifecycle.Keeps(old(View()), View())
    {
      Lifecycle.StepKeeps(View(), Lifecycle.UpdateChangeOrderStep);
      if contractStatus != Initiated {
        return Err(ContractAlreadyInProgress);
      }
      contractType := ChangeOrder;
      reply := Ok(Succeeded);
    }

    method SendGspContract(isDraft: bool, ctx: Gsp.GspContext)
      returns (reply: Result<Reply, ContractError>, effects: seq<Effect>)
      modifies this
      ensures Outcome(reply, View(), effects) == Gsp.SendGspContract(old(View()), isDraft, ctx)
      ensures Gsp.Keeps(old(View()), View())
    {
      Gsp.StepKeeps(View(), Gsp.SendGspStep(isDraft, ctx));
      effects := [];
      if !ctx.gsOpportunityFound {
        return Err(OpportunityNotFound), effects;
      }
      if contractStatus == Voided {
        return Err(AlreadyVoided), effects;
      }
      if status == Some(AgreementGenerated) {
        if isDraft {
          return Err(PreviewAlreadyGenerated), effects;
        }
        if !ctx.draftAccepted {
          return Err(DocusignFailed), effects;
        }
        effects := effects + [DraftSent(referenceId)];
        if signerDetails == [] {
          return Err(NoSigner), effects;
        }
        MarkFirstSignerSent(ctx.now);
        contractStatus := InProgress;
        status := Some(SentToPrimaryOwner);
        return Ok(Succeeded), effects;
      }
      if ctx.response.Threw? {
        return Err(DocusignFailed), effects;
      }
      if ctx.response.Success? {
        effects := effects + Lifecycle.CreatedEnvelopes(ctx.response.contractingSystemReferenceId, isDraft);
      }
      if isDraft {
        if ctx.response.Success? && ctx.response.contractingSystemReferenceId.GetOr("") != "" {
          contractStatus := InProgress;
          status := Some(AgreementGenerated);
          referenceId := ctx.response.contractingSystemReferenceId.value;
          return Ok(Succeeded), effects;
        }
        contractStatus := Errored;
        return Ok(Failed), effects;
      }
      if ctx.response.Success? {
        if signerDetails == [] {
          return Err(NoSigner), effects;
        }
        contractStatus := InProgress;
        status := Some(SentToPrimaryOwner);
        MarkFirstSignerSent(ctx.now);
        referenceId := ctx.response.contractingSystemReferenceId.GetOr("");
        return Ok(Succeeded), effects;
      }
      contractStatus := Errored;
      return Ok(Failed), effects;
    }
  }
}

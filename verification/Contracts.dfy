/** The stored contract record and its vocabulary (src/contracts/constants.ts, contract.schema.ts). */
module Contracts {
  import opened Common

  /** Milliseconds since the epoch, as `Date.prototype.getTime` gives them. */
  type Date = int

  const MILLISECONDS_PER_DAY := 86_400_000

  datatype ContractType = PrimaryContract | GridServicesPacket | ChangeOrder | NoCostChangeOrder

  datatype SignStatus = Sent | Signed | WetSigned

  datatype ProcessStatus = Initiated | NotStarted | InProgress | Completed | Errored | Draft | Voided

  /** The second status field, which only grid-service contracts use. */
  datatype GspStatus = New | AgreementGenerated | SentToPrimaryOwner | SentToFinancier | GspSigned

  const PRIMARY_OWNER := "Primary Owner"
  const FINANCIER := "Financier"

  datatype Signer = Signer(
    roleId: string,
    role: string,
    fullName: string,
    email: string,
    signStatus: Option<SignStatus>,
    sentOn: Option<Date>,
    signedOn: Option<Date>)

  datatype Contract = Contract(
    contractType: ContractType,
    name: string,
    contractStatus: ProcessStatus,
    status: Option<GspStatus>,
    referenceId: string,
    signerDetails: seq<Signer>,
    projectCompletionDate: Option<Date>)

  datatype ContractError =
    | AlreadyVoided
    | PreviewAlreadyGenerated
    | ContractAlreadyInProgress
    | DocusignFailed
    | NoSigner
    | OpportunityNotFound
    | QuoteNotFound
    | CreditApprovalRequired
    | HisNumberMissing
    | PrimaryContractNotFound
    | FinancierMissing
    | ContactNotFound
    | EnvelopeNotSent
    | ResendNotAllowed
    | SnapshotMissing

  /** What DocuSign did for a step, in order. */
  datatype Effect =
    | EnvelopeCreated(envelopeId: string, isDraft: bool)
    | DraftSent(envelopeId: string)
    | EnvelopeResent(envelopeId: string)
    | EnvelopeVoided(envelopeId: string)

  datatype Reply = Succeeded | Failed | Resent(success: bool)

  /** What one service call leaves behind: its reply, the stored record and DocuSign's side. */
  datatype Outcome = Outcome(reply: Result<Reply, ContractError>, contract: Contract, effects: seq<Effect>)

  /** A call that throws before anything happened. */
  function Rejected(c: Contract, error: ContractError): Outcome {
    Outcome(Err(error), c, [])
  }

  /** The answer of `sendContractToDocusign` and its grid-service twin. */
  datatype EnvelopeResponse =
    | Threw
    | Failure
    | Success(contractingSystemReferenceId: Option<string>)

  /** What the service looks signers up by, with `findIndex` or `find`. */
  function HasEmail(email: string): Signer -> bool {
    (s: Signer) => s.email == email
  }

  function HasRole(role: string): Signer -> bool {
    (s: Signer) => s.role == role
  }

  function HasRoleId(roleId: string): Signer -> bool {
    (s: Signer) => s.roleId == roleId
  }
}

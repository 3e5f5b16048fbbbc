/** The records Ambit keeps, and its whole state as a value. */
module Domain {
  import opened Core
  import opened AuditLogs
  import opened CircuitBreakers
  import opened AnomalyDetectors

  /** A salted scrypt hash, opaque but for verification (src/passwordHash.ts). */
  datatype SecretHash = SecretHash(salt: string, secret: string)

  function HashPassword(plaintext: string, salt: string): SecretHash {
    SecretHash(salt, plaintext)
  }

  predicate VerifyPassword(plaintext: string, stored: SecretHash) {
    stored.secret == plaintext
  }

  datatype TokenStatus = Active | Revoked

  datatype RevocationReason = Compromised | NoLongerNeeded | PolicyViolation | Superseded | ParentRevoked

  datatype Token = Token(
    id: string,
    subject: string,
    scope: seq<string>,
    issuedAt: int,
    expiresAt: int,
    status: TokenStatus,
    parentTokenId: Option<string>,
    revokedAt: Option<int>,
    revocationReason: Option<RevocationReason>,
    secretHash: SecretHash)

  datatype RequestStatus = Pending | Approved | Denied

  datatype Request = Request(
    id: string,
    subject: string,
    scope: seq<string>,
    ttlSeconds: int,
    status: RequestStatus,
    requestedAt: int,
    tokenId: Option<string>,
    tokenSecret: Option<string>,
    idempotencyKey: Option<string>,
    assignedApprover: Option<string>)

  datatype Policy = Policy(
    id: string,
    name: string,
    allowedScope: seq<string>,
    maxTtlSeconds: int,
    authoredBy: string,
    createdAt: int,
    updatedAt: int)

  /** Every store of one server process, with the breaker they share. */
  datatype Sys = Sys(
    tokens: JsMap<Token>,
    requests: JsMap<Request>,
    policies: JsMap<Policy>,
    log: seq<Recorded>,
    breaker: Breaker,
    detector: Detector)

  ghost predicate Stores(s: Sys) {
    s.tokens.Valid() && s.requests.Valid() && s.policies.Valid()
  }

  datatype DomainError =
    | InvalidScope | InvalidTtl
    | PolicyNotFound | ScopeExceedsPolicy | TtlExceedsPolicy
    | CircuitOpen
    | UnknownRequest | RequestNotPending | UnauthorizedDecider
    | WrongSubject | RequestNotApproved | SecretAlreadyClaimed
    | UnknownToken
    | InvalidPolicy | UnknownPolicy

  datatype Enforcement = Allow | Deny(reason: EnforcementDenial)

  datatype EnforcementDenial =
    | TokenRevoked | Expired | OutOfScope | NoSuchToken | StoreUnavailable | InvalidCredential

  datatype Delegation =
    | Delegated(token: Token, secret: string)
    | Refused(reason: DelegationDenial)
    | Threw(error: DomainError)

  datatype DelegationDenial =
    | ParentInvalid | EmptyScope | ExceedsParentScope | NotNarrower | ParentStoreUnavailable | WrongParentSecret

  datatype DenialReason = ScopeTooBroad | ViolatesPolicy | UnverifiedSubject | DuplicateRequest | Other

  // ---- Reason codes as the log stores them -----------------------------------

  predicate StartsPlainly(s: string) {
    s != "" && !IsSpace(s[0])
  }

  function EnforcementText(r: EnforcementDenial): (text: string)
    ensures StartsPlainly(text)
  {
    match r
    case TokenRevoked => "revoked"
    case Expired => "expired"
    case OutOfScope => "out_of_scope"
    case NoSuchToken => "unknown_token"
    case StoreUnavailable => "store_unavailable"
    case InvalidCredential => "invalid_credential"
  }

  function DelegationText(r: DelegationDenial): (text: string)
    ensures StartsPlainly(text)
  {
    match r
    case ParentInvalid => "parent_invalid"
    case EmptyScope => "empty_scope"
    case ExceedsParentScope => "exceeds_parent_scope"
    case NotNarrower => "not_narrower"
    case ParentStoreUnavailable => "store_unavailable"
    case WrongParentSecret => "invalid_credential"
  }

  function DenialText(r: DenialReason): (text: string)
    ensures StartsPlainly(text)
  {
    match r
    case ScopeTooBroad => "scope_too_broad"
    case ViolatesPolicy => "policy_violation"
    case UnverifiedSubject => "unverified_subject"
    case DuplicateRequest => "duplicate_request"
    case Other => "other"
  }

  function RevocationText(r: RevocationReason): (text: string)
    ensures StartsPlainly(text)
  {
    match r
    case Compromised => "compromised"
    case NoLongerNeeded => "no_longer_needed"
    case PolicyViolation => "policy_violation"
    case Superseded => "superseded"
    case ParentRevoked => "parent_revoked"
  }

  /** The constant part of an issuance error's message. */
  function IssueErrorText(e: DomainError): (text: string)
    ensures StartsPlainly(text)
  {
    match e
    case InvalidScope => "scope must include at least one permission"
    case InvalidTtl => "ttlSeconds must be positive"
    case PolicyNotFound => "unknown policy"
    case ScopeExceedsPolicy => "requested scope exceeds policy"
    case TtlExceedsPolicy => "requested ttlSeconds exceeds policy"
    case _ => "circuit breaker is open"
  }

  function SignalsText(signals: seq<Signal>): string {
    if signals == [Signal.ScopeTooBroad, HighVelocity] then "scope_too_broad,high_velocity"
    else if signals == [HighVelocity] then "high_velocity"
    else "scope_too_broad"
  }

  const NOT_ASSIGNED := "not_assigned_approver"
  const WRONG_SUBJECT := "wrong_subject"

  function PlainEvent(decision: Decision, action: string, subject: string): Event {
    Event(decision, action, subject, None, None, None, None, None)
  }
}

/**
 How the answer to a commit is read (crates/rizzy-cli/src/error.rs): which answers prove that the
 server did not apply the commit, which ask for a new registration, and which leave the outcome
 open. The commit and signup protocols branch on these predicates only.
 */
module CommitErrors {

  /** The error codes of the HTTP API. */
  datatype ErrorCode =
    | ClientTooOld | ApiVersionGone | InvalidRequest | PayloadTooLarge | Unauthorized
    | SecondFactorRequired | FreshSessionRequired | RateLimitedCode | NotFound | StateConflict
    | StaleEpoch | RecordConflict | PrevSeqMismatch | SetupRetired | CredentialsStale | Internal
    | Unknown

  /** Why a command failed; only the payloads the classification reads are kept. */
  datatype CliError =
    | Usage | Client | Server(code: ErrorCode) | RateLimited | BadAnswer | Network
    | InsecureOrigin | Tls | Io | FileExists | InUse | Database | NotEnrolled | SeveralAccounts
    | AlreadyEnrolled | NoTerminal | InputEnded | AlarmRaised | Import | BadInput

  /** An answer that excludes that the commit was applied. */
  predicate RefusesCommit(e: CliError) {
    e.Server? &&
    match e.code
    case InvalidRequest | Unauthorized | SecondFactorRequired | FreshSessionRequired => true
    case StateConflict | StaleEpoch | RecordConflict | PrevSeqMismatch => true
    case PayloadTooLarge | NotFound | ClientTooOld | ApiVersionGone => true
    case _ => false
  }

  /** An answer that asks for another registration; the saved record stays. */
  predicate RestartsRegistration(e: CliError) {
    e == Server(SetupRetired)
  }

  /** Nothing says whether the server applied the commit. */
  predicate OutcomeUnknown(e: CliError) {
    e == Network || e == BadAnswer || e == Server(Internal) || e == Server(Unknown)
  }

  /** The three readings exclude each other, and only a parsed API error is ever a refusal. */
  lemma ReadingsExcludeEachOther(e: CliError)
    ensures !(RefusesCommit(e) && OutcomeUnknown(e))
    ensures !(RefusesCommit(e) && RestartsRegistration(e))
    ensures !(RestartsRegistration(e) && OutcomeUnknown(e))
    ensures RefusesCommit(e) ==> e.Server?
    ensures e.Server? ==>
              (RefusesCommit(e) || RestartsRegistration(e) || OutcomeUnknown(e)
               <==> e.code != RateLimitedCode && e.code != CredentialsStale)
  {
  }
}

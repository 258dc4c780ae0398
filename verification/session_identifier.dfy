/**
 * The `SessionIdentifier` value object: who submits a rating, by session id,
 * user id or IP address. Absent and empty strings are both "not provided".
 */
module SessionIds {
  import opened Wrappers
  import opened JsNumber

  /** Build it only through `NewSessionIdentifier`. */
  datatype SessionIdentifier = SessionIdentifier(sessionId: Option<string>, userId: Option<string>, ipAddress: Option<string>) {

    function GetSessionId(): Option<string> {
      sessionId
    }

    function GetUserId(): Option<string> {
      userId
    }

    function GetIpAddress(): Option<string> {
      ipAddress
    }
  }

  /** The error the constructor throws: 'At least one identifier must be provided'. */
  datatype IdentityError = NoIdentifierProvided

  /** The constructor: it throws exactly when all three identifiers are falsy. */
  function NewSessionIdentifier(sessionId: Option<string>, userId: Option<string>, ipAddress: Option<string>)
    : (r: Result<SessionIdentifier, IdentityError>)
    ensures r.Failure? <==> !TruthyText(sessionId) && !TruthyText(userId) && !TruthyText(ipAddress)
    ensures r.Success? ==>
      && r.value.GetSessionId() == sessionId
      && r.value.GetUserId() == userId
      && r.value.GetIpAddress() == ipAddress
  {
    if !TruthyText(sessionId) && !TruthyText(userId) && !TruthyText(ipAddress) then
      Failure(NoIdentifierProvided)
    else
      Success(SessionIdentifier(sessionId, userId, ipAddress))
  }

  /** `isDuplicate`: the same non-empty session id, or the same non-empty user id. */
  predicate IsDuplicate(a: SessionIdentifier, b: SessionIdentifier) {
    || (TruthyText(a.sessionId) && a.sessionId == b.sessionId)
    || (TruthyText(a.userId) && a.userId == b.userId)
  }

  /** An identifier that carries only an IP address is never a duplicate of anything. */
  predicate IpOnly(a: SessionIdentifier) {
    !TruthyText(a.sessionId) && !TruthyText(a.userId)
  }

  /** `isDuplicate` is symmetric; a shared IP address alone never makes a duplicate. */
  lemma DuplicateSymmetric(a: SessionIdentifier, b: SessionIdentifier)
    ensures IsDuplicate(a, b) <==> IsDuplicate(b, a)
    ensures IpOnly(a) ==> !IsDuplicate(a, b) && !IsDuplicate(b, a)
  {
  }

  /** An identifier is a duplicate of itself exactly when it has a session id or a user id. */
  lemma DuplicateReflexiveIffKeyed(a: SessionIdentifier)
    ensures IsDuplicate(a, a) <==> !IpOnly(a)
  {
  }
}

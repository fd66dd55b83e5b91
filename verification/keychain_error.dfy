/** The error type every adapter throws, and the two status guards the
    adapters apply to a store's result code. */
module KeychainErrors {
  import opened SecStatus
  import opened Outcomes

  /** The three ways a keychain operation fails. `Unexpected` keeps the
      store's status code unchanged. */
  datatype KeychainError = NotFound | InvalidItemFormat | Unexpected(code: OSStatus)

  /** The guard pair of the writer, reader and updater: a not-found status
      is reported as `NotFound` before the success test, and every other
      non-success status as `Unexpected` with that code. */
  function CheckStatus(status: OSStatus): (r: Outcome<(), KeychainError>)
    ensures r == Thrown(NotFound) <==> status == ItemNotFound
    ensures r == Returned(()) <==> status == Success
    ensures r == Thrown(Unexpected(status)) <==> status != Success && status != ItemNotFound
    ensures r != Thrown(InvalidItemFormat) && !r.Trapped?
  {
    if status == ItemNotFound then Thrown(NotFound)
    else if status != Success then Thrown(Unexpected(status))
    else Returned(())
  }

  /** The single guard of the deleter and the lister: every status other
      than success, not-found included, is reported as `Unexpected`. */
  function CheckSuccess(status: OSStatus): (r: Outcome<(), KeychainError>)
    ensures r == Returned(()) <==> status == Success
    ensures r == Thrown(Unexpected(status)) <==> status != Success
    ensures r != Thrown(NotFound) && r != Thrown(InvalidItemFormat) && !r.Trapped?
  {
    if status != Success then Thrown(Unexpected(status))
    else Returned(())
  }

  /** The two guards disagree on exactly one status: not-found. */
  lemma GuardsDifferOnlyOnNotFound(status: OSStatus)
    ensures CheckSuccess(status) != CheckStatus(status) <==> status == ItemNotFound
    ensures status == ItemNotFound ==>
              CheckStatus(status) == Thrown(NotFound) &&
              CheckSuccess(status) == Thrown(Unexpected(ItemNotFound))
  {
  }

  /** `Unexpected` preserves the code: distinct codes give distinct errors,
      and a caller recovers the exact status from the error. */
  lemma UnexpectedKeepsCode(s1: OSStatus, s2: OSStatus)
    requires s1 != Success && s1 != ItemNotFound
    ensures CheckStatus(s1).error.code == s1
    ensures CheckStatus(s1) == CheckStatus(s2) <==> s1 == s2
  {
  }
}

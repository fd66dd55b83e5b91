/** KeychainReaderAdapter: fetches the secret of one item. This is the one
    Swift adapter that already holds its store call in an injectable field. */
module ReaderAdapter {
  import opened SecStatus
  import opened Outcomes
  import opened KeychainErrors
  import opened SecItem
  import opened Domain

  /** Asks for one match and for the item's data. */
  function ReadQuery(p: ReadParams): (q: Query)
    ensures q == IdentityQuery(p.application, p.identifier)[MatchLimit := MatchOne][ReturnData := Flag(true)]
  {
    map[
      Service := Text(p.application),
      Account := Text(p.identifier),
      Class := GenericPassword,
      MatchLimit := MatchOne,
      ReturnData := Flag(true)
    ]
  }

  /** Reads through `port`. The status is checked first (not-found, then
      success); only on success is the slot inspected, and a slot that
      holds no `Data` is `InvalidItemFormat`. */
  function Read(port: Port, p: ReadParams): (r: Run<ReadResult, KeychainError>)
    ensures |r.calls| == 1 && r.calls[0].ItemCopyMatching? && r.calls[0].wantsResult
    ensures r.calls[0].query.Keys == {Service, Account, Class, MatchLimit, ReturnData}
    ensures r.calls[0].query[Service] == Text(p.application)
    ensures r.calls[0].query[Account] == Text(p.identifier)
    ensures r.calls[0].query[Class] == GenericPassword
    ensures r.calls[0].query[MatchLimit] == MatchOne
    ensures r.calls[0].query[ReturnData] == Flag(true)
    ensures var reply := port(r.calls[0]);
            && (r.outcome == Thrown(NotFound) <==> reply.status == ItemNotFound)
            && (r.outcome == Thrown(Unexpected(reply.status)) <==> reply.status != Success && reply.status != ItemNotFound)
            && (r.outcome == Thrown(InvalidItemFormat) <==> reply.status == Success && !reply.slot.DataItem?)
            && (r.outcome.Returned? <==> reply.status == Success && reply.slot.DataItem?)
            && (r.outcome.Returned? ==> r.outcome.value.secure == reply.slot.bytes)
    ensures !r.outcome.Trapped?
  {
    var call := ItemCopyMatching(ReadQuery(p), true);
    var reply := port(call);
    var outcome :=
      if reply.status == ItemNotFound then Thrown(NotFound)
      else if reply.status != Success then Thrown(Unexpected(reply.status))
      else if !reply.slot.DataItem? then Thrown(InvalidItemFormat)
      else Returned(ReadResult(reply.slot.bytes));
    Run([call], outcome)
  }

  /** A failing status decides the outcome whatever the slot holds: two
      stores that fail with the same status give the same outcome. */
  lemma ReadFailureIgnoresSlot(port1: Port, port2: Port, p: ReadParams)
    requires port1(ItemCopyMatching(ReadQuery(p), true)).status == port2(ItemCopyMatching(ReadQuery(p), true)).status
    requires port1(ItemCopyMatching(ReadQuery(p), true)).status != Success
    ensures Read(port1, p) == Read(port2, p)
  {
  }
}

/** KeychainWritterAdapter: adds a new generic-password item. */
module WriterAdapter {
  import opened SecStatus
  import opened Outcomes
  import opened KeychainErrors
  import opened SecItem
  import opened Domain

  /** The attributes of the new item: its identity plus the secret. */
  function WriteQuery(p: WriteParams): (q: Query)
    ensures q == IdentityQuery(p.application, p.identifier)[ValueData := Bytes(p.secure)]
  {
    map[
      Service := Text(p.application),
      Account := Text(p.identifier),
      Class := GenericPassword,
      ValueData := Bytes(p.secure)
    ]
  }

  /** Adds the item through `port` and translates the status: not-found
      first, then anything but success as `Unexpected`. A duplicate item is
      not special: it is `Unexpected(DuplicateItem)`. */
  function Write(port: Port, p: WriteParams): (r: Run<(), KeychainError>)
    ensures |r.calls| == 1 && r.calls[0].ItemAdd? && !r.calls[0].wantsResult
    ensures r.calls[0].query.Keys == {Service, Account, Class, ValueData}
    ensures r.calls[0].query[Service] == Text(p.application)
    ensures r.calls[0].query[Account] == Text(p.identifier)
    ensures r.calls[0].query[Class] == GenericPassword
    ensures r.calls[0].query[ValueData] == Bytes(p.secure)
    ensures var status := port(r.calls[0]).status;
            && (r.outcome == Thrown(NotFound) <==> status == ItemNotFound)
            && (r.outcome == Returned(()) <==> status == Success)
            && (r.outcome == Thrown(Unexpected(status)) <==> status != Success && status != ItemNotFound)
    ensures r.outcome != Thrown(InvalidItemFormat) && !r.outcome.Trapped?
  {
    var call := ItemAdd(WriteQuery(p), false);
    var reply := port(call);
    Run([call], CheckStatus(reply.status))
  }

  /** Only the status matters: two stores that answer the add with the
      same status give the same outcome, whatever they leave in the slot. */
  lemma WriteDependsOnlyOnStatus(port1: Port, port2: Port, p: WriteParams)
    requires port1(ItemAdd(WriteQuery(p), false)).status == port2(ItemAdd(WriteQuery(p), false)).status
    ensures Write(port1, p) == Write(port2, p)
  {
  }
}
